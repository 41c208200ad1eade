/** A VM's settings in memory and in the VmConfig table: creating, updating and deleting
    VMs, and what a restart rebuilds (AdminVirtualMachine.hpp, CollabVmServer.hpp,
    Database.h, Database.cpp). */
module Settings {
  import opened Wrappers

  datatype Value = Flag(on: bool) | Amount(n: nat) | Other(data: string)

  /** A union value: which field is set, and to what. */
  datatype Setting = Setting(which: nat, value: Value)

  /** The union's fields with their defaults, and the four that validation looks at. */
  datatype Schema = Schema(
    defaults: seq<Value>,
    turnsEnabled: nat, turnTime: nat, votesEnabled: nat, voteTime: nat)

  ghost predicate WellFormed(c: Schema) {
    && c.turnsEnabled < |c.defaults| && c.turnTime < |c.defaults|
    && c.votesEnabled < |c.defaults| && c.voteTime < |c.defaults|
  }

  type Key = (nat, nat)

  const U32_MODULUS: nat := 0x1_0000_0000

  // --------------------------------------------------------- lists of settings

  predicate InSchema(c: Schema, l: seq<Setting>) {
    forall i :: 0 <= i < |l| ==> l[i].which < |c.defaults|
  }

  predicate Increasing(l: seq<Setting>) {
    forall i, j :: 0 <= i < j < |l| ==> l[i].which < l[j].which
  }

  /** One entry per field, entry i for field i. */
  predicate Indexed(c: Schema, l: seq<Setting>) {
    |l| == |c.defaults| && forall i :: 0 <= i < |l| ==> l[i].which == i
  }

  /** The first entry for a field, as `find_if` finds it. */
  function First(l: seq<Setting>, field: nat): Option<Value> {
    if l == [] then None
    else if l[0].which == field then Some(l[0].value)
    else First(l[1..], field)
  }

  function Last(l: seq<Setting>, field: nat): Option<Value> {
    if l == [] then None
    else if l[|l| - 1].which == field then Some(l[|l| - 1].value)
    else Last(l[..|l| - 1], field)
  }

  /** The first entry for the field, if any, is worth the same as the last. */
  predicate Unambiguous(l: seq<Setting>, field: nat) {
    First(l, field) == Last(l, field)
  }

  function GetOr(o: Option<Value>, default: Value): Value {
    if o.Some? then o.value else default
  }

  /** Field by field the listed value, or else the default. */
  function Completed(c: Schema, l: seq<Setting>): seq<Setting> {
    seq(|c.defaults|, i requires 0 <= i < |c.defaults| =>
      Setting(i, GetOr(First(l, i), c.defaults[i])))
  }

  function Skip(l: seq<Setting>, current: nat, field: nat): (r: nat)
    requires current <= |l|
    ensures current <= r <= |l|
    decreases |l| - current
  {
    if current < |l| && l[current].which < field then Skip(l, current + 1, field) else current
  }

  /** The fields from `i` on, filled from the entries from `current` on in one pass. */
  function Merged(c: Schema, l: seq<Setting>, i: nat, current: nat): (r: seq<Setting>)
    requires i <= |c.defaults| && current <= |l|
    ensures |r| == |c.defaults| - i && forall j :: 0 <= j < |r| ==> r[j].which == i + j
    decreases |c.defaults| - i
  {
    if i == |c.defaults| then []
    else
      var next := Skip(l, current, i);
      var found := next < |l| && l[next].which == i;
      [Setting(i, if found then l[next].value else c.defaults[i])] + Merged(c, l, i + 1, next)
  }

  /** One round of that pass. */
  lemma MergedOne(c: Schema, l: seq<Setting>, i: nat, current: nat, before: seq<Setting>)
    requires i < |c.defaults| && current <= |l|
    ensures var next := Skip(l, current, i);
            var value := if next < |l| && l[next].which == i then l[next].value else c.defaults[i];
            before + Merged(c, l, i, current) == (before + [Setting(i, value)]) + Merged(c, l, i + 1, next)
  {
  }

  /** The settings a VM starts with: a list of full length is taken over as it is. */
  function InitialSettings(c: Schema, l: seq<Setting>): seq<Setting> {
    if |l| == |c.defaults| then l else Merged(c, l, 0, 0)
  }

  /** Field by field the first update, or else the old value. */
  function Updated(current: seq<Setting>, updates: seq<Setting>): seq<Setting> {
    seq(|current|, i requires 0 <= i < |current| =>
      Setting(i, GetOr(First(updates, i), current[i].value)))
  }

  lemma {:induction false} IncreasingAtLeast(l: seq<Setting>, i: nat)
    requires Increasing(l) && i < |l|
    ensures l[i].which >= i
  {
    if i > 0 { IncreasingAtLeast(l, i - 1); }
  }

  lemma {:induction false} IncreasingAtMost(c: Schema, l: seq<Setting>, i: nat)
    requires Increasing(l) && InSchema(c, l) && |l| == |c.defaults| && i < |l|
    ensures l[i].which <= i
    decreases |l| - i
  {
    if i + 1 < |l| { IncreasingAtMost(c, l, i + 1); }
  }

  /** Of the full-length lists exactly the increasing ones give settings where entry i is
      field i; a shorter list always does. */
  lemma InitialIndexed(c: Schema, l: seq<Setting>)
    requires InSchema(c, l)
    ensures Indexed(c, InitialSettings(c, l)) <==> (|l| == |c.defaults| ==> Increasing(l))
  {
    if |l| == |c.defaults| && Increasing(l) {
      forall i | 0 <= i < |l| ensures l[i].which == i {
        IncreasingAtLeast(l, i);
        IncreasingAtMost(c, l, i);
      }
    }
  }

  lemma {:induction false} FirstAbsent(l: seq<Setting>, field: nat)
    ensures First(l, field) == None <==> forall i :: 0 <= i < |l| ==> l[i].which != field
  {
    if l != [] {
      FirstAbsent(l[1..], field);
      assert forall i :: 0 < i < |l| ==> l[i] == l[1..][i - 1];
      if First(l, field) != None && l[0].which != field {
        var i :| 0 <= i < |l[1..]| && l[1..][i].which == field;
        assert l[i + 1].which == field;
      }
    }
  }

  lemma {:induction false} LastAbsent(l: seq<Setting>, field: nat)
    ensures Last(l, field) == None <==> First(l, field) == None
  {
    FirstAbsent(l, field);
    if l != [] {
      LastAbsent(l[..|l| - 1], field);
      FirstAbsent(l[..|l| - 1], field);
    }
  }

  /** In a list without repetitions the first entry for a field is also its last. */
  lemma {:induction false} OnceMeansLast(l: seq<Setting>, field: nat)
    requires forall i, j :: 0 <= i < j < |l| ==> l[i].which != l[j].which
    ensures First(l, field) == Last(l, field)
  {
    FirstAbsent(l, field);
    LastAbsent(l, field);
    if First(l, field).Some? {
      var i :| 0 <= i < |l| && l[i].which == field;
      FirstIsAt(l, i);
      LastIsAt(l, i);
    }
  }

  lemma {:induction false} FirstIsAt(l: seq<Setting>, i: nat)
    requires i < |l| && forall j :: 0 <= j < i ==> l[j].which != l[i].which
    ensures First(l, l[i].which) == Some(l[i].value)
  {
    if i > 0 {
      assert l[1..][i - 1] == l[i];
      FirstIsAt(l[1..], i - 1);
    }
  }

  lemma {:induction false} LastIsAt(l: seq<Setting>, i: nat)
    requires i < |l| && forall j :: i < j < |l| ==> l[j].which != l[i].which
    ensures Last(l, l[i].which) == Some(l[i].value)
    decreases |l|
  {
    if i + 1 < |l| { LastIsAt(l[..|l| - 1], i); }
  }

  lemma {:induction false} SkipStops(l: seq<Setting>, current: nat, field: nat)
    requires current <= |l|
    ensures var r := Skip(l, current, field);
            && (forall j :: current <= j < r ==> l[j].which < field)
            && (r < |l| ==> l[r].which >= field)
    decreases |l| - current
  {
    if current < |l| && l[current].which < field { SkipStops(l, current + 1, field); }
  }

  /** One pass over an increasing list misses none of its entries. */
  lemma {:induction false} MergeFindsAll(c: Schema, l: seq<Setting>, i: nat, current: nat)
    requires Increasing(l) && i <= |c.defaults| && current <= |l|
    requires forall j :: 0 <= j < current ==> l[j].which < i
    ensures Merged(c, l, i, current) == Completed(c, l)[i..]
    decreases |c.defaults| - i
  {
    if i < |c.defaults| {
      SkipStops(l, current, i);
      var next := Skip(l, current, i);
      MergeFindsAll(c, l, i + 1, next);
      if next < |l| && l[next].which == i {
        FirstIsAt(l, next);
      } else {
        FirstAbsent(l, i);
        assert forall j :: next < j < |l| ==> l[j].which > l[next].which;
      }
      assert Completed(c, l)[i..] == [Completed(c, l)[i]] + Completed(c, l)[i + 1..];
    }
  }

  /** An increasing list starts a VM with its own values and defaults for the rest. */
  lemma IncreasingListIsKept(c: Schema, l: seq<Setting>)
    requires Increasing(l) && InSchema(c, l)
    ensures InitialSettings(c, l) == Completed(c, l)
  {
    if |l| == |c.defaults| {
      InitialIndexed(c, l);
      forall i | 0 <= i < |l| ensures l[i] == Completed(c, l)[i] {
        FirstIsAt(l, i);
      }
    } else {
      MergeFindsAll(c, l, 0, 0);
    }
  }

  // ---------------------------------------------------------------- validation

  predicate IsOn(v: Value) { v.Flag? && v.on }

  predicate IsPositive(v: Value) { v.Amount? && v.n > 0 }

  predicate Acceptable(c: Schema, l: seq<Setting>)
    requires WellFormed(c) && Indexed(c, l)
  {
    && (!IsOn(l[c.turnsEnabled].value) || IsPositive(l[c.turnTime].value))
    && (!IsOn(l[c.votesEnabled].value) || IsPositive(l[c.voteTime].value))
  }

  // --------------------------------------------------------- the stored rows

  /** The rows after a series of INSERTs, and whether one of them met a row with its key:
      it then throws, the rows before it are there and those after it are not. */
  datatype Insertion = Insertion(rows: map<Key, Value>, failed: bool)

  /** One INSERT for each setting. */
  function InsertRows(rows: map<Key, Value>, id: nat, l: seq<Setting>): Insertion {
    if l == [] then Insertion(rows, false)
    else
      var done := InsertRows(rows, id, l[..|l| - 1]);
      var key := (id, l[|l| - 1].which);
      if done.failed || key in done.rows then done.(failed := true)
      else Insertion(done.rows[key := l[|l| - 1].value], false)
  }

  /** One UPDATE for each setting, which touches only a row that exists. */
  function UpdateRows(rows: map<Key, Value>, id: nat, l: seq<Setting>): map<Key, Value> {
    if l == [] then rows
    else
      var rest := UpdateRows(rows, id, l[..|l| - 1]);
      var key := (id, l[|l| - 1].which);
      if key in rest then rest[key := l[|l| - 1].value] else rest
  }

  function DeleteRows(rows: map<Key, Value>, id: nat): map<Key, Value> {
    map k | k in rows && k.0 != id :: rows[k]
  }

  /** No row of the VM has a listed field yet, and no field is listed twice. */
  predicate Insertable(rows: map<Key, Value>, id: nat, l: seq<Setting>) {
    && (forall i :: 0 <= i < |l| ==> (id, l[i].which) !in rows)
    && (forall i, j :: 0 <= i < j < |l| ==> l[i].which != l[j].which)
  }

  lemma {:induction false} LastNone(l: seq<Setting>, field: nat)
    ensures Last(l, field) == None <==> forall i :: 0 <= i < |l| ==> l[i].which != field
  {
    if l != [] { LastNone(l[..|l| - 1], field); }
  }

  lemma InsertableSnoc(rows: map<Key, Value>, id: nat, l: seq<Setting>)
    requires l != []
    ensures var init, x := l[..|l| - 1], l[|l| - 1].which;
            Insertable(rows, id, l) <==> Insertable(rows, id, init) && (id, x) !in rows && Last(init, x) == None
  {
    LastNone(l[..|l| - 1], l[|l| - 1].which);
  }

  /** Inserting fails exactly when a key is taken or repeated; if it does not, the listed
      settings are there, and in any case every earlier row is. */
  lemma {:induction false} InsertedAt(rows: map<Key, Value>, id: nat, l: seq<Setting>, k: Key)
    ensures var r := InsertRows(rows, id, l);
            var v := if k.0 == id then Last(l, k.1) else None;
            && (r.failed <==> !Insertable(rows, id, l))
            && (k in rows ==> k in r.rows && r.rows[k] == rows[k])
            && (!r.failed ==> (k in r.rows <==> k in rows || v.Some?))
            && (!r.failed && v.Some? ==> r.rows[k] == v.value)
  {
    if l != [] {
      var init, x := l[..|l| - 1], l[|l| - 1].which;
      InsertedAt(rows, id, init, k);
      InsertedAt(rows, id, init, (id, x));
      InsertableSnoc(rows, id, l);
    }
  }

  lemma {:induction false} UpdatedAt(rows: map<Key, Value>, id: nat, l: seq<Setting>, k: Key)
    ensures var r := UpdateRows(rows, id, l);
            && (k in r <==> k in rows)
            && (k in rows ==> r[k] == if k.0 == id then GetOr(Last(l, k.1), rows[k]) else rows[k])
  {
    if l != [] {
      UpdatedAt(rows, id, l[..|l| - 1], k);
      UpdatedAt(rows, id, l[..|l| - 1], (id, l[|l| - 1].which));
    }
  }

  /** `MAX(id) + 1` read into 32 bits, and 1 for an empty table. */
  ghost predicate IsNewId(rows: map<Key, Value>, id: nat) {
    if rows == map[] then id == 1
    else exists k :: k in rows && (forall j :: j in rows ==> j.0 <= k.0)
                     && id == (if (k.0 + 1) % U32_MODULUS > 1 then (k.0 + 1) % U32_MODULUS else 1)
  }

  /** The new id is unused unless the ids have run up to 2^32 - 1 with 1 still in use. */
  lemma NewIdIsFresh(rows: map<Key, Value>, id: nat)
    requires forall k | k in rows :: k.0 < U32_MODULUS
    requires IsNewId(rows, id)
    ensures (forall k | k in rows :: k.0 != id) <==>
            !((exists k :: k in rows && k.0 == U32_MODULUS - 1) && (exists k :: k in rows && k.0 == 1))
  {
    if rows != map[] {
      var m :| m in rows && (forall j :: j in rows ==> j.0 <= m.0)
               && id == (if (m.0 + 1) % U32_MODULUS > 1 then (m.0 + 1) % U32_MODULUS else 1);
      if m.0 == U32_MODULUS - 1 {
        assert id == 1;
      } else if m.0 == 0 {
        assert id == 1;
      }
    }
  }

  // ------------------------------------------------------------ memory and rows

  datatype State = State(live: map<nat, seq<Setting>>, rows: map<Key, Value>)

  datatype Event =
    | Create(id: nat, initial: seq<Setting>)
    | Update(id: nat, updates: seq<Setting>)
    | Delete(id: nat)

  /** Each VM has entry i for field i, and the table has exactly its entries as rows. */
  ghost predicate Agree(c: Schema, s: State) {
    && (forall id | id in s.live :: Indexed(c, s.live[id]))
    && (forall k :: k in s.rows <==> k.0 in s.live && k.1 < |c.defaults|)
    && (forall k | k in s.rows :: s.rows[k] == s.live[k.0][k.1].value)
  }

  /** `emplace` keeps a VM that has the id already; its settings are then inserted again. */
  function CreateVm(c: Schema, s: State, id: nat, initial: seq<Setting>): State {
    var settings := if id in s.live then s.live[id] else InitialSettings(c, initial);
    State(s.live[id := settings], InsertRows(s.rows, id, settings).rows)
  }

  function UpdateVm(c: Schema, s: State, id: nat, updates: seq<Setting>): State
    requires WellFormed(c) && (id in s.live ==> Indexed(c, s.live[id]))
  {
    if id !in s.live then s
    else
      var settings := Updated(s.live[id], updates);
      if Acceptable(c, settings)
      then State(s.live[id := settings], UpdateRows(s.rows, id, updates))
      else s
  }

  function DeleteVm(s: State, id: nat): State {
    if id !in s.live then s else State(s.live - {id}, DeleteRows(s.rows, id))
  }

  ghost predicate Enabled(c: Schema, s: State, e: Event) {
    match e
    case Create(id, initial) =>
      && IsNewId(s.rows, id) && id !in s.live
      && InSchema(c, initial) && (|initial| == |c.defaults| ==> Increasing(initial))
    case Update(id, updates) =>
      forall i, j :: 0 <= i < j < |updates| ==> updates[i].which != updates[j].which
    case Delete(_) => true
  }

  function Step(c: Schema, s: State, e: Event): State
    requires WellFormed(c) && forall id | id in s.live :: Indexed(c, s.live[id])
  {
    match e
    case Create(id, initial) => CreateVm(c, s, id, initial)
    case Update(id, updates) => UpdateVm(c, s, id, updates)
    case Delete(id) => DeleteVm(s, id)
  }

  lemma {:induction false} FailedInsertChangesNothing(rows: map<Key, Value>, id: nat, l: seq<Setting>)
    requires l != [] && (id, l[0].which) in rows
    ensures InsertRows(rows, id, l) == Insertion(rows, true)
    decreases |l|
  {
    if |l| == 1 {
      assert l[..0] == [];
    } else {
      FailedInsertChangesNothing(rows, id, l[..|l| - 1]);
    }
  }

  lemma FreshInsert(c: Schema, s: State, id: nat, settings: seq<Setting>)
    requires Agree(c, s) && id !in s.live && Indexed(c, settings)
    ensures !InsertRows(s.rows, id, settings).failed
    ensures Agree(c, State(s.live[id := settings], InsertRows(s.rows, id, settings).rows))
  {
    var s' := State(s.live[id := settings], InsertRows(s.rows, id, settings).rows);
    InsertedAt(s.rows, id, settings, (id, 0));
    forall k: Key
      ensures k in s'.rows <==> k.0 in s'.live && k.1 < |c.defaults|
      ensures k in s'.rows ==> s'.rows[k] == s'.live[k.0][k.1].value
    {
      InsertedAt(s.rows, id, settings, k);
      LastNone(settings, k.1);
      if k.1 < |c.defaults| { LastIsAt(settings, k.1); }
    }
  }

  /** Creating a VM keeps memory and table in step exactly when its list is not one of full
      length out of order; on an id in use it changes nothing. */
  lemma CreateAgreesIff(c: Schema, s: State, id: nat, initial: seq<Setting>)
    requires WellFormed(c) && Agree(c, s) && InSchema(c, initial)
    ensures Agree(c, CreateVm(c, s, id, initial)) <==>
            id in s.live || (|initial| == |c.defaults| ==> Increasing(initial))
    ensures id in s.live ==> CreateVm(c, s, id, initial) == s
  {
    if id in s.live {
      assert (id, s.live[id][0].which) in s.rows;
      FailedInsertChangesNothing(s.rows, id, s.live[id]);
      assert s.live[id := s.live[id]] == s.live;
    } else {
      InitialIndexed(c, initial);
      var settings := InitialSettings(c, initial);
      if Indexed(c, settings) {
        FreshInsert(c, s, id, settings);
      } else {
        assert CreateVm(c, s, id, initial).live[id] == settings;
      }
    }
  }

  lemma UpdatedRows(c: Schema, s: State, id: nat, updates: seq<Setting>, i: nat)
    requires Agree(c, s) && id in s.live && i < |c.defaults|
    ensures (id, i) in UpdateRows(s.rows, id, updates)
    ensures UpdateRows(s.rows, id, updates)[(id, i)] == GetOr(Last(updates, i), s.live[id][i].value)
  {
    UpdatedAt(s.rows, id, updates, (id, i));
  }

  /** An accepted update keeps memory and table in step exactly when, for every field, the
      first value in the request is also the last. */
  lemma UpdateAgreesIff(c: Schema, s: State, id: nat, updates: seq<Setting>)
    requires WellFormed(c) && Agree(c, s) && id in s.live
    requires Acceptable(c, Updated(s.live[id], updates))
    ensures Agree(c, UpdateVm(c, s, id, updates)) <==>
            forall i :: 0 <= i < |c.defaults| ==> Unambiguous(updates, i)
  {
    var s' := UpdateVm(c, s, id, updates);
    forall k: Key
      ensures k in s'.rows <==> k.0 in s'.live && k.1 < |c.defaults|
      ensures k in s'.rows ==> (s'.rows[k] == s'.live[k.0][k.1].value
                                <==> k.0 != id || Unambiguous(updates, k.1))
    {
      UpdatedAt(s.rows, id, updates, k);
      LastAbsent(updates, k.1);
    }
    forall i | 0 <= i < |c.defaults| ensures (id, i) in s'.rows {
      UpdatedRows(c, s, id, updates, i);
    }
    if Agree(c, s') {
      forall i | 0 <= i < |c.defaults| ensures Unambiguous(updates, i) {
        var k := (id, i);
        assert k in s'.rows;
      }
    }
  }

  lemma UpdateKeepsAgreement(c: Schema, s: State, id: nat, updates: seq<Setting>)
    requires WellFormed(c) && Agree(c, s) && Enabled(c, s, Update(id, updates))
    ensures Agree(c, UpdateVm(c, s, id, updates))
  {
    if id in s.live && Acceptable(c, Updated(s.live[id], updates)) {
      forall i | 0 <= i < |c.defaults| ensures Unambiguous(updates, i) {
        OnceMeansLast(updates, i);
      }
      UpdateAgreesIff(c, s, id, updates);
    }
  }

  lemma AgreeStep(c: Schema, s: State, e: Event)
    requires WellFormed(c) && Agree(c, s) && Enabled(c, s, e)
    ensures Agree(c, Step(c, s, e))
  {
    match e
    case Create(id, initial) => CreateAgreesIff(c, s, id, initial);
    case Update(id, updates) => UpdateKeepsAgreement(c, s, id, updates);
    case Delete(id) =>
  }

  ghost predicate ValidRun(c: Schema, s: State, es: seq<Event>)
    requires WellFormed(c) && Agree(c, s)
    decreases |es|
  {
    es == [] || (Enabled(c, s, es[0]) && (AgreeStep(c, s, es[0]); ValidRun(c, Step(c, s, es[0]), es[1..])))
  }

  ghost function Run(c: Schema, s: State, es: seq<Event>): (r: State)
    requires WellFormed(c) && Agree(c, s) && ValidRun(c, s, es)
    ensures Agree(c, r)
    decreases |es|
  {
    if es == [] then s else
      AgreeStep(c, s, es[0]);
      Run(c, Step(c, s, es[0]), es[1..])
  }

  // ------------------------------------------- settings, from the events alone

  /** If the first field is switched on, the second one is an amount other than zero. */
  predicate Demands(l: seq<Setting>, flag: nat, amount: nat)
    requires flag < |l| && amount < |l|
  {
    l[flag].value == Flag(true) ==> l[amount].value.Amount? && l[amount].value != Amount(0)
  }

  /** Turns are off or have a turn time, votes are off or have a vote time. */
  ghost predicate Meets(c: Schema, l: seq<Setting>)
    requires WellFormed(c) && |l| == |c.defaults|
  {
    Demands(l, c.turnsEnabled, c.turnTime) && Demands(l, c.votesEnabled, c.voteTime)
  }

  lemma AcceptableMeets(c: Schema, l: seq<Setting>)
    requires WellFormed(c) && Indexed(c, l)
    ensures Acceptable(c, l) <==> Meets(c, l)
  {
  }

  /** A request whose outcome meets the demands becomes the VM's settings and goes to the
      table, any other one changes nothing; other VMs are left alone. */
  lemma UpdateOutcome(c: Schema, s: State, id: nat, updates: seq<Setting>)
    requires WellFormed(c) && Agree(c, s) && id in s.live
    ensures var s' := UpdateVm(c, s, id, updates);
            var wanted := Updated(s.live[id], updates);
            && s'.live == (if Meets(c, wanted) then s.live[id := wanted] else s.live)
            && (Meets(c, wanted) <==> id in s'.live && s'.live[id] == wanted && Meets(c, s'.live[id]))
            && (forall i :: 0 <= i < |c.defaults| ==> (id, i) in s'.rows)
            && (forall i :: 0 <= i < |c.defaults| ==>
                  s'.rows[(id, i)] ==
                    if Meets(c, wanted) && Last(updates, i).Some? then Last(updates, i).value else s.rows[(id, i)])
            && (forall k | k in s.rows && k.0 != id :: k in s'.rows && s'.rows[k] == s.rows[k])
  {
    AcceptableMeets(c, Updated(s.live[id], updates));
    forall k | k in s.rows ensures k in UpdateRows(s.rows, id, updates) {
      UpdatedAt(s.rows, id, updates, k);
    }
    forall i | 0 <= i < |c.defaults|
      ensures (id, i) in s.rows && (id, i) in UpdateRows(s.rows, id, updates)
      ensures UpdateRows(s.rows, id, updates)[(id, i)] == GetOr(Last(updates, i), s.rows[(id, i)])
    {
      UpdatedAt(s.rows, id, updates, (id, i));
    }
    forall k | k in s.rows && k.0 != id ensures UpdateRows(s.rows, id, updates)[k] == s.rows[k] {
      UpdatedAt(s.rows, id, updates, k);
    }
  }

  const EMPTY := State(map[], map[])

  function SettingsIn(s: State, id: nat): Option<seq<Setting>> {
    if id in s.live then Some(s.live[id]) else None
  }

  ghost predicate FullLength(c: Schema, settings: Option<seq<Setting>>) {
    settings.Some? ==> |settings.value| == |c.defaults|
  }

  /** What a request makes of one VM's settings: a creation takes its list, an update is taken
      over if it leaves what is demanded, and a deletion takes the VM away. */
  ghost function Outcome(c: Schema, now: Option<seq<Setting>>, e: Event, id: nat): (r: Option<seq<Setting>>)
    requires WellFormed(c) && FullLength(c, now)
    ensures FullLength(c, r)
  {
    match e
    case Create(k, initial) => if k == id then Some(InitialSettings(c, initial)) else now
    case Update(k, updates) =>
      if k == id && now.Some? && Meets(c, Updated(now.value, updates)) then Some(Updated(now.value, updates)) else now
    case Delete(k) => if k == id then None else now
  }

  ghost function SettingsAfter(c: Schema, now: Option<seq<Setting>>, es: seq<Event>, id: nat): (r: Option<seq<Setting>>)
    requires WellFormed(c) && FullLength(c, now)
    ensures FullLength(c, r)
    decreases |es|
  {
    if es == [] then now else SettingsAfter(c, Outcome(c, now, es[0], id), es[1..], id)
  }

  lemma SettingsStep(c: Schema, s: State, e: Event, id: nat)
    requires WellFormed(c) && Agree(c, s) && Enabled(c, s, e)
    ensures SettingsIn(Step(c, s, e), id) == Outcome(c, SettingsIn(s, id), e, id)
  {
    match e
    case Create(k, initial) =>
    case Update(k, updates) => if k in s.live { UpdateOutcome(c, s, k, updates); }
    case Delete(k) =>
  }

  /** For every run: the VMs there are, and their settings, are what the requests add up to. */
  lemma {:induction false} SettingsAreTold(c: Schema, s: State, es: seq<Event>, id: nat)
    requires WellFormed(c) && Agree(c, s) && ValidRun(c, s, es)
    ensures SettingsIn(Run(c, s, es), id) == SettingsAfter(c, SettingsIn(s, id), es, id)
    decreases |es|
  {
    if es != [] {
      AgreeStep(c, s, es[0]);
      SettingsStep(c, s, es[0], id);
      SettingsAreTold(c, Step(c, s, es[0]), es[1..], id);
    }
  }

  /** And so are the rows, from an empty table on. */
  lemma RowsAreTold(c: Schema, es: seq<Event>, id: nat, field: nat)
    requires WellFormed(c) && ValidRun(c, EMPTY, es)
    ensures var rows, settings := Run(c, EMPTY, es).rows, SettingsAfter(c, None, es, id);
            && ((id, field) in rows <==> settings.Some? && field < |c.defaults|)
            && ((id, field) in rows ==> rows[(id, field)] == settings.value[field].value)
  {
    SettingsAreTold(c, EMPTY, es, id);
  }

  /** The list with which a VM was created last. */
  function CreatedWith(c: Schema, before: Option<seq<Setting>>, es: seq<Event>, id: nat): Option<seq<Setting>>
    decreases |es|
  {
    if es == [] then before
    else if es[0].Create? && es[0].id == id
    then CreatedWith(c, Some(InitialSettings(c, es[0].initial)), es[1..], id)
    else CreatedWith(c, before, es[1..], id)
  }

  ghost predicate MeetsOrIs(c: Schema, settings: Option<seq<Setting>>, created: Option<seq<Setting>>)
    requires WellFormed(c) && FullLength(c, settings)
  {
    settings.Some? ==> Meets(c, settings.value) || settings == created
  }

  lemma {:induction false} SettingsMeetOrAreFirst(
      c: Schema, now: Option<seq<Setting>>, created: Option<seq<Setting>>, es: seq<Event>, id: nat)
    requires WellFormed(c) && FullLength(c, now) && MeetsOrIs(c, now, created)
    ensures MeetsOrIs(c, SettingsAfter(c, now, es, id), CreatedWith(c, created, es, id))
    decreases |es|
  {
    if es != [] {
      var created' := if es[0].Create? && es[0].id == id then Some(InitialSettings(c, es[0].initial)) else created;
      SettingsMeetOrAreFirst(c, Outcome(c, now, es[0], id), created', es[1..], id);
    }
  }

  /** Creation asks for nothing; but a VM with turns and no turn time, or votes and no vote
      time, is one whose settings no request has changed since it was created. */
  lemma OnlyCreationIsUnchecked(c: Schema, es: seq<Event>, id: nat)
    requires WellFormed(c) && ValidRun(c, EMPTY, es) && id in Run(c, EMPTY, es).live
    ensures var l := Run(c, EMPTY, es).live[id];
            |l| == |c.defaults| && (Meets(c, l) || CreatedWith(c, None, es, id) == Some(l))
  {
    SettingsAreTold(c, EMPTY, es, id);
    SettingsMeetOrAreFirst(c, None, None, es, id);
  }

  // ------------------------------------------------- instances of the conditions

  /** The settings of a VM that is created with an empty list on an empty table. */
  function NewVm(c: Schema): State {
    CreateVm(c, State(map[], map[]), 1, [])
  }

  lemma NewVmHasDefaults(c: Schema)
    requires WellFormed(c)
    ensures Agree(c, NewVm(c)) && NewVm(c).live == map[1 := Completed(c, [])]
  {
    IncreasingListIsKept(c, []);
    CreateAgreesIff(c, State(map[], map[]), 1, []);
  }

  function SetTwice(field: nat, v: Value, w: Value): seq<Setting> {
    [Setting(field, v), Setting(field, w)]
  }

  lemma TwoValuesDiverge(c: Schema, s: State, id: nat, field: nat, v: Value, w: Value)
    requires WellFormed(c) && Agree(c, s) && id in s.live && field < |c.defaults|
    requires Acceptable(c, Updated(s.live[id], SetTwice(field, v, w)))
    ensures var s' := UpdateVm(c, s, id, SetTwice(field, v, w));
            && id in s'.live && |s'.live[id]| == |c.defaults| && s'.live[id][field] == Setting(field, v)
            && (id, field) in s'.rows && s'.rows[(id, field)] == w
  {
    FirstAndLastOfTwo(field, v, w);
    UpdatedRows(c, s, id, SetTwice(field, v, w), field);
  }

  lemma FirstUpdateDiverges(c: Schema, s: State, field: nat, v: Value, w: Value)
    requires WellFormed(c) && Agree(c, s) && s.live == map[1 := Completed(c, [])]
    requires field < |c.defaults|
    requires field !in {c.turnsEnabled, c.turnTime, c.votesEnabled, c.voteTime}
    requires !IsOn(c.defaults[c.turnsEnabled]) && !IsOn(c.defaults[c.votesEnabled])
    ensures var s' := UpdateVm(c, s, 1, SetTwice(field, v, w));
            && 1 in s'.live && |s'.live[1]| == |c.defaults| && s'.live[1][field] == Setting(field, v)
            && (1, field) in s'.rows && s'.rows[(1, field)] == w
  {
    StaysAcceptable(c, SetTwice(field, v, w), field);
    TwoValuesDiverge(c, s, 1, field, v, w);
  }

  /** A VM is created, and a request sets one of its fields twice: memory keeps the first
      value, the table the last. */
  lemma RepeatedFieldDiverges(c: Schema, field: nat, v: Value, w: Value) returns (s: State, s': State)
    requires WellFormed(c) && field < |c.defaults| && v != w
    requires field !in {c.turnsEnabled, c.turnTime, c.votesEnabled, c.voteTime}
    requires !IsOn(c.defaults[c.turnsEnabled]) && !IsOn(c.defaults[c.votesEnabled])
    ensures s == NewVm(c) && Agree(c, s)
    ensures s' == UpdateVm(c, s, 1, SetTwice(field, v, w))
    ensures 1 in s'.live && |s'.live[1]| == |c.defaults| && s'.live[1][field] == Setting(field, v)
    ensures (1, field) in s'.rows && s'.rows[(1, field)] == w
  {
    NewVmHasDefaults(c);
    s := NewVm(c);
    FirstUpdateDiverges(c, s, field, v, w);
    s' := UpdateVm(c, s, 1, SetTwice(field, v, w));
  }

  lemma FirstAndLastOfTwo(field: nat, v: Value, w: Value)
    ensures First(SetTwice(field, v, w), field) == Some(v) && Last(SetTwice(field, v, w), field) == Some(w)
  {
  }

  lemma StaysAcceptable(c: Schema, updates: seq<Setting>, field: nat)
    requires WellFormed(c) && forall i :: 0 <= i < |updates| ==> updates[i].which == field
    requires field !in {c.turnsEnabled, c.turnTime, c.votesEnabled, c.voteTime}
    requires !IsOn(c.defaults[c.turnsEnabled]) && !IsOn(c.defaults[c.votesEnabled])
    ensures Acceptable(c, Updated(Completed(c, []), updates))
  {
    FirstAbsent(updates, c.turnsEnabled);
    FirstAbsent(updates, c.votesEnabled);
  }

  /** A list of full length that is not sorted is kept as it is: entry 0 is then field 1. */
  lemma UnsortedListIsKept(c: Schema, l: seq<Setting>)
    requires WellFormed(c) && InSchema(c, l) && |l| == |c.defaults| && l[0].which == 1
    ensures var s := CreateVm(c, State(map[], map[]), 1, l);
            1 in s.live && s.live[1] == l && !Agree(c, s)
  {
  }

  /** Ids have run up to the largest, and VM 1 still exists: the new id is 1 again. */
  lemma IdsWrapAround()
    ensures IsNewId(map[(1, 0) := Flag(false), (U32_MODULUS - 1, 0) := Flag(false)], 1)
  {
    assert (U32_MODULUS - 1, 0) in map[(1, 0) := Flag(false), (U32_MODULUS - 1, 0) := Flag(false)];
  }
}
