/** What a restart rebuilds from the VmConfig table: the rows in key order, grouped by VM
    (the VirtualMachinesList constructor in CollabVmServer.hpp; ReadVmSettings and
    GetVmCount in Database.h). */
module Restart {
  import opened Wrappers
  import opened Settings

  datatype Row = Row(key: Key, value: Value)

  predicate Before(a: Key, b: Key) {
    a.0 < b.0 || (a.0 == b.0 && a.1 < b.1)
  }

  /** The rows as `ORDER BY IDs_VmId, IDs_SettingID` delivers them. */
  ghost predicate IsListing(l: seq<Row>, rows: map<Key, Value>) {
    && (forall i, j :: 0 <= i < j < |l| ==> Before(l[i].key, l[j].key))
    && (forall i :: 0 <= i < |l| ==> l[i].key in rows && rows[l[i].key] == l[i].value)
    && (forall k | k in rows :: exists i :: 0 <= i < |l| && l[i].key == k)
  }

  /** The reader's state: the VMs created so far, in order, and the group being read.  The
      groups share one list, whose length is cut to that of each group in turn; `overflow`
      tells that a row was written behind its end. */
  datatype Grouping = Grouping(
    vms: map<nat, seq<Setting>>,
    created: seq<nat>,
    previous: Option<nat>,
    group: seq<Setting>,
    capacity: nat,
    overflow: bool)

  function NoRows(c: Schema): Grouping {
    Grouping(map[], [], None, [], |c.defaults|, false)
  }

  /** `emplace` keeps a VM that is already there. */
  function CreateVm(c: Schema, g: Grouping): Grouping
    requires g.previous.Some?
  {
    var id := g.previous.value;
    var vms := if id in g.vms then g.vms else g.vms[id := InitialSettings(c, g.group)];
    g.(vms := vms, created := g.created + [id], group := [], capacity := |g.group|)
  }

  function AddSetting(g: Grouping, row: Row): Grouping {
    g.(group := g.group + [Setting(row.key.1, row.value)], previous := Some(row.key.0),
       overflow := g.overflow || |g.group| >= g.capacity)
  }

  function Visit(c: Schema, g: Grouping, row: Row): Grouping {
    AddSetting(if g.previous.Some? && g.previous != Some(row.key.0) then CreateVm(c, g) else g, row)
  }

  function Visited(c: Schema, l: seq<Row>): Grouping {
    if l == [] then NoRows(c) else Visit(c, Visited(c, l[..|l| - 1]), l[|l| - 1])
  }

  function Rebuilt(c: Schema, l: seq<Row>): Grouping {
    var g := Visited(c, l);
    if g.previous.Some? then CreateVm(c, g) else g
  }

  // ------------------------------------------------------- the order of the rows

  lemma KeyListed(c: Schema, s: State, l: seq<Row>, k: Key) returns (i: nat)
    requires Agree(c, s) && IsListing(l, s.rows) && k.0 in s.live && k.1 < |c.defaults|
    ensures i < |l| && l[i].key == k
  {
    assert k in s.rows;
    i :| 0 <= i < |l| && l[i].key == k;
  }

  /** After a row comes the VM's next field, or field 0 of the next VM. */
  lemma NextRow(c: Schema, s: State, l: seq<Row>, i: nat)
    requires Agree(c, s) && IsListing(l, s.rows) && |c.defaults| > 0 && i + 1 < |l|
    ensures var a, b := l[i].key, l[i + 1].key;
            if a.1 + 1 < |c.defaults| then b == (a.0, a.1 + 1)
            else a.0 < b.0 && b.1 == 0 && forall id | id in s.live :: id <= a.0 || b.0 <= id
  {
    var a, b := l[i].key, l[i + 1].key;
    assert a in s.rows && b in s.rows;
    if a.1 + 1 < |c.defaults| {
      var j := KeyListed(c, s, l, (a.0, a.1 + 1));
      assert j > i;
    } else {
      var j := KeyListed(c, s, l, (b.0, 0));
      assert j > i;
      forall id | id in s.live ensures id <= a.0 || b.0 <= id {
        var j := KeyListed(c, s, l, (id, 0));
      }
    }
  }

  lemma FirstRow(c: Schema, s: State, l: seq<Row>)
    requires Agree(c, s) && IsListing(l, s.rows) && |c.defaults| > 0 && l != []
    ensures l[0].key.1 == 0 && forall id | id in s.live :: l[0].key.0 <= id
  {
    assert l[0].key in s.rows;
    var j := KeyListed(c, s, l, (l[0].key.0, 0));
    forall id | id in s.live ensures l[0].key.0 <= id {
      var j := KeyListed(c, s, l, (id, 0));
    }
  }

  lemma LastRow(c: Schema, s: State, l: seq<Row>)
    requires Agree(c, s) && IsListing(l, s.rows) && |c.defaults| > 0 && l != []
    ensures var k := l[|l| - 1].key;
            k.1 == |c.defaults| - 1 && forall id | id in s.live :: id <= k.0
  {
    var k := l[|l| - 1].key;
    assert k in s.rows;
    var j := KeyListed(c, s, l, (k.0, |c.defaults| - 1));
    forall id | id in s.live ensures id <= k.0 {
      var j := KeyListed(c, s, l, (id, 0));
    }
  }

  // ------------------------------------------------------------------- rebuild

  ghost predicate Ascending(ids: seq<nat>) {
    forall i, j :: 0 <= i < j < |ids| ==> ids[i] < ids[j]
  }

  /** Exactly the VMs with smaller ids have been rebuilt, each created once, in order. */
  ghost predicate RebuiltBelow(s: State, g: Grouping, bound: nat) {
    && (forall id :: id in g.vms <==> id in s.live && id < bound)
    && (forall id | id in g.vms :: g.vms[id] == s.live[id])
    && (forall id :: id in g.created <==> id in g.vms)
    && Ascending(g.created)
  }

  /** Creating the VM of a full group moves the bound past it. */
  lemma CreateFullGroup(c: Schema, s: State, g: Grouping, bound: nat)
    requires Agree(c, s) && g.previous.Some? && g.previous.value in s.live
    requires RebuiltBelow(s, g, g.previous.value) && g.group == s.live[g.previous.value]
    requires g.previous.value < bound
    requires forall id | id in s.live :: id <= g.previous.value || bound <= id
    ensures RebuiltBelow(s, CreateVm(c, g), bound)
  {
    var id := g.previous.value;
    var g' := CreateVm(c, g);
    assert InitialSettings(c, g.group) == g.group;
    assert forall i :: 0 <= i < |g.created| ==> g.created[i] in g.created;
    assert forall x :: x in g'.created <==> x in g.created || x == id;
  }

  /** The VMs before the current one are rebuilt, and the group holds its first fields. */
  ghost predicate ReadUpTo(c: Schema, s: State, g: Grouping, k: Key) {
    && k.0 in s.live && k.1 < |c.defaults| == |s.live[k.0]|
    && g.previous == Some(k.0) && g.group == s.live[k.0][..k.1 + 1]
    && g.capacity == |c.defaults| && !g.overflow
    && RebuiltBelow(s, g, k.0)
  }

  lemma VisitFirst(c: Schema, s: State, row: Row)
    requires Agree(c, s) && row.key in s.rows && s.rows[row.key] == row.value && row.key.1 == 0
    requires forall id | id in s.live :: row.key.0 <= id
    ensures ReadUpTo(c, s, Visit(c, NoRows(c), row), row.key)
  {
    var settings := s.live[row.key.0];
    assert Setting(0, row.value) == settings[0];
    assert settings[..1] == [settings[0]];
  }

  lemma VisitSame(c: Schema, s: State, g: Grouping, k: Key, row: Row)
    requires Agree(c, s) && ReadUpTo(c, s, g, k)
    requires row.key in s.rows && s.rows[row.key] == row.value && row.key == (k.0, k.1 + 1)
    ensures ReadUpTo(c, s, Visit(c, g, row), row.key)
  {
    var settings := s.live[k.0];
    assert Setting(k.1 + 1, row.value) == settings[k.1 + 1];
    assert settings[..k.1 + 2] == settings[..k.1 + 1] + [settings[k.1 + 1]];
  }

  lemma VisitNext(c: Schema, s: State, g: Grouping, k: Key, row: Row)
    requires Agree(c, s) && ReadUpTo(c, s, g, k) && k.1 + 1 == |c.defaults|
    requires row.key in s.rows && s.rows[row.key] == row.value
    requires k.0 < row.key.0 && row.key.1 == 0
    requires forall id | id in s.live :: id <= k.0 || row.key.0 <= id
    ensures ReadUpTo(c, s, Visit(c, g, row), row.key)
  {
    assert s.live[k.0][..|c.defaults|] == s.live[k.0];
    CreateFullGroup(c, s, g, row.key.0);
    var settings := s.live[row.key.0];
    assert Setting(0, row.value) == settings[0];
    assert [] + [settings[0]] == settings[..1];
  }

  lemma {:induction false} VisitedInv(c: Schema, s: State, l: seq<Row>, i: nat)
    requires Agree(c, s) && IsListing(l, s.rows) && |c.defaults| > 0 && 0 < i <= |l|
    ensures ReadUpTo(c, s, Visited(c, l[..i]), l[i - 1].key)
    decreases i
  {
    var row := l[i - 1];
    assert l[..i][..i - 1] == l[..i - 1];
    if i == 1 {
      FirstRow(c, s, l);
      VisitFirst(c, s, row);
    } else {
      VisitedInv(c, s, l, i - 1);
      NextRow(c, s, l, i - 2);
      var k := l[i - 2].key;
      if k.1 + 1 < |c.defaults| {
        VisitSame(c, s, Visited(c, l[..i - 1]), k, row);
      } else {
        VisitNext(c, s, Visited(c, l[..i - 1]), k, row);
      }
    }
  }

  /** When the in-memory settings agree with the table, a restart rebuilds exactly them,
      with one `create_vm` call for each distinct id. */
  lemma RestartRebuilds(c: Schema, s: State, l: seq<Row>)
    requires WellFormed(c) && Agree(c, s) && IsListing(l, s.rows)
    ensures Rebuilt(c, l).vms == s.live
    ensures Ascending(Rebuilt(c, l).created)
    ensures forall id :: id in Rebuilt(c, l).created <==> id in s.live
    ensures !Rebuilt(c, l).overflow
  {
    if l == [] {
      forall id | id in s.live ensures false {
        var j := KeyListed(c, s, l, (id, 0));
      }
    } else {
      assert l[..|l|] == l;
      VisitedInv(c, s, l, |l|);
      LastRow(c, s, l);
      var id := l[|l| - 1].key.0;
      assert s.live[id][..|c.defaults|] == s.live[id];
      CreateFullGroup(c, s, Visited(c, l), id + 1);
    }
  }

  /** Persistence: after any run of creates, updates and deletes, restarting from the
      table gives the settings that were in memory. */
  lemma RunThenRestart(c: Schema, s: State, es: seq<Event>, l: seq<Row>)
    requires WellFormed(c) && Agree(c, s) && ValidRun(c, s, es)
    requires IsListing(l, Run(c, s, es).rows)
    ensures Rebuilt(c, l).vms == Run(c, s, es).live
    ensures forall id | id in Rebuilt(c, l).vms :: Indexed(c, Rebuilt(c, l).vms[id])
  {
    RestartRebuilds(c, Run(c, s, es), l);
  }

  const EMPTY := State(map[], map[])

  /** The same from an empty database on: nothing more is assumed of the store. */
  lemma PersistenceFromEmpty(c: Schema, es: seq<Event>, l: seq<Row>)
    requires WellFormed(c) && ValidRun(c, EMPTY, es) && IsListing(l, Run(c, EMPTY, es).rows)
    ensures Rebuilt(c, l).vms == Run(c, EMPTY, es).live && !Rebuilt(c, l).overflow
    ensures forall id | id in Rebuilt(c, l).vms :: Indexed(c, Rebuilt(c, l).vms[id])
  {
    RunThenRestart(c, EMPTY, es, l);
    RestartRebuilds(c, Run(c, EMPTY, es), l);
  }

  /** A table that does not agree with any settings: the list is cut to the first VM's one
      row, and the second VM's second row falls behind its end. */
  lemma RaggedRowsOverflow(c: Schema, v: Value)
    ensures Rebuilt(c, [Row((1, 0), v), Row((2, 0), v), Row((2, 1), v)]).overflow
  {
    var l := [Row((1, 0), v), Row((2, 0), v), Row((2, 1), v)];
    assert l[..2][..1] == l[..1] && l[..3] == l && l[..1][..0] == [];
    assert Visited(c, l[..1]).group == [Setting(0, v)];
    var g2 := Visited(c, l[..2]);
    assert g2.previous == Some(2) && g2.capacity == 1 && |g2.group| == 1;
    assert Visited(c, l).overflow;
  }

  // --------------------------------------------------------- a listing exists

  lemma {:induction false} LargestKey(rows: map<Key, Value>) returns (k: Key)
    requires rows != map[]
    ensures k in rows && forall j | j in rows && j != k :: Before(j, k)
    decreases |rows|
  {
    k :| k in rows;
    var rest := rows - {k};
    assert forall j :: j in rows <==> j in rest || j == k;
    if rest != map[] {
      var m := LargestKey(rest);
      if Before(k, m) { k := m; }
    }
  }

  lemma AppendRow(l: seq<Row>, rows: map<Key, Value>, k: Key)
    requires k in rows && IsListing(l, rows - {k})
    requires forall j | j in rows && j != k :: Before(j, k)
    ensures IsListing(l + [Row(k, rows[k])], rows)
  {
    var l' := l + [Row(k, rows[k])];
    assert forall i :: 0 <= i < |l| ==> l'[i] == l[i];
    assert forall i :: 0 <= i < |l| ==> l[i].key in rows - {k};
    forall j | j in rows ensures exists i :: 0 <= i < |l'| && l'[i].key == j {
      if j == k {
        assert l'[|l|].key == k;
      } else {
        assert j in rows - {k};
        var i :| 0 <= i < |l| && l[i].key == j;
        assert l'[i].key == j;
      }
    }
  }

  /** Every table has a listing in key order. */
  lemma {:induction false} ListingExists(rows: map<Key, Value>) returns (l: seq<Row>)
    ensures IsListing(l, rows)
    decreases |rows|
  {
    if rows == map[] {
      l := [];
    } else {
      var k := LargestKey(rows);
      var init := ListingExists(rows - {k});
      AppendRow(init, rows, k);
      l := init + [Row(k, rows[k])];
    }
  }
}
