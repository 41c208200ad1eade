/** The settings of all VMs as the source keeps them: lists filled by loops, a table written
    row by row, and the constructor that reads it back (AdminVirtualMachine.hpp,
    CollabVmServer.hpp, Database.h, Database.cpp). */
module SettingsStores {
  import opened Wrappers
  import opened Settings
  import R = Restart

  ghost function SomeKey(rows: map<Key, Value>): (k: Key)
    requires rows != map[]
    ensures k in rows
  {
    var k :| k in rows; k
  }

  lemma {:induction false} FailureStays(rows: map<Key, Value>, id: nat, l: seq<Setting>, i: nat)
    requires i <= |l| && InsertRows(rows, id, l[..i]).failed
    ensures InsertRows(rows, id, l) == InsertRows(rows, id, l[..i])
    decreases |l|
  {
    if i < |l| {
      assert l[..|l| - 1][..i] == l[..i];
      FailureStays(rows, id, l[..|l| - 1], i);
    } else {
      assert l[..i] == l;
    }
  }

  /** The table that SQLite keeps, with (VM, setting) as its primary key. */
  class Database {
    var rows: map<Key, Value>

    constructor ()
      ensures rows == map[]
    {
      rows := map[];
    }

    /** Stops with an error at the first key that is there already. */
    method CreateVm(id: nat, settings: seq<Setting>) returns (failed: bool)
      modifies this
      ensures Insertion(rows, failed) == InsertRows(old(rows), id, settings)
    {
      failed := false;
      for i := 0 to |settings|
        invariant Insertion(rows, false) == InsertRows(old(rows), id, settings[..i])
      {
        assert settings[..i + 1][..i] == settings[..i];
        if (id, settings[i].which) in rows {
          FailureStays(old(rows), id, settings, i + 1);
          return true;
        }
        rows := rows[(id, settings[i].which) := settings[i].value];
      }
      assert settings[..|settings|] == settings;
    }

    method UpdateVmSettings(id: nat, settings: seq<Setting>)
      modifies this
      ensures rows == UpdateRows(old(rows), id, settings)
    {
      for i := 0 to |settings|
        invariant rows == UpdateRows(old(rows), id, settings[..i])
      {
        assert settings[..i + 1][..i] == settings[..i];
        if (id, settings[i].which) in rows {
          rows := rows[(id, settings[i].which) := settings[i].value];
        }
      }
      assert settings[..|settings|] == settings;
    }

    method DeleteVm(id: nat)
      modifies this
      ensures rows == DeleteRows(old(rows), id)
    {
      rows := map k | k in rows && k.0 != id :: rows[k];
    }

    method GetNewVmId() returns (id: nat)
      ensures IsNewId(rows, id)
    {
      var table := rows;
      if table == map[] {
        return 1;
      }
      ghost var (vm, field) := SomeKey(table);
      assert (vm, field) in table;
      var max :| max in table;
      var todo := table.Keys - {max};
      while todo != {}
        invariant todo <= table.Keys && max in table
        invariant forall k | k in table && k !in todo :: k.0 <= max.0
        decreases |todo|
      {
        var k :| k in todo;
        if max.0 < k.0 {
          max := k;
        }
        todo := todo - {k};
      }
      var next := (max.0 + 1) % U32_MODULUS;
      id := if next > 1 then next else 1;
    }
  }

  /** The merge of an initial list with the defaults. */
  method GetInitialSettings(c: Schema, initial: seq<Setting>) returns (settings: seq<Setting>)
    ensures settings == InitialSettings(c, initial)
  {
    if |initial| == |c.defaults| {
      return initial;
    }
    settings := [];
    var current := 0;
    var i := 0;
    while i < |c.defaults|
      invariant 0 <= i <= |c.defaults| && current <= |initial|
      invariant settings + Merged(c, initial, i, current) == Merged(c, initial, 0, 0)
    {
      MergedOne(c, initial, i, current, settings);
      ghost var start := current;
      while current < |initial| && initial[current].which < i
        invariant current <= |initial| && Skip(initial, current, i) == Skip(initial, start, i)
      {
        current := current + 1;
      }
      var value := c.defaults[i];
      if current < |initial| && initial[current].which == i {
        value := initial[current].value;
      }
      settings := settings + [Setting(i, value)];
      i := i + 1;
    }
  }

  /** The variant that takes the settings one by one: here the last value wins. */
  method GetProducedSettings(c: Schema, produced: seq<Setting>) returns (settings: seq<Setting>)
    requires InSchema(c, produced)
    ensures Indexed(c, settings)
    ensures forall i :: 0 <= i < |settings| ==>
              settings[i].value == GetOr(Last(produced, i), c.defaults[i])
  {
    settings := seq(|c.defaults|, i requires 0 <= i < |c.defaults| => Setting(i, c.defaults[i]));
    for n := 0 to |produced|
      invariant Indexed(c, settings)
      invariant forall i :: 0 <= i < |settings| ==>
                  settings[i].value == GetOr(Last(produced[..n], i), c.defaults[i])
    {
      assert produced[..n + 1][..n] == produced[..n];
      settings := settings[produced[n].which := produced[n]];
    }
    assert produced[..|produced|] == produced;
  }

  /** `find_if` over the updates. */
  method FindUpdate(updates: seq<Setting>, field: nat) returns (found: Option<Value>)
    ensures found == First(updates, field)
  {
    var i := 0;
    while i < |updates|
      invariant 0 <= i <= |updates| && First(updates, field) == First(updates[i..], field)
    {
      if updates[i].which == field {
        return Some(updates[i].value);
      }
      assert updates[i..][1..] == updates[i + 1..];
      i := i + 1;
    }
    return None;
  }

  method UpdateList(c: Schema, current: seq<Setting>, updates: seq<Setting>) returns (settings: seq<Setting>)
    requires Indexed(c, current)
    ensures settings == Updated(current, updates)
  {
    settings := seq(|c.defaults|, i requires 0 <= i < |c.defaults| => Setting(0, c.defaults[i]));
    for n := 0 to |current|
      invariant |settings| == |current|
      invariant forall i :: 0 <= i < n ==> settings[i] == Updated(current, updates)[i]
    {
      var field := current[n].which;
      var update := FindUpdate(updates, field);
      settings := settings[field := Setting(field, GetOr(update, current[n].value))];
    }
  }

  class SettingsStore {
    const schema: Schema
    const db: Database
    var live: map<nat, seq<Setting>>

    ghost function Store(): State
      reads this, db
    {
      State(live, db.rows)
    }

    ghost predicate Valid()
      reads this, db
    {
      WellFormed(schema) && Agree(schema, Store())
    }

    /** Starting the server on a table whose rows are `listing` in key order. */
    constructor (c: Schema, database: Database, listing: seq<R.Row>)
      requires R.IsListing(listing, database.rows)
      ensures schema == c && db == database && live == R.Rebuilt(c, listing).vms
    {
      schema, db := c, database;
      var g := R.NoRows(c);
      for i := 0 to |listing|
        invariant g == R.Visited(c, listing[..i])
      {
        assert listing[..i + 1][..i] == listing[..i];
        var row := listing[i];
        if g.previous.Some? && g.previous != Some(row.key.0) {
          g := CreateGroupedVm(c, g);
        }
        g := R.AddSetting(g, row);
      }
      assert listing[..|listing|] == listing;
      if g.previous.Some? {
        g := CreateGroupedVm(c, g);
      }
      live := g.vms;
    }

    static method CreateGroupedVm(c: Schema, g: R.Grouping) returns (g': R.Grouping)
      requires g.previous.Some?
      ensures g' == R.CreateVm(c, g)
    {
      var id := g.previous.value;
      var settings := GetInitialSettings(c, g.group);
      var vms := if id in g.vms then g.vms else g.vms[id := settings];
      g' := g.(vms := vms, created := g.created + [id], group := [], capacity := |g.group|);
    }

    /** A server started on the table of another one, after any run, has its settings. */
    static method Restarted(store: SettingsStore, listing: seq<R.Row>) returns (restarted: SettingsStore)
      requires store.Valid() && R.IsListing(listing, store.db.rows)
      ensures restarted.Valid() && restarted.live == store.live && restarted.db == store.db
    {
      restarted := new SettingsStore(store.schema, store.db, listing);
      R.RestartRebuilds(store.schema, store.Store(), listing);
    }

    /** The settings in memory and the table stay in step unless the list is one of full
        length out of order; the id is a new one unless `NewIdIsFresh` says otherwise. */
    method CreateVm(initial: seq<Setting>) returns (id: nat, failed: bool)
      requires Valid() && InSchema(schema, initial)
      modifies this, db
      ensures IsNewId(old(db.rows), id)
      ensures Store() == Settings.CreateVm(schema, old(Store()), id, initial)
      ensures Valid() <==> id in old(live) || (|initial| == |schema.defaults| ==> Increasing(initial))
      ensures failed ==> id in old(live) || !Valid()
    {
      id := db.GetNewVmId();
      CreateAgreesIff(schema, Store(), id, initial);
      var settings := GetInitialSettings(schema, initial);
      if id in live {
        settings := live[id];
      } else if Indexed(schema, settings) {
        FreshInsert(schema, Store(), id, settings);
      } else {
        InitialIndexed(schema, initial);
      }
      live := live[id := settings];
      failed := db.CreateVm(id, settings);
    }

    method UpdateSettings(id: nat, updates: seq<Setting>) returns (valid: bool)
      requires Valid()
      modifies this, db
      ensures Store() == Settings.UpdateVm(schema, old(Store()), id, updates)
      ensures valid <==> id in old(live) && Meets(schema, Updated(old(live)[id], updates))
      ensures live == if valid then old(live)[id := Updated(old(live)[id], updates)] else old(live)
      ensures Enabled(schema, old(Store()), Update(id, updates)) ==> Valid()
    {
      if Enabled(schema, Store(), Update(id, updates)) {
        UpdateKeepsAgreement(schema, Store(), id, updates);
      }
      if id !in live {
        return false;
      }
      var settings := UpdateList(schema, live[id], updates);
      valid := Acceptable(schema, settings);
      AcceptableMeets(schema, settings);
      if valid {
        db.UpdateVmSettings(id, updates);
        live := live[id := settings];
      }
    }

    method DeleteVm(id: nat) returns (deleted: bool)
      requires Valid()
      modifies this, db
      ensures Valid() && (deleted <==> id in old(live))
      ensures Store() == Settings.DeleteVm(old(Store()), id)
    {
      AgreeStep(schema, Store(), Delete(id));
      if id !in live {
        return false;
      }
      live := live - {id};
      db.DeleteVm(id);
      return true;
    }
  }
}
