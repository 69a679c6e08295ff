/**
 * GeoNotificationStore: the SQLite table `GeoNotifications (ID TEXT PRIMARY
 * KEY, Data TEXT)` holding one JSON record per fence, as a map from id to
 * record.
 */
module FenceStore {
  import opened Wrappers
  import opened GeoRecords

  type Table = map<string, Fence>

  /** Every row is stored under its own id: the id is the primary key. */
  ghost predicate WellKeyed(t: Table) {
    forall k :: k in t ==> t[k].id == k
  }

  /** The row `add` inserts: the record with a top-level `lastTriggered` of 0. */
  function Inserted(f: Fence): Fence {
    f.(lastTriggered := Some(0))
  }

  /** `addOrUpdate`: `update` when a row with this id exists, `add` otherwise. */
  function Upsert(t: Table, f: Fence): Table {
    if f.id in t then t[f.id := f] else t[f.id := Inserted(f)]
  }

  /**
   * One row as `updateLastTriggeredByNotificationId(nid)` leaves it. A row
   * without a notification is left as it is, also for the empty id, which
   * the source's `stringValue` test would match.
   */
  function Stamped(f: Fence, nid: string, now: int): Fence {
    if f.notification.Some? && f.notification.value.id == nid
    then f.(notification := Some(f.notification.value.(lastTriggered := Some(now))))
    else f
  }

  /** The whole table after `updateLastTriggeredByNotificationId(nid)` at time `now`. */
  function Stamp(t: Table, nid: string, now: int): Table {
    map k | k in t :: Stamped(t[k], nid, now)
  }

  /** A row with its throttle stamp erased: what a stamp cannot change. */
  function Unstamped(f: Fence): Fence {
    if f.notification.Some?
    then f.(notification := Some(f.notification.value.(lastTriggered := None)))
    else f
  }

  /** `s` lists every row of `t` exactly once, in some order (a `SELECT *` result). */
  ghost predicate Enumerates(s: seq<Fence>, t: Table) {
    && (forall i :: 0 <= i < |s| ==> s[i].id in t && t[s[i].id] == s[i])
    && (forall i, j :: 0 <= i < j < |s| ==> s[i].id != s[j].id)
    && (forall k :: k in t ==> exists i :: 0 <= i < |s| && s[i].id == k)
  }

  /** Upsert keeps one row per id and adds at most the new id. */
  lemma UpsertKeepsIdsUnique(t: Table, f: Fence)
    requires WellKeyed(t)
    ensures WellKeyed(Upsert(t, f))
    ensures Upsert(t, f).Keys == t.Keys + {f.id}
    ensures forall k :: k in t && k != f.id ==> Upsert(t, f)[k] == t[k]
  {
  }

  /**
   * Reading back an upserted id: an existing row is replaced by the whole new
   * record; a new row is the record with top-level `lastTriggered` 0.
   */
  lemma UpsertThenFind(t: Table, f: Fence)
    ensures f.id in Upsert(t, f)
    ensures f.id in t ==> Upsert(t, f)[f.id] == f
    ensures f.id !in t ==> Upsert(t, f)[f.id] == f.(lastTriggered := Some(0))
  {
  }

  /**
   * Upserting the same record twice leaves exactly that record: the second
   * call takes the `update` path, so the `lastTriggered = 0` that the first
   * call's `add` wrote is replaced by the record's own value.
   */
  lemma UpsertTwice(t: Table, f: Fence)
    ensures Upsert(Upsert(t, f), f) == t[f.id := f]
  {
  }

  /** A stamp changes nothing but notification throttle stamps. */
  lemma StampOnlyTouchesThrottle(t: Table, nid: string, now: int)
    requires WellKeyed(t)
    ensures WellKeyed(Stamp(t, nid, now)) && Stamp(t, nid, now).Keys == t.Keys
    ensures forall k :: k in t ==> Unstamped(Stamp(t, nid, now)[k]) == Unstamped(t[k])
    ensures forall k :: k in t && NotificationId(t[k]) == nid && t[k].notification.Some? ==>
      Stamp(t, nid, now)[k].notification.value.lastTriggered == Some(now)
    ensures forall k :: k in t && !(t[k].notification.Some? && t[k].notification.value.id == nid) ==>
      Stamp(t, nid, now)[k] == t[k]
  {
  }

  /** The first `i` enumerated rows are stamped in `t`, the others still as enumerated. */
  ghost predicate StampedUpTo(t: Table, rows: seq<Fence>, i: nat, nid: string, now: int)
    requires i <= |rows|
  {
    && (forall j :: 0 <= j < i ==> rows[j].id in t && t[rows[j].id] == Stamped(rows[j], nid, now))
    && (forall j :: i <= j < |rows| ==> rows[j].id in t && t[rows[j].id] == rows[j])
  }

  /** Stamping row `i` alone moves the stamped prefix one row on. */
  lemma StampRow(t: Table, t': Table, rows: seq<Fence>, i: nat, nid: string, now: int, hit: bool)
    requires i < |rows| && (forall a, b :: 0 <= a < b < |rows| ==> rows[a].id != rows[b].id)
    requires StampedUpTo(t, rows, i, nid, now)
    requires hit ==> t' == t[rows[i].id := Stamped(rows[i], nid, now)]
    requires !hit ==> t' == t && Stamped(rows[i], nid, now) == rows[i]
    ensures StampedUpTo(t', rows, i + 1, nid, now) && t'.Keys == t.Keys
  {
    forall j | 0 <= j < |rows| && j != i
      ensures rows[j].id != rows[i].id
    {
      if j < i {
        assert rows[j].id != rows[i].id;
      } else {
        assert rows[i].id != rows[j].id;
      }
    }
  }

  /** A table whose every enumerated row has been stamped is the stamped table. */
  lemma StampedByRows(t0: Table, t: Table, rows: seq<Fence>, nid: string, now: int)
    requires Enumerates(rows, t0) && t.Keys == t0.Keys
    requires forall j :: 0 <= j < |rows| ==> t[rows[j].id] == Stamped(rows[j], nid, now)
    ensures t == Stamp(t0, nid, now)
  {
    forall k | k in t
      ensures t[k] == Stamped(t0[k], nid, now)
    {
      var j :| 0 <= j < |rows| && rows[j].id == k;
    }
  }

  class GeoNotificationStore {
    /** Whether the GeoNotifications table exists; every statement on a missing table fails. */
    const hasTable: bool
    var table: Table

    ghost predicate Valid()
      reads this
    {
      WellKeyed(table) && (!hasTable ==> table == map[])
    }

    /**
     * `init`/`createDBStructure`: `existing` is the table found in (or created
     * in) the database file, `None` when it could neither be listed nor created.
     */
    constructor (existing: Option<Table>)
      requires existing.Some? ==> WellKeyed(existing.value)
      ensures Valid()
      ensures hasTable == existing.Some?
      ensures table == existing.GetOr(map[])
    {
      hasTable := existing.Some?;
      table := existing.GetOr(map[]);
    }

    /** `findById`: `None` for an absent id and for a failed query. */
    method FindById(id: string) returns (r: Option<Fence>)
      requires Valid()
      ensures r.Some? <==> id in table
      ensures r.Some? ==> r.value == table[id] && r.value.id == id
    {
      if hasTable && id in table {
        r := Some(table[id]);
      } else {
        r := None;
      }
    }

    /** `getAll`: every row once, or `None` when the query fails. */
    method GetAll() returns (r: Option<seq<Fence>>)
      requires Valid()
      ensures r.None? <==> !hasTable
      ensures r.Some? ==> Enumerates(r.value, table)
    {
      if !hasTable {
        return None;
      }
      var rows: seq<Fence> := [];
      var rest := table.Keys;
      while rest != {}
        invariant rest <= table.Keys
        invariant forall i :: 0 <= i < |rows| ==> rows[i].id in table && rows[i].id !in rest && table[rows[i].id] == rows[i]
        invariant forall i, j :: 0 <= i < j < |rows| ==> rows[i].id != rows[j].id
        invariant forall k :: k in table && k !in rest ==> exists i :: 0 <= i < |rows| && rows[i].id == k
        decreases rest
      {
        var k :| k in rest;
        ghost var before := rows;
        rows := rows + [table[k]];
        rest := rest - {k};
        forall k' | k' in table && k' !in rest
          ensures exists i :: 0 <= i < |rows| && rows[i].id == k'
        {
          if k' == k {
            assert rows[|before|].id == k;
          } else {
            var i :| 0 <= i < |before| && before[i].id == k';
            assert rows[i].id == k';
          }
        }
      }
      r := Some(rows);
    }

    /** `addOrUpdate`: update when `findById` finds the id, add otherwise. */
    method AddOrUpdate(f: Fence)
      requires Valid()
      modifies this
      ensures Valid()
      ensures table == if hasTable then Upsert(old(table), f) else old(table)
    {
      var existing := FindById(f.id);
      if existing.Some? {
        Update(f);
      } else {
        Add(f);
      }
    }

    /** `add`: INSERT with `lastTriggered = 0`; fails (no change) on a taken id. */
    method Add(f: Fence)
      requires Valid()
      modifies this
      ensures Valid()
      ensures table == if hasTable && f.id !in old(table) then old(table)[f.id := Inserted(f)] else old(table)
    {
      if hasTable && f.id !in table {
        table := table[f.id := Inserted(f)];
      }
    }

    /** `update`: UPDATE ... WHERE Id = f.id; no row changes when the id is absent. */
    method Update(f: Fence)
      requires Valid()
      modifies this
      ensures Valid()
      ensures table == if f.id in old(table) then old(table)[f.id := f] else old(table)
    {
      if hasTable && f.id in table {
        table := table[f.id := f];
      }
    }

    /** `remove`: DELETE ... WHERE Id = id; an absent id changes nothing. */
    method Remove(id: string)
      requires Valid()
      modifies this
      ensures Valid()
      ensures table == old(table) - {id}
      ensures id !in old(table) ==> table == old(table)
    {
      if hasTable {
        table := table - {id};
      }
    }

    /** `clear`: DELETE every row. */
    method Clear()
      requires Valid()
      modifies this
      ensures Valid()
      ensures table == map[]
    {
      if hasTable {
        table := map[];
      }
    }

    /**
     * `updateLastTriggeredByNotificationId`: walks a `getAll` snapshot and
     * rewrites every row whose notification id is `nid` with the stamp `now`.
     */
    method UpdateLastTriggeredByNotificationId(nid: string, now: int)
      requires Valid()
      modifies this
      ensures Valid()
      ensures table == Stamp(old(table), nid, now)
    {
      var all := GetAll();
      if all.None? {
        return;
      }
      var rows := all.value;
      var i := 0;
      while i < |rows|
        invariant 0 <= i <= |rows|
        invariant Valid() && table.Keys == old(table).Keys
        invariant StampedUpTo(table, rows, i, nid, now)
      {
        var row := rows[i];
        ghost var before := table;
        var hit := row.notification.Some? && row.notification.value.id == nid;
        if hit {
          assert row.id in table;
          Update(Stamped(row, nid, now));
        }
        StampRow(before, table, rows, i, nid, now, hit);
        i := i + 1;
      }
      StampedByRows(old(table), table, rows, nid, now);
    }
  }
}
