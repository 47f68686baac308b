/** Retention batches: oldest eligible rows first, holds respected, archived before purged, bounded by a limit. */
module Retention {
  import opened Prelude
  import opened TextOrder

  datatype Table = Items | Groups | Plans | Events | Failures | Reservations | Versions | Requests

  /** `id` is the column a table's spec names, which for alert groups is the last event's id; `open` is an open action or a firing alert. */
  datatype Row = Row(id: string, at: string, status: string, open: bool, key: string, version: int)

  datatype Db = Db(tables: map<Table, seq<Row>>, published: map<string, int>, locks: set<string>, archive: set<(string, Table, string)>)

  datatype Operation = Archive | Purge

  datatype Hold = Hold(owner: string, resourceType: string, resourceId: string, starts: Time, ends: Option<Time>)

  datatype Request = Request(policy: string, operation: Operation, holds: seq<Hold>, now: Time, cutoff: string, limit: nat, dryRun: bool)

  datatype Outcome = Outcome(scanned: nat, archived: nat, purged: nat, skipped: nat, done: bool)

  const HISTORY := "notification_history"
  const PUBLICATION := "notification_publication"

  function Name(t: Table): string {
    match t
    case Items => "_notification_inbox_items"
    case Groups => "_notification_alert_groups"
    case Plans => "_notification_channel_plans"
    case Events => "_notification_events"
    case Failures => "_notification_event_failures"
    case Reservations => "_notification_delivery_reservations"
    case Versions => "_notification_template_versions"
    case Requests => "_notification_template_publication_requests"
  }

  function Specs(policy: string): seq<Table> {
    if policy == HISTORY then [Items, Groups, Plans, Events, Failures, Reservations]
    else if policy == PUBLICATION then [Versions, Requests]
    else []
  }

  function RowsOf(db: Db, t: Table): seq<Row> {
    if t in db.tables then db.tables[t] else []
  }

  predicate Eligible(db: Db, t: Table, r: Row, cutoff: string) {
    && r.at != "" && AtMost(r.at, cutoff)
    && match t
       case Items => !r.open
       case Groups => r.status == "resolved"
       case Plans => r.status in {"planned", "failed", "cancelled"}
       case Events => r.status in {"materialized", "failed"}
       case Failures => true
       case Reservations => true
       case Versions => r.key in db.published && r.version < db.published[r.key]
       case Requests => r.status in {"published", "rejected", "failed", "cancelled"}
  }

  /** What the candidate query selects: an archive pass leaves out what is archived already. */
  predicate Selected(db: Db, q: Request, t: Table, r: Row) {
    Eligible(db, t, r, q.cutoff) && (q.operation == Archive ==> (q.policy, t, r.id) !in db.archive)
  }

  predicate HoldApplies(h: Hold, t: Table, id: string, now: Time) {
    && h.starts <= now && (h.ends.None? || now < h.ends.value)
    && (h.owner == "" || h.owner == "notification")
    && (h.resourceType == "" || h.resourceType == Name(t))
    && (h.resourceId == "" || h.resourceId == id)
  }

  predicate Held(q: Request, t: Table, id: string) {
    exists i :: 0 <= i < |q.holds| && HoldApplies(q.holds[i], t, id, q.now)
  }

  /** Skipped: held, or a request whose publication lock still stands. */
  predicate Spared(db: Db, q: Request, t: Table, id: string) {
    Held(q, t, id) || (t == Requests && q.operation == Purge && id in db.locks)
  }

  function Matching(db: Db, q: Request, t: Table, rows: seq<Row>): seq<Row> {
    if rows == [] then [] else (if Selected(db, q, t, rows[0]) then [rows[0]] else []) + Matching(db, q, t, rows[1..])
  }

  predicate Sooner(a: Row, b: Row) {
    Less(a.at, b.at) || (a.at == b.at && AtMost(a.id, b.id))
  }

  function Insert(r: Row, sorted: seq<Row>): seq<Row> {
    if sorted == [] || Sooner(r, sorted[0]) then [r] + sorted else [sorted[0]] + Insert(r, sorted[1..])
  }

  function Ascending(rows: seq<Row>): seq<Row> {
    if rows == [] then [] else Insert(rows[0], Ascending(rows[1..]))
  }

  function Candidates(db: Db, q: Request, t: Table, limit: nat): seq<Row> {
    var all := Ascending(Matching(db, q, t, RowsOf(db, t)));
    if |all| <= limit then all else all[..limit]
  }

  function Without(rows: seq<Row>, id: string): seq<Row> {
    if rows == [] then [] else (if rows[0].id == id then [] else [rows[0]]) + Without(rows[1..], id)
  }

  predicate HasId(rows: seq<Row>, id: string) {
    exists i :: 0 <= i < |rows| && rows[i].id == id
  }

  // ----- one candidate, one table, one batch -----

  function Retire(db: Db, q: Request, t: Table, id: string): Db {
    if Spared(db, q, t, id) || q.dryRun then db
    else
      var archived := if HasId(RowsOf(db, t), id) then db.(archive := db.archive + {(q.policy, t, id)}) else db;
      if q.operation == Archive then archived else archived.(tables := archived.tables[t := Without(RowsOf(db, t), id)])
  }

  function Count(db: Db, q: Request, t: Table, id: string): Outcome {
    if Spared(db, q, t, id) then Outcome(1, 0, 0, 1, true)
    else if q.dryRun then Outcome(1, 0, 0, 0, true)
    else
      Outcome(1, if (q.policy, t, id) !in db.archive && HasId(RowsOf(db, t), id) then 1 else 0,
              if q.operation == Archive then 0 else var n := |RowsOf(db, t)| - |Without(RowsOf(db, t), id)|; if n >= 0 then n else 0, 0, true)
  }

  function Plus(a: Outcome, b: Outcome): Outcome {
    Outcome(a.scanned + b.scanned, a.archived + b.archived, a.purged + b.purged, a.skipped + b.skipped, a.done && b.done)
  }

  function RetireAll(db: Db, q: Request, t: Table, candidates: seq<Row>): (Db, Outcome)
    decreases |candidates|
  {
    if candidates == [] then (db, Outcome(0, 0, 0, 0, true))
    else
      var before := RetireAll(db, q, t, candidates[..|candidates| - 1]);
      var id := candidates[|candidates| - 1].id;
      (Retire(before.0, q, t, id), Plus(before.1, Count(before.0, q, t, id)))
  }

  function ProcessTable(db: Db, q: Request, t: Table, limit: nat): (Db, Outcome) {
    var candidates := Candidates(db, q, t, limit);
    var all := RetireAll(db, q, t, candidates);
    (all.0, all.1.(done := |candidates| < limit))
  }

  function ProcessTables(db: Db, q: Request, specs: seq<Table>, remaining: int): (Db, Outcome)
    decreases |specs|
  {
    if specs == [] then (db, Outcome(0, 0, 0, 0, true))
    else if remaining <= 0 then (db, Outcome(0, 0, 0, 0, false))
    else
      var one := ProcessTable(db, q, specs[0], remaining);
      var rest := ProcessTables(one.0, q, specs[1..], remaining - one.1.scanned);
      (rest.0, Plus(one.1, rest.1))
  }

  class RetentionStore {
    var tables: map<Table, seq<Row>>
    var published: map<string, int>
    var locks: set<string>
    var archive: set<(string, Table, string)>

    function Contents(): Db
      reads this
    {
      Db(tables, published, locks, archive)
    }

    method RetentionHeld(holds: seq<Hold>, t: Table, id: string, now: Time) returns (held: bool)
      ensures held <==> exists i :: 0 <= i < |holds| && HoldApplies(holds[i], t, id, now)
    {
      for i := 0 to |holds|
        invariant forall j :: 0 <= j < i ==> !HoldApplies(holds[j], t, id, now)
      {
        var hold := holds[i];
        if now < hold.starts || (hold.ends.Some? && now >= hold.ends.value) {
          continue;
        }
        if (hold.owner == "" || hold.owner == "notification") && (hold.resourceType == "" || hold.resourceType == Name(t))
           && (hold.resourceId == "" || hold.resourceId == id) {
          return true;
        }
      }
      return false;
    }

    method ArchiveCandidate(policy: string, t: Table, id: string) returns (archived: bool)
      modifies this`archive
      ensures archived == ((policy, t, id) !in old(archive) && HasId(RowsOf(Contents(), t), id))
      ensures archive == if archived then old(archive) + {(policy, t, id)} else old(archive)
    {
      if (policy, t, id) in archive {
        return false;
      }
      var rows := if t in tables then tables[t] else [];
      for i := 0 to |rows|
        invariant archive == old(archive) && forall j :: 0 <= j < i ==> rows[j].id != id
      {
        if rows[i].id == id {
          archive := archive + {(policy, t, id)};
          return true;
        }
      }
      return false;
    }

    method DeleteCandidate(t: Table, id: string) returns (affected: int)
      modifies this`tables
      ensures tables == old(tables)[t := Without(RowsOf(old(Contents()), t), id)]
      ensures affected == |RowsOf(old(Contents()), t)| - |Without(RowsOf(old(Contents()), t), id)|
    {
      var rows := if t in tables then tables[t] else [];
      var kept := Without(rows, id);
      tables := tables[t := kept];
      return |rows| - |kept|;
    }

    method ProcessCandidate(q: Request, t: Table, id: string) returns (result: Outcome)
      modifies this`tables, this`archive
      ensures Contents() == Retire(old(Contents()), q, t, id) && result == Count(old(Contents()), q, t, id)
    {
      WithoutShrinks(RowsOf(Contents(), t), id);
      var held := RetentionHeld(q.holds, t, id, q.now);
      if held {
        return Outcome(1, 0, 0, 1, true);
      }
      if t == Requests && q.operation == Purge && id in locks {
        return Outcome(1, 0, 0, 1, true);
      }
      if q.dryRun {
        return Outcome(1, 0, 0, 0, true);
      }
      ghost var before := Contents();
      var archived := ArchiveCandidate(q.policy, t, id);
      assert archive == if HasId(RowsOf(before, t), id) then before.archive + {(q.policy, t, id)} else before.archive;
      var purged := 0;
      if q.operation == Purge {
        purged := DeleteCandidate(t, id);
      }
      return Outcome(1, if archived then 1 else 0, purged, 0, true);
    }

    method ProcessRetentionSpec(q: Request, t: Table, limit: nat) returns (result: Outcome)
      modifies this`tables, this`archive
      ensures (Contents(), result) == ProcessTable(old(Contents()), q, t, limit)
    {
      var candidates := Candidates(Contents(), q, t, limit);
      result := Outcome(0, 0, 0, 0, true);
      for i := 0 to |candidates|
        invariant (Contents(), result) == RetireAll(old(Contents()), q, t, candidates[..i])
      {
        assert candidates[..i + 1][..i] == candidates[..i];
        var one := ProcessCandidate(q, t, candidates[i].id);
        result := Plus(result, one);
      }
      assert candidates[..|candidates|] == candidates;
      result := result.(done := |candidates| < limit);
    }

    method ProcessRetentionBatch(q: Request) returns (result: Result<Outcome>)
      modifies this`tables, this`archive
      ensures Specs(q.policy) == [] ==> result == Err(Invalid) && Contents() == old(Contents())
      ensures Specs(q.policy) != [] ==>
                var done := ProcessTables(old(Contents()), q, Specs(q.policy), q.limit);
                Contents() == done.0 && result == Ok(done.1)
    {
      hide ProcessTable, ProcessTables, Specs, Plus;
      var specs := Specs(q.policy);
      if |specs| == 0 {
        return Err(Invalid);
      }
      var total := Outcome(0, 0, 0, 0, true);
      var remaining: int := q.limit;
      NothingPlus(ProcessTables(Contents(), q, specs, remaining).1);
      assert specs[0..] == specs;
      for i := 0 to |specs|
        invariant var rest := ProcessTables(Contents(), q, specs[i..], remaining);
          ProcessTables(old(Contents()), q, specs, q.limit) == (rest.0, Plus(total, rest.1))
      {
        TablesStep(Contents(), q, specs, i, remaining, total);
        if remaining <= 0 {
          total := total.(done := false);
          return Ok(total);
        }
        var batch := ProcessRetentionSpec(q, specs[i], remaining);
        total := Plus(total, batch);
        remaining := remaining - batch.scanned;
      }
      TablesEnd(Contents(), q, specs[|specs|..], remaining, total);
      return Ok(total);
    }
  }

  lemma NothingPlus(o: Outcome)
    ensures Plus(Outcome(0, 0, 0, 0, true), o) == o
  {
  }

  /** One turn of the batch loop, seen from what has been counted so far. */
  lemma TablesStep(db: Db, q: Request, specs: seq<Table>, i: nat, remaining: int, total: Outcome)
    requires i < |specs|
    ensures var all := ProcessTables(db, q, specs[i..], remaining);
      if remaining <= 0 then all.0 == db && Plus(total, all.1) == total.(done := false)
      else
        var one := ProcessTable(db, q, specs[i], remaining);
        var rest := ProcessTables(one.0, q, specs[i + 1..], remaining - one.1.scanned);
        all.0 == rest.0 && Plus(total, all.1) == Plus(Plus(total, one.1), rest.1)
  {
    hide ProcessTable;
    assert specs[i..][1..] == specs[i + 1..];
  }

  lemma TablesEnd(db: Db, q: Request, rest: seq<Table>, remaining: int, total: Outcome)
    requires rest == []
    ensures ProcessTables(db, q, rest, remaining).0 == db && Plus(total, ProcessTables(db, q, rest, remaining).1) == total
  {
  }

  lemma {:induction false} WithoutShrinks(rows: seq<Row>, id: string)
    ensures |Without(rows, id)| <= |rows|
    ensures forall r :: r in Without(rows, id) <==> r in rows && r.id != id
    ensures |Without(rows, id)| == |rows| <==> !HasId(rows, id)
    ensures !HasId(rows, id) ==> Without(rows, id) == rows
    decreases |rows|
  {
    if rows != [] {
      WithoutShrinks(rows[1..], id);
      assert rows == [rows[0]] + rows[1..];
      if HasId(rows[1..], id) {
        var i :| 0 <= i < |rows[1..]| && rows[1..][i].id == id;
        assert rows[i + 1].id == id;
      }
    }
  }
}
