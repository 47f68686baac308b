/** What a retention batch may delete, what it must have archived, and when "done" means done. */
module RetentionSafety {
  import opened Prelude
  import opened TextOrder
  import opened Retention

  // ----- candidates -----

  lemma {:induction false} InsertKeeps(r: Row, sorted: seq<Row>)
    ensures multiset(Insert(r, sorted)) == multiset{r} + multiset(sorted)
    decreases |sorted|
  {
    if sorted != [] && !Sooner(r, sorted[0]) {
      InsertKeeps(r, sorted[1..]);
      assert sorted == [sorted[0]] + sorted[1..];
    }
  }

  lemma {:induction false} AscendingKeeps(rows: seq<Row>)
    ensures multiset(Ascending(rows)) == multiset(rows)
    decreases |rows|
  {
    if rows != [] {
      AscendingKeeps(rows[1..]);
      InsertKeeps(rows[0], Ascending(rows[1..]));
      assert rows == [rows[0]] + rows[1..];
    }
  }

  lemma {:induction false} MatchingFacts(db: Db, q: Request, t: Table, rows: seq<Row>)
    ensures forall r :: r in Matching(db, q, t, rows) <==> r in rows && Selected(db, q, t, r)
    decreases |rows|
  {
    hide Selected;
    if rows != [] {
      MatchingFacts(db, q, t, rows[1..]);
      assert rows == [rows[0]] + rows[1..];
    }
  }

  lemma CandidatesFacts(db: Db, q: Request, t: Table, limit: nat)
    ensures var c := Candidates(db, q, t, limit);
      && |c| <= limit
      && (forall r :: r in c ==> r in RowsOf(db, t) && Selected(db, q, t, r))
      && (|c| < limit ==> forall r :: r in RowsOf(db, t) && Selected(db, q, t, r) ==> r in c)
  {
    hide Selected;
    var rows := Matching(db, q, t, RowsOf(db, t));
    MatchingFacts(db, q, t, RowsOf(db, t));
    AscendingKeeps(rows);
    forall r ensures r in Ascending(rows) <==> r in rows {
      assert r in multiset(Ascending(rows)) <==> r in multiset(rows);
    }
  }

  lemma SoonerIsTotalOrder()
    ensures forall a, b :: Sooner(a, b) || Sooner(b, a)
    ensures forall a, b, c :: Sooner(a, b) && Sooner(b, c) ==> Sooner(a, c)
  {
    StrictTotalOrder();
  }

  predicate OldestFirst(rows: seq<Row>) {
    forall i, j :: 0 <= i < j < |rows| ==> Sooner(rows[i], rows[j])
  }

  lemma {:induction false} InsertOrders(r: Row, sorted: seq<Row>)
    requires OldestFirst(sorted)
    ensures OldestFirst(Insert(r, sorted))
    decreases |sorted|
  {
    hide Sooner;
    SoonerIsTotalOrder();
    if sorted != [] && !Sooner(r, sorted[0]) {
      var rest := Insert(r, sorted[1..]);
      InsertOrders(r, sorted[1..]);
      InsertKeeps(r, sorted[1..]);
      forall i | 0 <= i < |rest| ensures Sooner(sorted[0], rest[i]) {
        assert rest[i] in multiset(rest);
        assert rest[i] == r || rest[i] in sorted[1..];
      }
    }
  }

  lemma {:induction false} AscendingOrders(rows: seq<Row>)
    ensures OldestFirst(Ascending(rows))
    decreases |rows|
  {
    if rows != [] {
      AscendingOrders(rows[1..]);
      InsertOrders(rows[0], Ascending(rows[1..]));
    }
  }

  /** Candidates come oldest first, ties by id, and a due row that did not fit is no older than any that did. */
  lemma CandidatesAreOldest(db: Db, q: Request, t: Table, limit: nat)
    ensures var c := Candidates(db, q, t, limit);
      && OldestFirst(c)
      && (forall r :: r in RowsOf(db, t) && Selected(db, q, t, r) && r !in c ==> forall i :: 0 <= i < |c| ==> Sooner(c[i], r))
  {
    hide Selected, Sooner, Ascending, Matching;
    var rows := Matching(db, q, t, RowsOf(db, t));
    MatchingFacts(db, q, t, RowsOf(db, t));
    AscendingKeeps(rows);
    AscendingOrders(rows);
    var all, c := Ascending(rows), Candidates(db, q, t, limit);
    forall r, i | r in RowsOf(db, t) && Selected(db, q, t, r) && r !in c && 0 <= i < |c| ensures Sooner(c[i], r) {
      assert r in multiset(rows);
      assert r in multiset(all);
      var k :| 0 <= k < |all| && all[k] == r;
      assert forall m :: 0 <= m < |c| ==> c[m] == all[m] && c[m] in c;
      assert k >= |c|;
    }
  }

  // ----- one table -----

  /** A purge takes out exactly the rows whose id was scanned and not spared. */
  predicate Removed(db: Db, q: Request, t: Table, scanned: seq<Row>, id: string) {
    q.operation == Purge && !q.dryRun && HasId(scanned, id) && !Spared(db, q, t, id)
  }

  /** What a pass over one table's candidates does to the database. */
  ghost predicate Retired(db: Db, q: Request, t: Table, scanned: seq<Row>, db': Db) {
    && db'.published == db.published && db'.locks == db.locks && db.archive <= db'.archive
    && (forall other :: other != t ==> RowsOf(db', other) == RowsOf(db, other))
    && (forall r :: r in RowsOf(db', t) <==> r in RowsOf(db, t) && !Removed(db, q, t, scanned, r.id))
    && (forall r :: r in RowsOf(db, t) && HasId(scanned, r.id) && !Spared(db, q, t, r.id) && !q.dryRun ==> (q.policy, t, r.id) in db'.archive)
    && (forall key :: key in db'.archive && key !in db.archive ==> key.1 == t)
  }

  lemma RetireOne(db: Db, q: Request, t: Table, scanned: seq<Row>, mid: Db, next: Row)
    requires Retired(db, q, t, scanned, mid)
    ensures Retired(db, q, t, scanned + [next], Retire(mid, q, t, next.id))
  {
    var all := scanned + [next];
    forall id ensures HasId(all, id) <==> HasId(scanned, id) || id == next.id {
      assert all[|scanned|] == next;
      if HasId(scanned, id) {
        var i :| 0 <= i < |scanned| && scanned[i].id == id;
        assert all[i].id == id;
      }
    }
    WithoutShrinks(RowsOf(mid, t), next.id);
    RetireStep(db, q, t, scanned, mid, next);
  }

  lemma SparedStays(db: Db, db': Db, q: Request, t: Table, id: string)
    requires db'.locks == db.locks
    ensures Spared(db', q, t, id) == Spared(db, q, t, id)
  {
    hide Held;
  }

  lemma RetireStep(db: Db, q: Request, t: Table, scanned: seq<Row>, mid: Db, next: Row)
    requires Retired(db, q, t, scanned, mid)
    requires forall id :: HasId(scanned + [next], id) <==> HasId(scanned, id) || id == next.id
    requires forall r :: r in Without(RowsOf(mid, t), next.id) <==> r in RowsOf(mid, t) && r.id != next.id
    ensures Retired(db, q, t, scanned + [next], Retire(mid, q, t, next.id))
  {
    hide Without, Spared, HasId;
    SparedStays(db, mid, q, t, next.id);
    var db' := Retire(mid, q, t, next.id);
    RetiredRows(mid, q, t, next.id);
    hide Retire, RowsOf;
    forall r | r in RowsOf(db, t) && HasId(scanned + [next], r.id) && !Spared(db, q, t, r.id) && !q.dryRun
      ensures (q.policy, t, r.id) in db'.archive
    {
      if !HasId(scanned, r.id) {
        assert r in RowsOf(mid, t);
      }
    }
  }

  lemma RetiredRows(db: Db, q: Request, t: Table, id: string)
    ensures var db' := Retire(db, q, t, id);
      && db'.published == db.published && db'.locks == db.locks && db.archive <= db'.archive
      && (forall other :: other != t ==> RowsOf(db', other) == RowsOf(db, other))
      && RowsOf(db', t) == (if q.operation == Purge && !q.dryRun && !Spared(db, q, t, id) then Without(RowsOf(db, t), id) else RowsOf(db, t))
      && (forall r :: r in RowsOf(db, t) && r.id == id && !Spared(db, q, t, id) && !q.dryRun ==> (q.policy, t, id) in db'.archive)
      && (forall key :: key in db'.archive && key !in db.archive ==> key.1 == t)
  {
    hide Spared, Without;
    forall r | r in RowsOf(db, t) && r.id == id ensures HasId(RowsOf(db, t), id) {
      var i :| 0 <= i < |RowsOf(db, t)| && RowsOf(db, t)[i] == r;
    }
  }

  lemma {:induction false} RetireAllFacts(db: Db, q: Request, t: Table, scanned: seq<Row>)
    ensures var done := RetireAll(db, q, t, scanned); Retired(db, q, t, scanned, done.0) && done.1.scanned == |scanned|
    decreases |scanned|
  {
    hide Retired, Retire, Spared;
    if scanned == [] {
      NothingRetired(db, q, t, scanned);
    } else {
      var rest, last := scanned[..|scanned| - 1], scanned[|scanned| - 1];
      RetireAllFacts(db, q, t, rest);
      RetireOne(db, q, t, rest, RetireAll(db, q, t, rest).0, last);
      assert rest + [last] == scanned;
    }
  }

  lemma NothingRetired(db: Db, q: Request, t: Table, scanned: seq<Row>)
    requires scanned == []
    ensures Retired(db, q, t, scanned, db)
  {
  }

  // ----- a whole batch -----

  predicate DistinctTables(specs: seq<Table>) {
    forall i, j :: 0 <= i < j < |specs| ==> specs[i] != specs[j]
  }

  predicate DistinctIds(rows: seq<Row>) {
    forall i, j :: 0 <= i < j < |rows| ==> rows[i].id != rows[j].id
  }

  /** Every row that has gone was due, not spared, and is archived. */
  ghost predicate Justified(db: Db, q: Request, specs: seq<Table>, db': Db) {
    && db'.published == db.published && db'.locks == db.locks && db.archive <= db'.archive
    && (forall t, r :: r in RowsOf(db', t) ==> r in RowsOf(db, t))
    && (forall t :: t !in specs ==> RowsOf(db', t) == RowsOf(db, t))
    && (forall key :: key in db'.archive && key !in db.archive ==> key.1 in specs)
    && (forall t, r :: r in RowsOf(db, t) && r !in RowsOf(db', t) ==>
          && q.operation == Purge && !q.dryRun && t in specs && !Spared(db, q, t, r.id) && (q.policy, t, r.id) in db'.archive
          && DueUnder(db, q, t, r.id))
  }

  /** Some row under the id is eligible: with unique ids, the row itself. */
  predicate DueUnder(db: Db, q: Request, t: Table, id: string) {
    exists i :: 0 <= i < |RowsOf(db, t)| && RowsOf(db, t)[i].id == id && Eligible(db, t, RowsOf(db, t)[i], q.cutoff)
  }

  /** Nothing that was due is left unvisited: it is spared, purged, or archived. */
  predicate Settled(db: Db, q: Request, t: Table, db': Db) {
    forall r :: r in RowsOf(db, t) && Eligible(db, t, r, q.cutoff) && !q.dryRun ==>
      || Spared(db, q, t, r.id)
      || (if q.operation == Purge then r !in RowsOf(db', t) else (q.policy, t, r.id) in db'.archive)
  }

  lemma TableIsJustified(db: Db, q: Request, t: Table, limit: nat)
    ensures var done := ProcessTable(db, q, t, limit);
      && Justified(db, q, [t], done.0) && done.1.scanned <= limit && (done.1.done ==> Settled(db, q, t, done.0))
  {
    hide Eligible, Spared, RetireAll, Candidates;
    var scanned := Candidates(db, q, t, limit);
    CandidatesFacts(db, q, t, limit);
    RetireAllFacts(db, q, t, scanned);
    var db' := ProcessTable(db, q, t, limit).0;
    forall r | r in RowsOf(db, t) && r !in RowsOf(db', t) ensures DueUnder(db, q, t, r.id) {
      var i :| 0 <= i < |scanned| && scanned[i].id == r.id;
      assert scanned[i] in scanned && scanned[i] in RowsOf(db, t);
    }
    assert forall t' :: t' in [t] <==> t' == t;
    if |scanned| < limit {
      forall r | r in RowsOf(db, t) && Eligible(db, t, r, q.cutoff) && !q.dryRun && !Spared(db, q, t, r.id)
        ensures if q.operation == Purge then r !in RowsOf(db', t) else (q.policy, t, r.id) in db'.archive
      {
        if Selected(db, q, t, r) {
          assert r in scanned && HasId(scanned, r.id) by { var i :| 0 <= i < |scanned| && scanned[i] == r; }
        }
      }
    }
  }

  lemma {:induction false} TablesAreJustified(db: Db, q: Request, specs: seq<Table>, remaining: int)
    requires DistinctTables(specs)
    ensures var done := ProcessTables(db, q, specs, remaining);
      && Justified(db, q, specs, done.0)
      && (remaining >= 0 ==> done.1.scanned <= remaining)
      && (done.1.done ==> forall t :: t in specs ==> Settled(db, q, t, done.0))
    decreases |specs|
  {
    hide ProcessTable, Justified, Settled;
    if specs == [] {
      NothingChanged(db, q, specs);
    } else if remaining <= 0 {
      NothingChanged(db, q, specs);
      assert ProcessTables(db, q, specs, remaining) == (db, Outcome(0, 0, 0, 0, false));
    } else {
      var t, rest := specs[0], specs[1..];
      var one := ProcessTable(db, q, t, remaining);
      TableIsJustified(db, q, t, remaining);
      TablesAreJustified(one.0, q, rest, remaining - one.1.scanned);
      var done := ProcessTables(one.0, q, rest, remaining - one.1.scanned);
      assert specs == [t] + rest;
      assert t !in rest;
      BothJustified(db, q, t, rest, one.0, done.0);
      if one.1.done && done.1.done {
        forall t' | t' in specs ensures Settled(db, q, t', done.0) {
          if t' == t {
            SettledStays(db, q, t, rest, one.0, done.0);
          } else {
            SettledBefore(db, q, t, t', one.0, done.0);
          }
        }
      }
    }
  }

  lemma NothingChanged(db: Db, q: Request, specs: seq<Table>)
    ensures Justified(db, q, specs, db)
  {
    hide Eligible, Spared;
  }

  lemma SameElsewhere(db: Db, q: Request, t: Table, db': Db, other: Table)
    requires Justified(db, q, [t], db') && other != t
    ensures RowsOf(db', other) == RowsOf(db, other)
    ensures forall r, cutoff :: Eligible(db', other, r, cutoff) == Eligible(db, other, r, cutoff)
    ensures forall id :: Spared(db', q, other, id) == Spared(db, q, other, id)
    ensures forall id :: DueUnder(db', q, other, id) == DueUnder(db, q, other, id)
  {
    hide Held;
  }

  lemma GoneRow(db: Db, q: Request, specs: seq<Table>, db': Db, t: Table, r: Row)
    requires Justified(db, q, specs, db') && r in RowsOf(db, t) && r !in RowsOf(db', t)
    ensures q.operation == Purge && !q.dryRun && t in specs && !Spared(db, q, t, r.id)
    ensures (q.policy, t, r.id) in db'.archive && DueUnder(db, q, t, r.id)
  {
  }

  lemma BothJustified(db: Db, q: Request, t: Table, rest: seq<Table>, mid: Db, db': Db)
    requires t !in rest && Justified(db, q, [t], mid) && Justified(mid, q, rest, db')
    ensures Justified(db, q, [t] + rest, db')
  {
    hide Eligible, Spared, DueUnder;
    assert forall x :: x in [t] + rest <==> x == t || x in rest;
    assert forall x :: x in [t] <==> x == t;
    forall t', r | r in RowsOf(db, t') && r !in RowsOf(db', t')
      ensures t' in [t] + rest && !Spared(db, q, t', r.id)
      ensures (q.policy, t', r.id) in db'.archive && DueUnder(db, q, t', r.id)
    {
      if r in RowsOf(mid, t') {
        GoneRow(mid, q, rest, db', t', r);
        SameElsewhere(db, q, t, mid, t');
      } else {
        GoneRow(db, q, [t], mid, t', r);
      }
    }
    forall t', r | r in RowsOf(db, t') && r !in RowsOf(db', t') ensures q.operation == Purge && !q.dryRun {
      if r in RowsOf(mid, t') { GoneRow(mid, q, rest, db', t', r); } else { GoneRow(db, q, [t], mid, t', r); }
    }
    forall t', r | r in RowsOf(db', t') ensures r in RowsOf(db, t') {
      assert r in RowsOf(mid, t');
    }
    forall t' | t' !in [t] + rest ensures RowsOf(db', t') == RowsOf(db, t') {
      assert t' !in [t] && t' !in rest;
    }
    forall key | key in db'.archive && key !in db.archive ensures key.1 in [t] + rest {
      assert key in mid.archive ==> key.1 in [t];
    }
  }

  lemma SettledStays(db: Db, q: Request, t: Table, rest: seq<Table>, mid: Db, db': Db)
    requires t !in rest && Settled(db, q, t, mid) && Justified(mid, q, rest, db')
    ensures Settled(db, q, t, db')
  {
    hide Eligible, Spared, DueUnder;
  }

  lemma SettledBefore(db: Db, q: Request, t: Table, t': Table, mid: Db, db': Db)
    requires t != t' && Justified(db, q, [t], mid) && Settled(mid, q, t', db')
    ensures Settled(db, q, t', db')
  {
    SameElsewhere(db, q, t, mid, t');
    hide Eligible, Spared, DueUnder, Justified;
  }

  // ----- main results -----

  lemma SpecsAreDistinct(policy: string)
    ensures DistinctTables(Specs(policy))
  {
  }

  /** Of two candidates the one listed first is older, or as old under a smaller or the same id. */
  lemma OlderComesFirst(db: Db, q: Request, t: Table, limit: nat, i: nat, j: nat)
    requires i < j < |Candidates(db, q, t, limit)|
    ensures var c := Candidates(db, q, t, limit);
      Less(c[i].at, c[j].at) || (c[i].at == c[j].at && (Less(c[i].id, c[j].id) || c[i].id == c[j].id))
  {
    CandidatesAreOldest(db, q, t, limit);
    hide Candidates;
    var c := Candidates(db, q, t, limit);
    assert Sooner(c[i], c[j]);
  }

  // ----- what is due, held and spared, column by column -----

  /** A row is due when its time column is filled and not after the cutoff text, and its table lets it go. */
  predicate MayGo(db: Db, t: Table, r: Row, cutoff: string) {
    && r.at != "" && (r.at == cutoff || Less(r.at, cutoff))
    && (t == Items ==> !r.open)
    && (t == Groups ==> r.status == "resolved")
    && (t == Plans ==> r.status == "planned" || r.status == "failed" || r.status == "cancelled")
    && (t == Events ==> r.status == "materialized" || r.status == "failed")
    && (t == Versions ==> r.key in db.published && r.version < db.published[r.key])
    && (t == Requests ==> r.status == "published" || r.status == "rejected" || r.status == "failed" || r.status == "cancelled")
  }

  lemma EligibleIff(db: Db, t: Table, r: Row, cutoff: string)
    ensures Eligible(db, t, r, cutoff) <==> MayGo(db, t, r, cutoff)
  {
  }

  /** A hold in force covers the row: of this module or of any, of its table or of any, for its id or for all. */
  predicate Covered(q: Request, t: Table, id: string) {
    exists h :: h in q.holds && h.starts <= q.now && (h.ends.Some? ==> q.now < h.ends.value)
                && h.owner in {"", "notification"} && h.resourceType in {"", Name(t)} && h.resourceId in {"", id}
  }

  lemma HeldIff(q: Request, t: Table, id: string)
    ensures Held(q, t, id) <==> Covered(q, t, id)
    ensures forall db :: Spared(db, q, t, id) <==> Covered(q, t, id) || (t == Requests && q.operation == Purge && id in db.locks)
  {
    if Held(q, t, id) {
      var i :| 0 <= i < |q.holds| && HoldApplies(q.holds[i], t, id, q.now);
      assert q.holds[i] in q.holds;
    }
    if Covered(q, t, id) {
      var h :| h in q.holds && h.starts <= q.now && (h.ends.Some? ==> q.now < h.ends.value)
               && h.owner in {"", "notification"} && h.resourceType in {"", Name(t)} && h.resourceId in {"", id};
      var i :| 0 <= i < |q.holds| && q.holds[i] == h;
      assert HoldApplies(q.holds[i], t, id, q.now);
    }
  }

  /** Each policy's tables, in the order in which a batch works through them. */
  lemma PolicyTables()
    ensures Specs("notification_history") == [Items, Groups, Plans, Events, Failures, Reservations]
    ensures Specs("notification_publication") == [Versions, Requests]
    ensures forall policy :: policy != "notification_history" && policy != "notification_publication" ==> Specs(policy) == []
    ensures forall t, t' :: Name(t) == Name(t') ==> t == t'
  {
    NamesDiffer();
  }

  lemma NamesDiffer()
    ensures forall t, t' :: Name(t) == Name(t') ==> t == t'
  {
    var prefix := "_notification_";
    assert |Name(Items)| == 25 && |Name(Groups)| == 26 && |Name(Plans)| == 27 && |Name(Events)| == 20 && |Name(Failures)| == 28;
    assert |Name(Reservations)| == 35 && |Name(Versions)| == 31 && |Name(Requests)| == 43;
  }

  /** A batch deletes a row only if some row under its id is due, nothing in force covers it, and no lock of a request stands. */
  lemma OnlyDueRowsGo(db: Db, q: Request, t: Table, r: Row)
    requires r in RowsOf(db, t) && r !in RowsOf(ProcessTables(db, q, Specs(q.policy), q.limit).0, t)
    ensures q.operation == Purge && !q.dryRun && !Covered(q, t, r.id) && (t == Requests ==> r.id !in db.locks)
    ensures exists due :: due in RowsOf(db, t) && due.id == r.id && MayGo(db, t, due, q.cutoff)
  {
    hide ProcessTables, Specs, RowsOf, Eligible, Held, HoldApplies, Covered, MayGo;
    DeletionsAreJustified(db, q, t, r);
    HeldIff(q, t, r.id);
    var due :| due in RowsOf(db, t) && due.id == r.id && Eligible(db, t, due, q.cutoff);
    EligibleIff(db, t, due, q.cutoff);
  }

  /**
   * A batch never scans more than its limit; a row it deletes was due, was neither held nor locked, and is
   * archived under the policy.
   */
  lemma DeletionsAreJustified(db: Db, q: Request, t: Table, r: Row)
    requires r in RowsOf(db, t)
    ensures var done := ProcessTables(db, q, Specs(q.policy), q.limit);
      && done.1.scanned <= q.limit
      && (r !in RowsOf(done.0, t) ==>
            && q.operation == Purge && !q.dryRun && !Held(q, t, r.id) && (t == Requests ==> r.id !in db.locks)
            && (q.policy, t, r.id) in done.0.archive && DueUnder(db, q, t, r.id))
  {
    hide Held, DueUnder, ProcessTables, Specs;
    SpecsAreDistinct(q.policy);
    TablesAreJustified(db, q, Specs(q.policy), q.limit);
  }

  /** The version a template currently publishes, and any later one, is never purged. */
  lemma CurrentVersionStays(db: Db, q: Request, r: Row)
    requires r in RowsOf(db, Versions) && DistinctIds(RowsOf(db, Versions))
    requires r.key !in db.published || r.version >= db.published[r.key]
    ensures r in RowsOf(ProcessTables(db, q, Specs(q.policy), q.limit).0, Versions)
  {
    hide ProcessTables, Specs, Held;
    DeletionsAreJustified(db, q, Versions, r);
    var k :| 0 <= k < |RowsOf(db, Versions)| && RowsOf(db, Versions)[k] == r;
  }

  /** Done means done: afterwards every due row of every table of the policy is spared, or gone, or (for an archive pass) archived. */
  lemma DoneMeansEveryDueRowVisited(db: Db, q: Request, t: Table)
    requires t in Specs(q.policy) && ProcessTables(db, q, Specs(q.policy), q.limit).1.done
    ensures Settled(db, q, t, ProcessTables(db, q, Specs(q.policy), q.limit).0)
  {
    hide Settled, ProcessTables, Specs;
    SpecsAreDistinct(q.policy);
    TablesAreJustified(db, q, Specs(q.policy), q.limit);
  }

  // ----- counters -----

  lemma CountOne(db: Db, q: Request, t: Table, id: string)
    ensures var db', o := Retire(db, q, t, id), Count(db, q, t, id);
      && |RowsOf(db, t)| == |RowsOf(db', t)| + o.purged
      && |db'.archive| == |db.archive| + o.archived
  {
    hide Held;
    WithoutShrinks(RowsOf(db, t), id);
    var entry := (q.policy, t, id);
    assert db.archive + {entry} == (if entry in db.archive then db.archive else db.archive + {entry});
  }

  /** The counters are exact: rows purged are rows gone, entries archived are entries new, and every scanned row is counted. */
  lemma {:induction false} CountersAreExact(db: Db, q: Request, t: Table, scanned: seq<Row>)
    ensures var done := RetireAll(db, q, t, scanned);
      && |RowsOf(db, t)| == |RowsOf(done.0, t)| + done.1.purged
      && |done.0.archive| == |db.archive| + done.1.archived
      && done.1.scanned == |scanned| && done.1.skipped + done.1.archived <= |scanned|
    decreases |scanned|
  {
    if scanned != [] {
      var rest, id := scanned[..|scanned| - 1], scanned[|scanned| - 1].id;
      CountersAreExact(db, q, t, rest);
      CountOne(RetireAll(db, q, t, rest).0, q, t, id);
      hide Spared, Retire;
    }
  }

  // ----- progress -----

  lemma {:induction false} SparedRetireNothing(db: Db, q: Request, t: Table, scanned: seq<Row>)
    requires forall i :: 0 <= i < |scanned| ==> Spared(db, q, t, scanned[i].id)
    ensures RetireAll(db, q, t, scanned).0 == db
    decreases |scanned|
  {
    hide Spared;
    if scanned != [] {
      SparedRetireNothing(db, q, t, scanned[..|scanned| - 1]);
      assert Spared(db, q, t, scanned[|scanned| - 1].id);
      RetireSpared(db, q, t, scanned[|scanned| - 1].id);
    }
  }

  lemma RetireSpared(db: Db, q: Request, t: Table, id: string)
    requires Spared(db, q, t, id)
    ensures Retire(db, q, t, id) == db
  {
  }

  /**
   * Spared rows are selected again every time. A purge pass over a table changes nothing exactly when all
   * its candidates are spared, so a limit's worth of held rows at the old end stalls the policy for good.
   */
  lemma PurgeStallsIff(db: Db, q: Request, t: Table, limit: nat)
    requires q.operation == Purge && !q.dryRun
    ensures ProcessTable(db, q, t, limit).0 == db <==>
              forall i :: 0 <= i < |Candidates(db, q, t, limit)| ==> Spared(db, q, t, Candidates(db, q, t, limit)[i].id)
  {
    hide Spared, Candidates;
    var scanned := Candidates(db, q, t, limit);
    CandidatesFacts(db, q, t, limit);
    RetireAllFacts(db, q, t, scanned);
    if i :| 0 <= i < |scanned| && !Spared(db, q, t, scanned[i].id) {
      assert scanned[i] in scanned && scanned[i] in RowsOf(db, t);
      assert HasId(scanned, scanned[i].id);
      assert scanned[i] !in RowsOf(ProcessTable(db, q, t, limit).0, t);
    } else {
      SparedRetireNothing(db, q, t, scanned);
    }
  }

  predicate AllSpared(db: Db, q: Request, t: Table, limit: nat) {
    forall i :: 0 <= i < |Candidates(db, q, t, limit)| ==> Spared(db, q, t, Candidates(db, q, t, limit)[i].id)
  }

  /** Every table that a batch gets to, under what is then left of its limit, has only spared candidates. */
  predicate Stalled(db: Db, q: Request, specs: seq<Table>, remaining: int)
    decreases |specs|
  {
    specs == [] || remaining <= 0 ||
    (AllSpared(db, q, specs[0], remaining) && Stalled(db, q, specs[1..], remaining - |Candidates(db, q, specs[0], remaining)|))
  }

  lemma PurgeChangesRows(db: Db, q: Request, t: Table, limit: nat) returns (gone: Row)
    requires q.operation == Purge && !q.dryRun && !AllSpared(db, q, t, limit)
    ensures gone in RowsOf(db, t) && gone !in RowsOf(ProcessTable(db, q, t, limit).0, t)
  {
    hide Spared, Candidates;
    var scanned := Candidates(db, q, t, limit);
    CandidatesFacts(db, q, t, limit);
    RetireAllFacts(db, q, t, scanned);
    var i :| 0 <= i < |scanned| && !Spared(db, q, t, scanned[i].id);
    gone := scanned[i];
    assert gone in scanned && gone in RowsOf(db, t) && HasId(scanned, gone.id);
  }

  /** A purge batch changes nothing exactly when every table it gets to has only spared candidates. */
  lemma {:induction false} BatchStallsIff(db: Db, q: Request, specs: seq<Table>, remaining: int)
    requires q.operation == Purge && !q.dryRun && DistinctTables(specs)
    ensures ProcessTables(db, q, specs, remaining).0 == db <==> Stalled(db, q, specs, remaining)
    decreases |specs|
  {
    hide AllSpared, ProcessTable, Candidates;
    if specs != [] && remaining > 0 {
      var t, rest := specs[0], specs[1..];
      var one := ProcessTable(db, q, t, remaining);
      ScannedCandidates(db, q, t, remaining);
      if AllSpared(db, q, t, remaining) {
        AllSparedChangesNothing(db, q, t, remaining);
        BatchStallsIff(db, q, rest, remaining - one.1.scanned);
      } else {
        var gone := PurgeChangesRows(db, q, t, remaining);
        TablesAreJustified(one.0, q, rest, remaining - one.1.scanned);
        assert gone !in RowsOf(ProcessTables(one.0, q, rest, remaining - one.1.scanned).0, t);
      }
    }
  }

  lemma ScannedCandidates(db: Db, q: Request, t: Table, limit: nat)
    ensures ProcessTable(db, q, t, limit).1.scanned == |Candidates(db, q, t, limit)|
  {
    hide Candidates;
    RetireAllFacts(db, q, t, Candidates(db, q, t, limit));
  }

  lemma AllSparedChangesNothing(db: Db, q: Request, t: Table, limit: nat)
    requires q.operation == Purge && !q.dryRun && AllSpared(db, q, t, limit)
    ensures ProcessTable(db, q, t, limit).0 == db
  {
    PurgeStallsIff(db, q, t, limit);
  }

  /** In particular a stalled first table takes the whole batch with it: the limit is used up, nothing changes, and it is not done. */
  lemma StalledBatchRepeats(db: Db, q: Request)
    requires Specs(q.policy) != [] && q.operation == Purge && !q.dryRun && q.limit > 0
    requires var first := Candidates(db, q, Specs(q.policy)[0], q.limit);
      |first| == q.limit && forall i :: 0 <= i < |first| ==> Spared(db, q, Specs(q.policy)[0], first[i].id)
    ensures var done := ProcessTables(db, q, Specs(q.policy), q.limit); done.0 == db && !done.1.done && done.1.scanned == q.limit
  {
    hide Spared, Candidates, Specs;
    var t, rest := Specs(q.policy)[0], Specs(q.policy)[1..];
    PurgeStallsIff(db, q, t, q.limit);
    RetireAllFacts(db, q, t, Candidates(db, q, t, q.limit));
    assert ProcessTables(db, q, rest, 0).0 == db;
  }
}
