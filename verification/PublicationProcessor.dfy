/**
 * The publication processor as sequential code. Between any two of its store calls it lets a
 * script of rival actions run, and every method shows that the whole execution is a run of the
 * publication machine. Safety of the machine therefore covers this code under any interleaving.
 */
module PublicationProcessor {
  import opened Prelude
  import opened TemplateModel
  import opened TemplateStore
  import opened PublicationMachine
  import opened PublicationInvariants
  import opened PublicationSafety
  import Alone = PublicationOutcomes

  predicate Rivals(script: seq<seq<Action>>, me: nat) {
    forall i, j :: 0 <= i < |script| && 0 <= j < |script[i]| ==> !ActsAs(script[i][j], me)
  }

  lemma {:induction false} RunSnoc(g: Global, actions: seq<Action>, a: Action)
    ensures Run(g, actions + [a]) == Step(Run(g, actions), a)
  {
    RunAppend(g, actions, [a]);
    assert Run(Run(g, actions), [a]) == Run(Step(Run(g, actions), a), []);
    hide Step;
  }

  lemma NewRequestKey(l: Local, now: Time)
    requires l.Requesting? && l.record.draft.Some?
    ensures NewRequest(l, now).key == l.key
  {
  }

  lemma FinishEnds(t: Tables, id: RequestId, seen: TemplateModel.Request, status: RequestStatus, version: int, failure: string, now: Time)
    requires Alone.Held(t, id, seen) && !status.Open()
    ensures var done := TransitionRequest(t, id, Publishing, FinishTransition(Finishing(id, seen, status, version, failure), now));
      && done.1.Ok? && id in done.0.requests && done.1.value == done.0.requests[id]
      && Alone.SameRecords(t, done.0) && Alone.EndsAs(t, id, seen, status, version, failure, now, done.0)
  {
  }

  lemma CommitStep(t: Tables, id: RequestId, seen: TemplateModel.Request, record: Record, c: Choice)
    requires record.draft.Some? && Later(t, seen.key, c.now)
    ensures var done := Publish(t, PublishedValue(record), Some(seen.draftUpdatedAt), seen.reviewedBy, c.now);
      if done.1.Err? || seen.key !in t.records then WorkerStep(t, Committing(id, seen, record), c) == Outcome(done.0, Recovering(id, seen), None)
      else
        WorkerStep(t, Committing(id, seen, record), c)
        == Outcome(done.0, if c.yes then Finishing(id, seen, Published, done.1.value.publishedVersion, "") else Recovering(id, seen),
                   Some(Commit(id, seen.key, t.records[seen.key].publishedVersion, done.1.value.publishedVersion)))
  {
    hide Publish, PublishedValue;
  }

  lemma RecoverStep(t: Tables, id: RequestId, seen: TemplateModel.Request, c: Choice)
    ensures WorkerStep(t, Recovering(id, seen), c) == Outcome(t, Recover(t, id, seen), None)
  {
  }

  /** The finishing transition: refused, or the version rows stay and the request carries the outcome. */
  lemma FinishStep(t: Tables, l: Local, c: Choice)
    requires l.Finishing?
    ensures var done := TransitionRequest(t, l.id, Publishing, FinishTransition(l, c.now));
      && WorkerStep(t, l, c) == Outcome(done.0, Idle, None) && (done.1.Err? ==> done.0 == t)
      && (done.1.Ok? ==> done.1.value.status == l.outcome && done.1.value.publishedVersion == l.version)
      && (VersionMatches(t, l.seen.key, l.version, l.seen.candidateHash) ==> VersionMatches(done.0, l.seen.key, l.version, l.seen.candidateHash))
  {
  }

  lemma KeptIdentity(t: Tables, t': Tables, id: RequestId)
    requires Evolves(t, t') && id in t.requests
    ensures id in t'.requests && t'.requests[id].key == t.requests[id].key && t'.requests[id].candidateHash == t.requests[id].candidateHash
  {
    hide RecordsEvolve;
  }

  lemma SeenHash(t: Tables, l: Local)
    requires LocalOk(t, l) && l.Finishing?
    ensures l.id in t.requests && t.requests[l.id].key == l.seen.key && t.requests[l.id].candidateHash == l.seen.candidateHash
    ensures l.outcome == Published ==> VersionMatches(t, l.seen.key, l.version, l.seen.candidateHash)
  {
    hide VersionMatches;
  }

  lemma InspectStep(t: Tables, id: RequestId, seen: TemplateModel.Request, c: Choice)
    ensures WorkerStep(t, Inspecting(id, seen), c) == Outcome(t, Inspect(t, id, seen), None)
    ensures Inspect(t, id, seen).Finishing? || Inspect(t, id, seen) == Preparing(id, seen)
    ensures Inspect(t, id, seen).Finishing? ==> Inspect(t, id, seen).id == id && Inspect(t, id, seen).seen == seen && !Inspect(t, id, seen).outcome.Open()
  {
  }

  /** What the worker decides on the record it reads. */
  lemma InspectDecides(t: Tables, id: RequestId, seen: TemplateModel.Request)
    requires seen.candidateHash == CandidateHash(seen.snapshot)
    ensures Inspect(t, id, seen) ==
            if Alone.AlreadyPublished(t, seen) then Finishing(id, seen, Published, t.records[seen.key].publishedVersion, "")
            else if !Alone.StillApproved(t, seen) then Finishing(id, seen, Superseded, 0, Alone.CHANGED)
            else Preparing(id, seen)
  {
  }

  lemma CommittedIsApproved(t: Tables, seen: TemplateModel.Request, now: Time, t': Tables)
    requires Alone.Committed(t, seen.key, seen.reviewedBy, now, t') && Alone.StillApproved(t, seen)
    ensures seen.key in t'.records && t'.records[seen.key].published.Some? && Alone.HasApproved(t', seen)
  {
  }

  lemma SameApproved(t: Tables, mid: Tables, seen: TemplateModel.Request)
    requires Alone.SameRecords(t, mid)
    ensures Alone.HasApproved(t, seen) <==> Alone.HasApproved(mid, seen)
  {
  }

  /** Where the requests and locks are the same, so are a held request and its end. */
  lemma SameRequests(t: Tables, mid: Tables, id: RequestId, seen: TemplateModel.Request, now: Time)
    ensures mid.requests == t.requests && mid.locks == t.locks ==>
              && (Alone.Held(mid, id, seen) <==> Alone.Held(t, id, seen))
              && forall status, version, failure, t' ::
                   Alone.EndsAs(mid, id, seen, status, version, failure, now, t') ==> Alone.EndsAs(t, id, seen, status, version, failure, now, t')
  {
  }

  lemma SameCommit(t: Tables, key: Key, reviewer: string, now: Time, mid: Tables, t': Tables)
    requires Alone.Committed(t, key, reviewer, now, mid)
    ensures Alone.SameRecords(mid, t') ==> Alone.Committed(t, key, reviewer, now, t')
  {
  }

  /** The publish transaction of a draft that has not moved: it commits exactly when it names a key and a reviewer. */
  lemma CommitsAlone(t: Tables, seen: TemplateModel.Request, now: Time, at: Time)
    requires TablesOk(t) && Alone.StillApproved(t, seen)
    requires at == if now <= t.records[seen.key].updatedAt then t.records[seen.key].updatedAt + 1 else now
    ensures var done := Publish(t, PublishedValue(t.records[seen.key]), Some(seen.draftUpdatedAt), seen.reviewedBy, at);
      && (done.1.Ok? <==> seen.key != "" && seen.reviewedBy != "") && (done.1.Err? ==> done.0 == t)
      && (done.1.Ok? ==>
            && Alone.Committed(t, seen.key, seen.reviewedBy, now, done.0) && done.0.requests == t.requests && done.0.locks == t.locks
            && done.1.value == done.0.records[seen.key])
  {
    hide RequestsOk;
    assert RecordOk(t, seen.key);
    var record := t.records[seen.key];
    assert record.draft.value.key == seen.key;
    if (seen.key, NextVersion(record)) in t.versions { assert VersionOk(t, (seen.key, NextVersion(record))); }
  }

  lemma InsertedIsRequested(t: Tables, local: Local, now: Time)
    requires local.Requesting? && local.record.draft.Some? && local.key in t.records && local.record == t.records[local.key] && local.id !in t.requests
    ensures Alone.RequestedAs(t, local.id, local.key, local.scheduledFor, local.actor, now,
                              t.(requests := t.requests[local.id := NewRequest(local, now)], locks := t.locks[local.key := local.id]))
  {
  }

  /** A review's guarded update: it goes through exactly when the status is the one that was read. */
  lemma ReviewMoves(t: Tables, id: RequestId, from: RequestStatus, x: Transition)
    requires id in t.requests && from != Publishing && x.expectedOwner == "" && x.reviewedAt == Some(x.updatedAt) && x.publishedVersion == 0
    requires x.status == Scheduled || !x.status.Open()
    ensures var done := TransitionRequest(t, id, from, x);
      && (done.1.Ok? <==> id != "" && t.requests[id].status == from)
      && (done.1.Ok? ==>
            && id in done.0.requests && done.1.value == done.0.requests[id]
            && Alone.ReviewedAs(t, id, x.status, x.scheduledFor, x.reviewedBy, x.failure, x.updatedAt, done.0))
      && (done.1.Err? ==> done.0 == t && done.1.error in {Invalid, Conflict})
  {
  }

  lemma ClaimSucceedsIff(g: Global, w: nat, id: RequestId, owner: string, now: Time, expires: Time)
    requires LocalOf(g, w).Idle?
    ensures var claim := ClaimRequest(g.tables, id, owner, now, expires);
      && (claim.1 == Ok(true) <==> owner != "" && Alone.Ready(g.tables, id, now)) && (claim.1 != Ok(true) ==> claim.0 == g.tables)
      && (claim.1 == Ok(true) ==>
            && Step(g, StartClaim(w, id, owner, now, expires)) == g.(tables := claim.0, workers := g.workers[w := Claimed(id)])
            && var r := g.tables.requests[id];
               var seen := r.(status := Publishing, leaseOwner := owner, leaseExpiresAt := Some(expires), fencingToken := r.fencingToken + 1, updatedAt := now);
               id in claim.0.requests && claim.0.requests[id] == seen && Alone.Held(claim.0, id, seen))
  {
  }

  /** The claim and the claimed request's end together. */
  lemma ClaimedConcludes(t: Tables, mid: Tables, id: RequestId, owner: string, allowed: bool, valid: bool, now: Time, expires: Time, t': Tables)
    requires mid == ClaimRequest(t, id, owner, now, expires).0 && owner != "" && Alone.Ready(t, id, now)
    requires id in mid.requests && Alone.Concludes(mid, id, mid.requests[id], allowed, valid, now, t')
    ensures Alone.Processed(t, id, owner, allowed, valid, now, expires, t')
  {
    hide Alone.Concludes;
  }

  lemma ReadBackStep(t: Tables, id: RequestId, c: Choice)
    ensures WorkerStep(t, Claimed(id), c) == Outcome(t, if id in t.requests then Authorizing(id, t.requests[id]) else Idle, None)
  {
  }

  ghost predicate ReadyAt(t: Tables, entry: (RequestId, bool, bool, bool), owner: string, now: Time) {
    owner != "" && Alone.Ready(t, entry.0, now)
  }

  /** One turn of the due list. */
  ghost predicate Turn(t: Tables, entry: (RequestId, bool, bool, bool), owner: string, now: Time, expires: Time, t': Tables) {
    if ReadyAt(t, entry, owner, now) then Alone.Processed(t, entry.0, owner, entry.1, entry.2, now, expires, t') else t' == t
  }

  /** The first `n` turns of a due list, and which of them found their request ready. */
  ghost predicate TurnsOk(states: seq<Tables>, ready: set<int>, due: seq<(RequestId, bool, bool, bool)>, n: nat, owner: string, now: Time, expires: Time) {
    && n < |states| && n <= |due| && (forall j :: j in ready ==> 0 <= j < n)
    && forall i :: 0 <= i < n ==> Turn(states[i], due[i], owner, now, expires, states[i + 1]) && (i in ready <==> ReadyAt(states[i], due[i], owner, now))
  }

  lemma NoTurns(states: seq<Tables>, ready: set<int>, due: seq<(RequestId, bool, bool, bool)>, owner: string, now: Time, expires: Time)
    requires |states| == 1 && ready == {}
    ensures TurnsOk(states, ready, due, 0, owner, now, expires)
  {
  }

  lemma OneMoreTurn(states: seq<Tables>, ready: set<int>, due: seq<(RequestId, bool, bool, bool)>, n: nat, owner: string, now: Time, expires: Time,
                    t': Tables, ready': set<int>)
    requires n < |due| && |states| == n + 1 && TurnsOk(states, ready, due, n, owner, now, expires)
    requires if ReadyAt(states[n], due[n], owner, now)
             then ready' == ready + {n} && Alone.Processed(states[n], due[n].0, owner, due[n].1, due[n].2, now, expires, t')
             else ready' == ready && t' == states[n]
    ensures TurnsOk(states + [t'], ready', due, n + 1, owner, now, expires)
  {
    hide Alone.Processed, ReadyAt;
    assert Turn(states[n], due[n], owner, now, expires, t');
    hide Turn;
  }

  lemma AllTurns(states: seq<Tables>, ready: set<int>, due: seq<(RequestId, bool, bool, bool)>, owner: string, now: Time, expires: Time)
    requires TurnsOk(states, ready, due, |due|, owner, now, expires)
    ensures forall i :: 0 <= i < |due| ==> Turn(states[i], due[i], owner, now, expires, states[i + 1])
    ensures |ready| == |set i | 0 <= i < |due| && ReadyAt(states[i], due[i], owner, now)|
  {
    hide Turn, ReadyAt;
    assert ready == set i | 0 <= i < |due| && ReadyAt(states[i], due[i], owner, now);
  }

  class Processor {
    const store: Store
    const me: nat
    const workerID: string
    var workers: map<nat, Local>
    var commits: seq<Commit>
    var script: seq<seq<Action>>
    ghost var origin: Global
    ghost var trace: seq<Action>

    function Now(): Global
      reads this, store
    {
      Global(store.Contents(), workers, commits)
    }

    function Standing(): Local
      reads this
    {
      if me in workers then workers[me] else Idle
    }

    /** Everything so far is one run of the machine from the origin. */
    ghost predicate Valid()
      reads this, store
    {
      Run(origin, trace) == Now() && Rivals(script, me)
    }

    twostate predicate Continues()
      reads this
    {
      origin == old(origin) && old(trace) <= trace
    }

    constructor (store: Store, me: nat, workerID: string, script: seq<seq<Action>>)
      requires Rivals(script, me) && store.Contents() == EMPTY_TABLES
      ensures this.store == store && this.me == me && this.workerID == workerID
      ensures Valid() && origin == INITIAL && Standing().Idle?
    {
      this.store, this.me, this.workerID, this.script := store, me, workerID, script;
      workers, commits := map[], [];
      origin, trace := INITIAL, [];
    }

    /** Everybody else moves: the next entry of the script, however long. */
    method Interleave()
      requires Valid()
      modifies this, store
      ensures Valid() && Continues() && Standing() == old(Standing())
      ensures origin == INITIAL ==> Evolves(old(store.Contents()), store.Contents())
      ensures old(script) == [] ==> Now() == old(Now()) && script == []
    {
      hide Step, Run, Evolves, Inv;
      EvolvesReflexive(store.Contents());
      if script == [] {
        return;
      }
      var actions := script[0];
      script := script[1..];
      for i := 0 to |actions|
        invariant Valid() && Continues() && Standing() == old(Standing())
        invariant origin == INITIAL ==> Evolves(old(store.Contents()), store.Contents())
      {
        if origin == INITIAL {
          ReachedInv(trace);
          StepKeepsInv(Now(), actions[i]);
          EvolvesTransitive(old(store.Contents()), store.Contents(), Step(Now(), actions[i]).tables);
        }
        var next := Step(Now(), actions[i]);
        RivalKeepsLocal(Now(), actions[i], me);
        RunSnoc(origin, trace, actions[i]);
        store.records, store.versions := next.tables.records, next.tables.versions;
        store.requests, store.locks := next.tables.requests, next.tables.locks;
        workers, commits := next.workers, next.commits;
        trace := trace + [actions[i]];
      }
    }

    /** Books this worker's own action after its store call has been made. */
    method Moved(ghost before: Global, a: Action, local: Local, committed: seq<Commit>)
      requires Run(origin, trace) == before && Rivals(script, me)
      requires Step(before, a) == Global(store.Contents(), workers[me := local], commits + committed)
      modifies this
      ensures Valid() && Continues() && Standing() == local && script == old(script)
    {
      hide Run, Rivals, Step;
      RunSnoc(origin, trace, a);
      workers, commits := workers[me := local], commits + committed;
      trace := trace + [a];
    }

    /** Books the worker step that the last store call was. */
    method Wrote(ghost before: Tables, c: Choice, local: Local, commit: Option<Commit>)
      requires Run(origin, trace) == Global(before, workers, commits) && Rivals(script, me)
      requires WorkerStep(before, Standing(), c) == Outcome(store.Contents(), local, commit)
      modifies this
      ensures Valid() && Continues() && Standing() == local && script == old(script)
    {
      hide Run, Rivals, WorkerStep;
      Moved(Global(before, workers, commits), Advance(me, c), local, if commit.Some? then [commit.value] else []);
    }

    // ----- requesting and reviewing -----

    /**
     * Reads the record, checks the lock, then inserts lock and request under what it read: the stored
     * candidate is the draft as it stood when the call began.
     */
    method Request(id: RequestId, key: Key, scheduledFor: Option<Time>, expected: Option<Time>, valid: bool, actor: string, now: Time)
      returns (result: Result<()>)
      requires Valid() && Standing().Idle?
      modifies this, store
      ensures Valid() && Continues() && Standing().Idle?
      ensures result.Ok? ==>
                && key in old(store.records) && old(store.records)[key].draft.Some? && id in store.requests
                && var draft, r := old(store.records)[key].draft.value, store.requests[id];
                   && r.key == key && r.snapshot == draft.(key := key, status := DraftText) && r.candidateHash == CandidateHash(r.snapshot)
                   && r.draftUpdatedAt == old(store.records)[key].updatedAt && (expected.Some? ==> expected.value == r.draftUpdatedAt)
                   && r.status == Pending && r.requestedBy == actor != "" && r.scheduledFor == scheduledFor
                   && (scheduledFor.Some? ==> scheduledFor.value > now)
      ensures old(script) == [] && origin == INITIAL ==>
                var t, t' := old(store.Contents()), store.Contents();
                && script == []
                && (result.Ok? <==>
                      && key != "" && actor != "" && key in t.records && t.records[key].draft.Some?
                      && (expected.Some? ==> expected.value == t.records[key].updatedAt) && !Alone.OpenRequest(t, key)
                      && valid && (scheduledFor.Some? ==> scheduledFor.value > now) && id != "" && id !in t.requests)
                && (result.Ok? ==> Alone.RequestedAs(t, id, key, scheduledFor, actor, now, t'))
                && (result.Err? ==> t' == t)
    {
      hide Run, Rivals, SaveDraft, Disable, Seed, Publish, TransitionRequest, ClaimRequest, Inspect, Recover, HasOpen, CreateRequest, Evolves, Alone.OpenRequest, Alone.RequestedAs;
      if origin == INITIAL {
        OpenMeansLocked(key);
      }
      if key == "" || actor == "" {
        return Err(Invalid);
      }
      if key !in store.records || store.records[key].draft.None? {
        return Err(NotFound);
      }
      var record := store.records[key];
      if expected.Some? && expected.value != record.updatedAt {
        return Err(Conflict);
      }
      Moved(Now(), StartRequest(me, id, key, scheduledFor, actor), Requesting(id, key, record, scheduledFor, actor), []);
      Interleave();
      var locked := store.HasOpenPublicationRequest(key);
      if locked || !valid || (scheduledFor.Some? && scheduledFor.value <= now) {
        Moved(Now(), Crash(me), Idle, []);
        return Err(if locked then Conflict else Invalid);
      }
      ghost var t := store.Contents();
      result := Insert(Requesting(id, key, record, scheduledFor, actor), now);
      if key in t.records && record == t.records[key] && id !in t.requests {
        InsertedIsRequested(t, Requesting(id, key, record, scheduledFor, actor), now);
      }
    }

    /** The insert transaction and, when the lock row is taken, the query that explains it. */
    method Insert(local: Local, now: Time) returns (result: Result<()>)
      requires Valid() && Standing() == local && local.Requesting? && local.record.draft.Some?
      modifies this, store
      ensures Valid() && Continues() && Standing().Idle?
      ensures result.Ok? ==> local.id in store.requests && store.requests[local.id] == NewRequest(local, now)
      ensures old(script) == [] ==>
                var t, t' := old(store.Contents()), store.Contents();
                && script == []
                && (result.Ok? <==> local.id != "" && local.key != "" && local.key !in t.locks && local.id !in t.requests)
                && t' == if result.Ok? then t.(requests := t.requests[local.id := NewRequest(local, now)], locks := t.locks[local.key := local.id]) else t
    {
      hide Run, Rivals, HasOpen, NewRequest;
      Interleave();
      ghost var before := store.Contents();
      var inserted := store.CreatePublicationRequest(local.id, NewRequest(local, now));
      NewRequestKey(local, now);
      Wrote(before, Choice(now, true), if inserted.LockTaken? then Explaining(local.id, local.key) else Idle, None);
      match inserted {
        case Inserted => result := Ok(());
        case Faulted(error) => result := Err(error);
        case LockTaken => result := ExplainRefusal(local.id, local.key);
      }
    }

    /** The query after a rolled-back insert, a rival turn later: only an open request found now makes it a conflict. */
    method ExplainRefusal(id: RequestId, key: Key) returns (result: Result<()>)
      requires Valid() && Standing() == Explaining(id, key)
      modifies this, store
      ensures Valid() && Continues() && Standing().Idle?
      ensures result == Err(if HasOpen(store.Contents(), key) then Conflict else Duplicate)
      ensures old(script) == [] ==> script == [] && store.Contents() == old(store.Contents())
    {
      hide Run, Rivals, Step;
      Interleave();
      var open := store.HasOpenPublicationRequest(key);
      result := Err(if open then Conflict else Duplicate);
      Wrote(store.Contents(), Choice(0, true), Told(id, key, result.error), None);
      Wrote(store.Contents(), Choice(0, true), Idle, None);
    }

    method Approve(id: RequestId, actor: string, now: Time) returns (result: Result<TemplateModel.Request>)
      requires Valid() && Standing().Idle?
      modifies this, store
      ensures Valid() && Continues() && Standing().Idle?
      ensures id in old(store.requests) && old(store.requests)[id].requestedBy == actor ==> result == Err(Conflict) && Now() == old(Now())
      ensures result.Ok? ==> result.value.status == Scheduled && result.value.reviewedBy == actor
      ensures result.Ok? && origin == INITIAL ==> result.value.requestedBy != actor && result.value.scheduledFor.Some?
      ensures old(script) == [] ==>
                var t, t' := old(store.Contents()), store.Contents();
                && script == []
                && (result.Ok? <==> id != "" && id in t.requests && t.requests[id].requestedBy != actor && t.requests[id].status == Pending)
                && (result.Ok? ==>
                      && id in t'.requests && result.value == t'.requests[id]
                      && Alone.ReviewedAs(t, id, Scheduled, if t.requests[id].scheduledFor.Some? then t.requests[id].scheduledFor else Some(now), actor, "", now, t'))
                && (result.Err? ==> t' == t && (result.error == NotFound <==> id !in t.requests))
    {
      hide Run, Rivals, SaveDraft, Disable, Seed, Publish, CreateRequest, ClaimRequest, Inspect, Recover, Alone.ReviewedAs, VersionMatches;
      if id !in store.requests {
        return Err(NotFound);
      }
      var seen := store.requests[id];
      if seen.requestedBy == actor || seen.status != Pending {
        return Err(Conflict);
      }
      var local := Approving(id, seen, actor);
      Moved(Now(), StartApprove(me, id, actor), local, []);
      Interleave();
      ghost var before := store.Contents();
      result := store.TransitionPublicationRequest(id, Pending, ApproveTransition(local, now));
      if id in before.requests {
        ReviewMoves(before, id, Pending, ApproveTransition(local, now));
      }
      Wrote(before, Choice(now, true), Idle, None);
    }

    method Reject(id: RequestId, actor: string, reason: string, now: Time) returns (result: Result<TemplateModel.Request>)
      requires Valid() && Standing().Idle?
      modifies this, store
      ensures Valid() && Continues() && Standing().Idle?
      ensures reason == "" ==> result == Err(Invalid) && Now() == old(Now())
      ensures reason != "" && id in old(store.requests) && old(store.requests)[id].requestedBy == actor ==> result == Err(Conflict) && Now() == old(Now())
      ensures result.Ok? && origin == INITIAL ==> result.value.requestedBy != actor
      ensures result.Ok? ==> result.value.status == Rejected && result.value.reviewedBy == actor && result.value.failure == reason != ""
      ensures old(script) == [] ==>
                var t, t' := old(store.Contents()), store.Contents();
                && script == []
                && (result.Ok? <==>
                      reason != "" && id != "" && id in t.requests && t.requests[id].requestedBy != actor && t.requests[id].status == Pending)
                && (result.Ok? ==> id in t'.requests && result.value == t'.requests[id] && Alone.ReviewedAs(t, id, Rejected, None, actor, reason, now, t'))
                && (result.Err? ==> t' == t && (result.error == NotFound <==> reason != "" && id !in t.requests))
    {
      hide Run, Rivals, SaveDraft, Disable, Seed, Publish, CreateRequest, ClaimRequest, Inspect, Recover, Alone.ReviewedAs, VersionMatches;
      if reason == "" {
        return Err(Invalid);
      }
      if id !in store.requests {
        return Err(NotFound);
      }
      var seen := store.requests[id];
      if seen.requestedBy == actor {
        return Err(Conflict);
      }
      var local := Rejecting(id, seen, actor, reason);
      Moved(Now(), StartReject(me, id, actor, reason), local, []);
      Interleave();
      ghost var before := store.Contents();
      result := store.TransitionPublicationRequest(id, Pending, RejectTransition(local, now));
      if id in before.requests {
        ReviewMoves(before, id, Pending, RejectTransition(local, now));
      }
      Wrote(before, Choice(now, true), Idle, None);
    }

    method Cancel(id: RequestId, actor: string, now: Time) returns (result: Result<TemplateModel.Request>)
      requires Valid() && Standing().Idle?
      modifies this, store
      ensures Valid() && Continues() && Standing().Idle?
      ensures result.Ok? ==> result.value.status == Cancelled && result.value.reviewedBy == actor
      ensures old(script) == [] ==>
                var t, t' := old(store.Contents()), store.Contents();
                && script == []
                && (result.Ok? <==> id != "" && id in t.requests && t.requests[id].status in {Pending, Scheduled})
                && (result.Ok? ==> id in t'.requests && result.value == t'.requests[id] && Alone.ReviewedAs(t, id, Cancelled, None, actor, "", now, t'))
                && (result.Err? ==> t' == t && (result.error == NotFound <==> id !in t.requests))
    {
      hide Run, Rivals, SaveDraft, Disable, Seed, Publish, CreateRequest, ClaimRequest, Inspect, Recover, Alone.ReviewedAs, VersionMatches;
      if id !in store.requests {
        return Err(NotFound);
      }
      var seen := store.requests[id];
      if seen.status != Pending && seen.status != Scheduled {
        return Err(Conflict);
      }
      var local := Cancelling(id, seen, actor);
      Moved(Now(), StartCancel(me, id, actor), local, []);
      Interleave();
      ghost var before := store.Contents();
      result := store.TransitionPublicationRequest(id, seen.status, CancelTransition(local, now));
      if id in before.requests {
        ReviewMoves(before, id, seen.status, CancelTransition(local, now));
      }
      Wrote(before, Choice(now, true), Idle, None);
    }

    // ----- publishing -----

    /** The clock of a record write: the stated assumption that it is later than the row's last one. */
    function Tick(key: Key, now: Time): Time
      reads store
    {
      if key in store.records && now <= store.records[key].updatedAt then store.records[key].updatedAt + 1 else now
    }

    /** Claims one request, reads it back, and carries it to an end. */
    method Process(id: RequestId, now: Time, expires: Time, allowed: bool, valid: bool, cached: bool) returns (claimed: bool)
      requires Valid() && Standing().Idle?
      modifies this, store
      ensures Valid() && Continues() && Standing().Idle?
      ensures !(workerID != "" && Alone.Ready(old(store.Contents()), id, now)) ==> !claimed && Now() == old(Now()) && script == old(script)
      ensures old(script) == [] && origin == INITIAL && workerID != "" && Alone.Ready(old(store.Contents()), id, now) ==>
                && claimed && script == []
                && Alone.Processed(old(store.Contents()), id, workerID, allowed, valid, now, expires, store.Contents())
    {
      hide Run, Rivals, SaveDraft, Disable, Seed, Publish, CreateRequest, TransitionRequest, WorkerStep, Step, ClaimRequest, Inspect, Recover;
      hide Alone.Ready, Alone.Concludes, Alone.Held, Alone.Processed, VersionMatches;
      ghost var before := Now();
      ClaimSucceedsIff(before, me, id, workerID, now, expires);
      var claim := store.ClaimPublicationRequest(id, workerID, now, expires);
      if claim.Err? || !claim.value {
        return false;
      }
      Moved(before, StartClaim(me, id, workerID, now, expires), Claimed(id), []);
      Interleave();
      ReadBackStep(store.Contents(), id, Choice(now, true));
      if id !in store.requests {
        Wrote(store.Contents(), Choice(now, true), Idle, None);
        return false;
      }
      var seen := store.requests[id];
      Wrote(store.Contents(), Choice(now, true), Authorizing(id, seen), None);
      ghost var held := store.Contents();
      var _ := PublishClaimed(id, seen, now, allowed, valid, cached);
      if old(script) == [] && origin == INITIAL {
        ClaimedConcludes(before.tables, held, id, workerID, allowed, valid, now, expires, store.Contents());
      }
      return true;
    }

    /**
     * Works through a due list, each entry under its own answers. `states` are the tables after each turn: a
     * request that is ready when its turn comes is carried to its end, any other turn changes nothing.
     */
    method ProcessDue(due: seq<(RequestId, bool, bool, bool)>, now: Time, expires: Time) returns (processed: nat, ghost states: seq<Tables>)
      requires Valid() && Standing().Idle?
      modifies this, store
      ensures Valid() && Continues() && Standing().Idle? && processed <= |due|
      ensures old(script) == [] && origin == INITIAL ==>
                && |states| == |due| + 1 && states[0] == old(store.Contents()) && states[|due|] == store.Contents()
                && (forall i :: 0 <= i < |due| ==> Turn(states[i], due[i], workerID, now, expires, states[i + 1]))
                && processed == |set i | 0 <= i < |due| && ReadyAt(states[i], due[i], workerID, now)|
    {
      hide Run, Rivals, Step, Alone.Processed, Alone.Ready, Turn, TurnsOk;
      processed := 0;
      states := [store.Contents()];
      ghost var ready: set<int> := {};
      NoTurns(states, ready, due, workerID, now, expires);
      for i := 0 to |due|
        invariant Valid() && Continues() && Standing().Idle? && processed <= i
        invariant |states| == i + 1 && states[0] == old(store.Contents()) && processed == |ready| && i !in ready
        invariant old(script) == [] && origin == INITIAL ==>
                    script == [] && states[i] == store.Contents() && TurnsOk(states, ready, due, i, workerID, now, expires)
        invariant forall j :: j in ready ==> 0 <= j < i
      {
        Interleave();
        var claimed := Process(due[i].0, now, expires, due[i].1, due[i].2, due[i].3);
        ghost var before, known := states, ready;
        if claimed {
          processed := processed + 1;
          ready := ready + {i};
        }
        states := states + [store.Contents()];
        if old(script) == [] && origin == INITIAL && TurnsOk(before, known, due, i, workerID, now, expires) {
          OneMoreTurn(before, known, due, i, workerID, now, expires, store.Contents(), ready);
        }
      }
      if old(script) == [] && origin == INITIAL {
        AllTurns(states, ready, due, workerID, now, expires);
      }
    }

    method PublishClaimed(id: RequestId, seen: TemplateModel.Request, now: Time, allowed: bool, valid: bool, cached: bool)
      returns (result: Result<TemplateModel.Request>)
      requires Valid() && Standing() == Authorizing(id, seen)
      modifies this, store
      ensures Valid() && Continues() && Standing().Idle?
      ensures result.Ok? && origin == INITIAL && result.value.status == Published ==>
                VersionMatches(store.Contents(), seen.key, result.value.publishedVersion, seen.candidateHash)
      ensures !allowed && result.Ok? ==> result.value.status == Failed
      ensures old(script) == [] && origin == INITIAL && Alone.Held(old(store.Contents()), id, seen) ==>
                && script == [] && result.Ok? && id in store.requests && result.value == store.requests[id]
                && Alone.Concludes(old(store.Contents()), id, seen, allowed, valid, now, store.Contents())
    {
      hide Run, Rivals, Publish, CreateRequest, TransitionRequest, VersionMatches, Step;
      Interleave();
      if !allowed {
        Wrote(store.Contents(), Choice(now, false),
              Finishing(id, seen, Failed, 0, "backend.notification.publication_authorization_revoked"), None);
        result := Finish(id, seen, Failed, 0, "backend.notification.publication_authorization_revoked", now);
        return;
      }
      Wrote(store.Contents(), Choice(now, true), Inspecting(id, seen), None);
      result := PublishAuthorized(id, seen, now, valid, cached);
    }

    method PublishAuthorized(id: RequestId, seen: TemplateModel.Request, now: Time, valid: bool, cached: bool)
      returns (result: Result<TemplateModel.Request>)
      requires Valid() && Standing() == Inspecting(id, seen)
      modifies this, store
      ensures Valid() && Continues() && Standing().Idle?
      ensures result.Ok? && origin == INITIAL && result.value.status == Published ==>
                VersionMatches(store.Contents(), seen.key, result.value.publishedVersion, seen.candidateHash)
      ensures old(script) == [] && origin == INITIAL && Alone.Held(old(store.Contents()), id, seen) ==>
                && script == [] && result.Ok? && id in store.requests && result.value == store.requests[id]
                && Alone.Concludes(old(store.Contents()), id, seen, true, valid, now, store.Contents())
    {
      hide Run, Rivals, Step, WorkerStep, Inspect, Recover, Publish, CreateRequest, TransitionRequest, VersionMatches, CandidateHash;
      hide Alone.Held, Alone.EndsAs, Alone.Committed, Alone.AlreadyPublished, Alone.StillApproved, Alone.HasApproved, Alone.SameRecords;
      ghost var t := store.Contents();
      if origin == INITIAL && Alone.Held(t, id, seen) {
        HeldRequest(id, seen);
        InspectDecides(t, id, seen);
      }
      Interleave();
      var decision := InspectRecord(id, seen);
      InspectStep(store.Contents(), id, seen, Choice(now, true));
      Wrote(store.Contents(), Choice(now, true), decision, None);
      if decision.Finishing? {
        result := Finish(id, seen, decision.outcome, decision.version, decision.failure, now);
        return;
      }
      result := PublishPrepared(id, seen, now, valid, cached);
    }

    /** Publishes the approved draft and ends the request, by the error path if the publish call failed. */
    method PublishPrepared(id: RequestId, seen: TemplateModel.Request, now: Time, valid: bool, cached: bool)
      returns (result: Result<TemplateModel.Request>)
      requires Valid() && Standing() == Preparing(id, seen)
      modifies this, store
      ensures Valid() && Continues() && Standing().Idle?
      ensures result.Ok? && origin == INITIAL && result.value.status == Published ==>
                VersionMatches(store.Contents(), seen.key, result.value.publishedVersion, seen.candidateHash)
      ensures var t, t' := old(store.Contents()), store.Contents();
        old(script) == [] && origin == INITIAL && Alone.Held(t, id, seen) && Alone.StillApproved(t, seen) ==>
          && script == [] && result.Ok? && id in store.requests && result.value == store.requests[id]
          && (if valid && seen.key != "" && seen.reviewedBy != "" then
                Alone.Committed(t, seen.key, seen.reviewedBy, now, t')
                && Alone.EndsAs(t, id, seen, Published, t'.records[seen.key].publishedVersion, "", now, t')
              else
                Alone.SameRecords(t, t')
                && (if Alone.HasApproved(t, seen) then Alone.EndsAs(t, id, seen, Published, t.records[seen.key].publishedVersion, "", now, t')
                    else Alone.EndsAs(t, id, seen, Failed, 0, Alone.FAILED, now, t')))
    {
      hide Run, Rivals, Publish, CreateRequest, TransitionRequest, WorkerStep, VersionMatches, Step, Inspect, Recover, CandidateHash;
      hide Alone.Committed, Alone.Held, Alone.EndsAs, Alone.HasApproved;
      ghost var t := store.Contents();
      var published := PublishApproved(id, seen, now, valid, cached);
      ghost var mid := store.Contents();
      SameRequests(t, mid, id, seen, now);
      if Alone.Committed(t, seen.key, seen.reviewedBy, now, mid) && Alone.StillApproved(t, seen) {
        CommittedIsApproved(t, seen, now, mid);
      }
      if Alone.SameRecords(t, mid) {
        SameApproved(t, mid, seen);
      }
      hide Alone.StillApproved;
      if published.Err? {
        result := RecoverPublished(id, seen, now);
      } else {
        result := Finish(id, seen, Published, published.value.publishedVersion, "", now);
      }
      if Alone.Committed(t, seen.key, seen.reviewedBy, now, mid) {
        SameCommit(t, seen.key, seen.reviewedBy, now, mid, store.Contents());
      }
    }

    /** Already published by an earlier claimant, overtaken by another draft, or still to be published. */
    method InspectRecord(id: RequestId, seen: TemplateModel.Request) returns (decision: Local)
      ensures decision == Inspect(store.Contents(), id, seen)
    {
      var found := seen.key in store.records;
      if found && store.records[seen.key].published.Some? && CandidateHash(store.records[seen.key].published.value) == seen.candidateHash
         && store.records[seen.key].draft.None? {
        return Finishing(id, seen, Published, store.records[seen.key].publishedVersion, "");
      }
      if !found || store.records[seen.key].draft.None? || store.records[seen.key].updatedAt != seen.draftUpdatedAt
         || CandidateHash(store.records[seen.key].draft.value) != seen.candidateHash {
        return Finishing(id, seen, Superseded, 0, "backend.notification.publication_candidate_changed");
      }
      return Preparing(id, seen);
    }

    /** The error path of a publish call: the version may have been committed all the same. */
    method RecoverPublished(id: RequestId, seen: TemplateModel.Request, now: Time) returns (result: Result<TemplateModel.Request>)
      requires Valid() && Standing() == Recovering(id, seen)
      modifies this, store
      ensures Valid() && Continues() && Standing().Idle?
      ensures result.Ok? && origin == INITIAL && result.value.status == Published ==>
                VersionMatches(store.Contents(), seen.key, result.value.publishedVersion, seen.candidateHash)
      ensures var t, t' := old(store.Contents()), store.Contents();
        old(script) == [] && origin == INITIAL && Alone.Held(t, id, seen) ==>
          && script == [] && result.Ok? && id in store.requests && result.value == store.requests[id] && Alone.SameRecords(t, t')
          && (if Alone.HasApproved(t, seen) then Alone.EndsAs(t, id, seen, Published, t.records[seen.key].publishedVersion, "", now, t')
              else Alone.EndsAs(t, id, seen, Failed, 0, Alone.FAILED, now, t'))
    {
      hide Run, Rivals, Publish, CreateRequest, TransitionRequest, VersionMatches, Step, WorkerStep, Evolves, Alone.EndsAs, Alone.SameRecords;
      if origin == INITIAL && Alone.Held(store.Contents(), id, seen) {
        HeldRequest(id, seen);
      }
      Interleave();
      RecoverStep(store.Contents(), id, seen, Choice(now, true));
      if seen.key in store.records && store.records[seen.key].published.Some?
         && CandidateHash(store.records[seen.key].published.value) == seen.candidateHash {
        var version := store.records[seen.key].publishedVersion;
        Wrote(store.Contents(), Choice(now, true), Finishing(id, seen, Published, version, ""), None);
        result := Finish(id, seen, Published, version, "", now);
        return;
      }
      Wrote(store.Contents(), Choice(now, true), Finishing(id, seen, Failed, 0, "backend.notification.publication_failed"), None);
      result := Finish(id, seen, Failed, 0, "backend.notification.publication_failed", now);
    }

    /** Reads the draft, validates it, and publishes it if the record is still the approved one. */
    method PublishApproved(id: RequestId, seen: TemplateModel.Request, now: Time, valid: bool, cached: bool)
      returns (result: Result<Record>)
      requires Valid() && Standing() == Preparing(id, seen)
      modifies this, store
      ensures Valid() && Continues()
      ensures result.Err? ==> Standing() == Recovering(id, seen)
      ensures result.Ok? ==> Standing() == Finishing(id, seen, Published, result.value.publishedVersion, "")
      ensures var t, t' := old(store.Contents()), store.Contents();
        old(script) == [] && origin == INITIAL && Alone.Held(t, id, seen) && Alone.StillApproved(t, seen) ==>
          && script == [] && t'.requests == t.requests && t'.locks == t.locks
          && (if valid && seen.key != "" && seen.reviewedBy != "" then
                Alone.Committed(t, seen.key, seen.reviewedBy, now, t')
                && (result.Ok? <==> cached) && (result.Ok? ==> result.value.publishedVersion == t'.records[seen.key].publishedVersion)
              else result.Err? && Alone.SameRecords(t, t'))
    {
      hide Run, Rivals, Step, Publish, CreateRequest, TransitionRequest, Inspect, Recover, Alone.Committed;
      Interleave();
      if seen.key !in store.records || store.records[seen.key].draft.None? || !valid {
        Wrote(store.Contents(), Choice(now, false), Recovering(id, seen), None);
        return Err(if valid then NotFound else Invalid);
      }
      var record := store.records[seen.key];
      Wrote(store.Contents(), Choice(now, true), Committing(id, seen, record), None);
      result := CommitPublication(id, seen, record, now, cached);
    }

    /** The compare-and-set write, then the in-memory catalog, which may refuse what was committed. */
    method CommitPublication(id: RequestId, seen: TemplateModel.Request, record: Record, now: Time, cached: bool)
      returns (result: Result<Record>)
      requires Valid() && Standing() == Committing(id, seen, record) && record.draft.Some?
      modifies this, store
      ensures Valid() && Continues()
      ensures result.Err? ==> Standing() == Recovering(id, seen)
      ensures result.Ok? ==> Standing() == Finishing(id, seen, Published, result.value.publishedVersion, "")
      ensures var t, t' := old(store.Contents()), store.Contents();
        old(script) == [] && origin == INITIAL && Alone.StillApproved(t, seen) && record == t.records[seen.key] ==>
          && script == [] && t'.requests == t.requests && t'.locks == t.locks
          && (if seen.key != "" && seen.reviewedBy != "" then
                Alone.Committed(t, seen.key, seen.reviewedBy, now, t')
                && (result.Ok? <==> cached) && (result.Ok? ==> result.value.publishedVersion == t'.records[seen.key].publishedVersion)
              else result.Err? && Alone.SameRecords(t, t'))
    {
      hide Run, Rivals, CreateRequest, TransitionRequest, Publish, Step, WorkerStep, Inspect, Recover, PublishedValue, PublishedFrom, TablesOk, Evolves;
      hide Alone.Committed, Alone.SameContent;
      if origin == INITIAL && Alone.StillApproved(store.Contents(), seen) {
        ReachedInv(trace);
        CommitsAlone(store.Contents(), seen, now, Tick(seen.key, now));
      }
      Interleave();
      var at := Tick(seen.key, now);
      ghost var before := store.Contents();
      var present := seen.key in store.records;
      var earlier := if present then store.records[seen.key].publishedVersion else 0;
      CommitStep(before, id, seen, record, Choice(at, cached));
      result := store.PublishRow(PublishedValue(record), Some(seen.draftUpdatedAt), seen.reviewedBy, at);
      if result.Err? || !present {
        Wrote(before, Choice(at, cached), Recovering(id, seen), None);
        return Err(Conflict);
      }
      var commit := Commit(id, seen.key, earlier, result.value.publishedVersion);
      if !cached {
        Wrote(before, Choice(at, false), Recovering(id, seen), Some(commit));
        return Err(Invalid);
      }
      Wrote(before, Choice(at, true), Finishing(id, seen, Published, result.value.publishedVersion, ""), Some(commit));
    }

    /** Ends the request under the lease read at claim time; a lost race to the same status counts as done. */
    method Finish(id: RequestId, seen: TemplateModel.Request, status: RequestStatus, version: int, failure: string, now: Time)
      returns (result: Result<TemplateModel.Request>)
      requires Valid() && Standing() == Finishing(id, seen, status, version, failure)
      modifies this, store
      ensures Valid() && Continues() && Standing().Idle?
      ensures result.Ok? ==> result.value.status == status
      ensures result.Ok? && origin == INITIAL && status == Published ==>
                VersionMatches(store.Contents(), seen.key, result.value.publishedVersion, seen.candidateHash)
      ensures old(script) == [] && !status.Open() && Alone.Held(old(store.Contents()), id, seen) ==>
                && script == [] && result.Ok? && id in store.requests && result.value == store.requests[id]
                && Alone.SameRecords(old(store.Contents()), store.Contents())
                && Alone.EndsAs(old(store.Contents()), id, seen, status, version, failure, now, store.Contents())
    {
      hide Run, Rivals, Step, WorkerStep, Publish, CreateRequest, TransitionRequest, Inspect, Recover, VersionMatches, Evolves;
      hide Alone.Held, Alone.EndsAs, Alone.SameRecords;
      Interleave();
      ghost var before := store.Contents();
      if origin == INITIAL {
        StandingOk();
        SeenHash(before, Standing());
      }
      FinishStep(before, Standing(), Choice(now, true));
      result := store.TransitionPublicationRequest(id, Publishing, FinishTransition(Standing(), now));
      if Alone.Held(before, id, seen) && !status.Open() {
        FinishEnds(before, id, seen, status, version, failure, now);
      }
      Wrote(before, Choice(now, true), Idle, None);
      if result == Err(Conflict) {
        Interleave();
        if id in store.requests && store.requests[id].status == status {
          result := Ok(store.requests[id]);
          if origin == INITIAL {
            KeptIdentity(before, store.Contents(), id);
            PublishedMatches(id);
          }
        }
      }
    }

    /** In a reached state a template is locked exactly while one of its requests is open. */
    lemma OpenMeansLocked(key: Key)
      requires Valid() && origin == INITIAL
      ensures key in store.locks <==> Alone.OpenRequest(store.Contents(), key)
      ensures HasOpen(store.Contents(), key) <==> Alone.OpenRequest(store.Contents(), key)
    {
      LockedIffOneOpenRequest(trace, key);
    }

    /** A published request names a version row with its candidate's content. */
    lemma PublishedMatches(id: RequestId)
      requires Valid() && origin == INITIAL && id in store.requests
      ensures var r := store.requests[id]; r.status == Published ==> VersionMatches(store.Contents(), r.key, r.publishedVersion, r.candidateHash)
    {
      ReachedInv(trace);
      assert RequestOk(store.Contents(), id);
    }

    /** The candidate hash of a stored request is that of its snapshot. */
    lemma HeldRequest(id: RequestId, seen: TemplateModel.Request)
      requires Valid() && origin == INITIAL && Alone.Held(store.Contents(), id, seen)
      ensures seen.candidateHash == CandidateHash(seen.snapshot)
    {
      ReachedInv(trace);
      assert RequestOk(store.Contents(), id);
    }

    /** What this worker remembers is still true of the tables. */
    lemma StandingOk()
      requires Valid() && origin == INITIAL
      ensures LocalOk(store.Contents(), Standing())
    {
      ReachedInv(trace);
      hide TablesOk, CommitsOk;
    }
  }
}
