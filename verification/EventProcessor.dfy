/**
 * The inbox processor as sequential code. Between its store calls a script of rival actions runs, and
 * the whole execution is shown to be a run of the event machine, whose safety therefore covers it.
 */
module EventProcessor {
  import opened Prelude
  import opened Leases
  import opened EventTables
  import opened EventMachine
  import opened EventSafety
  import opened EventResults
  import Users

  const LEASE := 30_000_000_000
  const RECIPIENT_LIMIT := 500

  predicate ActsAs(a: Action, me: nat) {
    match a
    case Claim(w, _, _, _, _) => w == me
    case ReadBack(w) => w == me
    case Deliver(w, _) => w == me
    case GiveUp(w, _, _, _, _, _) => w == me
    case Crash(w) => w == me
    case _ => false
  }

  predicate Rivals(script: seq<seq<Action>>, me: nat) {
    forall i, j :: 0 <= i < |script| && 0 <= j < |script[i]| ==> !ActsAs(script[i][j], me)
  }

  lemma {:induction false} RunSnoc(g: Global, actions: seq<Action>, a: Action)
    ensures Run(g, actions + [a]) == Step(Run(g, actions), a)
    decreases |actions|
  {
    hide Step;
    if actions == [] {
      assert [a][1..] == [];
      assert Run(Step(g, a), []) == Step(g, a);
    } else {
      assert (actions + [a])[1..] == actions[1..] + [a];
      RunSnoc(Step(g, actions[0]), actions[1..], a);
    }
  }

  lemma RivalKeepsLocal(g: Global, a: Action, me: nat)
    requires !ActsAs(a, me)
    ensures LocalOf(Step(g, a), me) == LocalOf(g, me)
  {
    hide Materialize, RecordFailure, AcknowledgeItem, EventTables.SetPersonal, EventTables.MarkAllRead, ClaimEvent;
  }

  lemma ClaimStep(g: Global, w: nat, id: string, owner: string, now: Time, expires: Time)
    requires LocalOf(g, w).Idle? && Claimable(g.tables, id, owner, now)
    ensures Step(g, Action.Claim(w, id, owner, now, expires)) ==
              g.(tables := ClaimEvent(g.tables, id, owner, now, expires), workers := g.workers[w := Local.Claimed(id)])
  {
  }

  lemma ClaimMisses(t: Tables, id: string, owner: string, now: Time, expires: Time)
    requires !Claimable(t, id, owner, now)
    ensures ClaimEvent(t, id, owner, now, expires) == t
  {
  }

  lemma ReadBackStep(g: Global, w: nat, id: string)
    requires Inv(g) && LocalOf(g, w) == Local.Claimed(id)
    ensures id in g.tables.events ==> g.tables.events[id].id == id
    ensures Step(g, ReadBack(w)) ==
      g.(workers := g.workers[w := if id in g.tables.events then Holding(g.tables.events[id], BirthOf(g.history.births, id)) else Idle])
  {
    hide FailureRowsOk, LogsOk, PlansOk, MailboxOk, ArrivalsOk, WorkersOk, EndedOk, CreatedOk, SourcesUnique;
    if id in g.tables.events { assert EventRowOk(g.tables.events[id], id); }
  }

  /** The event row and the failure row that a recorded failure leaves. */
  lemma FailureRow(t: Tables, seen: Event, to: Phase, stage: string, code: string, next: Option<Time>, at: Time)
    ensures RecordFailure(t, seen, to, stage, code, next, at).1.Ok? ==>
      var t' := RecordFailure(t, seen, to, stage, code, next, at).0;
      && seen.id in t.events && seen.id in t'.events && (seen.id, seen.lease.token) in t'.failures
      && t'.failures[(seen.id, seen.lease.token)].attempt == seen.lease.attempts + 1
      && t'.events[seen.id].lease.attempts == t.events[seen.id].lease.attempts + 1
      && t'.events[seen.id].lease.phase == to && t'.events[seen.id].lease.nextAttemptAt == next
  {
    hide FailureEvidence;
  }

  lemma DeliverStep(g: Global, w: nat, seen: Event, birth: nat, recipients: seq<string>)
    requires LocalOf(g, w) == Holding(seen, birth) && Materialize(g.tables, seen, recipients).1.Ok?
    ensures var t' := Materialize(g.tables, seen, recipients).0;
      && Step(g, Deliver(w, recipients)) ==
           Global(t', g.workers[w := Idle], DeliverHistory(g.history, seen, birth, recipients, g.tables.plans, t'.plans))
      && Materialized(t', seen.id)
  {
    hide DeliverAll, InsertPlans, DeliverHistory;
  }

  lemma GiveUpStep(g: Global, w: nat, seen: Event, birth: nat, to: Phase, stage: string, code: string, next: Option<Time>, at: Time)
    requires LocalOf(g, w) == Holding(seen, birth) && (to.Queued? || to == Ended("failed"))
    ensures var done := RecordFailure(g.tables, seen, to, stage, code, next, at);
      Step(g, GiveUp(w, to, stage, code, next, at)) ==
        Global(done.0, g.workers[w := Idle], if done.1.Ok? then FailureHistoryOf(g.history, seen, birth) else g.history)
  {
    hide RecordFailure;
  }

  /** Queued and not waiting, or processing under a lease that has run out. */
  predicate Waiting(events: Events, id: string, owner: string, now: Time) {
    && id != "" && owner != "" && id in events
    && var l := events[id].lease;
       || (l.phase == Queued && (l.nextAttemptAt == None || l.nextAttemptAt.value <= now))
       || (l.phase == Processing && (l.expires == None || l.expires.value <= now))
  }

  /** The lease columns a claim writes; the retry columns stay. */
  predicate TakenBy(l: Lease, l': Lease, owner: string, now: Time, expires: Time) {
    && l'.phase == Processing && l'.owner == owner && l'.expires == Some(expires) && l'.token == l.token + 1 && l'.updatedAt == now
    && l'.attempts == l.attempts && l'.nextAttemptAt == l.nextAttemptAt && l'.lastError == l.lastError
  }

  /**
   * A failure is on record under the attempt after the snapshot's, and the event waits for its next attempt
   * while the policy allows one and has failed otherwise; nothing else has changed.
   */
  predicate GivenUp(t: Tables, seen: Event, allows: (nat, Time) -> bool, delay: nat -> Time, stage: string, code: string, now: Time, t': Tables) {
    && seen.id in t.events && seen.id in t'.events
    && t' == t.(events := t.events[seen.id := t.events[seen.id].(lease := t'.events[seen.id].lease)], failures := t'.failures)
    && var attempt := seen.lease.attempts + 1;
       var next := if allows(attempt, now) then Some(now + delay(attempt)) else None;
       && t'.failures == t.failures[(seen.id, seen.lease.token) := Failure(stage, code, attempt, !allows(attempt, now), next, now)]
       && LeaseEnds(t.events[seen.id].lease, t'.events[seen.id].lease, if allows(attempt, now) then Queued else Ended("failed"), 1, next, code, now)
  }

  /** What one claimed event comes to when nobody else moves: delivered to a resolved audience, or its failure on record. */
  ghost predicate Handled(t: Tables, seen: Event, resolved: Option<seq<string>>, allows: (nat, Time) -> bool, delay: nat -> Time, now: Time,
                          result: Result<bool>, t': Tables)
  {
    var claimed := t.(events := t.events[seen.id := seen]);
    var users := if resolved.Some? then Users.Unique(seen.body.recipients + resolved.value) else [];
    if 0 < |users| <= 500 && NewIds(t.plans, seen.plans) then
      && result == Ok(true) && seen.id in t'.events && t'.failures == t.failures
      && t'.events == t.events[seen.id := seen.(lease := t'.events[seen.id].lease)]
      && LeaseEnds(seen.lease, t'.events[seen.id].lease, Ended("materialized"), 0, seen.lease.nextAttemptAt, "", seen.lease.updatedAt)
      && PlansStored(t.plans, seen.plans, users, t'.plans) && Reaches(t.groups, t.items, seen, users, t'.groups, t'.items)
    else if (seen.id, seen.lease.token) in t.failures then result == Err(Duplicate) && t' == claimed
    else
      && result == Ok(false)
      && (if resolved.None? then GivenUp(claimed, seen, allows, delay, "audience_resolution", AUDIENCE_FAILED, now, t')
          else if 0 < |users| <= 500 then GivenUp(claimed, seen, allows, delay, "materialization", MATERIALIZATION_FAILED, now, t')
          else GivenUp(claimed, seen, allows, delay, "audience_resolution", AUDIENCE_EMPTY, now, t'))
  }

  lemma ClaimWrites(t: Tables, id: string, owner: string, now: Time, expires: Time)
    requires Claimable(t, id, owner, now)
    ensures var t' := EventTables.ClaimEvent(t, id, owner, now, expires);
      && id in t'.events && TakenBy(t.events[id].lease, t'.events[id].lease, owner, now, expires)
      && t' == t.(events := t.events[id := t.events[id].(lease := t'.events[id].lease)])
  {
  }

  const CODE := "backend." + "notification." + "inbox_"
  const MATERIALIZATION_FAILED := CODE + ("materialization_" + "failed")
  const AUDIENCE_FAILED := CODE + ("audience_" + ("resolution_" + "failed"))
  const AUDIENCE_EMPTY := CODE + ("audience_" + ("resolution_" + "empty"))

  /** The codes and stages the processor reports are valid evidence. */
  lemma ReportedEvidence()
    ensures FailureEvidence("materialization", MATERIALIZATION_FAILED)
    ensures FailureEvidence("audience_resolution", AUDIENCE_FAILED)
    ensures FailureEvidence("audience_resolution", AUDIENCE_EMPTY)
  {
    assert KeyChars("backend.") && KeyChars("notification.") && KeyChars("inbox_") && KeyChars("failed") && KeyChars("empty");
    assert KeyChars("materialization_") && KeyChars("audience_") && KeyChars("resolution_");
    KeyCharsAppend("backend.", "notification.");
    KeyCharsAppend("backend." + "notification.", "inbox_");
    JoinedCode(CODE, "materialization_" + "failed");
    JoinedCode(CODE, "audience_" + ("resolution_" + "failed"));
    JoinedCode(CODE, "audience_" + ("resolution_" + "empty"));
  }

  /** The lease, the audience limit and the codes as the processor writes them. */
  lemma Settings()
    ensures LEASE == 30 * 1_000_000_000 && RECIPIENT_LIMIT == 500
    ensures MATERIALIZATION_FAILED == "backend.notification.inbox_materialization_failed"
  {
    assert CODE == "backend.notification.inbox_";
    assert "materialization_" + "failed" == "materialization_failed";
  }

  lemma AudienceCodes()
    ensures AUDIENCE_FAILED == "backend.notification.inbox_audience_resolution_failed"
  {
    assert CODE == "backend.notification.inbox_";
    assert "audience_" + ("resolution_" + "failed") == "audience_resolution_failed";
  }

  lemma EmptyAudienceCode()
    ensures AUDIENCE_EMPTY == "backend.notification.inbox_audience_resolution_empty"
  {
    assert CODE == "backend.notification.inbox_";
    assert "audience_" + ("resolution_" + "empty") == "audience_resolution_empty";
  }

  class InboxProcessor {
    const store: EventStore
    const me: nat
    const workerID: string
    const allows: (nat, Time) -> bool
    const delay: nat -> Time
    var workers: map<nat, Local>
    var history: History
    var script: seq<seq<Action>>
    ghost var trace: seq<Action>

    function Now(): Global
      reads this, store
    {
      Global(store.Contents(), workers, history)
    }

    function Standing(): Local
      reads this
    {
      if me in workers then workers[me] else Idle
    }

    /** Everything so far is one run of the machine. */
    ghost predicate Valid()
      reads this, store
    {
      Run(INITIAL, trace) == Now() && Rivals(script, me)
    }

    constructor (store: EventStore, me: nat, workerID: string, allows: (nat, Time) -> bool, delay: nat -> Time, script: seq<seq<Action>>)
      requires Rivals(script, me) && store.Contents() == EMPTY_TABLES
      ensures Valid() && Standing().Idle? && this.store == store && this.me == me && this.workerID == workerID
    {
      this.store, this.me, this.workerID, this.allows, this.delay, this.script := store, me, workerID, allows, delay, script;
      workers := map[];
      history, trace := NO_HISTORY, [];
    }

    /** Everybody else moves: the next entry of the script, however long. Retention may purge rows meanwhile. */
    method Interleave()
      requires Valid()
      modifies this, store
      ensures Valid() && Standing() == old(Standing())
      ensures old(script) == [] ==> script == [] && Now() == old(Now())
    {
      hide Step, Run, Inv;
      if script == [] {
        return;
      }
      var actions := script[0];
      script := script[1..];
      for i := 0 to |actions|
        invariant Valid() && Standing() == old(Standing())
      {
        var next := Step(Now(), actions[i]);
        RivalKeepsLocal(Now(), actions[i], me);
        RunSnoc(INITIAL, trace, actions[i]);
        var t := next.tables;
        store.events, store.failures, store.groups, store.items, store.plans := t.events, t.failures, t.groups, t.items, t.plans;
        workers, history := next.workers, next.history;
        trace := trace + [actions[i]];
      }
    }

    /** Books this worker's own action once its store call has been made. */
    method Moved(ghost before: Global, a: Action, local: Local, after: History)
      requires Run(INITIAL, trace) == before && Rivals(script, me)
      requires Step(before, a) == Global(store.Contents(), workers[me := local], after)
      modifies this
      ensures Valid() && Standing() == local && script == old(script) && history == after && trace == old(trace) + [a]
    {
      hide Run, Rivals, Step;
      RunSnoc(INITIAL, trace, a);
      workers, history := workers[me := local], after;
      trace := trace + [a];
    }

    /** The claim's UPDATE and, a rival turn later, its SELECT; by then the row may have been purged. */
    method ClaimEvent(id: string, now: Time) returns (claimed: Option<Event>)
      requires Valid() && Standing().Idle?
      modifies this, store
      ensures Valid()
      ensures claimed.Some? ==> Standing().Holding? && Standing().seen == claimed.value && claimed.value.id == id
      ensures claimed.None? ==> Standing().Idle?
      ensures !Claimable(old(store.Contents()), id, workerID, now) ==> claimed.None? && Now() == old(Now())
      ensures old(script) == [] ==> script == [] && (claimed.Some? <==> Waiting(old(store.events), id, workerID, now))
      ensures old(script) == [] && claimed.Some? ==>
                var row := old(store.events)[id];
                && claimed.value == row.(lease := claimed.value.lease) && TakenBy(row.lease, claimed.value.lease, workerID, now, now + LEASE)
                && store.Contents() == old(store.Contents()).(events := old(store.events)[id := claimed.value])
    {
      hide Run, Rivals, Step, EventTables.ClaimEvent, Claimable, Inv;
      ghost var before := Now();
      var affected := store.Claim(id, workerID, now, now + LEASE);
      if !affected {
        ClaimMisses(before.tables, id, workerID, now, now + LEASE);
        return None;
      }
      ClaimStep(before, me, id, workerID, now, now + LEASE);
      ClaimWrites(before.tables, id, workerID, now, now + LEASE);
      Moved(before, Action.Claim(me, id, workerID, now, now + LEASE), Local.Claimed(id), history);
      Interleave();
      before := Now();
      Reached(trace);
      ReadBackStep(before, me, id);
      claimed := store.EventById(id);
      Moved(before, ReadBack(me), if claimed.Some? then Holding(claimed.value, BirthOf(history.births, id)) else Idle, history);
    }

    /** Resolves the audience, then delivers in one transaction. */
    method DeliverEvent(seen: Event, resolved: Option<seq<string>>) returns (result: Result<()>)
      requires Valid() && Standing().Holding? && Standing().seen == seen
      modifies this, store
      ensures Valid()
      ensures result.Ok? ==> Standing().Idle? && Materialized(store.Contents(), seen.id)
      ensures result.Err? ==> Standing() == old(Standing()) && Now() == old(Now())
      ensures result.Ok? <==>
                && old(Held(Now(), seen)) && old(forall i :: 0 <= i < |seen.plans| ==> !LeftoverPlan(Now(), seen.plans[i].id))
                && resolved.Some? && 0 < |Users.Unique(seen.body.recipients + resolved.value)| <= 500
      ensures result.Ok? ==>
                var users := Users.Unique(seen.body.recipients + resolved.value);
                && Leased(old(store.events), seen) && seen.id in store.events && PlansStored(old(store.plans), seen.plans, users, store.plans)
                && Reaches(old(store.groups), old(store.items), seen, users, store.groups, store.items)
                && store.events == old(store.events)[seen.id := old(store.events)[seen.id].(lease := store.events[seen.id].lease)]
                && LeaseEnds(old(store.events)[seen.id].lease, store.events[seen.id].lease, Ended("materialized"), 0,
                             old(store.events)[seen.id].lease.nextAttemptAt, "", seen.lease.updatedAt)
                && store.failures == old(store.failures)
      ensures old(script) == [] ==> script == []
      ensures result.Err? ==>
                result.error == (if resolved.None? || |Users.Unique(seen.body.recipients + resolved.value)| == 0
                                    || |Users.Unique(seen.body.recipients + resolved.value)| > 500 then Invalid
                                 else if NewIds(old(store.plans), seen.plans) then LeaseLost else Duplicate)
      ensures result.Err? && result.error == LeaseLost ==> !Leased(old(store.events), seen)
      ensures result.Ok? ==> NewIds(old(store.plans), seen.plans)
    {
      hide Run, Rivals, Users.Unique, Materialize, Step, Inv, Held, LeftoverPlan, DeliverHistory;
      if resolved.None? {
        return Err(Invalid);
      }
      var recipients := Users.UniqueUsers(seen.body.recipients + resolved.value);
      if |recipients| == 0 || |recipients| > RECIPIENT_LIMIT {
        return Err(Invalid);
      }
      ghost var before := Now();
      var birth, plans := Standing().birth, store.plans;
      Reached(trace);
      MaterializeCommitsIff(before, me, recipients);
      result := store.MaterializeEvent(seen, recipients);
      if result.Ok? {
        DeliverStep(before, me, seen, birth, recipients);
        Moved(before, Deliver(me, recipients), Idle, DeliverHistory(history, seen, birth, recipients, plans, store.plans));
      }
    }

    /** Queues another attempt, or fails the event once the policy is exhausted. */
    method RecordEventFailure(seen: Event, stage: string, code: string, now: Time) returns (result: Result<()>)
      requires Valid() && Standing().Holding? && Standing().seen == seen && FailureEvidence(stage, code)
      modifies this, store
      ensures Valid() && Standing().Idle?
      ensures result.Ok? <==> old(Held(Now(), seen)) && !old(LeftoverFailure(Now(), (seen.id, seen.lease.token)))
      ensures result.Ok? ==>
                && seen.id in store.events && (seen.id, seen.lease.token) in store.failures
                && store.failures[(seen.id, seen.lease.token)].attempt == seen.lease.attempts + 1
                && (if allows(seen.lease.attempts + 1, now)
                    then store.events[seen.id].lease.phase == Queued
                         && store.events[seen.id].lease.nextAttemptAt == Some(now + delay(seen.lease.attempts + 1))
                    else store.events[seen.id].lease.phase == Ended("failed"))
      ensures result.Err? ==> store.Contents() == old(store.Contents()) && history == old(history) && result == if old(Held(Now(), seen)) then Err(Duplicate) else Err(LeaseLost)
      ensures script == old(script)
      ensures result.Ok? <==> Leased(old(store.events), seen) && (seen.id, seen.lease.token) !in old(store.failures)
      ensures result.Ok? ==> GivenUp(old(store.Contents()), seen, allows, delay, stage, code, now, store.Contents())
    {
      hide Run, Rivals, Step, Inv, RecordFailure, Held, LeftoverFailure, FailureCode;
      ghost var before := Now();
      Reached(trace);
      var birth, attempt := Standing().birth, seen.lease.attempts + 1;
      var to, next := Ended("failed"), None;
      if allows(attempt, now) {
        to, next := Queued, Some(now + delay(attempt));
      }
      FailureCommitsIff(before, me, to, stage, code, next, now);
      GiveUpStep(before, me, seen, birth, to, stage, code, next, now);
      FailureRow(before.tables, seen, to, stage, code, next, now);
      result := store.TransitionFailure(seen, to, stage, code, next, now);
      Moved(before, GiveUp(me, to, stage, code, next, now), Idle, if result.Ok? then FailureHistoryOf(history, seen, birth) else history);
    }

    /**
     * One event: claim, deliver, or record why not. `Ok(true)` only for an event that is materialized, `Ok(false)`
     * only without a claim or with the claim's failure on record, and an error only when a rival has taken the
     * lease, or when a failure row of a purged event of the same id is in the way.
     */
    method ProcessAt(id: string, now: Time, resolved: Option<seq<string>>) returns (result: Result<bool>, claimed: Option<Event>)
      requires Valid() && Standing().Idle?
      modifies this, store
      ensures Valid() && Standing().Idle?
      ensures !Claimable(old(store.Contents()), id, workerID, now) ==> claimed.None? && Now() == old(Now())
      ensures claimed.None? ==> result == Ok(false)
      ensures claimed.Some? ==> claimed.value.id == id
      ensures result == Ok(true) ==> Materialized(store.Contents(), id)
      ensures result == Ok(false) && claimed.Some? ==> (id, claimed.value.lease.token) in store.failures
      ensures result.Err? ==> result == Err(LeaseLost) || (result == Err(Duplicate) && LeftoverFailure(Now(), (id, claimed.value.lease.token)))
      ensures old(script) == [] && Waiting(old(store.events), id, workerID, now) ==>
                && claimed.Some? && TakenBy(old(store.events)[id].lease, claimed.value.lease, workerID, now, now + LEASE)
                && claimed.value == old(store.events)[id].(lease := claimed.value.lease)
                && Handled(old(store.Contents()), claimed.value, resolved, allows, delay, now, result, store.Contents())
    {
      hide Run, Rivals, FailureEvidence, LeftoverPlan, Claimable, GivenUp, PlansStored, Reaches, Waiting, LeaseEnds;
      claimed := ClaimEvent(id, now);
      if claimed.None? {
        return Ok(false), None;
      }
      Interleave();
      var delivered := DeliverEvent(claimed.value, resolved);
      if delivered.Ok? {
        return Ok(true), claimed;
      }
      Interleave();
      ReportedEvidence();
      var stage := if delivered.error == Invalid then "audience_resolution" else "materialization";
      var code := if delivered.error != Invalid then MATERIALIZATION_FAILED
                  else if resolved.None? then AUDIENCE_FAILED
                  else AUDIENCE_EMPTY;
      var recorded := RecordEventFailure(claimed.value, stage, code, now);
      assert recorded == Err(Duplicate) ==> LeftoverFailure(Now(), (id, claimed.value.lease.token));
      if recorded.Err? {
        return Err(recorded.error), claimed;
      }
      return Ok(false), claimed;
    }
  }
}
