/**
 * The delivery processor as sequential code over the plan store. Between its store calls a script of
 * rival actions runs, and the whole execution is shown to be a run of the plan machine.
 */
module DeliveryProcessor {
  import opened Prelude
  import opened Leases
  import opened EventTables
  import opened PlanQueue
  import opened PlanSafety
  import opened DigestBatches
  import opened DeliveryOutcomes

  const LEASE := 30_000_000_000

  predicate ActsAs(a: Action, me: nat) {
    !a.Insert? && !a.Purge? && a.worker == me
  }

  predicate Rivals(script: seq<seq<Action>>, me: nat) {
    forall i, j :: 0 <= i < |script| && 0 <= j < |script[i]| ==> !ActsAs(script[i][j], me)
  }

  lemma {:induction false} RunSnoc(g: Global, actions: seq<Action>, a: Action)
    ensures Run(g, actions + [a]) == Step(Run(g, actions), a)
    decreases |actions|
  {
    hide Step;
    if actions == [] {
      assert [a][1..] == [];
      assert Run(Step(g, a), []) == Step(g, a);
    } else {
      assert (actions + [a])[1..] == actions[1..] + [a];
      RunSnoc(Step(g, actions[0]), actions[1..], a);
    }
  }

  lemma RivalKeepsLocal(g: Global, a: Action, me: nat)
    requires !ActsAs(a, me)
    ensures LocalOf(Step(g, a), me) == LocalOf(g, me)
  {
    hide Transition, AllPlanned, ClaimPlan;
  }

  lemma ClaimStep(g: Global, w: nat, id: PlanId, owner: string, now: Time, expires: Time)
    requires LocalOf(g, w).claimed.None? && ClaimablePlan(g.plans, id, owner, now)
    ensures Step(g, Claim(w, id, owner, now, expires)) ==
              g.(plans := ClaimPlan(g.plans, id, owner, now, expires), workers := g.workers[w := LocalOf(g, w).(claimed := Some(id))])
  {
  }

  lemma ClaimTakes(plans: Plans, id: PlanId, env: Env, now: Time)
    requires ClaimablePlan(plans, id, env.owner, now)
    ensures id in plans && ClaimPlan(plans, id, env.owner, now, now + env.lease) == plans[id := TakenRow(plans[id], env, now)]
  {
  }

  lemma EndsColumns(p: Plan, e: Ending, at: Time)
    ensures EndsAs(p, e, at, Ends(p, e, at))
  {
  }

  lemma EndStep(g: Global, w: nat, seen: Plan, ending: Ending, at: Time)
    requires Remembers(LocalOf(g, w), seen)
    ensures var done := Transition(g.plans, seen, ending, at); var h := g.history;
      Step(g, End(w, seen, ending, at)) ==
        Global(done.0, g.workers, if done.1.Ok? then h.(ended := h.ended + Tokens(h.births, [seen])) else h)
  {
  }

  const CODE := "backend." + "notification." + "channel_" + "plan_"
  const ACTION_TERMINAL := CODE + ("action_" + "terminal")
  const PLAN_FAILED := CODE + "failed"

  /** The codes the processor reports are valid evidence. */
  lemma ReportedEvidence()
    ensures FailureCode(ACTION_TERMINAL) && FailureCode(PLAN_FAILED)
  {
    assert KeyChars("backend.") && KeyChars("notification.") && KeyChars("channel_") && KeyChars("plan_");
    assert KeyChars("action_") && KeyChars("terminal") && KeyChars("failed");
    KeyCharsAppend("backend.", "notification.");
    KeyCharsAppend("backend." + "notification.", "channel_");
    KeyCharsAppend("backend." + "notification." + "channel_", "plan_");
    JoinedCode(CODE, "action_" + "terminal");
    JoinedCode(CODE, "failed");
  }

  /** The lease and the codes as the processor writes them. */
  lemma Settings()
    ensures LEASE == 30 * 1_000_000_000
    ensures ACTION_TERMINAL == "backend.notification.channel_plan_action_terminal"
    ensures PLAN_FAILED == "backend.notification.channel_plan_failed"
  {
    assert CODE == "backend.notification.channel_plan_";
    assert "action_" + "terminal" == "action_terminal";
  }

  lemma PlannedRows(mid: Plans, claimed: seq<Plan>, outbox: string, now: Time)
    requires Completes(mid, claimed)
    ensures DistinctPlans(claimed)
    ensures forall c :: c in claimed ==>
              var after := AllPlanned(mid, claimed, outbox, now);
              c.id in after && after[c.id].lease.phase == Ended("planned") && after[c.id].outboxMessageId == outbox
  {
    forall c | c in claimed
      ensures var after := AllPlanned(mid, claimed, outbox, now); c.id in after && after[c.id].lease.phase == Ended("planned") && after[c.id].outboxMessageId == outbox
    {
      var j :| 0 <= j < |claimed| && claimed[j] == c;
      assert Held(mid, claimed[j]);
    }
  }

  class Processor {
    const store: PlanStore
    const me: nat
    const workerID: string
    const terminal: Plan -> bool
    const dispatch: seq<Plan> -> Option<string>
    const allows: (nat, Time) -> bool
    const delay: nat -> Time
    var workers: map<nat, Local>
    var history: History
    var script: seq<seq<Action>>
    ghost var trace: seq<Action>

    function Now(): Global
      reads this, store
    {
      Global(store.plans, workers, history)
    }

    function Standing(): Local
      reads this
    {
      if me in workers then workers[me] else NOBODY
    }

    /** Everything so far is one run of the machine. */
    ghost predicate Valid()
      reads this, store
    {
      Run(INITIAL, trace) == Now() && Rivals(script, me)
    }

    constructor (store: PlanStore, me: nat, workerID: string, terminal: Plan -> bool, dispatch: seq<Plan> -> Option<string>,
                 allows: (nat, Time) -> bool, delay: nat -> Time, script: seq<seq<Action>>)
      requires Rivals(script, me) && store.plans == map[]
      ensures Valid() && Standing() == NOBODY && this.store == store && this.me == me
    {
      this.store, this.me, this.workerID, this.script := store, me, workerID, script;
      this.terminal, this.dispatch, this.allows, this.delay := terminal, dispatch, allows, delay;
      workers := map[];
      history, trace := INITIAL.history, [];
    }

    /** Everybody else moves: the next entry of the script, however long. Retention may purge rows meanwhile. */
    method Interleave()
      requires Valid()
      modifies this, store
      ensures Valid() && Standing() == old(Standing())
      ensures old(script) == [] ==> script == [] && Now() == old(Now())
    {
      hide Step, Run;
      if script == [] {
        return;
      }
      var actions := script[0];
      script := script[1..];
      for i := 0 to |actions|
        invariant Valid() && Standing() == old(Standing())
      {
        var next := Step(Now(), actions[i]);
        RivalKeepsLocal(Now(), actions[i], me);
        RunSnoc(INITIAL, trace, actions[i]);
        store.plans, workers, history := next.plans, next.workers, next.history;
        trace := trace + [actions[i]];
      }
    }

    /** Books this worker's own action once its store call has been made. */
    method Moved(ghost before: Global, a: Action, local: Local, after: History)
      requires Run(INITIAL, trace) == before && Rivals(script, me)
      requires Step(before, a) == Global(store.plans, workers[me := local], after)
      modifies this
      ensures Valid() && Standing() == local && script == old(script) && history == after
    {
      hide Run, Rivals, Step;
      RunSnoc(INITIAL, trace, a);
      workers, history := workers[me := local], after;
      trace := trace + [a];
    }

    function World(): Env {
      Env(workerID, LEASE, terminal, dispatch, allows, delay, ACTION_TERMINAL, PLAN_FAILED)
    }

    /** The claim's UPDATE and, a rival turn later, its SELECT; by then the row may have been purged. */
    method ClaimAndRead(id: PlanId, now: Time) returns (found: Option<Plan>)
      requires Valid() && Standing().claimed.None?
      modifies this, store
      ensures Valid() && Standing().claimed.None? && Keeps(old(Standing()), Standing())
      ensures !ClaimablePlan(old(store.plans), id, workerID, now) ==> found.None? && Now() == old(Now())
      ensures found.Some? ==> Remembers(Standing(), found.value) && found.value.id == id && found.value.workspace == id.workspace != ""
      ensures old(script) == [] ==> script == []
      ensures old(script) == [] && ClaimablePlan(old(store.plans), id, workerID, now) ==>
                && found == Some(TakenRow(old(store.plans)[id], World(), now)) && store.plans == old(store.plans)[id := found.value]
    {
      hide Run, Rivals, Step, ClaimPlan, ClaimablePlan, Inv;
      ghost var before := Now();
      var affected := store.Claim(id, workerID, now, now + LEASE);
      if !affected {
        ClaimMisses(before.plans, id, workerID, now, now + LEASE);
        return None;
      }
      ClaimStep(before, me, id, workerID, now, now + LEASE);
      ClaimTakes(before.plans, id, World(), now);
      Moved(before, Claim(me, id, workerID, now, now + LEASE), Standing().(claimed := Some(id)), history);
      Interleave();
      before := Now();
      Reached(trace);
      ReadBackStep(before, me, id);
      var held := Standing().held;
      if id !in store.plans {
        Moved(before, ReadBack(me), Local(None, held), history);
        return None;
      }
      var row, birth := store.plans[id], history.births[id];
      Moved(before, ReadBack(me), Local(None, held + {(row, birth)}), history);
      assert (row, birth) in Standing().held && (row, birth).0 == row;
      return Some(row);
    }

    /** One fenced transition by this worker. */
    method EndPlan(seen: Plan, ending: Ending, now: Time) returns (result: Result<()>)
      requires Valid() && Remembers(Standing(), seen)
      modifies this, store
      ensures Valid() && Standing() == old(Standing()) && script == old(script)
      ensures (store.plans, result) == Transition(old(store.plans), seen, ending, now)
    {
      hide Run, Rivals, Step, Transition, Remembers;
      ghost var before := Now();
      EndStep(before, me, seen, ending, now);
      RemembersSomething(Standing(), seen);
      assert workers[me := Standing()] == workers;
      result := store.TransitionPlan(seen, ending, now);
      Moved(before, End(me, seen, ending, now), Standing(),
            if result.Ok? then history.(ended := history.ended + Tokens(history.births, [seen])) else history);
    }

    /** Claims a plan unless its action is already terminal, in which case the claim cancels it. */
    method ClaimDeliverable(id: PlanId, now: Time) returns (result: Result<Option<Plan>>)
      requires Valid() && Standing().claimed.None?
      modifies this, store
      ensures Valid() && Standing().claimed.None? && Keeps(old(Standing()), Standing())
      ensures result.Ok? && result.value.Some? ==>
                var p := result.value.value;
                Remembers(Standing(), p) && p.id == id && p.workspace == id.workspace != "" && !(p.body.cancelWhenTerminal && terminal(p))
      ensures result.Err? ==> result.error == LeaseLost
      ensures old(script) == [] ==>
                var t, t' := old(store.plans), store.plans;
                && script == [] && result.Ok?
                && if !ClaimablePlan(t, id, workerID, now) then result.value == None && t' == t
                   else
                     var p := TakenRow(t[id], World(), now);
                     if Pointless(p, World()) then
                       result.value == None && OnlyRow(t, id, t') && t'[id] == Ends(p, CancelledFor(ACTION_TERMINAL), now)
                     else result.value == Some(p) && t' == t[id := p]
    {
      hide Run, Rivals, Remembers, Keeps, FailureCode;
      ReportedEvidence();
      var found := ClaimAndRead(id, now);
      if found.None? {
        return Ok(None);
      }
      if !found.value.body.cancelWhenTerminal {
        return Ok(found);
      }
      Interleave();
      if !terminal(found.value) {
        return Ok(found);
      }
      var cancelled := EndPlan(found.value, CancelledFor(ACTION_TERMINAL), now);
      return if cancelled.Ok? then Ok(None) else Err(cancelled.error);
    }

    method RecordPlanFailure(seen: Plan, now: Time) returns (result: Result<()>)
      requires Valid() && Remembers(Standing(), seen)
      modifies this, store
      ensures Valid() && Standing() == old(Standing()) && script == old(script)
      ensures result.Ok? <==> Held(old(store.plans), seen)
      ensures result.Err? ==> result.error == LeaseLost
      ensures result.Ok? && old(store.plans)[seen.id] == seen ==>
                OnlyRow(old(store.plans), seen.id, store.plans) && PutBack(seen, World(), now, store.plans[seen.id])
      ensures (store.plans, result) == Transition(old(store.plans), seen, FailureEnding(allows, delay, seen, now), now)
    {
      hide Run, Rivals, Remembers, FailureCode;
      ReportedEvidence();
      var attempt := seen.lease.attempts + 1;
      EndsColumns(seen, FailureEnding(allows, delay, seen, now), now);
      if !allows(attempt, now) {
        result := EndPlan(seen, FailedWith(PLAN_FAILED), now);
      } else {
        result := EndPlan(seen, RetryAt(now + delay(attempt), PLAN_FAILED), now);
      }
    }

    /** Claim, dispatch, complete; `Ok(true)` exactly when the plan has become planned under the dispatched message. */
    method ProcessImmediate(id: PlanId, now: Time) returns (result: Result<bool>, claimed: Option<Plan>)
      requires Valid() && Standing().claimed.None?
      modifies this, store
      ensures Valid() && Standing().claimed.None?
      ensures result == Ok(true) ==>
                && claimed.Some? && claimed.value.id == id && dispatch([claimed.value]).Some? && id in store.plans
                && store.plans[id].lease.phase == Ended("planned") && store.plans[id].outboxMessageId == dispatch([claimed.value]).value
      ensures result.Err? ==> result.error == LeaseLost
      ensures old(script) == [] ==> script == [] && result.Ok? && SentAlone(old(store.plans), id, World(), now, result.value, store.plans)
    {
      hide Run, Rivals, Remembers, FailureCode;
      claimed := None;
      var deliverable := ClaimDeliverable(id, now);
      if deliverable.Err? {
        return Err(deliverable.error), None;
      }
      if deliverable.value.None? {
        return Ok(false), None;
      }
      claimed := deliverable.value;
      Interleave();
      var receipt := dispatch([claimed.value]);
      if receipt.None? {
        var recorded := RecordPlanFailure(claimed.value, now);
        return if recorded.Ok? then Ok(false) else Err(recorded.error), claimed;
      }
      var completed := EndPlan(claimed.value, Planned(receipt.value), now);
      return if completed.Ok? then Ok(true) else Err(completed.error), claimed;
    }

    /** Claims what it can of a batch, dispatches it as one message and completes all of it or none. */
    method ProcessDigest(batch: seq<Plan>, now: Time) returns (result: Result<nat>, claimed: seq<Plan>)
      requires Valid() && Standing().claimed.None?
      modifies this, store
      ensures Valid() && Standing().claimed.None?
      ensures forall c :: c in claimed ==> c.id in Ids(batch)
      ensures result.Ok? && result.value > 0 ==>
                && result.value == |claimed| && DistinctPlans(claimed) && dispatch(claimed).Some?
                && forall c :: c in claimed ==>
                     && c.id in store.plans && store.plans[c.id].lease.phase == Ended("planned")
                     && store.plans[c.id].outboxMessageId == dispatch(claimed).value
      ensures result.Err? && (forall p :: p in batch ==> p.id.workspace == batch[0].id.workspace) ==> result.error == LeaseLost
      ensures old(script) == [] && OneBatch(batch) ==>
                script == [] && result.Ok? && SentTogether(old(store.plans), batch, World(), now, result.value, store.plans)
    {
      hide Run, Rivals, Step, Remembers, Keeps, SentTogether, AfterClaims, Deliverable, AllPlanned, PutBack, Held;
      ghost var t := store.plans;
      StoredUnderIds();
      var claims: Result<()>;
      claims, claimed := ClaimBatch(batch, now);
      if claims.Err? {
        return Err(claims.error), claimed;
      }
      if |claimed| == 0 {
        if OneBatch(batch) { NothingSent(t, batch, World(), now); }
        return Ok(0), claimed;
      }
      Interleave();
      if old(script) == [] && OneBatch(batch) { ClaimedRows(t, batch, World(), now); }
      ghost var mid := store.plans;
      var receipt := dispatch(claimed);
      if receipt.None? {
        var put := PutAllBack(claimed, now);
        if put.Err? {
          return Err(put.error), claimed;
        }
        if old(script) == [] && OneBatch(batch) { BatchPutBack(t, batch, World(), now, store.plans); }
        return Ok(0), claimed;
      }
      var completed := CompleteBatch(claimed, receipt.value, now);
      if completed.Ok? {
        PlannedRows(mid, claimed, receipt.value, now);
        if old(script) == [] && OneBatch(batch) { BatchPlanned(t, batch, World(), now, receipt.value); }
      }
      return if completed.Ok? then Ok(|claimed|) else Err(completed.error), claimed;
    }

    /** The claims of a batch, in order. */
    method ClaimBatch(batch: seq<Plan>, now: Time) returns (result: Result<()>, claimed: seq<Plan>)
      requires Valid() && Standing().claimed.None?
      modifies this, store
      ensures Valid() && Standing().claimed.None?
      ensures forall c :: c in claimed ==> Remembers(Standing(), c) && c.id in Ids(batch) && c.workspace == c.id.workspace != ""
      ensures result.Err? ==> result.error == LeaseLost
      ensures old(script) == [] && DistinctPlans(batch) ==>
                && script == [] && result.Ok? && claimed == Deliverable(old(store.plans), batch, World(), now)
                && store.plans == AfterClaims(old(store.plans), batch, World(), now)
    {
      hide Run, Rivals, Step, Remembers, Keeps, AfterClaims, ClaimablePlan, Pointless, TakenRow, Ends, DistinctPlans;
      result, claimed := Ok(()), [];
      ghost var t := store.plans;
      NoClaims(t, batch[..0], World(), now);
      for i := 0 to |batch|
        invariant Valid() && Standing().claimed.None?
        invariant forall c :: c in claimed ==> Remembers(Standing(), c) && c.id in Ids(batch) && c.workspace == c.id.workspace != ""
        invariant old(script) == [] && DistinctPlans(batch) ==>
                    && script == [] && claimed == Deliverable(t, batch[..i], World(), now) && store.plans == AfterClaims(t, batch[..i], World(), now)
      {
        ghost var before := Standing();
        assert batch[..i + 1][..i] == batch[..i];
        if DistinctPlans(batch) { OneMoreClaim(t, batch, i, World(), now); }
        var deliverable := ClaimDeliverable(batch[i].id, now);
        forall c | c in claimed ensures Remembers(Standing(), c) { StillRemembers(before, Standing(), c); }
        if deliverable.Err? {
          return Err(deliverable.error), claimed;
        }
        if deliverable.value.Some? {
          assert batch[i] in batch;
          claimed := claimed + [deliverable.value.value];
        }
      }
      assert batch[..|batch|] == batch;
    }

    /** After a failed dispatch every claimed plan is put back or given up on its own. */
    method PutAllBack(claimed: seq<Plan>, now: Time) returns (result: Result<()>)
      requires Valid() && Standing().claimed.None? && forall c :: c in claimed ==> Remembers(Standing(), c)
      modifies this, store
      ensures Valid() && Standing().claimed.None?
      ensures result.Err? ==> result.error == LeaseLost
      ensures old(script) == [] && AllLeased(old(store.plans), claimed) ==>
                && script == [] && result.Ok? && store.plans.Keys == old(store.plans).Keys
                && (forall c :: c in claimed ==> PutBack(c, World(), now, store.plans[c.id]))
                && (forall id :: id in store.plans && id !in Ids(claimed) ==> store.plans[id] == old(store.plans)[id])
    {
      hide Run, Rivals, Step, Remembers, PutBack;
      ghost var t := store.plans;
      for i := 0 to |claimed|
        invariant Valid() && Standing().claimed.None? && forall c :: c in claimed ==> Remembers(Standing(), c)
        invariant old(script) == [] && AllLeased(t, claimed) ==>
                    && script == [] && store.plans.Keys == t.Keys
                    && (forall j :: 0 <= j < i ==> PutBack(claimed[j], World(), now, store.plans[claimed[j].id]))
                    && (forall id :: id in t && id !in Ids(claimed[..i]) ==> store.plans[id] == t[id])
      {
        IdsAppend(claimed, i);
        Interleave();
        ghost var before := store.plans;
        var recorded := RecordPlanFailure(claimed[i], now);
        if recorded.Err? {
          return recorded;
        }
      }
      assert claimed[..|claimed|] == claimed;
      return Ok(());
    }

    /** In a reached state every plan is stored under its own id. */
    lemma StoredUnderIds()
      requires Valid()
      ensures forall id :: id in store.plans ==> store.plans[id].id == id && store.plans[id].workspace == id.workspace != ""
    {
      Reached(trace);
      forall id | id in store.plans ensures store.plans[id].id == id && store.plans[id].workspace == id.workspace != "" {
        assert PlanOk(store.plans[id], id);
      }
    }

    method CompleteBatch(batch: seq<Plan>, outbox: string, now: Time) returns (result: Result<()>)
      requires Valid() && forall c :: c in batch ==> Remembers(Standing(), c)
      modifies this, store
      ensures Valid() && Standing() == old(Standing()) && script == old(script)
      ensures result.Ok? <==> Completes(old(store.plans), batch)
      ensures result.Err? ==> result.error == if OneWorkspace(batch) then LeaseLost else Invalid
      ensures store.plans == if result.Ok? then AllPlanned(old(store.plans), batch, outbox, now) else old(store.plans)
    {
      hide Run, Rivals, Step, AllPlanned, Held, Remembers;
      if |batch| == 0 {
        EmptyBatch(store.plans, batch, outbox, now);
        return Ok(());
      }
      RemembersSomething(Standing(), batch[0]);
      assert workers[me := Standing()] == workers;
      ghost var before := Now();
      result := store.CompletePlanBatch(batch, outbox, now);
      if result.Ok? {
        BatchStep(before, me, batch, outbox, now);
        Moved(before, PlanSafety.CompleteBatch(me, batch, outbox, now), Standing(),
              history.(ended := history.ended + Tokens(history.births, batch)));
      }
    }

    /** One unconsumed plan of a pass: alone, or with the digest batch it leads. */
    method ProcessCandidate(plans: seq<Plan>, candidate: Plan, consumed: set<PlanId>, now: Time)
      returns (result: Result<nat>, work: Work, more: set<PlanId>)
      requires Valid() && Standing().claimed.None?
      modifies this, store
      ensures Valid() && Standing().claimed.None?
      ensures work == WorkFor(plans, candidate, consumed) && more == consumed + Ids(PlansIn(work))
      ensures old(script) == [] && Listed(plans) ==>
                script == [] && result.Ok? && Done(old(store.plans), work, World(), now, result.value, store.plans)
    {
      hide Run, Rivals, Step, Joining, Maximum, AllHeld, Held, SentTogether, SentAlone, Listed, OneBatch;
      if Listed(plans) { JoiningIsOneBatch(plans, candidate, consumed); }
      if candidate.body.digest && candidate.body.digestKey != "" {
        var batch := DigestCandidates(plans, candidate, consumed);
        more := Consume(consumed, batch);
        work := Digest(batch);
        var count, _ := ProcessDigest(batch, now);
        result := count;
      } else {
        work := Immediate(candidate);
        more := consumed + {candidate.id};
        assert Ids([candidate]) == {candidate.id};
        var done, _ := ProcessImmediate(candidate.id, now);
        result := if done.Err? then Err(done.error) else Ok(if done.value then 1 else 0);
      }
    }

    /**
     * One pass over a list of due plans; `handled` lists the calls made, all of the schedule unless one of them
     * failed. When nobody else moves none fails, and `states` are the tables between them, `counts` what each planned.
     */
    method ProcessDue(plans: seq<Plan>, now: Time) returns (result: Result<nat>, handled: seq<Work>, ghost states: seq<Plans>, ghost counts: seq<nat>)
      requires Valid() && Standing().claimed.None?
      modifies this, store
      ensures Valid() && Standing().claimed.None?
      ensures handled <= Schedule(plans, 0, {}) && (result.Ok? ==> handled == Schedule(plans, 0, {}))
      ensures old(script) == [] && Listed(plans) ==>
                && script == [] && result == Ok(Sum(counts)) && Passes(states, handled, counts, World(), now)
                && states[0] == old(store.plans) && states[|handled|] == store.plans
    {
      hide Valid, Standing, Schedule, WorkFor, Ids, PlansIn, Done, Listed;
      handled, states, counts := [], [store.plans], [];
      var consumed: set<PlanId> := {};
      var processed := 0;
      for i := 0 to |plans|
        invariant Valid() && Standing().claimed.None?
        invariant Schedule(plans, 0, {}) == handled + Schedule(plans, i, consumed)
        invariant |states| == |handled| + 1 && |counts| == |handled| && states[0] == old(store.plans) && processed == Sum(counts)
        invariant old(script) == [] && Listed(plans) ==>
                    script == [] && Passes(states, handled, counts, World(), now) && states[|handled|] == store.plans
      {
        ScheduleTurn(plans, i, consumed);
        if plans[i].id in consumed {
          continue;
        }
        ghost var rest := Schedule(plans, i + 1, consumed + Ids(PlansIn(WorkFor(plans, plans[i], consumed))));
        var count, work, more := ProcessCandidate(plans, plans[i], consumed, now);
        assert handled + ([work] + rest) == (handled + [work]) + rest;
        handled := handled + [work];
        consumed := more;
        if count.Err? {
          return Err(count.error), handled, states, counts;
        }
        states, counts := states + [store.plans], counts + [count.value];
        processed := processed + count.value;
      }
      ScheduleEnds(plans, |plans|, consumed);
      return Ok(processed), handled, states, counts;
    }

    method Consume(consumed: set<PlanId>, batch: seq<Plan>) returns (more: set<PlanId>)
      ensures more == consumed + Ids(batch)
    {
      more := consumed;
      for j := 0 to |batch|
        invariant more == consumed + Ids(batch[..j])
      {
        assert batch[..j + 1] == batch[..j] + [batch[j]];
        more := more + {batch[j].id};
      }
      assert batch[..|batch|] == batch;
    }
  }

  lemma JoiningIsOneBatch(plans: seq<Plan>, first: Plan, consumed: set<PlanId>)
    requires Listed(plans)
    ensures OneBatch(Joining(plans, 0, first, consumed, Maximum(first)))
  {
    JoiningFacts(plans, 0, first, consumed, Maximum(first));
    var batch := Joining(plans, 0, first, consumed, Maximum(first));
    hide Joining, Maximum;
    forall p | p in batch ensures p.id.workspace == first.workspace {
      assert Waiting(plans, 0, consumed, p) && SameDispatch(p, first);
    }
  }

  /** The call that an unconsumed plan gives rise to. */
  function WorkFor(plans: seq<Plan>, p: Plan, consumed: set<PlanId>): Work {
    if p.body.digest && p.body.digestKey != "" then Digest(Joining(plans, 0, p, consumed, Maximum(p))) else Immediate(p)
  }

  lemma ScheduleTurn(plans: seq<Plan>, i: nat, consumed: set<PlanId>)
    requires i < |plans|
    ensures Schedule(plans, i, consumed) ==
      if plans[i].id in consumed then Schedule(plans, i + 1, consumed)
      else
        var work := WorkFor(plans, plans[i], consumed);
        [work] + Schedule(plans, i + 1, consumed + Ids(PlansIn(work)))
  {
    hide Joining, Maximum;
    assert Ids([plans[i]]) == {plans[i].id};
  }

  lemma ScheduleEnds(plans: seq<Plan>, i: nat, consumed: set<PlanId>)
    requires i == |plans|
    ensures Schedule(plans, i, consumed) == []
  {
  }

  function FailureEnding(allows: (nat, Time) -> bool, delay: nat -> Time, seen: Plan, now: Time): Ending {
    var attempt := seen.lease.attempts + 1;
    if !allows(attempt, now) then FailedWith(PLAN_FAILED)
    else RetryAt(now + delay(attempt), PLAN_FAILED)
  }

  lemma ClaimMisses(plans: Plans, id: PlanId, owner: string, now: Time, expires: Time)
    requires !ClaimablePlan(plans, id, owner, now)
    ensures ClaimPlan(plans, id, owner, now, expires) == plans
  {
  }

  lemma ReadBackStep(g: Global, w: nat, id: PlanId)
    requires Inv(g) && LocalOf(g, w).claimed == Some(id)
    ensures id in g.plans ==> g.plans[id].id == id && g.plans[id].workspace == id.workspace != ""
    ensures Step(g, ReadBack(w)) == g.(workers := g.workers[w := Local(None,
              if id in g.plans then LocalOf(g, w).held + {(g.plans[id], g.history.births[id])} else LocalOf(g, w).held)])
  {
    hide WorkersOk, EndedOk, BornOk;
    if id in g.plans { assert PlanOk(g.plans[id], id); }
  }

  /** No snapshot is forgotten. */
  predicate Keeps(l: Local, l': Local) {
    l.held <= l'.held
  }

  lemma RemembersSomething(l: Local, seen: Plan)
    requires Remembers(l, seen)
    ensures l != NOBODY
  {
  }

  lemma StillRemembers(l: Local, l': Local, seen: Plan)
    requires Remembers(l, seen) && Keeps(l, l')
    ensures Remembers(l', seen)
  {
  }

  lemma BatchStep(g: Global, w: nat, batch: seq<Plan>, outbox: string, at: Time)
    requires forall c :: c in batch ==> Remembers(LocalOf(g, w), c)
    requires Completes(g.plans, batch)
    ensures Step(g, PlanSafety.CompleteBatch(w, batch, outbox, at)) ==
              g.(plans := AllPlanned(g.plans, batch, outbox, at), history := g.history.(ended := g.history.ended + Tokens(g.history.births, batch)))
  {
    hide Remembers, Completes, AllPlanned;
  }

  lemma EmptyBatch(plans: Plans, batch: seq<Plan>, outbox: string, at: Time)
    requires batch == []
    ensures AllPlanned(plans, batch, outbox, at) == plans
  {
  }
}
