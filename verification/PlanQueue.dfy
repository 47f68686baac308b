/** The channel-plan table: claims, fenced transitions, batch completion, and the action-terminal test. */
module PlanQueue {
  import opened Prelude
  import opened Leases
  import opened AlertFolding
  import opened EventTables

  type Plans = map<PlanId, Plan>

  /** What a worker asks a claimed plan to become. */
  datatype Ending =
    | Planned(outboxMessageId: string)
    | CancelledFor(reason: string)
    | FailedWith(code: string)
    | RetryAt(next: Time, code: string)

  function Ends(p: Plan, e: Ending, at: Time): Plan {
    match e
    case Planned(outbox) => p.(lease := Released(p.lease, Ended("planned"), 0, None, "", at), outboxMessageId := outbox)
    case CancelledFor(reason) => p.(lease := Released(p.lease, Ended("cancelled"), 0, None, reason, at), outboxMessageId := "")
    case FailedWith(code) => p.(lease := Released(p.lease, Ended("failed"), 1, None, code, at), outboxMessageId := "")
    case RetryAt(next, code) => p.(lease := Released(p.lease, Queued, 1, Some(next), code, at), outboxMessageId := "")
  }

  /** The error code a transition writes; an empty one is always accepted. */
  function CodeOf(e: Ending): string {
    match e
    case Planned(_) => ""
    case CancelledFor(reason) => reason
    case FailedWith(code) => code
    case RetryAt(_, code) => code
  }

  predicate Evidenced(e: Ending) {
    CodeOf(e) == "" || FailureCode(CodeOf(e))
  }

  predicate Held(plans: Plans, seen: Plan) {
    seen.id in plans && Holds(plans[seen.id].lease, seen.lease)
  }

  function Transition(plans: Plans, seen: Plan, e: Ending, at: Time): (Plans, Result<()>) {
    if !Evidenced(e) then (plans, Err(Invalid))
    else if Held(plans, seen) then (plans[seen.id := Ends(plans[seen.id], e, at)], Ok(()))
    else (plans, Err(LeaseLost))
  }

  predicate ClaimablePlan(plans: Plans, id: PlanId, owner: string, now: Time) {
    owner != "" && id in plans && Due(plans[id].lease, now)
  }

  function ClaimPlan(plans: Plans, id: PlanId, owner: string, now: Time, expires: Time): Plans {
    if ClaimablePlan(plans, id, owner, now)
    then plans[id := plans[id].(lease := Claimed(plans[id].lease, owner, now, expires))] else plans
  }

  /** The table once every plan of the batch has become planned under one message. */
  function AllPlanned(plans: Plans, batch: seq<Plan>, outbox: string, at: Time): Plans {
    map p | p in plans :: if exists i :: 0 <= i < |batch| && batch[i].id == p then Ends(plans[p], Planned(outbox), at) else plans[p]
  }

  /** A batch belongs to one named workspace. */
  predicate OneWorkspace(batch: seq<Plan>) {
    forall i :: 0 <= i < |batch| ==> batch[i].workspace == batch[0].workspace != ""
  }

  predicate ActionTerminal(items: map<ItemKey, ItemRow>, eventId: string) {
    && (exists key :: key in items && items[key].eventId == eventId)
    && forall key :: key in items && items[key].eventId == eventId ==> items[key].actionState != "open" && !items[key].alertState.Firing?
  }

  /** The columns each ending leaves; everything else of the plan stays. */
  predicate EndsAs(p: Plan, e: Ending, at: Time, p': Plan) {
    && p' == p.(lease := p'.lease, outboxMessageId := p'.outboxMessageId)
    && match e
       case Planned(outbox) => LeaseEnds(p.lease, p'.lease, Ended("planned"), 0, None, "", at) && p'.outboxMessageId == outbox
       case CancelledFor(reason) => LeaseEnds(p.lease, p'.lease, Ended("cancelled"), 0, None, reason, at) && p'.outboxMessageId == ""
       case FailedWith(code) => LeaseEnds(p.lease, p'.lease, Ended("failed"), 1, None, code, at) && p'.outboxMessageId == ""
       case RetryAt(next, code) => LeaseEnds(p.lease, p'.lease, Queued, 1, Some(next), code, at) && p'.outboxMessageId == ""
  }

  /** The stored plan is processing under the owner and token that were read. */
  predicate LeasedPlan(plans: Plans, seen: Plan) {
    && seen.id in plans && plans[seen.id].lease.phase == Processing
    && plans[seen.id].lease.owner == seen.lease.owner && plans[seen.id].lease.token == seen.lease.token
  }

  class PlanStore {
    var plans: Plans

    method Claim(id: PlanId, owner: string, now: Time, expires: Time) returns (affected: bool)
      modifies this
      ensures plans == ClaimPlan(old(plans), id, owner, now, expires) && affected == ClaimablePlan(old(plans), id, owner, now)
      ensures affected <==>
                && owner != "" && id in old(plans)
                && var l := old(plans)[id].lease;
                   || (l.phase == Queued && (l.nextAttemptAt == None || l.nextAttemptAt.value <= now))
                   || (l.phase == Processing && (l.expires == None || l.expires.value <= now))
    {
      if owner == "" || id !in plans || !Due(plans[id].lease, now) {
        return false;
      }
      plans := plans[id := plans[id].(lease := Claimed(plans[id].lease, owner, now, expires))];
      return true;
    }

    method TransitionPlan(seen: Plan, e: Ending, at: Time) returns (result: Result<()>)
      modifies this
      ensures (plans, result) == Transition(old(plans), seen, e, at)
      ensures result.Ok? <==> Evidenced(e) && LeasedPlan(old(plans), seen)
      ensures result.Ok? ==> seen.id in plans && EndsAs(old(plans)[seen.id], e, at, plans[seen.id]) && plans == old(plans)[seen.id := plans[seen.id]]
    {
      if CodeOf(e) != "" && !FailureCode(CodeOf(e)) {
        return Err(Invalid);
      }
      if seen.id !in plans || !Holds(plans[seen.id].lease, seen.lease) {
        return Err(LeaseLost);
      }
      plans := plans[seen.id := Ends(plans[seen.id], e, at)];
      return Ok(());
    }

    /** One transaction over a whole batch of one workspace: every plan becomes planned, or no row changes. */
    method CompletePlanBatch(batch: seq<Plan>, outbox: string, at: Time) returns (result: Result<()>)
      modifies this
      ensures result.Ok? <==> OneWorkspace(batch) && DistinctPlans(batch) && forall i :: 0 <= i < |batch| ==> Held(old(plans), batch[i])
      ensures plans == if result.Ok? then AllPlanned(old(plans), batch, outbox, at) else old(plans)
      ensures result.Err? ==> result.error == if OneWorkspace(batch) then LeaseLost else Invalid
      ensures result.Ok? ==>
                && plans.Keys == old(plans).Keys && (forall i :: 0 <= i < |batch| ==> LeasedPlan(old(plans), batch[i]))
                && forall p :: p in plans ==>
                     if exists i :: 0 <= i < |batch| && batch[i].id == p then EndsAs(old(plans)[p], Planned(outbox), at, plans[p]) else plans[p] == old(plans)[p]
    {
      for i := 0 to |batch|
        invariant OneWorkspace(batch[..i])
      {
        if batch[0].workspace == "" || batch[i].workspace != batch[0].workspace {
          return Err(Invalid);
        }
      }
      assert batch[..|batch|] == batch;
      var before := plans;
      assert AllPlanned(before, batch[..0], outbox, at) == before;
      for i := 0 to |batch|
        invariant plans == AllPlanned(before, batch[..i], outbox, at)
        invariant DistinctPlans(batch[..i]) && forall j :: 0 <= j < i ==> Held(before, batch[j])
      {
        PrefixStep(before, batch, i, outbox, at);
        var moved := TransitionPlan(batch[i], Planned(outbox), at);
        if moved.Err? {
          plans := before;
          return moved;
        }
      }
      assert batch[..|batch|] == batch;
      return Ok(());
    }
  }

  /** After a prefix has been completed, the next plan is held exactly if it was held before and is new. */
  lemma PrefixStep(before: Plans, batch: seq<Plan>, i: nat, outbox: string, at: Time)
    requires i < |batch| && DistinctPlans(batch[..i]) && forall j :: 0 <= j < i ==> Held(before, batch[j])
    ensures var plans := AllPlanned(before, batch[..i], outbox, at);
      && (Held(plans, batch[i]) <==> Held(before, batch[i]) && DistinctPlans(batch[..i + 1]))
      && (Held(plans, batch[i]) ==>
            Transition(plans, batch[i], Planned(outbox), at).0 == AllPlanned(before, batch[..i + 1], outbox, at))
  {
    hide FailureCode;
    var done, next := batch[..i], batch[..i + 1];
    var plans := AllPlanned(before, done, outbox, at);
    var id := batch[i].id;
    assert next[i] == batch[i] && forall j :: 0 <= j < i ==> next[j] == done[j];
    if exists j :: 0 <= j < i && done[j].id == id {
      assert !DistinctPlans(next);
    } else {
      assert DistinctPlans(next);
      if Held(before, batch[i]) {
        assert plans[id] == before[id];
        forall p | p in before
          ensures (exists j :: 0 <= j <= i && next[j].id == p) <==> (exists j :: 0 <= j < i && done[j].id == p) || p == id
        {
        }
      }
    }
  }
}
