/**
 * When the plan queue hands out a row: exactly which columns let a claim through, and how long a lease, a
 * digest window or a retry time keeps every other worker away.
 */
module PlanTiming {
  import opened Prelude
  import opened Leases
  import opened EventTables
  import opened PlanQueue
  import opened PlanSafety

  /** A worker's claim that goes through. */
  predicate Takes(g: Global, a: Action, id: PlanId) {
    a.Claim? && a.id == id && Step(g, a) != g
  }

  predicate TakenWithin(g: Global, actions: seq<Action>, id: PlanId)
    decreases |actions|
  {
    actions != [] && (Takes(g, actions[0], id) || TakenWithin(Step(g, actions[0]), actions[1..], id))
  }

  predicate SameInsertion(g: Global, g': Global, id: PlanId) {
    id in g.plans && id in g'.plans && g'.history.births[id] == g.history.births[id]
  }

  /**
   * A claim by a worker without an open one goes through exactly when the plan is queued with a next attempt
   * that is blank or not in the future, or processing with a lease that is not in the future. Then the plan
   * gets the worker as owner, the new expiry and the next token, and nothing else changes.
   */
  lemma ClaimTakesIff(g: Global, w: nat, id: PlanId, owner: string, now: Time, expires: Time)
    requires LocalOf(g, w).claimed.None?
    ensures var a := Action.Claim(w, id, owner, now, expires); var g' := Step(g, a);
      && (Takes(g, a, id) <==>
            && owner != "" && id in g.plans
            && var l := g.plans[id].lease;
               || (l.phase == Queued && (l.nextAttemptAt == None || l.nextAttemptAt.value <= now))
               || (l.phase == Processing && (l.expires == None || l.expires.value <= now)))
      && (Takes(g, a, id) ==>
            && LocalOf(g', w) == LocalOf(g, w).(claimed := Some(id)) && id in g'.plans && g'.history == g.history
            && var l, l' := g.plans[id].lease, g'.plans[id].lease;
               && l'.phase == Processing && l'.owner == owner && l'.expires == Some(expires) && l'.token == l.token + 1
               && l'.attempts == l.attempts && l'.nextAttemptAt == l.nextAttemptAt && l'.lastError == l.lastError
               && g'.plans == g.plans[id := g.plans[id].(lease := l')])
  {
  }

  lemma ClaimIsFree(g: Global, a: Action)
    requires a.Claim? && Step(g, a) != g
    ensures LocalOf(g, a.worker).claimed.None? && a == Action.Claim(a.worker, a.id, a.owner, a.now, a.expires)
  {
    hide ClaimPlan, ClaimablePlan;
  }

  lemma TokenStays(g: Global, a: Action, id: PlanId)
    requires !Takes(g, a, id) && SameInsertion(g, Step(g, a), id)
    ensures Step(g, a).plans[id].lease.token == g.plans[id].lease.token
  {
    hide Due, Remembers, RemembersAll, Completes, Evidenced;
  }

  /** An insertion that stands at both ends stood in between. */
  lemma NotGone(g: Global, next: Global, last: Global, id: PlanId)
    requires RunEvolves(g, next) && RunEvolves(next, last) && SameInsertion(g, last, id)
    ensures SameInsertion(g, next, id)
  {
    hide PlanEvolves;
    assert g.history.births[id] <= next.history.births[id] <= last.history.births[id];
  }

  /** How a plan that nobody takes may stand later: as it was, or released by the worker that held it. */
  lemma {:induction false} UntakenPlan(g: Global, actions: seq<Action>, id: PlanId)
    requires Inv(g) && !TakenWithin(g, actions, id) && SameInsertion(g, Run(g, actions), id)
    ensures var l, l' := g.plans[id].lease, Run(g, actions).plans[id].lease; l'.token == l.token && LeaseEvolves(l, l')
    decreases |actions|
  {
    hide Inv, Step, Takes;
    RunKeepsInv(g, actions);
    if actions != [] {
      var next, last := Step(g, actions[0]), Run(g, actions);
      StepKeepsInv(g, actions[0]);
      RunKeepsInv(next, actions[1..]);
      NotGone(g, next, last, id);
      TokenStays(g, actions[0], id);
      UntakenPlan(next, actions[1..], id);
    }
  }

  /**
   * Between two claims of one inserted plan that go through, with none in between: either the first lease
   * had run out at the second claim's clock, or the first worker has given the plan back and its next attempt
   * is not in the future.
   */
  lemma LeaseKeepsOthersAway(before: seq<Action>, first: Action, between: seq<Action>, second: Action)
    requires first.Claim? && second.Claim? && second.id == first.id && Takes(Run(INITIAL, before), first, first.id)
    requires var g := Step(Run(INITIAL, before), first); var g' := Run(g, between);
      SameInsertion(g, g', first.id) && !TakenWithin(g, between, first.id) && Takes(g', second, first.id)
    ensures var g' := Run(Step(Run(INITIAL, before), first), between); var l := g'.plans[first.id].lease;
      || (l.phase == Processing && l.owner == first.owner && first.expires <= second.now)
      || (l.phase == Queued && (l.nextAttemptAt == None || l.nextAttemptAt.value <= second.now))
  {
    var g0 := Run(INITIAL, before);
    var g := Step(g0, first);
    var g' := Run(g, between);
    Reached(before);
    ClaimIsFree(g0, first);
    ClaimTakesIff(g0, first.worker, first.id, first.owner, first.now, first.expires);
    StepKeepsInv(g0, first);
    UntakenPlan(g, between, first.id);
    ClaimIsFree(g', second);
    ClaimTakesIff(g', second.worker, second.id, second.owner, second.now, second.expires);
    hide Inv, Step, Run, TakenWithin;
  }

  /** A plan that waits for its digest window or its retry goes to nobody before that time. */
  lemma WaitingPlanWaits(before: seq<Action>, between: seq<Action>, claim: Action, next: Time)
    requires claim.Claim? && claim.id in Run(INITIAL, before).plans
    requires var l := Run(INITIAL, before).plans[claim.id].lease; l.phase == Queued && l.nextAttemptAt == Some(next)
    requires var g := Run(INITIAL, before); var g' := Run(g, between);
      SameInsertion(g, g', claim.id) && !TakenWithin(g, between, claim.id) && Takes(g', claim, claim.id)
    ensures next <= claim.now
  {
    var g := Run(INITIAL, before);
    var g' := Run(g, between);
    Reached(before);
    UntakenPlan(g, between, claim.id);
    ClaimIsFree(g', claim);
    ClaimTakesIff(g', claim.worker, claim.id, claim.owner, claim.now, claim.expires);
    hide Inv, Step, Run, TakenWithin;
  }
}
