/**
 * When the event queue hands out a row: exactly which columns let a claim through, and how long a lease or
 * a retry time keeps every other worker away.
 */
module EventTiming {
  import opened Prelude
  import opened Leases
  import opened EventTables
  import opened EventMachine
  import opened EventSafety
  import opened EventResults

  /** A worker's claim that goes through. */
  predicate Takes(g: Global, a: Action, id: string) {
    a.Claim? && a.id == id && Step(g, a) != g
  }

  predicate TakenWithin(g: Global, actions: seq<Action>, id: string)
    decreases |actions|
  {
    actions != [] && (Takes(g, actions[0], id) || TakenWithin(Step(g, actions[0]), actions[1..], id))
  }

  predicate SameInsertion(g: Global, g': Global, id: string) {
    id in g.tables.events && id in g'.tables.events && BirthOf(g'.history.births, id) == BirthOf(g.history.births, id)
  }

  /**
   * An idle worker's claim goes through exactly when the row is queued with a next attempt that is blank or
   * not in the future, or processing with a lease that is not in the future. Then that row gets the worker
   * as owner, the new expiry and the next token, and nothing else changes.
   */
  lemma ClaimTakesIff(g: Global, w: nat, id: string, owner: string, now: Time, expires: Time)
    requires LocalOf(g, w).Idle?
    ensures var a := Action.Claim(w, id, owner, now, expires); var g' := Step(g, a);
      && (Takes(g, a, id) <==>
            && id != "" && owner != "" && id in g.tables.events
            && var l := g.tables.events[id].lease;
               || (l.phase == Queued && (l.nextAttemptAt == None || l.nextAttemptAt.value <= now))
               || (l.phase == Processing && (l.expires == None || l.expires.value <= now)))
      && (Takes(g, a, id) ==>
            && LocalOf(g', w) == Local.Claimed(id) && id in g'.tables.events && g'.history == g.history
            && var l, l' := g.tables.events[id].lease, g'.tables.events[id].lease;
               && l'.phase == Processing && l'.owner == owner && l'.expires == Some(expires) && l'.token == l.token + 1
               && l'.attempts == l.attempts && l'.nextAttemptAt == l.nextAttemptAt && l'.lastError == l.lastError
               && g'.tables == g.tables.(events := g.tables.events[id := g.tables.events[id].(lease := l')]))
  {
  }

  lemma TokenStays(g: Global, a: Action, id: string)
    requires !Takes(g, a, id) && SameInsertion(g, Step(g, a), id)
    ensures Step(g, a).tables.events[id].lease.token == g.tables.events[id].lease.token
  {
    hide DeliverAll, InsertPlans, Addressed, AcknowledgeItem, EventTables.SetPersonal, EventTables.MarkAllRead, DeliverHistory, FailureHistoryOf, FailureEvidence, Compiled, TakenIn;
    if a.Acknowledge? || a.SetPersonal? || a.MarkRead? {
      MailboxLeavesEvents(g.tables, a);
    } else if a.Claim? && a.id != id {
      OtherClaim(g, a, id);
    }
  }

  lemma OtherClaim(g: Global, a: Action, id: string)
    requires a.Claim? && a.id != id
    ensures id in g.tables.events ==> id in Step(g, a).tables.events && Step(g, a).tables.events[id] == g.tables.events[id]
  {
    hide Due;
  }

  lemma MailboxLeavesEvents(t: Tables, a: Action)
    ensures a.Acknowledge? ==> AcknowledgeItem(t, a.recipient, a.identity, a.at).0.events == t.events
    ensures a.SetPersonal? ==> EventTables.SetPersonal(t, a.recipient, a.identity, a.change, a.at).events == t.events
    ensures a.MarkRead? ==> EventTables.MarkAllRead(t, a.recipient, a.listed, a.at).events == t.events
  {
  }

  /** How a row that nobody takes may stand later: as it was, or released by the worker that held it. */
  lemma {:induction false} UntakenRow(g: Global, actions: seq<Action>, id: string)
    requires Inv(g) && !TakenWithin(g, actions, id) && SameInsertion(g, Run(g, actions), id)
    ensures var l, l' := g.tables.events[id].lease, Run(g, actions).tables.events[id].lease;
      l'.token == l.token && LeaseEvolves(l, l')
    decreases |actions|
  {
    hide Inv, Step, Takes;
    RunKeepsInv(g, actions);
    if actions != [] {
      var next, last := Step(g, actions[0]), Run(g, actions);
      StepKeepsInv(g, actions[0]);
      StepIsRun(g, actions[0]);
      RunKeepsInv(next, actions[1..]);
      NotGone(g, next, last, id);
      TokenStays(g, actions[0], id);
      UntakenRow(next, actions[1..], id);
    }
  }

  /** An insertion that stands at both ends stood in between. */
  lemma NotGone(g: Global, next: Global, last: Global, id: string)
    requires RunEvolves(g, next) && RunEvolves(next, last) && SameInsertion(g, last, id)
    ensures SameInsertion(g, next, id)
  {
    hide LeaseEvolves;
  }

  /**
   * Between two claims of one insertion that go through, with none in between: either the first lease had
   * run out at the second claim's clock, or the first worker has given the row back and its next attempt is
   * not in the future.
   */
  lemma LeaseKeepsOthersAway(before: seq<Action>, first: Action, between: seq<Action>, second: Action)
    requires first.Claim? && second.Claim? && second.id == first.id && Takes(Run(INITIAL, before), first, first.id)
    requires var g := Step(Run(INITIAL, before), first); var g' := Run(g, between);
      SameInsertion(g, g', first.id) && !TakenWithin(g, between, first.id) && Takes(g', second, first.id)
    ensures var g' := Run(Step(Run(INITIAL, before), first), between); var l := g'.tables.events[first.id].lease;
      || (l.phase == Processing && l.owner == first.owner && first.expires <= second.now)
      || (l.phase == Queued && (l.nextAttemptAt == None || l.nextAttemptAt.value <= second.now))
  {
    var g0 := Run(INITIAL, before);
    var g := Step(g0, first);
    var g' := Run(g, between);
    Reached(before);
    ClaimIsIdle(g0, first);
    ClaimTakesIff(g0, first.worker, first.id, first.owner, first.now, first.expires);
    StepKeepsInv(g0, first);
    UntakenRow(g, between, first.id);
    ClaimIsIdle(g', second);
    ClaimTakesIff(g', second.worker, second.id, second.owner, second.now, second.expires);
    hide Inv, Step, Run, TakenWithin;
  }

  lemma ClaimIsIdle(g: Global, a: Action)
    requires a.Claim? && Step(g, a) != g
    ensures LocalOf(g, a.worker).Idle? && a == Action.Claim(a.worker, a.id, a.owner, a.now, a.expires)
  {
    hide ClaimEvent, Claimable;
  }

  /** A row that is queued for a later attempt goes to nobody before that time. */
  lemma RetryWaits(before: seq<Action>, between: seq<Action>, claim: Action, next: Time)
    requires claim.Claim? && claim.id in Run(INITIAL, before).tables.events
    requires var l := Run(INITIAL, before).tables.events[claim.id].lease; l.phase == Queued && l.nextAttemptAt == Some(next)
    requires var g := Run(INITIAL, before); var g' := Run(g, between);
      SameInsertion(g, g', claim.id) && !TakenWithin(g, between, claim.id) && Takes(g', claim, claim.id)
    ensures next <= claim.now
  {
    var g := Run(INITIAL, before);
    var g' := Run(g, between);
    Reached(before);
    UntakenRow(g, between, claim.id);
    ClaimIsIdle(g', claim);
    ClaimTakesIff(g', claim.worker, claim.id, claim.owner, claim.now, claim.expires);
    hide Inv, Step, Run, TakenWithin;
  }
}
