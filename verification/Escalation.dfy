/**
 * When a channel plan that should be cancelled "once its action is terminal" really is. The test looks
 * for inbox items that still carry the plan's own event, and an item carries only its newest one.
 */
module Escalation {
  import opened Prelude
  import opened Leases
  import opened AlertFolding
  import opened EventTables
  import opened EventMachine
  import opened EventSafety
  import opened EventResults
  import PlanQueue

  type Arrivals = map<ItemKey, seq<Arrival>>

  // ----- which event an item carries -----

  /** Nothing newer came before the `n`th arrival, and everything after it was strictly older. */
  predicate Newest(arrivals: seq<Arrival>, n: nat)
    requires n < |arrivals|
  {
    && (forall m :: 0 <= m < n ==> arrivals[m].at <= arrivals[n].at)
    && (forall m :: n < m < |arrivals| ==> arrivals[m].at < arrivals[n].at)
  }

  lemma {:induction false} WinnerIsNewest(arrivals: seq<Arrival>) returns (n: nat)
    requires arrivals != []
    ensures n < |arrivals| && Newest(arrivals, n) && arrivals[n] == Winner(arrivals)
    decreases |arrivals|
  {
    var last := |arrivals| - 1;
    if last == 0 {
      n := 0;
    } else {
      var before := arrivals[..last];
      var m := WinnerIsNewest(before);
      assert forall j :: 0 <= j < last ==> before[j] == arrivals[j];
      n := if before[m].at <= arrivals[last].at then last else m;
      if n == last {
        forall j | 0 <= j < last ensures arrivals[j].at <= arrivals[last].at {
          assert j <= m || m < j;
        }
      }
    }
  }

  ghost predicate StillNewest(arrivals: seq<Arrival>, id: string) {
    exists n :: 0 <= n < |arrivals| && arrivals[n].eventId == id && Newest(arrivals, n)
  }

  /** The item carries an event exactly when no later-or-equal arrival has followed the event's own. */
  lemma CarriesIffStillNewest(arrivals: seq<Arrival>, id: string)
    requires arrivals != []
    ensures Winner(arrivals).eventId == id <==> StillNewest(arrivals, id)
  {
    var w := WinnerIsNewest(arrivals);
    if StillNewest(arrivals, id) {
      var n :| 0 <= n < |arrivals| && arrivals[n].eventId == id && Newest(arrivals, n);
      assert n == w;
    }
  }

  // ----- the action-terminal test over every run -----

  /** One item's part of the test: its newest event is this one, has no open action, and is acknowledged if it fires. */
  predicate Settled(newest: Arrival, row: ItemRow) {
    newest.actionState != "open" && (newest.alertState.Firing? ==> row.alertState.Acknowledged?)
  }

  /**
   * In every reachable state a plan's action is terminal exactly when some recipient's item still carries
   * the plan's event, that is, no later-or-equal event has reached that item since, and every such item has
   * no open action and, if the event fires, has been acknowledged.
   */
  lemma TerminalIff(actions: seq<Action>, id: string)
    ensures var g := Run(INITIAL, actions); var items, arrivals := g.tables.items, g.history.arrivals;
      && items.Keys == arrivals.Keys && (forall key :: key in items ==> arrivals[key] != [])
      && (PlanQueue.ActionTerminal(items, id) <==>
            && (exists key :: key in items && StillNewest(arrivals[key], id))
            && forall key :: key in items && StillNewest(arrivals[key], id) ==> Settled(Winner(arrivals[key]), items[key]))
  {
    hide Run, EventsOk, FailureRowsOk, LogsOk, PlansOk, MailboxOk, WorkersOk, EndedOk, CreatedOk, Winner, StillNewest;
    Reached(actions);
    var g := Run(INITIAL, actions);
    var items, arrivals := g.tables.items, g.history.arrivals;
    forall key | key in items
      ensures arrivals[key] != [] && (items[key].eventId == id <==> StillNewest(arrivals[key], id))
      ensures items[key].actionState != "open" && !items[key].alertState.Firing? <==> Settled(Winner(arrivals[key]), items[key])
    {
      assert ItemFrom(items[key], key, arrivals[key]);
      CarriesIffStillNewest(arrivals[key], id);
    }
  }

  // ----- an overtaken event -----

  predicate Overtaken(items: Items, id: string) {
    forall key :: key in items ==> items[key].eventId != id
  }

  lemma {:induction false} DeliveryKeepsOvertaken(groups: Groups, items: Items, e: Event, recipients: seq<string>, id: string)
    requires Overtaken(items, id) && e.id != id
    ensures Overtaken(DeliverAll(groups, items, e, recipients).1, id)
    decreases |recipients|
  {
    if recipients != [] {
      var one := DeliverOne(groups, items, ArrivalOf(e, recipients[0]));
      DeliveryKeepsOvertaken(one.0, one.1, e, recipients[1..], id);
    }
  }

  lemma StepKeepsOvertaken(g: Global, a: Action, id: string)
    requires Overtaken(g.tables.items, id) && Materialized(g.tables, id)
    ensures Overtaken(Step(g, a).tables.items, id)
  {
    hide DeliverAll, InsertPlans, Compiled, TakenIn, FailureEvidence;
    if a.Deliver? && LocalOf(g, a.worker).Holding? {
      var seen := LocalOf(g, a.worker).seen;
      if seen.id != id { DeliveryKeepsOvertaken(g.tables.groups, g.tables.items, seen, a.recipients, id); }
    }
  }

  /** An insertion that stands at the end stood all along. */
  lemma StoodAllAlong(g: Global, next: Global, last: Global, id: string)
    requires RunEvolves(g, next) && RunEvolves(next, last) && id in g.tables.events && Stands(g, last, id)
    ensures Stands(g, next, id) && Stands(next, last, id)
  {
    hide LeaseEvolves;
    assert BirthOf(g.history.births, id) <= BirthOf(next.history.births, id) <= BirthOf(last.history.births, id);
  }

  lemma {:induction false} OvertakenForGood(g: Global, actions: seq<Action>, id: string)
    requires Inv(g) && Materialized(g.tables, id) && Overtaken(g.tables.items, id) && Stands(g, Run(g, actions), id)
    ensures Overtaken(Run(g, actions).tables.items, id)
    decreases |actions|
  {
    hide Inv, Step, RunEvolves, Overtaken;
    if actions != [] {
      var next := Step(g, actions[0]);
      StepKeepsInv(g, actions[0]);
      StepIsRun(g, actions[0]);
      RunKeepsInv(next, actions[1..]);
      StoodAllAlong(g, next, Run(g, actions), id);
      StillMaterialized(g, next, id);
      StepKeepsOvertaken(g, actions[0], id);
      OvertakenForGood(next, actions[1..], id);
    }
  }

  lemma StillMaterialized(g: Global, next: Global, id: string)
    requires RunEvolves(g, next) && Materialized(g.tables, id) && Stands(g, next, id)
    ensures Materialized(next.tables, id)
  {
  }

  /** What is left of `id` once `e` has reached these recipients: every item it has reached carries `e` instead. */
  lemma {:induction false} LaterEventReplaces(groups: Groups, items: Items, e: Event, recipients: seq<string>, id: string)
    requires e.id != id && forall key :: key in items && items[key].eventId == id ==>
      key.1 == Identity(e.body.groupKey, e.id) && key.0 in recipients && items[key].last <= e.body.occurredAt
    ensures Overtaken(DeliverAll(groups, items, e, recipients).1, id)
    decreases |recipients|
  {
    if recipients != [] {
      var one := DeliverOne(groups, items, ArrivalOf(e, recipients[0]));
      forall key | key in one.1 && one.1[key].eventId == id
        ensures key.1 == Identity(e.body.groupKey, e.id) && key.0 in recipients[1..] && one.1[key].last <= e.body.occurredAt
      {
        assert key in items && items[key] == one.1[key];
        assert key.0 != recipients[0];
      }
      LaterEventReplaces(one.0, one.1, e, recipients[1..], id);
    }
  }

  /**
   * Once a later event of the group, its resolution for instance, has been delivered to everybody who still
   * carried the earlier one, the earlier event's plans never count as terminal again, for as long as the
   * earlier event is not purged and inserted anew: they escalate an alert that is over.
   */
  lemma ResolvedAlertStillEscalates(before: seq<Action>, w: nat, recipients: seq<string>, after: seq<Action>, id: string)
    requires var g := Run(INITIAL, before); var l := LocalOf(g, w);
      && Materialized(g.tables, id) && l.Holding? && l.seen.id != id && Materialize(g.tables, l.seen, recipients).1.Ok?
      && (forall key :: key in g.tables.items && g.tables.items[key].eventId == id ==>
            key.1 == Identity(l.seen.body.groupKey, l.seen.id) && key.0 in recipients && g.tables.items[key].last <= l.seen.body.occurredAt)
      && Stands(g, Run(Step(g, Deliver(w, recipients)), after), id)
    ensures !PlanQueue.ActionTerminal(Run(Step(Run(INITIAL, before), Deliver(w, recipients)), after).tables.items, id)
  {
    var g := Run(INITIAL, before);
    var seen := LocalOf(g, w).seen;
    LaterEventReplaces(g.tables.groups, g.tables.items, seen, recipients, id);
    hide Run, Inv, DeliverAll, InsertPlans, RunEvolves;
    var next := Step(g, Deliver(w, recipients));
    assert Overtaken(next.tables.items, id);
    hide Step, Materialize;
    Reached(before);
    StepKeepsInv(g, Deliver(w, recipients));
    StepIsRun(g, Deliver(w, recipients));
    RunKeepsInv(next, after);
    StoodAllAlong(g, next, Run(next, after), id);
    StillMaterialized(g, next, id);
    OvertakenForGood(next, after, id);
  }
}
