/** What the event queue promises over every run, purges included, and exactly where purges end a promise. */
module EventResults {
  import opened Prelude
  import opened Leases
  import opened AlertFolding
  import opened EventTables
  import opened EventMachine
  import opened EventSafety

  // ----- an insertion stands until its row is purged -----

  /** The row of `id` in the later state is the same insertion as in the earlier one. */
  predicate Stands(g: Global, g': Global, id: string) {
    id in g.tables.events && id in g'.tables.events && BirthOf(g'.history.births, id) == BirthOf(g.history.births, id)
  }

  lemma StepPurges(g: Global, a: Action, s: (string, string))
    ensures g.history.purged[s] <= Step(g, a).history.purged[s]
    ensures Step(g, a).history.purged[s] != g.history.purged[s] <==>
              a.PurgeEvent? && a.id in g.tables.events && SourceOf(g.tables.events[a.id]) == s
  {
    hide Materialize, RecordFailure, AcknowledgeItem, EventTables.SetPersonal, MarkAllRead, ClaimEvent, Compiled, TakenIn;
  }

  lemma StepKeepsRow(g: Global, a: Action, id: string)
    requires id in g.tables.events && !(a.PurgeEvent? && a.id == id)
    ensures id in Step(g, a).tables.events && BirthOf(Step(g, a).history.births, id) == BirthOf(g.history.births, id)
  {
    hide DeliverAll, InsertPlans, Compiled, TakenIn, FailureEvidence;
    if !a.Produce? && !a.Claim? && !a.Deliver? && !a.GiveUp? && !a.PurgeEvent? {
      OtherStepsLeaveEvents(g, a);
    }
  }

  lemma {:induction false} PurgesGrow(g: Global, actions: seq<Action>, s: (string, string))
    ensures g.history.purged[s] <= Run(g, actions).history.purged[s]
    decreases |actions|
  {
    hide Step;
    if actions != [] {
      StepPurges(g, actions[0], s);
      PurgesGrow(Step(g, actions[0]), actions[1..], s);
    }
  }

  lemma SourceStays(g: Global, g': Global, id: string)
    requires RunEvolves(g, g') && Stands(g, g', id)
    ensures SourceOf(g'.tables.events[id]) == SourceOf(g.tables.events[id])
  {
  }

  lemma OnlyOneSource(g: Global, a: string, b: string)
    requires Inv(g) && a in g.tables.events && b in g.tables.events && SourceOf(g.tables.events[a]) == SourceOf(g.tables.events[b])
    ensures a == b
  {
    hide FailureRowsOk, LogsOk, PlansOk, MailboxOk, ArrivalsOk, WorkersOk, EndedOk, CreatedOk, EventRowOk;
  }

  /** A row that is gone never comes back as the same insertion. */
  lemma GoneStaysGone(g: Global, next: Global, last: Global, id: string)
    requires RunEvolves(g, next) && RunEvolves(next, last) && id in g.tables.events && id !in next.tables.events
    ensures !Stands(g, last, id)
  {
    hide LeaseEvolves;
    assert BirthOf(g.history.births, id) <= BirthOf(next.history.births, id) <= BirthOf(last.history.births, id);
  }

  /** Exactly a purge ends an insertion: the row stands as long as no row of its source key has been purged. */
  lemma {:induction false} StandsIffNotPurged(g: Global, actions: seq<Action>, id: string)
    requires Inv(g) && id in g.tables.events
    ensures var s := SourceOf(g.tables.events[id]);
      Stands(g, Run(g, actions), id) <==> Run(g, actions).history.purged[s] == g.history.purged[s]
    decreases |actions|
  {
    hide Inv, Step, RunEvolves;
    if actions != [] {
      var a, next, last := actions[0], Step(g, actions[0]), Run(g, actions);
      var s := SourceOf(g.tables.events[id]);
      StepKeepsInv(g, a);
      StepIsRun(g, a);
      RunKeepsInv(next, actions[1..]);
      StepPurges(g, a, s);
      if a.PurgeEvent? && a.id == id {
        PurgesGrow(next, actions[1..], s);
        PurgedIsGone(g, id);
        GoneStaysGone(g, next, last, id);
      } else {
        StepKeepsRow(g, a, id);
        if a.PurgeEvent? && a.id in g.tables.events && SourceOf(g.tables.events[a.id]) == s { OnlyOneSource(g, a.id, id); }
        SourceStays(g, next, id);
        StandsIffNotPurged(next, actions[1..], id);
      }
    }
  }

  lemma StepIsRun(g: Global, a: Action)
    requires StepEvolves(g, a)
    ensures RunEvolves(g, Step(g, a))
  {
    hide Step;
  }

  lemma PurgedIsGone(g: Global, id: string)
    requires id in g.tables.events
    ensures id !in Step(g, PurgeEvent(id)).tables.events
  {
  }

  /** A materialized or failed event stays as it is until it is purged, and only then is it gone or inserted anew. */
  lemma FinishedEventsStay(before: seq<Action>, after: seq<Action>, id: string)
    requires id in Run(INITIAL, before).tables.events && Run(INITIAL, before).tables.events[id].lease.phase.Ended?
    ensures var g := Run(INITIAL, before); var g' := Run(g, after); var s := SourceOf(g.tables.events[id]);
      && (Stands(g, g', id) ==> g'.tables.events[id] == g.tables.events[id])
      && (Stands(g, g', id) <==> g'.history.purged[s] == g.history.purged[s])
  {
    hide Run, Inv;
    Reached(before);
    RunKeepsInv(Run(INITIAL, before), after);
    StandsIffNotPurged(Run(INITIAL, before), after, id);
  }

  // ----- sources -----

  /** Every source key was reported as new once for each purge of its row, and once more if it has a row now. */
  lemma CreatedOncePerPurge(actions: seq<Action>, source: string, sourceEventId: string)
    ensures var g := Run(INITIAL, actions);
      g.history.created[(source, sourceEventId)] ==
        g.history.purged[(source, sourceEventId)] + (if SourceTaken(g.tables, source, sourceEventId) then 1 else 0)
  {
    hide Run, FailureRowsOk, LogsOk, PlansOk, MailboxOk, ArrivalsOk, WorkersOk, EndedOk, EventsOk;
    Reached(actions);
    var s := (source, sourceEventId);
    assert TakenIn(Run(INITIAL, actions).tables.events, s.0, s.1) == SourceTaken(Run(INITIAL, actions).tables, source, sourceEventId);
  }

  /**
   * A producer that repeats an accepted event gets the stored row back, or a conflict for another payload,
   * as long as the row has not been purged. After a purge the event is created again exactly when nothing
   * else stands under its source key or its id.
   */
  lemma RepublishReturnsStoredUntilPurged(before: seq<Action>, after: seq<Action>, event: Event, again: Event, t': Tables, result: Result<(Event, bool)>)
    requires event.id in Run(INITIAL, before).tables.events && Run(INITIAL, before).tables.events[event.id].(lease := event.lease) == event
    requires again.source == event.source && again.sourceEventId == event.sourceEventId
    requires Enqueued(Run(Run(INITIAL, before), after).tables, again, t', result)
    ensures var g := Run(INITIAL, before); var g' := Run(g, after); var t := g'.tables; var s := SourceOf(event);
      && (g'.history.purged[s] == g.history.purged[s] ==>
            t' == t && event.id in t.events && result == if SameIngest(event, again) then Ok((t.events[event.id], false)) else Err(Conflict))
      && (result.Ok? && result.value.1 <==> !SourceTaken(t, again.source, again.sourceEventId) && again.id !in t.events)
      && (!SourceTaken(t, again.source, again.sourceEventId) <==> g'.history.created[s] == g'.history.purged[s])
  {
    hide Run;
    var g := Run(INITIAL, before);
    var g', s := Run(g, after), SourceOf(event);
    Reached(before);
    RunKeepsInv(g, after);
    StandsIffNotPurged(g, after, event.id);
    ReachedTaken(g', s);
    if g'.history.purged[s] == g.history.purged[s] {
      StandingRepublished(g, g', event, again, t', result);
    }
  }

  lemma ReachedTaken(g: Global, s: (string, string))
    requires Inv(g)
    ensures !TakenIn(g.tables.events, s.0, s.1) <==> g.history.created[s] == g.history.purged[s]
  {
    hide FailureRowsOk, LogsOk, PlansOk, MailboxOk, ArrivalsOk, WorkersOk, EndedOk, EventsOk;
  }

  lemma StandingRepublished(g: Global, g': Global, event: Event, again: Event, t': Tables, result: Result<(Event, bool)>)
    requires Inv(g') && RunEvolves(g, g') && Stands(g, g', event.id) && g.tables.events[event.id].(lease := event.lease) == event
    requires again.source == event.source && again.sourceEventId == event.sourceEventId && Enqueued(g'.tables, again, t', result)
    ensures t' == g'.tables && result == if SameIngest(event, again) then Ok((g'.tables.events[event.id], false)) else Err(Conflict)
  {
    hide FailureRowsOk, LogsOk, PlansOk, MailboxOk, ArrivalsOk, WorkersOk, EndedOk, CreatedOk, EventRowOk;
    var row := g'.tables.events[event.id];
    assert row == event.(lease := row.lease);
    assert IngestView(row) == IngestView(event);
    assert SourceTaken(g'.tables, again.source, again.sourceEventId);
    assert SourceOf(row) == SourceOf(again);
    assert forall id :: id in g'.tables.events && g'.tables.events[id].source == again.source && g'.tables.events[id].sourceEventId == again.sourceEventId
             ==> SourceOf(g'.tables.events[id]) == SourceOf(row);
  }

  // ----- the failure log -----

  function TokensAt(recorded: map<(string, nat, nat), nat>, id: string, birth: nat): set<nat> {
    set full | full in recorded && full.0 == id && full.1 == birth :: full.2
  }

  function RecordedTokens(h: History, id: string): set<nat> {
    TokensAt(h.failures.recorded, id, BirthOf(h.births, id))
  }

  /** The tokens of the event's failure rows that are still stored, not counting rows an earlier insertion left behind. */
  function StoredTokens(g: Global, id: string): set<nat> {
    set key | key in g.tables.failures && key.0 == id && key in g.history.failures.births
              && g.history.failures.births[key] == BirthOf(g.history.births, id) :: key.1
  }

  lemma StoredAreRecorded(g: Global, id: string)
    requires FailureRowsOk(g.tables.failures, g.history.failures)
    ensures StoredTokens(g, id) <= RecordedTokens(g.history, id)
  {
    forall k | k in StoredTokens(g, id) ensures k in RecordedTokens(g.history, id) {
      var full := (id, BirthOf(g.history.births, id), k);
      assert (id, k) in g.tables.failures;
      assert full in g.history.failures.recorded && full.2 == k;
    }
  }

  lemma SameSize(a: set<nat>, b: set<nat>)
    requires a <= b
    ensures |a| == |b| <==> a == b
  {
    assert b == a + (b - a);
  }

  // ----- failing and materializing under the fence -----

  predicate Held(g: Global, seen: Event) {
    seen.id in g.tables.events && Holds(g.tables.events[seen.id].lease, seen.lease)
  }

  /** Rows of earlier insertions, which a purge of their event has left behind. */
  predicate LeftoverFailure(g: Global, key: (string, nat)) {
    key in g.tables.failures && key in g.history.failures.births && g.history.failures.births[key] < BirthOf(g.history.births, key.0)
  }

  predicate LeftoverPlan(g: Global, p: PlanId) {
    p in g.tables.plans && p in g.history.plans.births && g.history.plans.births[p] < BirthOf(g.history.births, p.event)
  }

  /** A held snapshot that is not the row was read before the event was purged and inserted again. */
  lemma HeldSnapshotIsTheRowUnlessReborn(g: Global, w: nat)
    requires Inv(g) && LocalOf(g, w).Holding? && Held(g, LocalOf(g, w).seen)
    ensures var l := LocalOf(g, w); l.seen == g.tables.events[l.seen.id] || l.birth < BirthOf(g.history.births, l.seen.id)
  {
    hide EventsOk, FailureRowsOk, LogsOk, PlansOk, MailboxOk, ArrivalsOk, EndedOk, CreatedOk, PlansOf, AlertDiscipline;
    var l := LocalOf(g, w);
    assert LocalOk(g.tables.events, g.history.births, g.workers[w]);
    HolderIsTheRow(g.tables.events, g.history.births, l.seen, l.birth);
  }

  /** A failure report commits exactly when the lease is held and no failure row of an earlier insertion has its key. */
  lemma FailureCommitsIff(g: Global, w: nat, to: Phase, stage: string, code: string, next: Option<Time>, at: Time)
    requires Inv(g) && LocalOf(g, w).Holding? && FailureEvidence(stage, code)
    ensures var seen := LocalOf(g, w).seen; var done := RecordFailure(g.tables, seen, to, stage, code, next, at); var key := (seen.id, seen.lease.token);
      && (done.1.Ok? <==> Held(g, seen) && !LeftoverFailure(g, key))
      && (done.1.Err? ==> done.0 == g.tables && done.1 == if Held(g, seen) then Err(Duplicate) else Err(LeaseLost))
  {
    hide EventsOk, PlansOk, MailboxOk, ArrivalsOk, WorkersOk, EndedOk, CreatedOk, FailureLog, FailureEvidence;
    var t, h, seen := g.tables, g.history, LocalOf(g, w).seen;
    var key := (seen.id, seen.lease.token);
    if Held(g, seen) && key in t.failures {
      HeldTokenUnrecorded(t.events, h.births, h.crossed, h.failures.recorded, seen.id);
      var full := (seen.id, h.failures.births[key], seen.lease.token);
      assert full in h.failures.recorded && Spent(t.events, h.births, full.0, full.1, full.2);
    }
  }

  /** A materialization commits exactly when the lease is held and none of its plan ids has outlived a purged event. */
  lemma MaterializeCommitsIff(g: Global, w: nat, recipients: seq<string>)
    requires Inv(g) && LocalOf(g, w).Holding?
    ensures var seen := LocalOf(g, w).seen; var done := Materialize(g.tables, seen, recipients);
      && (done.1.Ok? <==> Held(g, seen) && forall i :: 0 <= i < |seen.plans| ==> !LeftoverPlan(g, seen.plans[i].id))
      && (done.1.Err? ==> done.0 == g.tables)
  {
    hide EventsOk, FailureRowsOk, LogsOk, MailboxOk, ArrivalsOk, EndedOk, CreatedOk, DeliverAll, InsertPlans, Addressed, Accounted;
    var t, h, seen := g.tables, g.history, LocalOf(g, w).seen;
    assert LocalOk(t.events, h.births, g.workers[w]);
    SeenMail(t.events, h.births, seen, LocalOf(g, w).birth);
    AddressedKeepsIds(seen, recipients);
    var values := Addressed(seen.plans, recipients);
    InsertedPlans(t.plans, values);
    hide WorkersOk, SeenOk, PlansOf, DistinctPlans;
    if Held(g, seen) {
      forall i | 0 <= i < |values| ensures values[i].id in t.plans <==> LeftoverPlan(g, seen.plans[i].id) {
        var p := values[i].id;
        if p in t.plans { assert PlanRowOk(t.events, h.births, t.plans[p], p, h.plans.births[p]); }
      }
    }
  }

  /** While nothing was ever purged under an id there is no leftover, so only the lease decides. */
  lemma FirstInsertionHasNoLeftovers(g: Global, id: string)
    requires Inv(g) && BirthOf(g.history.births, id) <= 1
    ensures forall k :: !LeftoverFailure(g, (id, k))
    ensures forall p: PlanId :: p.event == id ==> !LeftoverPlan(g, p)
  {
    hide EventsOk, LogsOk, MailboxOk, ArrivalsOk, WorkersOk, EndedOk, CreatedOk, Accounted;
  }

  // ----- plan rows -----

  /** Each fencing token of an insertion is spent on at most one successful transition. */
  lemma OneEndPerToken(actions: seq<Action>)
    ensures var ended := Run(INITIAL, actions).history.ended; forall i, j :: 0 <= i < j < |ended| ==> ended[i] != ended[j]
  {
    hide Run, EventsOk, FailureRowsOk, LogsOk, PlansOk, MailboxOk, ArrivalsOk, WorkersOk, CreatedOk, Spent;
    Reached(actions);
  }

  /**
   * A purged event whose plan has stayed: inserted again and claimed, it holds its lease and still cannot be
   * materialized, by any worker and for any audience.
   */
  lemma LeftoverPlanBlocks(g: Global, event: Event, w: nat, owner: string, now: Time, expires: Time, i: nat, recipients: seq<string>)
    requires Inv(g) && Compiled(event) && owner != "" && LocalOf(g, w).Idle? && i < |event.plans|
    requires event.id in g.tables.events && SourceOf(g.tables.events[event.id]) == SourceOf(event) && event.plans[i].id in g.tables.plans
    ensures var g' := Run(g, [PurgeEvent(event.id), Produce(event), Action.Claim(w, event.id, owner, now, expires), ReadBack(w)]);
      && LocalOf(g', w).Holding? && Held(g', LocalOf(g', w).seen) && Materialize(g'.tables, LocalOf(g', w).seen, recipients) == (g'.tables, Err(Duplicate))
  {
    var claimed := ReinsertedAndClaimed(g, event, w, owner, now, expires);
    hide Inv, LeaseOk, AlertDiscipline, Step;
    var row := claimed.tables.events[event.id];
    var g' := Step(claimed, ReadBack(w));
    ReadBackHolds(claimed, w, event.id);
    AddressedKeepsIds(row, recipients);
    InsertedPlans(g'.tables.plans, Addressed(row.plans, recipients));
    hide DeliverAll, InsertPlans;
    RunFour(g, PurgeEvent(event.id), Produce(event), Action.Claim(w, event.id, owner, now, expires), ReadBack(w));
    assert Addressed(row.plans, recipients)[i].id in g'.tables.plans;
  }

  lemma {:induction false} RunAppend(g: Global, first: seq<Action>, second: seq<Action>)
    ensures Run(g, first + second) == Run(Run(g, first), second)
    decreases |first|
  {
    hide Step;
    if first == [] {
      assert first + second == second;
    } else {
      assert (first + second)[1..] == first[1..] + second;
      RunAppend(Step(g, first[0]), first[1..], second);
    }
  }

  lemma MaterializedAtOnce(event: Event, plan: Plan)
    requires Compiled(event) && event.plans == [plan]
    ensures var g := Step(Step(Step(Step(INITIAL, Produce(event)), Action.Claim(0, event.id, "o", 0, 9)), ReadBack(0)), Deliver(0, ["u"]));
      && event.id in g.tables.events && SourceOf(g.tables.events[event.id]) == SourceOf(event) && plan.id in g.tables.plans && LocalOf(g, 0).Idle?
  {
    hide DeliverAll, Compiled;
    var g1 := Step(INITIAL, Produce(event));
    ProducedFirst(event);
    assert Claimable(g1.tables, event.id, "o", 0);
    var g2 := Step(g1, Action.Claim(0, event.id, "o", 0, 9));
    var row := event.(lease := Leases.Claimed(event.lease, "o", 0, 9));
    assert g2.tables.events == map[event.id := row] && g2.workers == map[0 := Local.Claimed(event.id)];
    ReadBackHolds(g2, 0, event.id);
    var g3 := Step(g2, ReadBack(0));
    var values := Addressed(row.plans, ["u"]);
    assert values[0].id == plan.id && values[1..] == [] && InsertPlans(map[], values) == InsertPlans(map[plan.id := values[0]], []);
    assert Materialize(g3.tables, row, ["u"]).1.Ok?;
  }

  lemma ProducedFirst(event: Event)
    requires Compiled(event)
    ensures event.id != "" && event.lease == NewLease(None, event.createdAt)
    ensures Step(INITIAL, Produce(event)).tables.events == map[event.id := event] && Step(INITIAL, Produce(event)).tables.plans == map[]
    ensures Step(INITIAL, Produce(event)).workers == map[]
  {
  }

  /** One such run from the start: delivered, purged with its plan left behind, published again, claimed, and stuck. */
  lemma RepublishedEventIsStuck(event: Event, plan: Plan) returns (actions: seq<Action>)
    requires Compiled(event) && event.plans == [plan]
    ensures var g := Run(INITIAL, actions);
      && LocalOf(g, 0).Holding? && Held(g, LocalOf(g, 0).seen)
      && forall recipients :: Materialize(g.tables, LocalOf(g, 0).seen, recipients) == (g.tables, Err(Duplicate))
  {
    hide Step, Materialize, Compiled, Inv, Held;
    var produce, claim, read := Produce(event), Action.Claim(0, event.id, "o", 0, 9), ReadBack(0);
    var first, second := [produce, claim, read, Deliver(0, ["u"])], [PurgeEvent(event.id), produce, claim, read];
    RunFour(INITIAL, produce, claim, read, Deliver(0, ["u"]));
    MaterializedAtOnce(event, plan);
    Reached(first);
    actions := first + second;
    RunAppend(INITIAL, first, second);
    hide Run;
    var g := Run(INITIAL, first);
    LeftoverPlanBlocks(g, event, 0, "o", 0, 9, 0, []);
    forall recipients ensures Materialize(Run(g, second).tables, LocalOf(Run(g, second), 0).seen, recipients) == (Run(g, second).tables, Err(Duplicate)) {
      LeftoverPlanBlocks(g, event, 0, "o", 0, 9, 0, recipients);
    }
  }

  lemma ReadBackHolds(g: Global, w: nat, id: string)
    requires LocalOf(g, w) == Local.Claimed(id) && id in g.tables.events
    ensures LocalOf(Step(g, ReadBack(w)), w) == Holding(g.tables.events[id], BirthOf(g.history.births, id))
    ensures Step(g, ReadBack(w)).tables == g.tables
  {
  }

  /** The same id, inserted again after a purge and claimed by a worker. */
  lemma ReinsertedAndClaimed(g: Global, event: Event, w: nat, owner: string, now: Time, expires: Time) returns (claimed: Global)
    requires Inv(g) && Compiled(event) && owner != "" && LocalOf(g, w).Idle?
    requires event.id in g.tables.events && SourceOf(g.tables.events[event.id]) == SourceOf(event)
    ensures claimed == Step(Step(Step(g, PurgeEvent(event.id)), Produce(event)), Action.Claim(w, event.id, owner, now, expires))
    ensures event.id in claimed.tables.events
    ensures claimed.tables.events[event.id] == event.(lease := Leases.Claimed(event.lease, owner, now, expires))
    ensures claimed.tables.plans == g.tables.plans && claimed.tables.failures == g.tables.failures && claimed.workers == g.workers[w := Local.Claimed(event.id)]
  {
    hide FailureRowsOk, LogsOk, PlansOk, MailboxOk, ArrivalsOk, WorkersOk, EndedOk, PlansOf, AlertDiscipline;
    var purged := Step(g, PurgeEvent(event.id));
    PurgedTaken(g.tables.events, event.id, g.history.created, g.history.purged);
    NotTakenAfterPurge(g.tables.events, event.id);
    assert !TakenIn(purged.tables.events, event.source, event.sourceEventId);
    var produced := Step(purged, Produce(event));
    assert produced.tables.events[event.id] == event && LocalOf(produced, w).Idle?;
    hide Inv, Compiled, TakenIn;
    claimed := Step(produced, Action.Claim(w, event.id, owner, now, expires));
  }

  lemma NotTakenAfterPurge(events: Events, id: string)
    requires SourcesUnique(events) && id in events
    ensures !TakenIn(events - {id}, events[id].source, events[id].sourceEventId)
  {
    assert forall x :: x in events - {id} ==> SourceOf(events[x]) != SourceOf(events[id]);
  }

  lemma RunFour(g: Global, a: Action, b: Action, c: Action, d: Action)
    ensures Run(g, [a, b, c, d]) == Step(Step(Step(Step(g, a), b), c), d)
  {
    hide Step;
    assert [a, b, c, d][1..] == [b, c, d] && [b, c, d][1..] == [c, d] && [c, d][1..] == [d] && [d][1..] == [];
    var g1 := Step(g, a);
    var g2 := Step(g1, b);
    var g3 := Step(g2, c);
    assert Run(g3, [d]) == Run(Step(g3, d), []);
    assert Run(g2, [c, d]) == Run(g3, [d]);
    assert Run(g1, [b, c, d]) == Run(g2, [c, d]);
  }

  /**
   * The one way past the fence: a worker still remembers a first claim by an owner, the event is purged,
   * inserted again with other content, and claimed under the same owner. The old snapshot then holds the
   * lease of a row it has never seen.
   */
  lemma OldSnapshotHoldsReinsertedRow(g: Global, elder: nat, event: Event, w: nat, now: Time, expires: Time)
    requires Inv(g) && Compiled(event) && elder != w && LocalOf(g, w).Idle? && LocalOf(g, elder).Holding?
    requires var seen := LocalOf(g, elder).seen; seen.id == event.id && seen.lease.token == 1 && seen.lease.owner != "" && seen.body != event.body
    requires event.id in g.tables.events && SourceOf(g.tables.events[event.id]) == SourceOf(event)
    ensures var seen := LocalOf(g, elder).seen;
      var g' := Step(Step(Step(g, PurgeEvent(event.id)), Produce(event)), Action.Claim(w, event.id, seen.lease.owner, now, expires));
      LocalOf(g', elder) == LocalOf(g, elder) && Held(g', seen) && seen != g'.tables.events[event.id]
  {
    var claimed := ReinsertedAndClaimed(g, event, w, LocalOf(g, elder).seen.lease.owner, now, expires);
  }

  /**
   * A purged event whose failure row of a first claim has stayed: inserted again and claimed, it holds its
   * lease and no failure of that claim can be recorded.
   */
  lemma LeftoverFailureBlocks(g: Global, event: Event, w: nat, owner: string, now: Time, expires: Time,
                              to: Phase, stage: string, code: string, next: Option<Time>, at: Time)
    requires Inv(g) && Compiled(event) && owner != "" && LocalOf(g, w).Idle? && FailureEvidence(stage, code)
    requires event.id in g.tables.events && SourceOf(g.tables.events[event.id]) == SourceOf(event) && (event.id, 1) in g.tables.failures
    ensures var g' := Run(g, [PurgeEvent(event.id), Produce(event), Action.Claim(w, event.id, owner, now, expires), ReadBack(w)]);
      && LocalOf(g', w).Holding? && Held(g', LocalOf(g', w).seen)
      && RecordFailure(g'.tables, LocalOf(g', w).seen, to, stage, code, next, at) == (g'.tables, Err(Duplicate))
  {
    var claimed := ReinsertedAndClaimed(g, event, w, owner, now, expires);
    hide Inv, LeaseOk, AlertDiscipline, Step, FailureEvidence;
    ReadBackHolds(claimed, w, event.id);
    RunFour(g, PurgeEvent(event.id), Produce(event), Action.Claim(w, event.id, owner, now, expires), ReadBack(w));
    ProducedFirst(event);
  }

  lemma FailsFirst(g: Global, id: string, w: nat, stage: string, code: string)
    requires Inv(g) && id in g.tables.events && BirthOf(g.history.births, id) == 1 && FailureEvidence(stage, code)
    requires LocalOf(g, w).Holding? && LocalOf(g, w).seen == g.tables.events[id] && g.tables.events[id].lease.phase.Processing?
    requires g.tables.events[id].lease.token == 1
    ensures var g' := Step(g, GiveUp(w, Ended("failed"), stage, code, None, 0));
      && id in g'.tables.events && g'.tables.events[id].lease.phase == Ended("failed") && SourceOf(g'.tables.events[id]) == SourceOf(g.tables.events[id])
      && (id, 1) in g'.tables.failures && LocalOf(g', w).Idle?
  {
    hide Inv, Step, RecordFailure, LeftoverFailure, FailureEvidence;
    FailureCommitsIff(g, w, Ended("failed"), stage, code, None, 0);
    FirstInsertionHasNoLeftovers(g, id);
    OwnPlans(g, id);
    FailedTables(g, w, stage, code);
    FailEnds(g.tables, g.tables.events[id], stage, code);
  }

  lemma FailedTables(g: Global, w: nat, stage: string, code: string)
    requires LocalOf(g, w).Holding?
    ensures var g' := Step(g, GiveUp(w, Ended("failed"), stage, code, None, 0));
      g'.tables == RecordFailure(g.tables, LocalOf(g, w).seen, Ended("failed"), stage, code, None, 0).0 && g'.workers == g.workers[w := Idle]
  {
    hide RecordFailure, FailureHistoryOf;
  }

  lemma FailEnds(t: Tables, seen: Event, stage: string, code: string)
    requires RecordFailure(t, seen, Ended("failed"), stage, code, None, 0).1.Ok?
    ensures var t' := RecordFailure(t, seen, Ended("failed"), stage, code, None, 0).0;
      && seen.id in t.events && seen.id in t'.events && SourceOf(t'.events[seen.id]) == SourceOf(t.events[seen.id])
      && t'.events[seen.id].lease.phase == Ended("failed") && (seen.id, seen.lease.token) in t'.failures
  {
    hide FailureEvidence;
  }

  /** Such a run from the start: failed for good at its first claim, purged with its failure row left behind, published again, claimed, and stuck. */
  lemma RepublishedFailureIsStuck(event: Event, stage: string, code: string) returns (before: seq<Action>)
    requires Compiled(event) && FailureEvidence(stage, code)
    ensures event.id in Run(INITIAL, before).tables.events && Run(INITIAL, before).tables.events[event.id].lease.phase == Ended("failed")
    ensures var g := Run(INITIAL, before + [PurgeEvent(event.id), Produce(event), Action.Claim(0, event.id, "o", 0, 9), ReadBack(0)]);
      && LocalOf(g, 0).Holding? && Held(g, LocalOf(g, 0).seen)
      && forall to, next, at :: RecordFailure(g.tables, LocalOf(g, 0).seen, to, stage, code, next, at) == (g.tables, Err(Duplicate))
  {
    hide Step, Compiled, Inv, Held, FailureEvidence, RecordFailure;
    var claim, fail := Action.Claim(0, event.id, "o", 0, 9), GiveUp(0, Ended("failed"), stage, code, None, 0);
    ProducedFirst(event);
    FirstClaimed(event, 0);
    var g := Step(Step(Step(INITIAL, Produce(event)), claim), ReadBack(0));
    RunThree(INITIAL, Produce(event), claim, ReadBack(0));
    Reached([Produce(event), claim, ReadBack(0)]);
    FailsFirst(g, event.id, 0, stage, code);
    RunFour(INITIAL, Produce(event), claim, ReadBack(0), fail);
    before := [Produce(event), claim, ReadBack(0), fail];
    Reached(before);
    var second := [PurgeEvent(event.id), Produce(event), claim, ReadBack(0)];
    RunAppend(INITIAL, before, second);
    var failed := Run(INITIAL, before);
    hide Run;
    LeftoverFailureBlocks(failed, event, 0, "o", 0, 9, Queued, stage, code, None, 0);
    forall to, next, at
      ensures RecordFailure(Run(failed, second).tables, LocalOf(Run(failed, second), 0).seen, to, stage, code, next, at) == (Run(failed, second).tables, Err(Duplicate))
    {
      LeftoverFailureBlocks(failed, event, 0, "o", 0, 9, to, stage, code, next, at);
    }
  }

  lemma FirstClaimed(event: Event, w: nat)
    requires Compiled(event)
    ensures var g := Step(Step(Step(INITIAL, Produce(event)), Action.Claim(w, event.id, "o", 0, 9)), ReadBack(w));
      && g.tables.events == map[event.id := event.(lease := Leases.Claimed(event.lease, "o", 0, 9))] && BirthOf(g.history.births, event.id) == 1
      && LocalOf(g, w).Holding? && LocalOf(g, w).seen == g.tables.events[event.id] && forall v :: v != w ==> LocalOf(g, v).Idle?
  {
    hide Compiled;
    ProducedFirst(event);
    var g1 := Step(INITIAL, Produce(event));
    assert Claimable(g1.tables, event.id, "o", 0);
    var g2 := Step(g1, Action.Claim(w, event.id, "o", 0, 9));
    ReadBackHolds(g2, w, event.id);
  }

  lemma TakenOver(g: Global, id: string, w: nat)
    requires id != "" && id in g.tables.events && Due(g.tables.events[id].lease, 9) && LocalOf(g, w).Idle?
    ensures var g' := Step(Step(g, Action.Claim(w, id, "p", 9, 18)), ReadBack(w));
      && g'.tables.events == g.tables.events[id := g.tables.events[id].(lease := Leases.Claimed(g.tables.events[id].lease, "p", 9, 18))]
      && LocalOf(g', w).Holding? && LocalOf(g', w).seen == g'.tables.events[id] && g'.history == g.history
      && forall v :: v != w ==> LocalOf(g', v) == LocalOf(g, v)
  {
    var g1 := Step(g, Action.Claim(w, id, "p", 9, 18));
    assert Claimable(g.tables, id, "p", 9);
    ReadBackHolds(g1, w, id);
  }

  /** The holder of a first insertion delivers. */
  lemma DeliversFirst(g: Global, id: string, w: nat)
    requires Inv(g) && id in g.tables.events && BirthOf(g.history.births, id) == 1
    requires LocalOf(g, w).Holding? && LocalOf(g, w).seen == g.tables.events[id] && g.tables.events[id].lease.phase.Processing?
    ensures var g' := Step(g, Deliver(w, ["u"]));
      && id in g'.tables.events && g'.tables.events[id].lease.phase == Ended("materialized") && SourceOf(g'.tables.events[id]) == SourceOf(g.tables.events[id])
      && forall v :: v != w ==> LocalOf(g', v) == LocalOf(g, v)
  {
    hide Inv, Step, Materialize, LeftoverPlan;
    MaterializeCommitsIff(g, w, ["u"]);
    FirstInsertionHasNoLeftovers(g, id);
    OwnPlans(g, id);
    DeliveredTables(g, w, ["u"]);
    DeliverEnds(g.tables, g.tables.events[id], ["u"]);
  }

  lemma DeliveredTables(g: Global, w: nat, recipients: seq<string>)
    requires LocalOf(g, w).Holding? && Materialize(g.tables, LocalOf(g, w).seen, recipients).1.Ok?
    ensures var g' := Step(g, Deliver(w, recipients));
      g'.tables == Materialize(g.tables, LocalOf(g, w).seen, recipients).0 && g'.workers == g.workers[w := Idle]
  {
    hide Materialize, DeliverHistory;
  }

  lemma DeliverEnds(t: Tables, seen: Event, recipients: seq<string>)
    requires Materialize(t, seen, recipients).1.Ok?
    ensures var t' := Materialize(t, seen, recipients).0;
      && seen.id in t.events && seen.id in t'.events && SourceOf(t'.events[seen.id]) == SourceOf(t.events[seen.id])
      && t'.events[seen.id].lease.phase == Ended("materialized")
  {
    hide DeliverAll, InsertPlans, Addressed;
  }

  lemma OwnPlans(g: Global, id: string)
    requires Inv(g) && id in g.tables.events
    ensures g.tables.events[id].id == id && forall i :: 0 <= i < |g.tables.events[id].plans| ==> g.tables.events[id].plans[i].id.event == id
  {
    hide FailureRowsOk, LogsOk, PlansOk, MailboxOk, ArrivalsOk, WorkersOk, EndedOk, CreatedOk, SourcesUnique;
    assert EventRowOk(g.tables.events[id], id);
  }

  /** Worker 1 claims, worker 2 takes over after the lease has run out and delivers. */
  lemma OvertakenAndDelivered(first: Event) returns (actions: seq<Action>)
    requires Compiled(first)
    ensures var g := Run(INITIAL, actions); var l := LocalOf(g, 1);
      && first.id in g.tables.events && g.tables.events[first.id].lease.phase == Ended("materialized") && SourceOf(g.tables.events[first.id]) == SourceOf(first)
      && l.Holding? && l.seen == first.(lease := Leases.Claimed(first.lease, "o", 0, 9)) && LocalOf(g, 0).Idle?
  {
    hide Step, Compiled, Inv;
    var claim, over := Action.Claim(1, first.id, "o", 0, 9), Action.Claim(2, first.id, "p", 9, 18);
    ProducedFirst(first);
    FirstClaimed(first, 1);
    var g := Step(Step(Step(INITIAL, Produce(first)), claim), ReadBack(1));
    TakenOver(g, first.id, 2);
    var held := Step(Step(g, over), ReadBack(2));
    RunThree(INITIAL, Produce(first), claim, ReadBack(1));
    var before := [Produce(first), claim, ReadBack(1)];
    RunTwo(g, over, ReadBack(2));
    RunAppend(INITIAL, before, [over, ReadBack(2)]);
    Reached(before + [over, ReadBack(2)]);
    DeliversFirst(held, first.id, 2);
    RunAppend(INITIAL, before + [over, ReadBack(2)], [Deliver(2, ["u"])]);
    RunOne(held, Deliver(2, ["u"]));
    actions := before + [over, ReadBack(2)] + [Deliver(2, ["u"])];
  }

  /**
   * Such a run from the start, with a purge that retention makes: worker 1 claims the first content, worker 2
   * takes over and delivers it, the materialized event is purged and published anew, and worker 0 claims it
   * under the owner of worker 1's old claim.
   */
  lemma OldSnapshotRun(first: Event, event: Event) returns (before: seq<Action>)
    requires Compiled(first) && Compiled(event) && first.id == event.id && SourceOf(first) == SourceOf(event) && first.body != event.body
    ensures event.id in Run(INITIAL, before).tables.events && Run(INITIAL, before).tables.events[event.id].lease.phase == Ended("materialized")
    ensures var g := Run(INITIAL, before + [PurgeEvent(event.id), Produce(event), Action.Claim(0, event.id, "o", 0, 9)]);
      LocalOf(g, 1).Holding? && Held(g, LocalOf(g, 1).seen) && event.id in g.tables.events && LocalOf(g, 1).seen != g.tables.events[event.id]
  {
    hide Step, Compiled, Inv, Held;
    before := OvertakenAndDelivered(first);
    ProducedFirst(first);
    Reached(before);
    var g := Run(INITIAL, before);
    RunAppend(INITIAL, before, [PurgeEvent(event.id), Produce(event), Action.Claim(0, event.id, "o", 0, 9)]);
    RunThree(g, PurgeEvent(event.id), Produce(event), Action.Claim(0, event.id, "o", 0, 9));
    hide Run;
    OldSnapshotHoldsReinsertedRow(g, 1, event, 0, 0, 9);
    var claimed := ReinsertedAndClaimed(g, event, 0, "o", 0, 9);
  }

  lemma RunOne(g: Global, a: Action)
    ensures Run(g, [a]) == Step(g, a)
  {
    hide Step;
    assert [a][1..] == [] && Run(Step(g, a), []) == Step(g, a);
  }

  lemma RunTwo(g: Global, a: Action, b: Action)
    ensures Run(g, [a, b]) == Step(Step(g, a), b)
  {
    hide Step;
    assert [a, b][1..] == [b];
    RunOne(Step(g, a), b);
  }

  lemma RunThree(g: Global, a: Action, b: Action, c: Action)
    ensures Run(g, [a, b, c]) == Step(Step(Step(g, a), b), c)
  {
    hide Step;
    assert [a, b, c][1..] == [b, c] && [b, c][1..] == [c] && [c][1..] == [];
    var g1 := Step(g, a);
    var g2 := Step(g1, b);
    assert Run(g2, [c]) == Run(Step(g2, c), []);
    assert Run(g1, [b, c]) == Run(g2, [c]);
  }

  // ----- mailboxes -----

  /**
   * Every recipient's group and item mirror each other until one of the two rows is purged; an
   * acknowledgement conflicts exactly when the item fires while its group does not.
   */
  lemma MailboxMirrors(actions: seq<Action>, recipient: string, groupKey: string, at: Time)
    requires groupKey != ""
    ensures var g := Run(INITIAL, actions); var r := RowsOf(g.tables, recipient, groupKey);
      && WeakMirror(r)
      && ((recipient, groupKey) !in g.history.torn ==> Mirror(r) && !Torn(r))
      && (AcknowledgeItem(g.tables, recipient, "group:" + groupKey, at).1 == Err(Conflict) <==> Torn(r))
  {
    hide Run, EventsOk, FailureRowsOk, LogsOk, PlansOk, ArrivalsOk, WorkersOk, EndedOk, CreatedOk;
    Reached(actions);
    var g := Run(INITIAL, actions);
    var key := (recipient, "group:" + groupKey);
    assert PairOk(RowsIn(g.tables.groups, g.tables.items, recipient, groupKey), (recipient, groupKey) in g.history.torn);
    if key in g.tables.items {
      assert ItemShape(g.tables.items[key], key) && GroupIdentity(key.1);
      GroupPrefixInjective(groupKey, g.tables.items[key].groupKey);
    }
  }

  /** An item outside every group never conflicts. */
  lemma PlainItemsNeverConflict(actions: seq<Action>, recipient: string, identity: string, at: Time)
    requires !GroupIdentity(identity)
    ensures AcknowledgeItem(Run(INITIAL, actions).tables, recipient, identity, at).1 != Err(Conflict)
  {
    hide Run, EventsOk, FailureRowsOk, LogsOk, PlansOk, ArrivalsOk, WorkersOk, EndedOk, CreatedOk, PairOk;
    Reached(actions);
    var t := Run(INITIAL, actions).tables;
    var key := (recipient, identity);
    if key in t.items {
      assert ItemShape(t.items[key], key);
      assert GroupIdentity("group:" + t.items[key].groupKey);
    }
  }
}
