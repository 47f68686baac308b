/**
 * Failure counts and plan rows of every insertion, those included that a snapshot of an earlier, purged
 * insertion has ended: what such a crossing leaves true, and exactly what it changes.
 */
module EventCrossings {
  import opened Prelude
  import opened Leases
  import opened AlertFolding
  import opened EventTables
  import opened EventMachine
  import opened EventSafety
  import opened EventResults

  // ----- two more invariants -----

  predicate CountsOk(events: Events, births: map<string, nat>, recorded: map<(string, nat, nat), nat>) {
    forall id :: id in events ==> |TokensAt(recorded, id, BirthOf(births, id))| == events[id].lease.attempts
  }

  /** What a delivery stored is what is accounted for. */
  predicate StoredAsDelivered(plans: map<PlanId, Plan>, ph: PlanHistory, ids: set<PlanId>, id: string, birth: nat) {
    && (forall p :: p in ids ==> p.event == id)
    && (forall p: PlanId :: p in plans && p.event == id && Accounted(plans, ph, p, birth) ==> p in ids)
    && (forall gone :: gone in ph.purged && gone.0.event == id && gone.1 == birth ==> gone.0 in ids)
    && (forall p :: p in ids ==> Accounted(plans, ph, p, birth))
  }

  predicate DeliveredOk(events: Events, plans: map<PlanId, Plan>, births: map<string, nat>, ph: PlanHistory, delivered: map<(string, nat), set<PlanId>>) {
    forall id :: id in events && MaterializedRow(events, id) ==>
      && (id, BirthOf(births, id)) in delivered
      && StoredAsDelivered(plans, ph, delivered[(id, BirthOf(births, id))], id, BirthOf(births, id))
  }

  predicate Extra(g: Global) {
    && CountsOk(g.tables.events, g.history.births, g.history.failures.recorded)
    && DeliveredOk(g.tables.events, g.tables.plans, g.history.births, g.history.plans, g.history.delivered)
  }

  // ----- counts -----

  /** The same failures are on record, and every row has the attempts of the same insertion before. */
  lemma CountsStay(events: Events, births: map<string, nat>, events': Events, births': map<string, nat>, recorded: map<(string, nat, nat), nat>)
    requires CountsOk(events, births, recorded)
    requires forall id :: id in events' ==> id in events && BirthOf(births', id) == BirthOf(births, id) && events'[id].lease.attempts == events[id].lease.attempts
    ensures CountsOk(events', births', recorded)
  {
    hide TokensAt;
  }

  lemma CountsProduced(g: Global, event: Event)
    requires Inv(g) && Extra(g)
    ensures var g' := Step(g, Produce(event)); CountsOk(g'.tables.events, g'.history.births, g'.history.failures.recorded)
  {
    hide EventsOk, FailureRowsOk, PlansOk, MailboxOk, ArrivalsOk, WorkersOk, EndedOk, CreatedOk, DeliveredOk, TakenIn, FailureLog, PlansOf, AlertDiscipline;
    var h := g.history;
    var birth := BirthOf(h.births, event.id) + 1;
    forall full | full in h.failures.recorded ensures full.0 == event.id ==> full.1 < birth {
      assert Spent(g.tables.events, h.births, full.0, full.1, full.2);
    }
    assert TokensAt(h.failures.recorded, event.id, birth) == {};
    hide TokensAt, LogsOk;
  }

  lemma TokensGrow(recorded: map<(string, nat, nat), nat>, full: (string, nat, nat), attempt: nat, id: string, birth: nat)
    requires full !in recorded
    ensures TokensAt(recorded[full := attempt], id, birth) ==
              TokensAt(recorded, id, birth) + (if full.0 == id && full.1 == birth then {full.2} else {})
    ensures full.2 !in TokensAt(recorded, full.0, full.1)
  {
    var more := recorded[full := attempt];
    forall k | k in TokensAt(recorded, id, birth) ensures k in TokensAt(more, id, birth) {
      assert (id, birth, k) in more;
    }
    if full.0 == id && full.1 == birth { assert full in more; }
  }

  lemma CountsFailed(events: Events, events': Events, births: map<string, nat>, recorded: map<(string, nat, nat), nat>, id: string, token: nat, attempt: nat)
    requires CountsOk(events, births, recorded) && OnlyLease(events, events', id) && (id, BirthOf(births, id), token) !in recorded
    requires events'[id].lease.attempts == events[id].lease.attempts + 1
    ensures CountsOk(events', births, recorded[(id, BirthOf(births, id), token) := attempt])
  {
    hide TokensAt, LeaseEvolves, LeaseOk;
    forall other | other in events'
      ensures |TokensAt(recorded[(id, BirthOf(births, id), token) := attempt], other, BirthOf(births, other))| == events'[other].lease.attempts
    {
      TokensGrow(recorded, (id, BirthOf(births, id), token), attempt, other, BirthOf(births, other));
      TokensGrow(recorded, (id, BirthOf(births, id), token), attempt, id, BirthOf(births, id));
      var nothing: set<nat> := {};
      assert TokensAt(recorded, other, BirthOf(births, other)) + nothing == TokensAt(recorded, other, BirthOf(births, other));
    }
  }

  // ----- plan rows -----

  lemma DeliveredStays(events: Events, plans: map<PlanId, Plan>, births: map<string, nat>, ph: PlanHistory, delivered: map<(string, nat), set<PlanId>>,
                       events': Events, births': map<string, nat>)
    requires DeliveredOk(events, plans, births, ph, delivered) && NoneMaterialized(events, births, events', births')
    ensures DeliveredOk(events', plans, births', ph, delivered)
  {
    hide StoredAsDelivered;
  }

  /** Before its delivery no row of an insertion's plans is accounted for. */
  lemma NothingAccountedYet(events: Events, plans: map<PlanId, Plan>, births: map<string, nat>, crossed: set<(string, nat)>, ph: PlanHistory, p: PlanId)
    requires PlansOk(events, plans, births, crossed, ph) && p.event in events && !MaterializedRow(events, p.event)
    ensures !Accounted(plans, ph, p, BirthOf(births, p.event))
  {
    if p in plans { assert PlanRowOk(events, births, plans[p], p, ph.births[p]); }
  }

  lemma DeliveredNow(events: Events, plans: map<PlanId, Plan>, plans': map<PlanId, Plan>, births: map<string, nat>, crossed: set<(string, nat)>, ph: PlanHistory,
                     seen: Event, values: seq<Plan>)
    requires PlansOk(events, plans, births, crossed, ph) && seen.id in events && !MaterializedRow(events, seen.id) && PlansOf(seen)
    requires Grown(plans', plans, values) && |values| == |seen.plans| && forall i :: 0 <= i < |values| ==> values[i].id == seen.plans[i].id && values[i].id !in plans
    ensures StoredAsDelivered(plans', StampPlans(ph, plans, plans', BirthOf(births, seen.id)), PlanIds(seen), seen.id, BirthOf(births, seen.id))
  {
    var now := BirthOf(births, seen.id);
    var ph' := StampPlans(ph, plans, plans', now);
    forall p: PlanId | p.event == seen.id ensures !Accounted(plans, ph, p, now) {
      NothingAccountedYet(events, plans, births, crossed, ph, p);
    }
    forall p | p in PlanIds(seen) ensures p.event == seen.id && Accounted(plans', ph', p, now) {
      var i :| 0 <= i < |seen.plans| && seen.plans[i].id == p;
      assert values[i].id in plans';
    }
    forall p: PlanId | p in plans' && p.event == seen.id && Accounted(plans', ph', p, now) ensures p in PlanIds(seen) {
      if p !in plans {
        var i :| 0 <= i < |values| && values[i].id == p;
      }
    }
    forall gone | gone in ph.purged ensures gone.0.event == seen.id ==> gone.1 != now {
      if gone.0.event == seen.id { assert (gone.0, now) !in ph.purged; }
    }
  }

  /** A delivery leaves the rows of every other event as accounted for as they were. */
  lemma DeliveredElsewhere(plans: map<PlanId, Plan>, plans': map<PlanId, Plan>, ph: PlanHistory, now: nat, values: seq<Plan>, seen: string,
                           ids: set<PlanId>, id: string, birth: nat)
    requires StoredAsDelivered(plans, ph, ids, id, birth) && id != seen
    requires Grown(plans', plans, values) && forall i :: 0 <= i < |values| ==> values[i].id.event == seen
    requires forall p :: p in plans ==> p in ph.births
    ensures StoredAsDelivered(plans', StampPlans(ph, plans, plans', now), ids, id, birth)
  {
    var ph' := StampPlans(ph, plans, plans', now);
    forall p: PlanId | p in plans' && p.event == id && Accounted(plans', ph', p, birth) ensures p in ids {
      assert p in plans;
      assert Accounted(plans, ph, p, birth);
    }
  }

  lemma DeliveryStep(g: Global, w: nat, recipients: seq<string>)
    requires LocalOf(g, w).Holding? && Materialize(g.tables, LocalOf(g, w).seen, recipients).1.Ok?
    ensures var l := LocalOf(g, w); var t', g' := Materialize(g.tables, l.seen, recipients).0, Step(g, Deliver(w, recipients));
      && g'.tables == t' && g'.history.births == g.history.births && g'.history.failures == g.history.failures
      && g'.history.plans == StampPlans(g.history.plans, g.tables.plans, t'.plans, BirthOf(g.history.births, l.seen.id))
      && g'.history.delivered == g.history.delivered[(l.seen.id, BirthOf(g.history.births, l.seen.id)) := PlanIds(l.seen)]
  {
    hide Materialize, AllArrived, PlanIds;
  }

  lemma DeliverKeepsExtra(g: Global, w: nat, recipients: seq<string>)
    requires Inv(g) && Extra(g) && LocalOf(g, w).Holding? && Materialize(g.tables, LocalOf(g, w).seen, recipients).1.Ok?
    ensures Extra(Step(g, Deliver(w, recipients)))
  {
    hide Step, Materialize, EventsOk, FailureRowsOk, LogsOk, PlansOk, MailboxOk, ArrivalsOk, EndedOk, CreatedOk, CountsOk, DeliveredOk, SeenOk, Delivered, OnlyLease, SameAttempts;
    var t, h, l := g.tables, g.history, LocalOf(g, w);
    var seen, t' := l.seen, Materialize(t, l.seen, recipients).0;
    DeliveryStep(g, w, recipients);
    assert LocalOk(t.events, h.births, g.workers[w]);
    hide WorkersOk, LocalOk;
    DeliveredRow(t, h.births, seen, l.birth, recipients);
    SeenMail(t.events, h.births, seen, l.birth);
    AttemptsStay(t.events, t'.events, h.births, seen.id);
    CountsStay(t.events, h.births, t'.events, h.births, h.failures.recorded);
    DeliveredTable(t, t', h, seen, recipients);
  }

  lemma BirthsKnown(events: Events, plans: map<PlanId, Plan>, births: map<string, nat>, crossed: set<(string, nat)>, ph: PlanHistory)
    requires PlansOk(events, plans, births, crossed, ph)
    ensures forall p :: p in plans ==> p in ph.births
  {
    hide PlanRowOk, Accounted;
  }

  lemma DeliveredFacts(events: Events, events': Events, plans: map<PlanId, Plan>, plans': map<PlanId, Plan>, seen: Event, values: seq<Plan>)
    requires Delivered(events, events', plans, plans', seen.id, values)
    ensures seen.id in events && !MaterializedRow(events, seen.id) && Grown(plans', plans, values)
    ensures forall i :: 0 <= i < |values| ==> values[i].id.event == seen.id && values[i].id !in plans
    ensures forall id :: id in events' && MaterializedRow(events', id) && id != seen.id ==> id in events && MaterializedRow(events, id)
  {
    hide Grown;
  }

  lemma DeliveredTable(t: Tables, t': Tables, h: History, seen: Event, recipients: seq<string>)
    requires PlansOk(t.events, t.plans, h.births, h.crossed, h.plans) && PlansOf(seen)
    requires Delivered(t.events, t'.events, t.plans, t'.plans, seen.id, Addressed(seen.plans, recipients))
    requires DeliveredOk(t.events, t.plans, h.births, h.plans, h.delivered)
    ensures var now := BirthOf(h.births, seen.id);
      DeliveredOk(t'.events, t'.plans, h.births, StampPlans(h.plans, t.plans, t'.plans, now), h.delivered[(seen.id, now) := PlanIds(seen)])
  {
    hide Addressed, StampPlans, StoredAsDelivered, PlanIds, PlansOf, PlansOk, Delivered, Grown, DeliveredOk, BirthOf, MaterializedRow;
    var now, values := BirthOf(h.births, seen.id), Addressed(seen.plans, recipients);
    AddressedKeepsIds(seen, recipients);
    BirthsKnown(t.events, t.plans, h.births, h.crossed, h.plans);
    DeliveredFacts(t.events, t'.events, t.plans, t'.plans, seen, values);
    DeliveredNow(t.events, t.plans, t'.plans, h.births, h.crossed, h.plans, seen, values);
    OthersDelivered(t.events, t.plans, t'.plans, h.births, h.plans, h.delivered, now, values, seen.id);
    Assembled(t.events, t'.events, t'.plans, h.births, StampPlans(h.plans, t.plans, t'.plans, now), h.delivered, seen.id, PlanIds(seen));
  }

  lemma OthersDelivered(events: Events, plans: map<PlanId, Plan>, plans': map<PlanId, Plan>, births: map<string, nat>, ph: PlanHistory,
                        delivered: map<(string, nat), set<PlanId>>, now: nat, values: seq<Plan>, seen: string)
    requires DeliveredOk(events, plans, births, ph, delivered) && Grown(plans', plans, values) && forall p :: p in plans ==> p in ph.births
    requires forall i :: 0 <= i < |values| ==> values[i].id.event == seen
    ensures forall id :: id in events && MaterializedRow(events, id) && id != seen ==>
      (id, BirthOf(births, id)) in delivered && StoredAsDelivered(plans', StampPlans(ph, plans, plans', now), delivered[(id, BirthOf(births, id))], id, BirthOf(births, id))
  {
    hide StampPlans, StoredAsDelivered, Grown, BirthOf, MaterializedRow;
    forall id | id in events && MaterializedRow(events, id) && id != seen
      ensures StoredAsDelivered(plans', StampPlans(ph, plans, plans', now), delivered[(id, BirthOf(births, id))], id, BirthOf(births, id))
    {
      DeliveredElsewhere(plans, plans', ph, now, values, seen, delivered[(id, BirthOf(births, id))], id, BirthOf(births, id));
    }
  }

  lemma Assembled(events: Events, events': Events, plans: map<PlanId, Plan>, births: map<string, nat>, ph: PlanHistory,
                  delivered: map<(string, nat), set<PlanId>>, seen: string, ids: set<PlanId>)
    requires StoredAsDelivered(plans, ph, ids, seen, BirthOf(births, seen))
    requires forall id :: id in events' && MaterializedRow(events', id) && id != seen ==> id in events && MaterializedRow(events, id)
    requires forall id :: id in events && MaterializedRow(events, id) && id != seen ==>
      (id, BirthOf(births, id)) in delivered && StoredAsDelivered(plans, ph, delivered[(id, BirthOf(births, id))], id, BirthOf(births, id))
    ensures DeliveredOk(events', plans, births, ph, delivered[(seen, BirthOf(births, seen)) := ids])
  {
    hide StoredAsDelivered, BirthOf, MaterializedRow;
  }

  lemma AttemptsStay(events: Events, events': Events, births: map<string, nat>, id: string)
    requires OnlyLease(events, events', id) && SameAttempts(events, births, events', births)
    ensures forall x :: x in events' ==> x in events && events'[x].lease.attempts == events[x].lease.attempts
  {
  }

  // ----- the other steps -----

  lemma GiveUpStep(g: Global, w: nat, to: Phase, stage: string, code: string, next: Option<Time>, at: Time)
    requires LocalOf(g, w).Holding? && (to.Queued? || to == Ended("failed")) && RecordFailure(g.tables, LocalOf(g, w).seen, to, stage, code, next, at).1.Ok?
    ensures var l, h := LocalOf(g, w), g.history; var g' := Step(g, GiveUp(w, to, stage, code, next, at));
      && g'.tables == RecordFailure(g.tables, l.seen, to, stage, code, next, at).0
      && g'.history.births == h.births && g'.history.plans == h.plans && g'.history.delivered == h.delivered
      && g'.history.failures.recorded == h.failures.recorded[(l.seen.id, BirthOf(h.births, l.seen.id), l.seen.lease.token) := l.seen.lease.attempts + 1]
  {
    hide RecordFailure;
  }

  lemma GiveUpKeepsExtra(g: Global, w: nat, to: Phase, stage: string, code: string, next: Option<Time>, at: Time)
    requires Inv(g) && Extra(g) && LocalOf(g, w).Holding? && (to.Queued? || to == Ended("failed"))
    requires RecordFailure(g.tables, LocalOf(g, w).seen, to, stage, code, next, at).1.Ok?
    ensures Extra(Step(g, GiveUp(w, to, stage, code, next, at)))
  {
    hide Step, RecordFailure, EventsOk, FailureRowsOk, LogsOk, PlansOk, MailboxOk, ArrivalsOk, EndedOk, CreatedOk, CountsOk, DeliveredOk, SeenOk, NoneMaterialized, OnlyLease;
    var t, h, l := g.tables, g.history, LocalOf(g, w);
    GiveUpStep(g, w, to, stage, code, next, at);
    assert LocalOk(t.events, h.births, g.workers[w]);
    hide WorkersOk, LocalOk;
    var t' := RecordFailure(t, l.seen, to, stage, code, next, at).0;
    FailedRow(t, h.births, l.seen, l.birth, to, stage, code, next, at);
    HeldTokenUnrecorded(t.events, h.births, h.crossed, h.failures.recorded, l.seen.id);
    CountsFailed(t.events, t'.events, h.births, h.failures.recorded, l.seen.id, l.seen.lease.token, l.seen.lease.attempts + 1);
    DeliveredStays(t.events, t.plans, h.births, h.plans, h.delivered, t'.events, h.births);
  }

  lemma ProduceKeepsExtra(g: Global, event: Event)
    requires Inv(g) && Extra(g)
    ensures Extra(Step(g, Produce(event)))
  {
    CountsProduced(g, event);
    hide Inv, CountsOk, TakenIn, StoredAsDelivered, PlansOf, AlertDiscipline;
    var g' := Step(g, Produce(event));
    assert NoneMaterialized(g.tables.events, g.history.births, g'.tables.events, g'.history.births);
    hide NoneMaterialized, DeliveredOk;
    DeliveredStays(g.tables.events, g.tables.plans, g.history.births, g.history.plans, g.history.delivered, g'.tables.events, g'.history.births);
  }

  lemma ClaimKeepsExtra(g: Global, w: nat, id: string, owner: string, now: Time, expires: Time)
    requires Extra(g)
    ensures Extra(Step(g, Action.Claim(w, id, owner, now, expires)))
  {
    hide CountsOk, DeliveredOk;
    var g' := Step(g, Action.Claim(w, id, owner, now, expires));
    CountsStay(g.tables.events, g.history.births, g'.tables.events, g'.history.births, g.history.failures.recorded);
    DeliveredStays(g.tables.events, g.tables.plans, g.history.births, g.history.plans, g.history.delivered, g'.tables.events, g'.history.births);
  }

  lemma PurgedEventRows(g: Global, id: string)
    ensures var g' := Step(g, PurgeEvent(id));
      && g'.tables.events == g.tables.events - {id} && g'.tables.plans == g.tables.plans
      && g'.history.births == g.history.births && g'.history.failures == g.history.failures
      && g'.history.plans == g.history.plans && g'.history.delivered == g.history.delivered
      && NoneMaterialized(g.tables.events, g.history.births, g'.tables.events, g'.history.births)
  {
  }

  lemma PurgeEventKeepsExtra(g: Global, id: string)
    requires Extra(g)
    ensures Extra(Step(g, PurgeEvent(id)))
  {
    hide CountsOk, DeliveredOk, NoneMaterialized;
    var g' := Step(g, PurgeEvent(id));
    PurgedEventRows(g, id);
    hide Step;
    CountsStay(g.tables.events, g.history.births, g'.tables.events, g'.history.births, g.history.failures.recorded);
    DeliveredStays(g.tables.events, g.tables.plans, g.history.births, g.history.plans, g.history.delivered, g'.tables.events, g'.history.births);
  }

  lemma PurgedPlanStays(plans: map<PlanId, Plan>, ph: PlanHistory, p: PlanId, ids: set<PlanId>, id: string, birth: nat)
    requires StoredAsDelivered(plans, ph, ids, id, birth) && p in plans && p in ph.births
    ensures StoredAsDelivered(plans - {p}, ph.(purged := ph.purged + {(p, ph.births[p])}), ids, id, birth)
  {
    if p.event == id && ph.births[p] == birth { assert Accounted(plans, ph, p, birth); }
    forall q | q in ids ensures Accounted(plans - {p}, ph.(purged := ph.purged + {(p, ph.births[p])}), q, birth) {
      assert Accounted(plans, ph, q, birth);
    }
    forall q: PlanId | q in plans - {p} && q.event == id && Accounted(plans - {p}, ph.(purged := ph.purged + {(p, ph.births[p])}), q, birth) ensures q in ids {
      assert Accounted(plans, ph, q, birth);
    }
  }

  lemma PurgePlanKeepsExtra(g: Global, p: PlanId)
    requires Extra(g)
    ensures Extra(Step(g, PurgePlan(p)))
  {
    hide CountsOk, StoredAsDelivered, MaterializedRow;
    if p in g.tables.plans && p in g.history.plans.births {
      var h := g.history;
      forall id | id in g.tables.events && MaterializedRow(g.tables.events, id)
        ensures StoredAsDelivered(g.tables.plans - {p}, h.plans.(purged := h.plans.purged + {(p, h.plans.births[p])}),
                                  h.delivered[(id, BirthOf(h.births, id))], id, BirthOf(h.births, id))
      {
        PurgedPlanStays(g.tables.plans, h.plans, p, h.delivered[(id, BirthOf(h.births, id))], id, BirthOf(h.births, id));
      }
    }
  }

  lemma MovePlanKeepsExtra(g: Global, p: PlanId, lease: Lease, outbox: string)
    requires Extra(g)
    ensures Extra(Step(g, MovePlan(p, lease, outbox)))
  {
    hide CountsOk, MaterializedRow;
  }

  /** Steps that touch neither events, plans nor the histories of both. */
  predicate Aside(a: Action) {
    a.ReadBack? || a.Acknowledge? || a.SetPersonal? || a.MarkRead? || a.Crash? || a.PurgeFailure? || a.PurgeItem? || a.PurgeGroup?
  }

  lemma AsideKeepsExtra(g: Global, a: Action)
    requires Extra(g) && Aside(a)
    ensures Extra(Step(g, a))
  {
    hide CountsOk, DeliveredOk, AcknowledgeItem, EventTables.SetPersonal, MarkAllRead;
    SetAside(g, a);
  }

  lemma SetAside(g: Global, a: Action)
    requires Aside(a)
    ensures var g' := Step(g, a);
      && g'.tables.events == g.tables.events && g'.tables.plans == g.tables.plans
      && g'.history.births == g.history.births && g'.history.failures == g.history.failures && g'.history.plans == g.history.plans
      && g'.history.delivered == g.history.delivered
  {
  }

  lemma StepKeepsExtra(g: Global, a: Action)
    requires Inv(g) && Extra(g)
    ensures Extra(Step(g, a))
  {
    hide Inv, Extra;
    match a {
      case Produce(event) => ProduceKeepsExtra(g, event);
      case Claim(w, id, owner, now, expires) => ClaimKeepsExtra(g, w, id, owner, now, expires);
      case Deliver(w, recipients) =>
        if LocalOf(g, w).Holding? && Materialize(g.tables, LocalOf(g, w).seen, recipients).1.Ok? { DeliverKeepsExtra(g, w, recipients); }
        hide Materialize;
      case GiveUp(w, to, stage, code, next, at) =>
        if LocalOf(g, w).Holding? && (to.Queued? || to == Ended("failed")) {
          RefusedKeepsTables(g.tables, LocalOf(g, w).seen, to, stage, code, next, at);
          if RecordFailure(g.tables, LocalOf(g, w).seen, to, stage, code, next, at).1.Ok? {
            GiveUpKeepsExtra(g, w, to, stage, code, next, at);
          } else {
            RefusedGiveUp(g, w, to, stage, code, next, at);
          }
        }
      case PurgeEvent(id) => PurgeEventKeepsExtra(g, id);
      case PurgePlan(p) => PurgePlanKeepsExtra(g, p);
      case MovePlan(p, lease, outbox) => MovePlanKeepsExtra(g, p, lease, outbox);
      case _ => AsideKeepsExtra(g, a);
    }
  }

  lemma RefusedGiveUp(g: Global, w: nat, to: Phase, stage: string, code: string, next: Option<Time>, at: Time)
    requires Extra(g) && LocalOf(g, w).Holding? && RecordFailure(g.tables, LocalOf(g, w).seen, to, stage, code, next, at).1.Err?
    ensures Extra(Step(g, GiveUp(w, to, stage, code, next, at)))
  {
    hide CountsOk, DeliveredOk;
    RefusedKeepsTables(g.tables, LocalOf(g, w).seen, to, stage, code, next, at);
    hide RecordFailure;
  }

  lemma {:induction false} RunKeepsExtra(g: Global, actions: seq<Action>)
    requires Inv(g) && Extra(g)
    ensures Extra(Run(g, actions))
    decreases |actions|
  {
    hide Inv, Extra, Step;
    if actions != [] {
      StepKeepsInv(g, actions[0]);
      StepKeepsExtra(g, actions[0]);
      RunKeepsExtra(Step(g, actions[0]), actions[1..]);
    }
  }

  lemma ReachedExtra(actions: seq<Action>)
    ensures Extra(Run(INITIAL, actions))
  {
    Reached([]);
    assert Run(INITIAL, []) == INITIAL;
    RunKeepsExtra(INITIAL, actions);
  }

  // ----- main results -----

  /**
   * An event's attempt counter is the number of failures recorded for this insertion, whoever recorded them,
   * and the number of its failure rows exactly when none of them has been purged. Unless a snapshot of an
   * earlier insertion has ended one of its claims, the recorded attempts are exactly 1 up to the counter in
   * the order of their fencing tokens.
   */
  lemma AttemptsCountFailures(actions: seq<Action>, id: string)
    requires id in Run(INITIAL, actions).tables.events
    ensures var g := Run(INITIAL, actions); var l := g.tables.events[id].lease; var now := BirthOf(g.history.births, id);
      && |RecordedTokens(g.history, id)| == l.attempts <= l.token
      && StoredTokens(g, id) <= RecordedTokens(g.history, id)
      && (|StoredTokens(g, id)| == l.attempts <==> StoredTokens(g, id) == RecordedTokens(g.history, id))
      && ((id, now) !in g.history.crossed ==> FailureLog(g.history.failures.recorded, id, now, l.attempts))
  {
    hide Run, PlansOk, MailboxOk, ArrivalsOk, WorkersOk, EndedOk, CreatedOk, FailureLog, SourcesUnique, Spent, DeliveredOk, TokensAt;
    Reached(actions);
    ReachedExtra(actions);
    var g := Run(INITIAL, actions);
    assert EventRowOk(g.tables.events[id], id);
    StoredAreRecorded(g, id);
    SameSize(StoredTokens(g, id), RecordedTokens(g.history, id));
  }

  /**
   * What a crossing changes in the failure log: a failure is recorded under the attempt after the snapshot's,
   * and that is the row's new counter exactly when both had failed equally often.
   */
  lemma CrossingFailureIsInPlaceIff(g: Global, w: nat, to: Phase, stage: string, code: string, next: Option<Time>, at: Time)
    requires Inv(g) && LocalOf(g, w).Holding? && (to.Queued? || to == Ended("failed"))
    requires RecordFailure(g.tables, LocalOf(g, w).seen, to, stage, code, next, at).1.Ok?
    ensures var l := LocalOf(g, w); var id, now := l.seen.id, BirthOf(g.history.births, l.seen.id);
      var g' := Step(g, GiveUp(w, to, stage, code, next, at));
      && id in g.tables.events && id in g'.tables.events && (id, now, l.seen.lease.token) in g'.history.failures.recorded
      && (g'.history.failures.recorded[(id, now, l.seen.lease.token)] == g'.tables.events[id].lease.attempts <==>
            l.seen.lease.attempts == g.tables.events[id].lease.attempts)
      && (l.birth == now ==> l.seen.lease.attempts == g.tables.events[id].lease.attempts)
  {
    hide Step, RecordFailure, FailureRowsOk, LogsOk, PlansOk, MailboxOk, ArrivalsOk, EndedOk, CreatedOk, OnlyLease, NoneMaterialized, PlansOf, AlertDiscipline;
    var t, h, l := g.tables, g.history, LocalOf(g, w);
    GiveUpStep(g, w, to, stage, code, next, at);
    assert LocalOk(t.events, h.births, g.workers[w]);
    FailedRow(t, h.births, l.seen, l.birth, to, stage, code, next, at);
    HolderIsTheRow(t.events, h.births, l.seen, l.birth);
  }

  /**
   * The row of an event's plan is stored for this insertion exactly when the insertion has been materialized,
   * its delivery stored a plan of that id, and the plan row has not been purged since. Every delivery stores
   * the plans of the snapshot it was made with: all of the event's own unless a snapshot of an earlier
   * insertion made it. Any other row under the id is left over from an earlier insertion.
   */
  lemma PlanRowsIffMaterialized(actions: seq<Action>, id: string, i: nat)
    requires var g := Run(INITIAL, actions); id in g.tables.events && i < |g.tables.events[id].plans|
    ensures var g := Run(INITIAL, actions); var t, h, now := g.tables, g.history, BirthOf(g.history.births, id); var p := t.events[id].plans[i].id;
      && (Materialized(t, id) ==> (id, now) in h.delivered)
      && (p in t.plans && !LeftoverPlan(g, p) <==> Materialized(t, id) && p in h.delivered[(id, now)] && (p, now) !in h.plans.purged)
      && (Materialized(t, id) && (id, now) !in h.crossed ==> p in h.delivered[(id, now)])
      && (p in t.plans && LeftoverPlan(g, p) ==> now >= 2)
  {
    hide Run, FailureRowsOk, LogsOk, MailboxOk, ArrivalsOk, WorkersOk, EndedOk, CreatedOk, SourcesUnique, CountsOk;
    Reached(actions);
    ReachedExtra(actions);
    var g := Run(INITIAL, actions);
    var t, h, p := g.tables, g.history, g.tables.events[id].plans[i].id;
    assert EventRowOk(t.events[id], id) && p.event == id;
    if p in t.plans { assert PlanRowOk(t.events, h.births, t.plans[p], p, h.plans.births[p]); }
    if MaterializedRow(t.events, id) && (id, BirthOf(h.births, id)) !in h.crossed {
      assert Accounted(t.plans, h.plans, t.events[id].plans[i].id, BirthOf(h.births, id));
    }
  }
}
