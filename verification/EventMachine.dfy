/**
 * The event queue as a machine: one atomic step per statement or transaction, any number of workers.
 * A claim is two steps, its UPDATE and the SELECT that reads the row back, so a worker may read a row
 * that somebody else has meanwhile taken over. Retention purges rows at any time: it selects them by
 * status and deletes them by id in a later statement, so the machine lets a purge hit any row.
 */
module EventMachine {
  import opened Prelude
  import opened Leases
  import opened AlertFolding
  import opened EventTables

  type Events = map<string, Event>

  /** A claimed snapshot remembers which insertion of its event id it was read from. */
  datatype Local = Idle | Claimed(id: string) | Holding(seen: Event, birth: nat)

  /** Which insertion of its event a stored failure row belongs to, and the attempt of every failure ever recorded. */
  datatype FailureHistory = FailureHistory(births: map<(string, nat), nat>, recorded: map<(string, nat, nat), nat>)

  /** Which insertion of its event a stored plan row belongs to, and which plan rows have been purged. */
  datatype PlanHistory = PlanHistory(births: map<PlanId, nat>, purged: set<(PlanId, nat)>)

  /**
   * What has happened, for the theorems only: how often each id was inserted (`births`), insertions that a
   * snapshot of an earlier one has ended (`crossed`), pairs of group and item that lost a row (`torn`), what
   * reached each item since it was inserted, source keys reported as new and purged, ended claims, and the
   * plan ids that the delivery of an insertion stored.
   */
  datatype History = History(
    births: map<string, nat>, crossed: set<(string, nat)>, failures: FailureHistory, plans: PlanHistory,
    torn: set<(string, string)>, arrivals: map<ItemKey, seq<Arrival>>,
    created: multiset<(string, string)>, purged: multiset<(string, string)>, ended: seq<(string, nat, nat)>,
    delivered: map<(string, nat), set<PlanId>>)

  datatype Global = Global(tables: Tables, workers: map<nat, Local>, history: History)

  datatype Action =
    | Produce(event: Event)
    | Claim(worker: nat, id: string, owner: string, now: Time, expires: Time)
    | ReadBack(worker: nat)
    | Deliver(worker: nat, recipients: seq<string>)
    | GiveUp(worker: nat, to: Phase, stage: string, code: string, next: Option<Time>, at: Time)
    | Acknowledge(recipient: string, identity: string, at: Time)
    | SetPersonal(recipient: string, identity: string, change: Personal, at: Time)
    | MarkRead(recipient: string, listed: set<string>, at: Time)
    | MovePlan(plan: PlanId, lease: Lease, outboxMessageId: string)
    | Crash(worker: nat)
    | PurgeEvent(id: string)
    | PurgeFailure(failure: (string, nat))
    | PurgePlan(plan: PlanId)
    | PurgeItem(item: ItemKey)
    | PurgeGroup(group: (string, string))

  const NO_HISTORY := History(map[], {}, FailureHistory(map[], map[]), PlanHistory(map[], {}), {}, map[], multiset{}, multiset{}, [], map[])
  const INITIAL := Global(EMPTY_TABLES, map[], NO_HISTORY)

  function LocalOf(g: Global, w: nat): Local {
    if w in g.workers then g.workers[w] else Idle
  }

  function BirthOf(births: map<string, nat>, id: string): nat {
    if id in births then births[id] else 0
  }

  // ----- what the compiler and the validator hand to Enqueue -----

  predicate GroupIdentity(identity: string) {
    "group:" <= identity
  }

  predicate PlansOf(e: Event) {
    && DistinctPlans(e.plans)
    && forall i :: 0 <= i < |e.plans| ==> e.plans[i].id.event == e.id && e.plans[i].eventId == e.id && LeaseOk(e.plans[i].lease)
  }

  /** Alerts and only alerts share a group key, and no event id looks like a group's item identity. */
  predicate AlertDiscipline(e: Event) {
    && (e.body.groupKey == "" <==> e.body.alertState.NoAlert?)
    && !e.body.alertState.Acknowledged?
    && !GroupIdentity(e.id)
  }

  predicate Compiled(e: Event) {
    && e.id != "" && e.lease == NewLease(None, e.createdAt) && PlansOf(e) && AlertDiscipline(e)
  }

  // ----- steps -----

  /** The arrivals of an item in order, and the one its columns come from: the newest, of equally new ones the last. */
  function Winner(arrivals: seq<Arrival>): Arrival
    requires arrivals != []
    decreases |arrivals|
  {
    var last := arrivals[|arrivals| - 1];
    if |arrivals| == 1 then last
    else
      var before := Winner(arrivals[..|arrivals| - 1]);
      if before.at <= last.at then last else before
  }

  function Arrived(arrivals: map<ItemKey, seq<Arrival>>, a: Arrival): map<ItemKey, seq<Arrival>> {
    var key := (a.recipient, Identity(a.groupKey, a.eventId));
    arrivals[key := (if key in arrivals then arrivals[key] else []) + [a]]
  }

  function AllArrived(arrivals: map<ItemKey, seq<Arrival>>, e: Event, recipients: seq<string>): map<ItemKey, seq<Arrival>>
    decreases |recipients|
  {
    if recipients == [] then arrivals else AllArrived(Arrived(arrivals, ArrivalOf(e, recipients[0])), e, recipients[1..])
  }

  function SourceOf(e: Event): (string, string) {
    (e.source, e.sourceEventId)
  }

  /** The claim that a finishing transition of this snapshot ends, and whether the snapshot is of an earlier insertion. */
  function EndClaim(h: History, seen: Event, birth: nat): History {
    var now := BirthOf(h.births, seen.id);
    h.(ended := h.ended + [(seen.id, now, seen.lease.token)],
       crossed := if birth == now then h.crossed else h.crossed + {(seen.id, now)})
  }

  function PlanIds(e: Event): set<PlanId> {
    set i | 0 <= i < |e.plans| :: e.plans[i].id
  }

  function DeliverHistory(h: History, seen: Event, birth: nat, recipients: seq<string>, before: map<PlanId, Plan>, after: map<PlanId, Plan>): History {
    EndClaim(h, seen, birth).(
      arrivals := AllArrived(h.arrivals, seen, recipients),
      plans := h.plans.(births := map p | p in after :: if p in before && p in h.plans.births then h.plans.births[p] else BirthOf(h.births, seen.id)),
      delivered := h.delivered[(seen.id, BirthOf(h.births, seen.id)) := PlanIds(seen)])
  }

  function FailureHistoryOf(h: History, seen: Event, birth: nat): History {
    var now := BirthOf(h.births, seen.id);
    EndClaim(h, seen, birth).(failures := FailureHistory(
      h.failures.births[(seen.id, seen.lease.token) := now],
      h.failures.recorded[(seen.id, now, seen.lease.token) := seen.lease.attempts + 1]))
  }

  function Step(g: Global, a: Action): Global {
    var t, h := g.tables, g.history;
    match a
    case Produce(event) =>
      if Compiled(event) && event.id !in t.events && !SourceTaken(t, event.source, event.sourceEventId)
      then g.(tables := t.(events := t.events[event.id := event]),
              history := h.(births := h.births[event.id := BirthOf(h.births, event.id) + 1], created := h.created + multiset{SourceOf(event)}))
      else g
    case Claim(w, id, owner, now, expires) =>
      if LocalOf(g, w).Idle? && Claimable(t, id, owner, now)
      then g.(tables := ClaimEvent(t, id, owner, now, expires), workers := g.workers[w := Local.Claimed(id)]) else g
    case ReadBack(w) =>
      var l := LocalOf(g, w);
      if l.Claimed?
      then g.(workers := g.workers[w := if l.id in t.events then Holding(t.events[l.id], BirthOf(h.births, l.id)) else Idle]) else g
    case Deliver(w, recipients) =>
      var l := LocalOf(g, w);
      if l.Holding? then
        var done := Materialize(t, l.seen, recipients);
        if done.1.Ok?
        then Global(done.0, g.workers[w := Idle], DeliverHistory(h, l.seen, l.birth, recipients, t.plans, done.0.plans))
        else g
      else g
    case GiveUp(w, to, stage, code, next, at) =>
      var l := LocalOf(g, w);
      if l.Holding? && (to.Queued? || to == Ended("failed")) then
        var done := RecordFailure(t, l.seen, to, stage, code, next, at);
        Global(done.0, g.workers[w := Idle], if done.1.Ok? then FailureHistoryOf(h, l.seen, l.birth) else h)
      else g
    case Acknowledge(recipient, identity, at) => g.(tables := AcknowledgeItem(t, recipient, identity, at).0)
    case SetPersonal(recipient, identity, change, at) => g.(tables := EventTables.SetPersonal(t, recipient, identity, change, at))
    case MarkRead(recipient, listed, at) => g.(tables := MarkAllRead(t, recipient, listed, at))
    case MovePlan(id, lease, outbox) =>
      if id in t.plans then g.(tables := t.(plans := t.plans[id := t.plans[id].(lease := lease, outboxMessageId := outbox)])) else g
    case Crash(w) => g.(workers := g.workers[w := Idle])
    case PurgeEvent(id) =>
      if id in t.events
      then g.(tables := t.(events := t.events - {id}), history := h.(purged := h.purged + multiset{SourceOf(t.events[id])})) else g
    case PurgeFailure(key) => g.(tables := t.(failures := t.failures - {key}))
    case PurgePlan(id) =>
      if id in t.plans && id in h.plans.births
      then g.(tables := t.(plans := t.plans - {id}),
              history := h.(plans := h.plans.(purged := h.plans.purged + {(id, h.plans.births[id])}))) else g
    case PurgeItem(key) =>
      if key in t.items
      then g.(tables := t.(items := t.items - {key}),
              history := h.(arrivals := h.arrivals - {key}, torn := h.torn + {(key.0, t.items[key].groupKey)})) else g
    case PurgeGroup(key) => g.(tables := t.(groups := t.groups - {key}), history := h.(torn := h.torn + {key}))
  }

  function Run(g: Global, actions: seq<Action>): Global
    decreases |actions|
  {
    if actions == [] then g else Run(Step(g, actions[0]), actions[1..])
  }

  // ----- invariants -----

  predicate EventRowOk(e: Event, id: string) {
    && e.id == id && id != "" && !GroupIdentity(id) && LeaseOk(e.lease) && PlansOf(e) && AlertDiscipline(e)
    && (e.lease.phase.Ended? ==> e.lease.phase.how == "materialized" || e.lease.phase.how == "failed")
  }

  predicate SourcesUnique(events: Events) {
    forall a, b :: a in events && b in events && a != b ==> SourceOf(events[a]) != SourceOf(events[b])
  }

  predicate EventsOk(events: Events, births: map<string, nat>) {
    && (forall id :: id in events ==> EventRowOk(events[id], id) && BirthOf(births, id) >= 1)
    && SourcesUnique(events)
  }

  /** A token that can no longer be spent on this insertion of the event. */
  predicate Spent(events: Events, births: map<string, nat>, id: string, birth: nat, token: nat) {
    && birth <= BirthOf(births, id)
    && (id in events && birth == BirthOf(births, id) ==>
          token <= events[id].lease.token && (token == events[id].lease.token ==> !events[id].lease.phase.Processing?))
  }

  ghost predicate LoggedAs(recorded: map<(string, nat, nat), nat>, id: string, birth: nat, attempt: nat) {
    exists k :: (id, birth, k) in recorded && recorded[(id, birth, k)] == attempt
  }

  /** The failures recorded for one insertion: attempts 1, 2, … in token order, up to the event's own counter. */
  ghost predicate FailureLog(recorded: map<(string, nat, nat), nat>, id: string, birth: nat, attempts: nat) {
    && (forall k :: (id, birth, k) in recorded ==> 1 <= recorded[(id, birth, k)] <= attempts)
    && (forall j, k :: (id, birth, j) in recorded && (id, birth, k) in recorded && j < k ==> recorded[(id, birth, j)] < recorded[(id, birth, k)])
    && (forall a :: 1 <= a <= attempts ==> LoggedAs(recorded, id, birth, a))
  }

  predicate FailureRowsOk(failures: map<(string, nat), Failure>, fh: FailureHistory) {
    forall key :: key in failures ==>
      && key in fh.births && fh.births[key] >= 1 && (key.0, fh.births[key], key.1) in fh.recorded
      && fh.recorded[(key.0, fh.births[key], key.1)] == failures[key].attempt
  }

  ghost predicate LogsOk(events: Events, births: map<string, nat>, crossed: set<(string, nat)>, recorded: map<(string, nat, nat), nat>) {
    && (forall full :: full in recorded ==> Spent(events, births, full.0, full.1, full.2))
    && (forall id :: id in events && (id, BirthOf(births, id)) !in crossed ==>
          FailureLog(recorded, id, BirthOf(births, id), events[id].lease.attempts))
  }

  predicate MaterializedRow(events: Events, id: string) {
    id in events && events[id].lease.phase == Ended("materialized")
  }

  predicate Materialized(t: Tables, id: string) {
    MaterializedRow(t.events, id)
  }

  predicate PlanRowOk(events: Events, births: map<string, nat>, plan: Plan, p: PlanId, birth: nat) {
    && plan.id == p && plan.eventId == p.event && 1 <= birth <= BirthOf(births, p.event)
    && (p.event in events && birth == BirthOf(births, p.event) ==> MaterializedRow(events, p.event))
  }

  /** The plan row of this insertion is there, or it was there and has been purged. */
  predicate Accounted(plans: map<PlanId, Plan>, ph: PlanHistory, p: PlanId, birth: nat) {
    (p in plans && p in ph.births && ph.births[p] == birth) || (p, birth) in ph.purged
  }

  predicate PlansOk(events: Events, plans: map<PlanId, Plan>, births: map<string, nat>, crossed: set<(string, nat)>, ph: PlanHistory) {
    && (forall p :: p in plans ==> p in ph.births && PlanRowOk(events, births, plans[p], p, ph.births[p]))
    && (forall gone :: gone in ph.purged ==>
          && gone.1 <= BirthOf(births, gone.0.event)
          && (gone.0.event in events && gone.1 == BirthOf(births, gone.0.event) ==> MaterializedRow(events, gone.0.event))
          && (gone.0 in plans && gone.0 in ph.births ==> ph.births[gone.0] != gone.1))
    && (forall id, i :: id in events && MaterializedRow(events, id) && (id, BirthOf(births, id)) !in crossed && 0 <= i < |events[id].plans| ==>
          Accounted(plans, ph, events[id].plans[i].id, BirthOf(births, id)))
  }

  function RowsIn(groups: map<(string, string), GroupRow>, items: map<ItemKey, ItemRow>, recipient: string, groupKey: string): Rows {
    Rows(Get(groups, (recipient, groupKey)), Get(items, (recipient, "group:" + groupKey)))
  }

  function RowsOf(t: Tables, recipient: string, groupKey: string): Rows {
    RowsIn(t.groups, t.items, recipient, groupKey)
  }

  predicate ItemShape(i: ItemRow, key: ItemKey) {
    i.recipient == key.0 && (if i.groupKey == "" then !GroupIdentity(key.1) else key.1 == "group:" + i.groupKey)
  }

  predicate PairOk(r: Rows, torn: bool) {
    WeakMirror(r) && (!torn ==> Mirror(r))
  }

  ghost predicate MailboxOk(groups: map<(string, string), GroupRow>, items: map<ItemKey, ItemRow>, torn: set<(string, string)>) {
    && (forall r, k :: k != "" ==> PairOk(RowsIn(groups, items, r, k), (r, k) in torn))
    && (forall key :: key in groups ==> key.1 != "")
    && (forall key :: key in items ==> ItemShape(items[key], key))
  }

  /** An item's columns come from the winner of its arrivals; only an acknowledgement changes its alert state. */
  predicate ItemFrom(i: ItemRow, key: ItemKey, arrivals: seq<Arrival>) {
    && arrivals != [] && i.eventId == Winner(arrivals).eventId && i.last == Winner(arrivals).at && i.actionState == Winner(arrivals).actionState
    && (i.alertState == Winner(arrivals).alertState || (Winner(arrivals).alertState.Firing? && i.alertState.Acknowledged?))
    && forall n :: 0 <= n < |arrivals| ==> arrivals[n].recipient == key.0 && Identity(arrivals[n].groupKey, arrivals[n].eventId) == key.1
  }

  predicate ArrivalsOk(items: map<ItemKey, ItemRow>, arrivals: map<ItemKey, seq<Arrival>>) {
    && arrivals.Keys == items.Keys
    && forall key :: key in items ==> ItemFrom(items[key], key, arrivals[key])
  }

  /** What stays true of a snapshot, and what it still says about the row while that is the same insertion. */
  predicate SeenOk(events: Events, births: map<string, nat>, seen: Event, birth: nat) {
    && seen.id != "" && PlansOf(seen) && AlertDiscipline(seen) && 1 <= birth <= BirthOf(births, seen.id)
    && (seen.id in events && birth == BirthOf(births, seen.id) ==>
          SeenLease(seen.lease, events[seen.id].lease) && seen == events[seen.id].(lease := seen.lease))
  }

  predicate LocalOk(events: Events, births: map<string, nat>, l: Local) {
    l.Holding? ==> SeenOk(events, births, l.seen, l.birth)
  }

  predicate WorkersOk(events: Events, births: map<string, nat>, workers: map<nat, Local>) {
    forall w :: w in workers ==> LocalOk(events, births, workers[w])
  }

  predicate EndedOk(events: Events, births: map<string, nat>, ended: seq<(string, nat, nat)>) {
    && (forall i :: 0 <= i < |ended| ==> Spent(events, births, ended[i].0, ended[i].1, ended[i].2))
    && (forall i, j :: 0 <= i < j < |ended| ==> ended[i] != ended[j])
  }

  /** Every source key was reported as new once more than it was purged, or exactly as often. */
  ghost predicate CreatedOk(events: Events, created: multiset<(string, string)>, purged: multiset<(string, string)>) {
    forall s: (string, string) :: created[s] == purged[s] + (if TakenIn(events, s.0, s.1) then 1 else 0)
  }

  ghost predicate Inv(g: Global) {
    var t, h := g.tables, g.history;
    && EventsOk(t.events, h.births)
    && FailureRowsOk(t.failures, h.failures) && LogsOk(t.events, h.births, h.crossed, h.failures.recorded)
    && PlansOk(t.events, t.plans, h.births, h.crossed, h.plans)
    && MailboxOk(t.groups, t.items, h.torn) && ArrivalsOk(t.items, h.arrivals)
    && WorkersOk(t.events, h.births, g.workers)
    && EndedOk(t.events, h.births, h.ended) && CreatedOk(t.events, h.created, h.purged)
  }

  /** What any number of steps may do: a row of the same insertion comes from the earlier row, and insertions only go up. */
  predicate Evolves(events: Events, births: map<string, nat>, events': Events, births': map<string, nat>) {
    && (forall id :: id in births ==> BirthOf(births, id) <= BirthOf(births', id))
    && (forall id :: id in events' && BirthOf(births', id) == BirthOf(births, id) ==>
          && id in events && LeaseEvolves(events[id].lease, events'[id].lease)
          && events'[id] == events[id].(lease := events'[id].lease))
  }
}
