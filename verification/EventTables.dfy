/** The event queue's tables, and what its statements and transactions do to them. */
module EventTables {
  import opened Prelude
  import opened Leases
  import opened AlertFolding

  /** A hash over an event's id and the plan's own coordinates, kept as its preimage. */
  datatype PlanId = PlanId(workspace: string, event: string, channel: string, connector: string, operation: string, step: nat)

  datatype PlanBody = PlanBody(
    channel: string, templateKey: string, connector: string, connection: string, operation: string, recipients: seq<string>,
    locale: string, dedupeKey: string, digest: bool, digestKey: string, digestMaximum: int, title: string, text: string, step: nat,
    cancelWhenTerminal: bool)

  datatype Plan = Plan(id: PlanId, workspace: string, eventId: string, body: PlanBody, lease: Lease, outboxMessageId: string, createdAt: Time)

  datatype EventBody = EventBody(
    eventType: string, groupKey: string, alertState: AlertState, actionState: string, text: string, recipients: seq<string>,
    resolvers: seq<string>, occurredAt: Time)

  datatype Event = Event(
    id: string, source: string, sourceEventId: string, body: EventBody, plans: seq<Plan>, lease: Lease, createdAt: Time)

  datatype Failure = Failure(stage: string, code: string, attempt: nat, deadLetter: bool, nextAttemptAt: Option<Time>, at: Time)

  /** Recipient, and either the event's own id or "group:" and the group key. */
  type ItemKey = (string, string)

  datatype Tables = Tables(
    events: map<string, Event>,
    failures: map<(string, nat), Failure>,
    groups: map<(string, string), GroupRow>,
    items: map<ItemKey, ItemRow>,
    plans: map<PlanId, Plan>)

  const EMPTY_TABLES := Tables(map[], map[], map[], map[], map[])

  function Get<K, V>(m: map<K, V>, k: K): Option<V> {
    if k in m then Some(m[k]) else None
  }

  function Put<K, V>(m: map<K, V>, k: K, v: Option<V>): map<K, V> {
    if v.Some? then m[k := v.value] else m
  }

  function Identity(groupKey: string, eventId: string): string {
    if groupKey != "" then "group:" + groupKey else eventId
  }

  /** What one recipient receives of an event. */
  function ArrivalOf(e: Event, recipient: string): Arrival {
    Arrival(recipient, e.body.groupKey, e.id, e.body.text, e.body.actionState, e.body.alertState, e.body.occurredAt, e.createdAt, e.lease.updatedAt)
  }

  // ----- enqueue -----

  predicate DistinctPlans(plans: seq<Plan>) {
    forall i, j :: 0 <= i < j < |plans| ==> plans[i].id != plans[j].id
  }

  predicate TakenIn(events: map<string, Event>, source: string, sourceEventId: string) {
    exists id :: id in events && events[id].source == source && events[id].sourceEventId == sourceEventId
  }

  predicate SourceTaken(t: Tables, source: string, sourceEventId: string) {
    TakenIn(t.events, source, sourceEventId)
  }

  /** The payload with every lifecycle column blanked. */
  function IngestView(e: Event): Event {
    e.(lease := NewLease(None, 0), createdAt := 0,
       plans := seq(|e.plans|, i requires 0 <= i < |e.plans| => PlanIngestView(e.plans[i])))
  }

  function PlanIngestView(p: Plan): Plan {
    p.(lease := NewLease(None, 0), outboxMessageId := "", createdAt := 0)
  }

  predicate SameIngest(a: Event, b: Event) {
    IngestView(a) == IngestView(b)
  }

  /** Two events count as the same exactly when identity, payload and every plan's identity and payload agree, whatever has become of them. */
  lemma SameIngestIff(a: Event, b: Event)
    ensures SameIngest(a, b) <==>
              && a.id == b.id && a.source == b.source && a.sourceEventId == b.sourceEventId && a.body == b.body && |a.plans| == |b.plans|
              && forall i :: 0 <= i < |a.plans| ==>
                   && a.plans[i].id == b.plans[i].id && a.plans[i].workspace == b.plans[i].workspace
                   && a.plans[i].eventId == b.plans[i].eventId && a.plans[i].body == b.plans[i].body
  {
    var x, y := IngestView(a), IngestView(b);
    if SameIngest(a, b) {
      forall i | 0 <= i < |a.plans| ensures PlanIngestView(a.plans[i]) == PlanIngestView(b.plans[i]) {
        assert x.plans[i] == y.plans[i];
      }
    } else if |a.plans| == |b.plans| && (forall i :: 0 <= i < |a.plans| ==> PlanIngestView(a.plans[i]) == PlanIngestView(b.plans[i])) {
      assert x.plans == y.plans;
    }
  }

  predicate StoredUnder(t: Tables, row: Event, source: string, sourceEventId: string) {
    (exists id :: id in t.events && t.events[id] == row) && row.source == source && row.sourceEventId == sourceEventId
  }

  /** Exactly one of: the row is new, the producer repeated itself, or nothing happened at all. */
  predicate Enqueued(t: Tables, event: Event, t': Tables, result: Result<(Event, bool)>) {
    if event.id !in t.events && !SourceTaken(t, event.source, event.sourceEventId) then
      t' == t.(events := t.events[event.id := event]) && result == Ok((event, true))
    else
      && t' == t
      && match result
         case Ok((row, created)) => !created && StoredUnder(t, row, event.source, event.sourceEventId) && SameIngest(row, event)
         case Err(Conflict) =>
           exists id :: id in t.events && t.events[id].source == event.source && t.events[id].sourceEventId == event.sourceEventId
                        && !SameIngest(t.events[id], event)
         case Err(Duplicate) => event.id in t.events && !SourceTaken(t, event.source, event.sourceEventId)
         case Err(_) => false
  }

  // ----- claim -----

  predicate Claimable(t: Tables, id: string, owner: string, now: Time) {
    id != "" && owner != "" && id in t.events && Due(t.events[id].lease, now)
  }

  function ClaimEvent(t: Tables, id: string, owner: string, now: Time, expires: Time): Tables {
    if Claimable(t, id, owner, now)
    then t.(events := t.events[id := t.events[id].(lease := Claimed(t.events[id].lease, owner, now, expires))]) else t
  }

  // ----- failure -----

  predicate FailureEvidence(stage: string, code: string) {
    stage in {"event_parse", "render", "audience_resolution", "materialization"} && FailureCode(code)
  }

  function RecordFailure(t: Tables, seen: Event, to: Phase, stage: string, code: string, next: Option<Time>, at: Time): (Tables, Result<()>) {
    if !FailureEvidence(stage, code) then (t, Err(Invalid))
    else if seen.id !in t.events || !Holds(t.events[seen.id].lease, seen.lease) then (t, Err(LeaseLost))
    else if (seen.id, seen.lease.token) in t.failures then (t, Err(Duplicate))
    else
      var row := t.events[seen.id];
      (t.(events := t.events[seen.id := row.(lease := Released(row.lease, to, 1, next, code, at))],
          failures := t.failures[(seen.id, seen.lease.token) :=
            Failure(stage, code, seen.lease.attempts + 1, to.Ended?, next, at)]), Ok(()))
  }

  // ----- materialization -----

  function DeliverOne(groups: map<(string, string), GroupRow>, items: map<ItemKey, ItemRow>, e: Arrival):
    (map<(string, string), GroupRow>, map<ItemKey, ItemRow>)
  {
    var group, item := (e.recipient, e.groupKey), (e.recipient, Identity(e.groupKey, e.eventId));
    (Put(groups, group, TransitionGroup(Get(groups, group), e)), Put(items, item, UpsertItem(Get(items, item), e)))
  }

  function DeliverAll(groups: map<(string, string), GroupRow>, items: map<ItemKey, ItemRow>, e: Event, recipients: seq<string>):
    (map<(string, string), GroupRow>, map<ItemKey, ItemRow>)
    decreases |recipients|
  {
    if recipients == [] then (groups, items)
    else
      var one := DeliverOne(groups, items, ArrivalOf(e, recipients[0]));
      DeliverAll(one.0, one.1, e, recipients[1..])
  }

  function InsertPlans(plans: map<PlanId, Plan>, values: seq<Plan>): Option<map<PlanId, Plan>>
    decreases |values|
  {
    if values == [] then Some(plans)
    else if values[0].id in plans then None
    else InsertPlans(plans[values[0].id := values[0]], values[1..])
  }

  function Addressed(plans: seq<Plan>, recipients: seq<string>): seq<Plan> {
    seq(|plans|, i requires 0 <= i < |plans| => plans[i].(body := plans[i].body.(recipients := recipients)))
  }

  /** One transaction: every recipient's rows, every plan row, and the event's end, or nothing. */
  function Materialize(t: Tables, seen: Event, recipients: seq<string>): (Tables, Result<()>) {
    var delivered := DeliverAll(t.groups, t.items, seen, recipients);
    var inserted := InsertPlans(t.plans, Addressed(seen.plans, recipients));
    if inserted.None? then (t, Err(Duplicate))
    else if seen.id !in t.events || !Holds(t.events[seen.id].lease, seen.lease) then (t, Err(LeaseLost))
    else
      var row := t.events[seen.id];
      (t.(events := t.events[seen.id := row.(lease := Released(row.lease, Ended("materialized"), 0, row.lease.nextAttemptAt, "", seen.lease.updatedAt))],
          groups := delivered.0, items := delivered.1, plans := inserted.value), Ok(()))
  }

  // ----- mailbox -----

  function AcknowledgeItem(t: Tables, recipient: string, identity: string, at: Time): (Tables, Result<()>) {
    var item := Get(t.items, (recipient, identity));
    if item.None? then (t, Err(NotFound))
    else
      var group := (recipient, item.value.groupKey);
      var done := Acknowledge(Get(t.groups, group), item, recipient, at);
      (t.(groups := Put(t.groups, group, done.0), items := Put(t.items, (recipient, identity), done.1)), done.2)
  }

  datatype Personal = Read(at: Option<Time>) | Archived(at: Option<Time>)

  function SetPersonal(t: Tables, recipient: string, identity: string, change: Personal, at: Time): Tables {
    if (recipient, identity) !in t.items then t
    else
      var i := t.items[(recipient, identity)];
      t.(items := t.items[(recipient, identity) :=
        match change
        case Read(v) => i.(readAt := v, updatedAt := at)
        case Archived(v) => i.(archivedAt := v, updatedAt := at)])
  }

  predicate MarksRead(i: ItemRow, key: ItemKey, recipient: string, listed: set<string>, at: Time) {
    key.0 == recipient && key.1 in listed && i.readAt.None? && i.updatedAt <= at
  }

  /** One UPDATE over the listed items of a recipient; items that moved after `at` stay unread. */
  function MarkAllRead(t: Tables, recipient: string, listed: set<string>, at: Time): Tables {
    t.(items := map key | key in t.items ::
      if MarksRead(t.items[key], key, recipient, listed, at) then t.items[key].(readAt := Some(at), updatedAt := at) else t.items[key])
  }

  // ----- the same transactions, column by column -----

  /** The stored row is processing under the owner and token that were read. */
  predicate Leased(events: map<string, Event>, seen: Event) {
    && seen.id in events && events[seen.id].lease.phase == Processing
    && events[seen.id].lease.owner == seen.lease.owner && events[seen.id].lease.token == seen.lease.token
  }

  /** A worker gives its row back or ends it: owner and expiry go, the token stays. */
  predicate LeaseEnds(l: Lease, l': Lease, to: Phase, failures: nat, next: Option<Time>, error: string, at: Time) {
    && l'.phase == to && l'.attempts == l.attempts + failures && l'.nextAttemptAt == next && l'.lastError == error
    && l'.owner == "" && l'.expires == None && l'.token == l.token && l'.updatedAt == at
  }

  predicate DistinctUsers(recipients: seq<string>) {
    forall i, j :: 0 <= i < j < |recipients| ==> recipients[i] != recipients[j]
  }

  /** Every plan of the snapshot is stored, addressed to the recipients and otherwise as it was compiled; no other plan moves. */
  ghost predicate PlansStored(before: map<PlanId, Plan>, values: seq<Plan>, recipients: seq<string>, plans: map<PlanId, Plan>) {
    && (forall i :: 0 <= i < |values| ==>
          && values[i].id in plans && plans[values[i].id].body.recipients == recipients
          && plans[values[i].id].(body := plans[values[i].id].body.(recipients := values[i].body.recipients)) == values[i])
    && (forall p :: p in before ==> p in plans && plans[p] == before[p])
    && (forall p :: p in plans && p !in before ==> exists i :: 0 <= i < |values| && values[i].id == p)
  }

  /** The event has arrived once in each recipient's group and item, and nobody else's rows have moved. */
  ghost predicate Reaches(groups: map<(string, string), GroupRow>, items: map<ItemKey, ItemRow>, e: Event, recipients: seq<string>,
                          groups': map<(string, string), GroupRow>, items': map<ItemKey, ItemRow>) {
    && (forall u :: u in recipients ==>
          var a := Arrival(u, e.body.groupKey, e.id, e.body.text, e.body.actionState, e.body.alertState, e.body.occurredAt, e.createdAt, e.lease.updatedAt);
          && GroupMoves(Get(groups, (u, e.body.groupKey)), a, Get(groups', (u, e.body.groupKey)))
          && ItemMoves(Get(items, (u, Identity(e.body.groupKey, e.id))), a, Get(items', (u, Identity(e.body.groupKey, e.id)))))
    && (forall key: (string, string) :: key.0 !in recipients || key.1 != e.body.groupKey ==> Get(groups', key) == Get(groups, key))
    && (forall key: ItemKey :: key.0 !in recipients || key.1 != Identity(e.body.groupKey, e.id) ==> Get(items', key) == Get(items, key))
  }

  /** No plan id twice, and none taken. */
  predicate NewIds(plans: map<PlanId, Plan>, values: seq<Plan>) {
    DistinctPlans(values) && forall i :: 0 <= i < |values| ==> values[i].id !in plans
  }

  lemma NewIdsStep(plans: map<PlanId, Plan>, values: seq<Plan>)
    requires values != []
    ensures NewIds(plans, values) <==> values[0].id !in plans && NewIds(plans[values[0].id := values[0]], values[1..])
  {
    var rest, more := values[1..], plans[values[0].id := values[0]];
    assert forall i :: 0 <= i < |rest| ==> rest[i] == values[i + 1];
    if values[0].id !in plans && NewIds(more, rest) {
      forall i, j | 0 <= i < j < |values| ensures values[i].id != values[j].id {
        assert rest[j - 1].id !in more;
        if i > 0 { assert rest[i - 1].id != rest[j - 1].id; }
      }
      forall i | 0 <= i < |values| ensures values[i].id !in plans {
        if i > 0 { assert rest[i - 1].id !in more; }
      }
    }
  }

  predicate Grown(r: map<PlanId, Plan>, plans: map<PlanId, Plan>, values: seq<Plan>) {
    && (forall p :: p in plans ==> p in r && r[p] == plans[p])
    && (forall i :: 0 <= i < |values| ==> values[i].id in r && r[values[i].id] == values[i])
    && (forall p :: p in r ==> p in plans || exists i :: 0 <= i < |values| && values[i].id == p)
  }

  lemma GrownStep(r: map<PlanId, Plan>, plans: map<PlanId, Plan>, values: seq<Plan>)
    requires values != [] && values[0].id !in plans && Grown(r, plans[values[0].id := values[0]], values[1..])
    ensures Grown(r, plans, values)
  {
    var rest, more := values[1..], plans[values[0].id := values[0]];
    forall i | 0 <= i < |values| ensures values[i].id in r && r[values[i].id] == values[i] {
      if i > 0 { assert r[rest[i - 1].id] == rest[i - 1]; } else { assert values[0].id in more; }
    }
    forall p | p in r ensures p in plans || exists i :: 0 <= i < |values| && values[i].id == p {
      if p !in more {
        var i :| 0 <= i < |rest| && rest[i].id == p;
        assert values[i + 1].id == p;
      } else if p !in plans {
        assert values[0].id == p;
      }
    }
  }

  lemma {:induction false} InsertedPlans(plans: map<PlanId, Plan>, values: seq<Plan>)
    ensures InsertPlans(plans, values).Some? <==> NewIds(plans, values)
    ensures InsertPlans(plans, values).Some? ==> Grown(InsertPlans(plans, values).value, plans, values)
    decreases |values|
  {
    if values != [] {
      hide NewIds, Grown;
      NewIdsStep(plans, values);
      if values[0].id !in plans {
        InsertedPlans(plans[values[0].id := values[0]], values[1..]);
        if InsertPlans(plans, values).Some? {
          GrownStep(InsertPlans(plans, values).value, plans, values);
        }
      }
    }
  }

  lemma AddressedStored(plans: map<PlanId, Plan>, values: seq<Plan>, recipients: seq<string>)
    ensures var stored := InsertPlans(plans, Addressed(values, recipients));
      && (stored.Some? <==> NewIds(plans, values))
      && (stored.Some? ==> PlansStored(plans, values, recipients, stored.value))
  {
    hide InsertPlans;
    var addressed := Addressed(values, recipients);
    InsertedPlans(plans, addressed);
    forall i | 0 <= i < |values|
      ensures addressed[i].id == values[i].id && addressed[i].body.recipients == recipients
      ensures addressed[i].(body := addressed[i].body.(recipients := values[i].body.recipients)) == values[i]
    {
    }
    assert DistinctPlans(addressed) <==> DistinctPlans(values);
  }

  /** One recipient's arrival leaves everybody else's rows alone. */
  lemma OneReached(groups: map<(string, string), GroupRow>, items: map<ItemKey, ItemRow>, a: Arrival)
    ensures var done := DeliverOne(groups, items, a); var group, item := (a.recipient, a.groupKey), (a.recipient, Identity(a.groupKey, a.eventId));
      && GroupMoves(Get(groups, group), a, Get(done.0, group)) && ItemMoves(Get(items, item), a, Get(done.1, item))
      && (forall key :: key != group ==> Get(done.0, key) == Get(groups, key))
      && (forall key :: key != item ==> Get(done.1, key) == Get(items, key))
  {
    hide GroupMoves, ItemMoves, TransitionGroup, UpsertItem;
    ArrivalMoves(Get(groups, (a.recipient, a.groupKey)), Get(items, (a.recipient, Identity(a.groupKey, a.eventId))), a);
    RowMoves(Get(groups, (a.recipient, a.groupKey)), Get(items, (a.recipient, Identity(a.groupKey, a.eventId))), a);
  }

  /** An arrival never takes a row away. */
  lemma RowMoves(group: Option<GroupRow>, item: Option<ItemRow>, e: Arrival)
    ensures TransitionGroup(group, e).None? ==> group.None?
    ensures UpsertItem(item, e).Some?
  {
  }

  lemma {:induction false} OthersUnreached(groups: map<(string, string), GroupRow>, items: map<ItemKey, ItemRow>, e: Event, recipients: seq<string>, user: string, at: string)
    ensures var done := DeliverAll(groups, items, e, recipients);
      && (user !in recipients || at != e.body.groupKey ==> Get(done.0, (user, at)) == Get(groups, (user, at)))
      && (user !in recipients || at != Identity(e.body.groupKey, e.id) ==> Get(done.1, (user, at)) == Get(items, (user, at)))
    decreases |recipients|
  {
    if recipients != [] {
      hide GroupMoves, ItemMoves, DeliverOne, Identity, Get;
      var a := ArrivalOf(e, recipients[0]);
      OneReached(groups, items, a);
      var one := DeliverOne(groups, items, a);
      OthersUnreached(one.0, one.1, e, recipients[1..], user, at);
    }
  }

  lemma {:induction false} UserReached(groups: map<(string, string), GroupRow>, items: map<ItemKey, ItemRow>, e: Event, recipients: seq<string>, i: nat)
    requires DistinctUsers(recipients) && i < |recipients|
    ensures var done := DeliverAll(groups, items, e, recipients); var a := ArrivalOf(e, recipients[i]);
      var group, item := (recipients[i], e.body.groupKey), (recipients[i], Identity(e.body.groupKey, e.id));
      GroupMoves(Get(groups, group), a, Get(done.0, group)) && ItemMoves(Get(items, item), a, Get(done.1, item))
    decreases |recipients|
  {
    hide GroupMoves, ItemMoves, DeliverOne, Identity, Get;
    var a := ArrivalOf(e, recipients[0]);
    OneReached(groups, items, a);
    var one := DeliverOne(groups, items, a);
    if i == 0 {
      assert recipients[0] !in recipients[1..];
      OthersUnreached(one.0, one.1, e, recipients[1..], recipients[0], e.body.groupKey);
      OthersUnreached(one.0, one.1, e, recipients[1..], recipients[0], Identity(e.body.groupKey, e.id));
    } else {
      UserReached(one.0, one.1, e, recipients[1..], i - 1);
      assert recipients[1..][i - 1] == recipients[i] != recipients[0];
    }
  }

  lemma EverybodyReached(groups: map<(string, string), GroupRow>, items: map<ItemKey, ItemRow>, e: Event, recipients: seq<string>)
    requires DistinctUsers(recipients)
    ensures var done := DeliverAll(groups, items, e, recipients); Reaches(groups, items, e, recipients, done.0, done.1)
  {
    hide GroupMoves, ItemMoves, DeliverAll, Identity, Get;
    forall u | u in recipients
      ensures var done := DeliverAll(groups, items, e, recipients); var a := ArrivalOf(e, u);
        && GroupMoves(Get(groups, (u, e.body.groupKey)), a, Get(done.0, (u, e.body.groupKey)))
        && ItemMoves(Get(items, (u, Identity(e.body.groupKey, e.id))), a, Get(done.1, (u, Identity(e.body.groupKey, e.id))))
    {
      var i :| 0 <= i < |recipients| && recipients[i] == u;
      UserReached(groups, items, e, recipients, i);
    }
    forall key: (string, string) { OthersUnreached(groups, items, e, recipients, key.0, key.1); }
  }

  // ----- the store object -----

  class EventStore {
    var events: map<string, Event>
    var failures: map<(string, nat), Failure>
    var groups: map<(string, string), GroupRow>
    var items: map<ItemKey, ItemRow>
    var plans: map<PlanId, Plan>

    function Contents(): Tables
      reads this
    {
      Tables(events, failures, groups, items, plans)
    }

    constructor ()
      ensures Contents() == EMPTY_TABLES
    {
      events, failures, groups, items, plans := map[], map[], map[], map[], map[];
    }

    /** Inserts a new event, or returns the stored one when the producer repeats itself. */
    method Enqueue(event: Event) returns (result: Result<(Event, bool)>)
      modifies this`events
      ensures Enqueued(old(Contents()), event, Contents(), result)
    {
      var existing := EventBySource(event.source, event.sourceEventId);
      if event.id !in events && existing.None? {
        events := events[event.id := event];
        return Ok((event, true));
      }
      match existing
      case None => return Err(Duplicate);
      case Some(stored) =>
        if !SameIngest(stored, event) {
          return Err(Conflict);
        }
        return Ok((stored, false));
    }

    method EventBySource(source: string, sourceEventId: string) returns (found: Option<Event>)
      ensures found.None? <==> !SourceTaken(Contents(), source, sourceEventId)
      ensures found.Some? ==> StoredUnder(Contents(), found.value, source, sourceEventId)
    {
      var rest := events.Keys;
      found := None;
      while rest != {}
        invariant rest <= events.Keys
        invariant found.Some? ==> StoredUnder(Contents(), found.value, source, sourceEventId)
        invariant found.None? ==> forall id :: id in events && id !in rest ==> events[id].source != source || events[id].sourceEventId != sourceEventId
        decreases rest
      {
        var id :| id in rest;
        if events[id].source == source && events[id].sourceEventId == sourceEventId {
          found := Some(events[id]);
        }
        rest := rest - {id};
      }
    }

    /** The claiming UPDATE; the row is read back by a later statement. */
    method Claim(id: string, owner: string, now: Time, expires: Time) returns (affected: bool)
      modifies this`events
      ensures Contents() == ClaimEvent(old(Contents()), id, owner, now, expires)
      ensures affected == Claimable(old(Contents()), id, owner, now)
      ensures affected <==>
                && id != "" && owner != "" && id in old(events)
                && var l := old(events)[id].lease;
                   || (l.phase == Queued && (l.nextAttemptAt == None || l.nextAttemptAt.value <= now))
                   || (l.phase == Processing && (l.expires == None || l.expires.value <= now))
    {
      if id == "" || owner == "" || id !in events || !Due(events[id].lease, now) {
        return false;
      }
      events := events[id := events[id].(lease := Claimed(events[id].lease, owner, now, expires))];
      return true;
    }

    method EventById(id: string) returns (found: Option<Event>)
      ensures found == Get(events, id)
    {
      found := if id in events then Some(events[id]) else None;
    }

    /** The guarded UPDATE and the failure row, or neither. */
    method TransitionFailure(seen: Event, to: Phase, stage: string, code: string, next: Option<Time>, at: Time) returns (result: Result<()>)
      modifies this`events, this`failures
      ensures (Contents(), result) == RecordFailure(old(Contents()), seen, to, stage, code, next, at)
      ensures result.Ok? <==>
                && stage in {"event_parse", "render", "audience_resolution", "materialization"} && FailureCode(code)
                && Leased(old(events), seen) && (seen.id, seen.lease.token) !in old(failures)
      ensures result.Ok? ==>
                && seen.id in events && LeaseEnds(old(events)[seen.id].lease, events[seen.id].lease, to, 1, next, code, at)
                && events == old(events)[seen.id := old(events)[seen.id].(lease := events[seen.id].lease)]
                && failures == old(failures)[(seen.id, seen.lease.token) := Failure(stage, code, seen.lease.attempts + 1, to.Ended?, next, at)]
    {
      if stage !in {"event_parse", "render", "audience_resolution", "materialization"} || !FailureCode(code) {
        return Err(Invalid);
      }
      if seen.id !in events || !Holds(events[seen.id].lease, seen.lease) {
        return Err(LeaseLost);
      }
      var row := events[seen.id];
      events := events[seen.id := row.(lease := Released(row.lease, to, 1, next, code, at))];
      if (seen.id, seen.lease.token) in failures {
        events := events[seen.id := row];
        assert events == old(events);
        return Err(Duplicate);
      }
      failures := failures[(seen.id, seen.lease.token) := Failure(stage, code, seen.lease.attempts + 1, to.Ended?, next, at)];
      return Ok(());
    }

    /** Every recipient's group and item, every plan row and the event's end; rolled back on any error. */
    method MaterializeEvent(seen: Event, recipients: seq<string>) returns (result: Result<()>)
      modifies this`events, this`groups, this`items, this`plans
      ensures (Contents(), result) == Materialize(old(Contents()), seen, recipients)
      ensures result.Ok? <==> Leased(old(events), seen) && NewIds(old(plans), seen.plans)
      ensures result.Err? ==> result.error == (if NewIds(old(plans), seen.plans) then LeaseLost else Duplicate) && Contents() == old(Contents())
      ensures result.Ok? ==> PlansStored(old(plans), seen.plans, recipients, plans)
      ensures result.Ok? && DistinctUsers(recipients) ==> Reaches(old(groups), old(items), seen, recipients, groups, items)
      ensures result.Ok? ==>
                && seen.id in events
                && LeaseEnds(old(events)[seen.id].lease, events[seen.id].lease, Ended("materialized"), 0,
                             old(events)[seen.id].lease.nextAttemptAt, "", seen.lease.updatedAt)
                && events == old(events)[seen.id := old(events)[seen.id].(lease := events[seen.id].lease)]
    {
      AddressedStored(plans, seen.plans, recipients);
      if DistinctUsers(recipients) {
        EverybodyReached(groups, items, seen, recipients);
      }
      var before := (groups, items, plans);
      DeliverItems(seen, recipients);
      var inserted := InsertChannelPlans(Addressed(seen.plans, recipients));
      if !inserted {
        groups, items, plans := before.0, before.1, before.2;
        return Err(Duplicate);
      }
      if seen.id !in events || !Holds(events[seen.id].lease, seen.lease) {
        groups, items, plans := before.0, before.1, before.2;
        return Err(LeaseLost);
      }
      var row := events[seen.id];
      events := events[seen.id := row.(lease :=
        Released(row.lease, Ended("materialized"), 0, row.lease.nextAttemptAt, "", seen.lease.updatedAt))];
      return Ok(());
    }

    method DeliverItems(seen: Event, recipients: seq<string>)
      modifies this`groups, this`items
      ensures (groups, items) == DeliverAll(old(groups), old(items), seen, recipients)
    {
      for i := 0 to |recipients|
        invariant DeliverAll(groups, items, seen, recipients[i..]) == DeliverAll(old(groups), old(items), seen, recipients)
      {
        assert recipients[i..][1..] == recipients[i + 1..];
        var e := ArrivalOf(seen, recipients[i]);
        TransitionAlertGroup(e);
        UpsertInboxItem(e);
      }
    }

    /** A conditional UPDATE; when it touches nothing, a lookup decides whether to insert. */
    method TransitionAlertGroup(e: Arrival)
      modifies this`groups
      ensures groups == Put(old(groups), (e.recipient, e.groupKey), TransitionGroup(Get(old(groups), (e.recipient, e.groupKey)), e))
      ensures var key := (e.recipient, e.groupKey);
        GroupMoves(Get(old(groups), key), e, Get(groups, key)) && forall other :: other in old(groups).Keys + groups.Keys && other != key ==> Get(groups, other) == Get(old(groups), other)
    {
      if e.alertState.NoAlert? {
        return;
      }
      var key := (e.recipient, e.groupKey);
      var resolvedAt, increment := None, 0;
      if e.alertState.Resolved? {
        resolvedAt := Some(e.at);
      }
      if e.alertState.Firing? {
        increment := 1;
      }
      if key in groups && groups[key].last <= e.at {
        var g := groups[key];
        groups := groups[key := g.(state := e.alertState, count := g.count + increment, last := e.at, acknowledgedAt := None,
                                   acknowledgedBy := "", resolvedAt := resolvedAt, lastEvent := e.eventId, updatedAt := e.updatedAt)];
        return;
      }
      if key in groups {
        assert groups[key := groups[key]] == groups;
        return;
      }
      groups := groups[key := GroupRow(e.alertState, increment, e.at, e.at, None, "", resolvedAt, e.eventId, e.updatedAt)];
    }

    method UpsertInboxItem(e: Arrival)
      modifies this`items
      ensures var key := (e.recipient, Identity(e.groupKey, e.eventId)); items == Put(old(items), key, UpsertItem(Get(old(items), key), e))
      ensures var key := (e.recipient, if e.groupKey == "" then e.eventId else "group:" + e.groupKey);
        ItemMoves(Get(old(items), key), e, Get(items, key)) && forall other :: other in old(items).Keys + items.Keys && other != key ==> Get(items, other) == Get(old(items), other)
    {
      var key := (e.recipient, Identity(e.groupKey, e.eventId));
      var increment := 1;
      if e.alertState.Resolved? {
        increment := 0;
      }
      if key in items && items[key].last <= e.at {
        var i := items[key];
        items := items[key := i.(eventId := e.eventId, body := e.body, actionState := e.actionState, alertState := e.alertState,
                                 count := i.count + increment, last := e.at, updatedAt := e.updatedAt)];
        return;
      }
      if key in items {
        assert items[key := items[key]] == items;
        return;
      }
      items := items[key := ItemRow(e.recipient, e.groupKey, e.eventId, e.body, e.actionState, e.alertState, 1, e.at, e.at, None, None,
                                    e.createdAt, e.updatedAt)];
    }

    /** Stops at the first rejected insert; the caller rolls back. */
    method InsertChannelPlans(values: seq<Plan>) returns (inserted: bool)
      modifies this`plans
      ensures inserted <==> InsertPlans(old(plans), values).Some?
      ensures inserted ==> plans == InsertPlans(old(plans), values).value
    {
      for i := 0 to |values|
        invariant InsertPlans(plans, values[i..]) == InsertPlans(old(plans), values)
      {
        assert values[i..][1..] == values[i + 1..];
        if values[i].id in plans {
          return false;
        }
        plans := plans[values[i].id := values[i]];
      }
      return true;
    }

    /** The group's guarded UPDATE and then the item's, or neither. */
    method AcknowledgeAlert(recipient: string, identity: string, at: Time) returns (result: Result<()>)
      modifies this`groups, this`items
      ensures (Contents(), result) == AcknowledgeItem(old(Contents()), recipient, identity, at)
      ensures (recipient, identity) !in old(items) <==> result == Err(NotFound)
      ensures (recipient, identity) in old(items) ==>
                var i := old(items)[(recipient, identity)]; var key := (recipient, i.groupKey);
                && (result == Err(Invalid) <==> i.groupKey == "" || i.alertState in {NoAlert, Resolved})
                && (result == Err(Conflict) <==> i.groupKey != "" && i.alertState == Firing && !(key in old(groups) && old(groups)[key].state == Firing))
                && (result.Ok? && i.alertState == Firing ==>
                      && items == old(items)[(recipient, identity) := i.(alertState := Acknowledged, updatedAt := at)]
                      && groups == old(groups)[key := old(groups)[key].(state := Acknowledged, acknowledgedAt := Some(at),
                                                                        acknowledgedBy := recipient, updatedAt := at)])
      ensures result.Err? || old(items)[(recipient, identity)].alertState == Acknowledged ==> items == old(items) && groups == old(groups)
    {
      var key := (recipient, identity);
      if key !in items {
        return Err(NotFound);
      }
      var i := items[key];
      var group := (recipient, i.groupKey);
      assert items[key := i] == items && (group in groups ==> groups[group := groups[group]] == groups);
      if i.groupKey == "" || i.alertState.NoAlert? || i.alertState.Resolved? {
        return Err(Invalid);
      }
      if !i.alertState.Acknowledged? {
        if group !in groups || !groups[group].state.Firing? {
          return Err(Conflict);
        }
        groups := groups[group := groups[group].(state := Acknowledged, acknowledgedAt := Some(at), acknowledgedBy := recipient, updatedAt := at)];
        items := items[key := i.(alertState := Acknowledged, updatedAt := at)];
      }
      return Ok(());
    }

    method UpdatePersonalState(recipient: string, identity: string, change: Personal, at: Time) returns (result: Result<()>)
      modifies this`items
      ensures Contents() == SetPersonal(old(Contents()), recipient, identity, change, at)
      ensures result == if (recipient, identity) in old(items) then Ok(()) else Err(NotFound)
      ensures result.Ok? ==>
                var i := old(items)[(recipient, identity)];
                items == old(items)[(recipient, identity) :=
                  if change.Read? then i.(readAt := change.at, updatedAt := at) else i.(archivedAt := change.at, updatedAt := at)]
    {
      var key := (recipient, identity);
      if key !in items {
        return Err(NotFound);
      }
      match change {
        case Read(v) => items := items[key := items[key].(readAt := v, updatedAt := at)];
        case Archived(v) => items := items[key := items[key].(archivedAt := v, updatedAt := at)];
      }
      return Ok(());
    }

    method MarkAllItemsRead(recipient: string, listed: set<string>, at: Time) returns (affected: nat)
      modifies this`items
      ensures Contents() == MarkAllRead(old(Contents()), recipient, listed, at)
      ensures affected == |set key | key in old(items) && MarksRead(old(items)[key], key, recipient, listed, at)|
      ensures items.Keys == old(items).Keys
      ensures forall key :: key in items ==>
                var i := old(items)[key];
                items[key] == if key.0 == recipient && key.1 in listed && i.readAt == None && i.updatedAt <= at
                              then i.(readAt := Some(at), updatedAt := at) else i
    {
      var rest := items.Keys;
      affected := 0;
      ghost var done: set<ItemKey> := {};
      while rest != {}
        invariant rest <= items.Keys && items.Keys == old(items).Keys && affected == |done|
        invariant forall key :: key in done <==> key in old(items) && key !in rest && MarksRead(old(items)[key], key, recipient, listed, at)
        invariant forall key :: key in items ==>
          items[key] == if key in done then old(items)[key].(readAt := Some(at), updatedAt := at) else old(items)[key]
        decreases rest
      {
        var key :| key in rest;
        rest := rest - {key};
        var i := items[key];
        if key.0 == recipient && key.1 in listed && i.readAt.None? && i.updatedAt <= at {
          items := items[key := i.(readAt := Some(at), updatedAt := at)];
          affected := affected + 1;
          done := done + {key};
        }
      }
      assert done == set key | key in old(items) && MarksRead(old(items)[key], key, recipient, listed, at);
    }
  }
}
