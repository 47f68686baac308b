/** What the event queue keeps over every interleaving, lease expiry, mailbox action, crash and purge. */
module EventSafety {
  import opened Prelude
  import opened Leases
  import opened AlertFolding
  import opened EventTables
  import opened EventMachine

  // ----- snapshots, spent tokens and logs while the event table evolves -----

  lemma EvolvesKeepsSeen(events: Events, births: map<string, nat>, events': Events, births': map<string, nat>, seen: Event, birth: nat)
    requires Evolves(events, births, events', births') && SeenOk(events, births, seen, birth)
    ensures SeenOk(events', births', seen, birth)
  {
    hide PlansOf, AlertDiscipline;
    assert BirthOf(births, seen.id) <= BirthOf(births', seen.id);
    if seen.id in events' && birth == BirthOf(births', seen.id) {
      EvolvesTransitively(seen.lease, events[seen.id].lease, events'[seen.id].lease);
    }
  }

  lemma EvolvesKeepsWorkers(events: Events, births: map<string, nat>, events': Events, births': map<string, nat>, workers: map<nat, Local>)
    requires Evolves(events, births, events', births') && WorkersOk(events, births, workers)
    ensures WorkersOk(events', births', workers)
  {
    hide Evolves, SeenOk;
    forall w | w in workers ensures LocalOk(events', births', workers[w]) {
      assert LocalOk(events, births, workers[w]);
      if workers[w].Holding? {
        EvolvesKeepsSeen(events, births, events', births', workers[w].seen, workers[w].birth);
      }
    }
  }

  lemma EvolvesKeepsSpent(events: Events, births: map<string, nat>, events': Events, births': map<string, nat>, id: string, birth: nat, token: nat)
    requires Evolves(events, births, events', births') && Spent(events, births, id, birth, token)
    ensures Spent(events', births', id, birth, token)
  {
    assert BirthOf(births, id) <= BirthOf(births', id);
  }

  lemma EvolvesKeepsEnded(events: Events, births: map<string, nat>, events': Events, births': map<string, nat>, ended: seq<(string, nat, nat)>)
    requires Evolves(events, births, events', births') && EndedOk(events, births, ended)
    ensures EndedOk(events', births', ended)
  {
    hide Evolves, Spent;
    forall i | 0 <= i < |ended| ensures Spent(events', births', ended[i].0, ended[i].1, ended[i].2) {
      EvolvesKeepsSpent(events, births, events', births', ended[i].0, ended[i].1, ended[i].2);
    }
  }

  /** Rows that kept their insertion kept their attempts; rows of a new insertion have none. */
  predicate SameAttempts(events: Events, births: map<string, nat>, events': Events, births': map<string, nat>) {
    forall id :: id in events' ==>
      if id in events && BirthOf(births', id) == BirthOf(births, id) then events'[id].lease.attempts == events[id].lease.attempts
      else BirthOf(births', id) > BirthOf(births, id) && events'[id].lease.attempts == 0
  }

  lemma EvolvesKeepsLogs(events: Events, births: map<string, nat>, events': Events, births': map<string, nat>, crossed: set<(string, nat)>,
                         recorded: map<(string, nat, nat), nat>)
    requires Evolves(events, births, events', births') && SameAttempts(events, births, events', births')
    requires LogsOk(events, births, crossed, recorded)
    ensures LogsOk(events', births', crossed, recorded)
  {
    hide Evolves, FailureLog;
    forall full | full in recorded ensures Spent(events', births', full.0, full.1, full.2) {
      assert Spent(events, births, full.0, full.1, full.2);
      hide Spent;
      EvolvesKeepsSpent(events, births, events', births', full.0, full.1, full.2);
    }
    forall id | id in events' && (id, BirthOf(births', id)) !in crossed
      ensures FailureLog(recorded, id, BirthOf(births', id), events'[id].lease.attempts)
    {
      if !(id in events && BirthOf(births', id) == BirthOf(births, id)) {
        assert forall full :: full in recorded ==> full.1 <= BirthOf(births, full.0);
        assert forall k :: (id, BirthOf(births', id), k) in recorded ==> (id, BirthOf(births', id), k).1 <= BirthOf(births, id);
        NothingLogged(recorded, id, BirthOf(births', id));
      }
    }
  }

  lemma NothingLogged(recorded: map<(string, nat, nat), nat>, id: string, birth: nat)
    requires forall k :: (id, birth, k) !in recorded
    ensures FailureLog(recorded, id, birth, 0)
  {
  }

  /** No row became materialized. */
  predicate NoneMaterialized(events: Events, births: map<string, nat>, events': Events, births': map<string, nat>) {
    forall id :: id in events' && MaterializedRow(events', id) ==> MaterializedRow(events, id) && BirthOf(births', id) == BirthOf(births, id)
  }

  lemma EvolvesKeepsPlans(events: Events, births: map<string, nat>, events': Events, births': map<string, nat>,
                          plans: map<PlanId, Plan>, crossed: set<(string, nat)>, ph: PlanHistory)
    requires Evolves(events, births, events', births') && NoneMaterialized(events, births, events', births')
    requires PlansOk(events, plans, births, crossed, ph)
    ensures PlansOk(events', plans, births', crossed, ph)
  {
    hide Accounted;
    forall p | p in plans ensures PlanRowOk(events', births', plans[p], p, ph.births[p]) {
      assert PlanRowOk(events, births, plans[p], p, ph.births[p]);
      StillMaterialized(events, births, events', births', p.event, ph.births[p]);
    }
    forall gone | gone in ph.purged
      ensures gone.1 <= BirthOf(births', gone.0.event)
      ensures gone.0.event in events' && gone.1 == BirthOf(births', gone.0.event) ==> MaterializedRow(events', gone.0.event)
    {
      StillMaterialized(events, births, events', births', gone.0.event, gone.1);
    }
    forall id, i | id in events' && MaterializedRow(events', id) && (id, BirthOf(births', id)) !in crossed && 0 <= i < |events'[id].plans|
      ensures Accounted(plans, ph, events'[id].plans[i].id, BirthOf(births', id))
    {
      assert events'[id].plans == events[id].plans;
      assert Accounted(plans, ph, events[id].plans[i].id, BirthOf(births, id));
    }
  }

  lemma StillMaterialized(events: Events, births: map<string, nat>, events': Events, births': map<string, nat>, id: string, birth: nat)
    requires Evolves(events, births, events', births') && birth <= BirthOf(births, id)
    requires id in events && birth == BirthOf(births, id) ==> MaterializedRow(events, id)
    ensures birth <= BirthOf(births', id)
    ensures id in events' && birth == BirthOf(births', id) ==> MaterializedRow(events', id)
  {
    assert BirthOf(births, id) <= BirthOf(births', id);
  }

  lemma EvolvesReflexively(events: Events, births: map<string, nat>)
    ensures Evolves(events, births, events, births)
  {
  }

  lemma TableEvolvesTransitively(e: Events, b: map<string, nat>, e': Events, b': map<string, nat>, e'': Events, b'': map<string, nat>)
    requires Evolves(e, b, e', b') && Evolves(e', b', e'', b'')
    ensures Evolves(e, b, e'', b'')
  {
    hide LeaseEvolves;
    forall id ensures BirthOf(b, id) <= BirthOf(b', id) <= BirthOf(b'', id) {
    }
    forall id | id in e'' && BirthOf(b'', id) == BirthOf(b, id)
      ensures id in e && LeaseEvolves(e[id].lease, e''[id].lease) && e''[id] == e[id].(lease := e''[id].lease)
    {
      assert BirthOf(b', id) == BirthOf(b, id);
      EvolvesTransitively(e[id].lease, e'[id].lease, e''[id].lease);
    }
  }

  // ----- a change of one row's lease -----

  /** Only `id`'s lease differs between the two event tables. */
  predicate OnlyLease(events: Events, events': Events, id: string) {
    && id in events && id in events'
    && events' == events[id := events[id].(lease := events'[id].lease)]
    && LeaseOk(events'[id].lease) && LeaseEvolves(events[id].lease, events'[id].lease)
    && (events'[id].lease.phase.Ended? ==> events'[id].lease.phase.how == "materialized" || events'[id].lease.phase.how == "failed")
  }

  lemma LeaseIrrelevant(e: Event, l: Lease)
    ensures PlansOf(e.(lease := l)) == PlansOf(e) && AlertDiscipline(e.(lease := l)) == AlertDiscipline(e)
  {
  }

  lemma LeaseChangeKeepsEvents(events: Events, events': Events, births: map<string, nat>, id: string)
    requires EventsOk(events, births) && OnlyLease(events, events', id)
    ensures EventsOk(events', births) && Evolves(events, births, events', births)
  {
    hide LeaseEvolves, LeaseOk, GroupIdentity, PlansOf, AlertDiscipline;
    LeaseIrrelevant(events[id], events'[id].lease);
    assert EventRowOk(events[id], id);
    LeaseChangeEvolves(events, events', births, id);
  }

  lemma LeaseChangeEvolves(events: Events, events': Events, births: map<string, nat>, id: string)
    requires OnlyLease(events, events', id)
    ensures Evolves(events, births, events', births)
  {
    hide LeaseOk;
  }

  lemma LeaseChangeKeepsTaken(events: Events, events': Events, id: string, created: multiset<(string, string)>, purged: multiset<(string, string)>)
    requires OnlyLease(events, events', id) && CreatedOk(events, created, purged)
    ensures CreatedOk(events', created, purged)
  {
    hide LeaseOk, LeaseEvolves;
    forall s: (string, string) ensures TakenIn(events', s.0, s.1) == TakenIn(events, s.0, s.1) {
      if TakenIn(events, s.0, s.1) {
        var x :| x in events && events[x].source == s.0 && events[x].sourceEventId == s.1;
        assert x in events' && events'[x].source == s.0 && events'[x].sourceEventId == s.1;
      }
      if TakenIn(events', s.0, s.1) {
        var x :| x in events' && events'[x].source == s.0 && events'[x].sourceEventId == s.1;
        assert x in events && events[x].source == s.0 && events[x].sourceEventId == s.1;
      }
    }
  }

  // ----- produce -----

  lemma ProducedRows(events: Events, births: map<string, nat>, event: Event)
    requires EventsOk(events, births) && Compiled(event) && event.id !in events && !TakenIn(events, event.source, event.sourceEventId)
    ensures var events', births' := events[event.id := event], births[event.id := BirthOf(births, event.id) + 1];
      && EventsOk(events', births') && Evolves(events, births, events', births')
      && SameAttempts(events, births, events', births') && NoneMaterialized(events, births, events', births')
  {
    hide PlansOf, GroupIdentity;
    var events', births' := events[event.id := event], births[event.id := BirthOf(births, event.id) + 1];
    forall a, b | a in events' && b in events' && a != b ensures SourceOf(events'[a]) != SourceOf(events'[b]) {
      if a in events { assert events'[a] == events[a]; }
      if b in events { assert events'[b] == events[b]; }
    }
  }

  lemma ProducedTaken(events: Events, event: Event, created: multiset<(string, string)>, purged: multiset<(string, string)>)
    requires CreatedOk(events, created, purged) && event.id !in events && !TakenIn(events, event.source, event.sourceEventId)
    ensures CreatedOk(events[event.id := event], created + multiset{SourceOf(event)}, purged)
  {
    var events' := events[event.id := event];
    assert events'[event.id] == event;
    forall s: (string, string) ensures TakenIn(events', s.0, s.1) == (TakenIn(events, s.0, s.1) || s == SourceOf(event)) {
      if TakenIn(events, s.0, s.1) {
        var x :| x in events && events[x].source == s.0 && events[x].sourceEventId == s.1;
        assert x in events' && events'[x] == events[x];
      }
    }
  }

  lemma ProduceKeeps(g: Global, event: Event)
    requires Inv(g)
    ensures Inv(Step(g, Produce(event))) && StepEvolves(g, Produce(event))
  {
    hide EventsOk, FailureRowsOk, LogsOk, PlansOk, MailboxOk, ArrivalsOk, WorkersOk, EndedOk, CreatedOk, Evolves, Compiled, TakenIn, SameAttempts, NoneMaterialized;
    var t, h := g.tables, g.history;
    EvolvesReflexively(t.events, h.births);
    if Compiled(event) && event.id !in t.events && !SourceTaken(t, event.source, event.sourceEventId) {
      var events', births' := t.events[event.id := event], h.births[event.id := BirthOf(h.births, event.id) + 1];
      ProducedRows(t.events, h.births, event);
      ProducedTaken(t.events, event, h.created, h.purged);
      EvolvesKeepsWorkers(t.events, h.births, events', births', g.workers);
      EvolvesKeepsEnded(t.events, h.births, events', births', h.ended);
      EvolvesKeepsLogs(t.events, h.births, events', births', h.crossed, h.failures.recorded);
      EvolvesKeepsPlans(t.events, h.births, events', births', t.plans, h.crossed, h.plans);
    }
  }

  predicate StepEvolves(g: Global, a: Action) {
    Evolves(g.tables.events, g.history.births, Step(g, a).tables.events, Step(g, a).history.births)
  }

  // ----- claim, read back, crash -----

  lemma ClaimedRow(events: Events, births: map<string, nat>, id: string, owner: string, now: Time, expires: Time)
    requires EventsOk(events, births) && id in events && owner != "" && Due(events[id].lease, now)
    ensures var events' := events[id := events[id].(lease := Leases.Claimed(events[id].lease, owner, now, expires))];
      OnlyLease(events, events', id) && SameAttempts(events, births, events', births) && NoneMaterialized(events, births, events', births)
  {
    hide PlansOf, AlertDiscipline, GroupIdentity, SourcesUnique;
    assert EventRowOk(events[id], id);
    ClaimKeepsLease(events[id].lease, owner, now, expires);
  }

  /** A lease change that leaves attempts alone and materializes nothing keeps everything but the claiming worker. */
  lemma QuietLeaseChangeKeeps(g: Global, events': Events, id: string)
    requires Inv(g) && OnlyLease(g.tables.events, events', id)
    requires SameAttempts(g.tables.events, g.history.births, events', g.history.births)
    requires NoneMaterialized(g.tables.events, g.history.births, events', g.history.births)
    ensures Inv(g.(tables := g.tables.(events := events')))
    ensures Evolves(g.tables.events, g.history.births, events', g.history.births)
  {
    hide EventsOk, FailureRowsOk, LogsOk, PlansOk, MailboxOk, ArrivalsOk, WorkersOk, EndedOk, CreatedOk, Evolves, OnlyLease, SameAttempts, NoneMaterialized;
    var t, h := g.tables, g.history;
    LeaseChangeKeepsEvents(t.events, events', h.births, id);
    LeaseChangeKeepsTaken(t.events, events', id, h.created, h.purged);
    EvolvesKeepsWorkers(t.events, h.births, events', h.births, g.workers);
    EvolvesKeepsEnded(t.events, h.births, events', h.births, h.ended);
    EvolvesKeepsLogs(t.events, h.births, events', h.births, h.crossed, h.failures.recorded);
    EvolvesKeepsPlans(t.events, h.births, events', h.births, t.plans, h.crossed, h.plans);
  }

  lemma WorkerKeeps(g: Global, w: nat, l: Local)
    requires Inv(g) && LocalOk(g.tables.events, g.history.births, l)
    ensures Inv(g.(workers := g.workers[w := l]))
  {
    hide EventsOk, FailureRowsOk, LogsOk, PlansOk, MailboxOk, ArrivalsOk, EndedOk, CreatedOk, LocalOk;
  }

  lemma ClaimKeeps(g: Global, w: nat, id: string, owner: string, now: Time, expires: Time)
    requires Inv(g)
    ensures Inv(Step(g, Action.Claim(w, id, owner, now, expires))) && StepEvolves(g, Action.Claim(w, id, owner, now, expires))
  {
    hide EventsOk, FailureRowsOk, LogsOk, PlansOk, MailboxOk, ArrivalsOk, WorkersOk, EndedOk, CreatedOk, Evolves, OnlyLease, SameAttempts, NoneMaterialized, Due;
    var t := g.tables;
    EvolvesReflexively(t.events, g.history.births);
    if LocalOf(g, w).Idle? && Claimable(t, id, owner, now) {
      var events' := t.events[id := t.events[id].(lease := Leases.Claimed(t.events[id].lease, owner, now, expires))];
      ClaimedRow(t.events, g.history.births, id, owner, now, expires);
      QuietLeaseChangeKeeps(g, events', id);
      WorkerKeeps(g.(tables := t.(events := events')), w, Local.Claimed(id));
    }
  }

  lemma ReadBackKeeps(g: Global, w: nat)
    requires Inv(g)
    ensures Inv(Step(g, ReadBack(w)))
  {
    hide FailureRowsOk, LogsOk, PlansOk, MailboxOk, ArrivalsOk, WorkersOk, EndedOk, CreatedOk, SourcesUnique, PlansOf, AlertDiscipline, GroupIdentity, LeaseOk;
    var l := LocalOf(g, w);
    if l.Claimed? {
      if l.id in g.tables.events {
        assert EventRowOk(g.tables.events[l.id], l.id);
        WorkerKeeps(g, w, Holding(g.tables.events[l.id], BirthOf(g.history.births, l.id)));
      } else {
        WorkerKeeps(g, w, Idle);
      }
    }
  }

  lemma AddressedKeepsIds(e: Event, recipients: seq<string>)
    requires PlansOf(e)
    ensures var values := Addressed(e.plans, recipients);
      && |values| == |e.plans| && DistinctPlans(values)
      && forall i :: 0 <= i < |values| ==> values[i].id == e.plans[i].id && values[i].id.event == e.id && values[i].eventId == e.id
  {
  }

  // ----- delivering to mailboxes -----

  predicate Mail(e: Arrival) {
    && (e.groupKey == "" <==> e.alertState.NoAlert?) && !e.alertState.Acknowledged? && !GroupIdentity(e.eventId)
  }

  lemma {:induction false} GroupPrefixInjective(a: string, b: string)
    requires "group:" + a == "group:" + b
    ensures a == b
  {
    assert ("group:" + a)[6..] == a && ("group:" + b)[6..] == b;
  }

  lemma PairKeeps(r: Rows, op: Op, torn: bool)
    requires PairOk(r, torn) && AlertHistory([op]) && !op.DropItem? && !op.DropGroup?
    ensures PairOk(Next(r, op), torn)
  {
    NextKeepsWeakMirror(r, op);
    if !torn { NextKeepsMirror(r, op); }
  }

  type Groups = map<(string, string), GroupRow>
  type Items = map<ItemKey, ItemRow>

  /** What happens to the pair that one recipient's upserts touch. */
  lemma DeliverOnePair(groups: Groups, items: Items, e: Arrival, torn: bool)
    requires Mail(e) && e.groupKey != "" && PairOk(RowsIn(groups, items, e.recipient, e.groupKey), torn)
    ensures var one := DeliverOne(groups, items, e); PairOk(RowsIn(one.0, one.1, e.recipient, e.groupKey), torn)
  {
    var r := RowsIn(groups, items, e.recipient, e.groupKey);
    var one := DeliverOne(groups, items, e);
    assert RowsIn(one.0, one.1, e.recipient, e.groupKey) == Next(r, Op.Event(e));
    assert [Op.Event(e)][0].arrival == e;
    PairKeeps(r, Op.Event(e), torn);
  }

  lemma DeliverOneOtherPair(groups: Groups, items: Items, e: Arrival, r: string, k: string)
    requires Mail(e) && k != "" && (r != e.recipient || k != e.groupKey)
    ensures var one := DeliverOne(groups, items, e); RowsIn(one.0, one.1, r, k) == RowsIn(groups, items, r, k)
  {
    assert GroupIdentity("group:" + k);
    if e.groupKey != "" && "group:" + k == "group:" + e.groupKey { GroupPrefixInjective(k, e.groupKey); }
  }

  lemma DeliverOneShape(groups: Groups, items: Items, e: Arrival)
    requires Mail(e) && (forall key :: key in groups ==> key.1 != "") && forall key :: key in items ==> ItemShape(items[key], key)
    ensures var one := DeliverOne(groups, items, e);
      (forall key :: key in one.0 ==> key.1 != "") && forall key :: key in one.1 ==> ItemShape(one.1[key], key)
  {
    assert e.groupKey != "" ==> GroupIdentity("group:" + e.groupKey);
  }

  /** One recipient's pair of upserts keeps every pair of the workspace. */
  lemma DeliverOneKeepsMail(groups: Groups, items: Items, torn: set<(string, string)>, e: Arrival)
    requires MailboxOk(groups, items, torn) && Mail(e)
    ensures var one := DeliverOne(groups, items, e); MailboxOk(one.0, one.1, torn)
  {
    hide PairOk, RowsIn, DeliverOne, Mail, ItemShape;
    var one := DeliverOne(groups, items, e);
    DeliverOneShape(groups, items, e);
    forall r, k | k != "" ensures PairOk(RowsIn(one.0, one.1, r, k), (r, k) in torn) {
      assert PairOk(RowsIn(groups, items, r, k), (r, k) in torn);
      if r == e.recipient && k == e.groupKey {
        DeliverOnePair(groups, items, e, (r, k) in torn);
      } else {
        DeliverOneOtherPair(groups, items, e, r, k);
      }
    }
  }

  lemma {:induction false} DeliverAllKeepsMail(groups: Groups, items: Items, torn: set<(string, string)>, e: Event, recipients: seq<string>)
    requires MailboxOk(groups, items, torn) && AlertDiscipline(e)
    ensures var all := DeliverAll(groups, items, e, recipients); MailboxOk(all.0, all.1, torn)
    decreases |recipients|
  {
    if recipients != [] {
      hide MailboxOk;
      var one := DeliverOne(groups, items, ArrivalOf(e, recipients[0]));
      DeliverOneKeepsMail(groups, items, torn, ArrivalOf(e, recipients[0]));
      DeliverAllKeepsMail(one.0, one.1, torn, e, recipients[1..]);
    }
  }

  lemma WinnerOfMore(arrivals: seq<Arrival>, a: Arrival)
    ensures Winner(arrivals + [a]) == if arrivals == [] || Winner(arrivals).at <= a.at then a else Winner(arrivals)
  {
    assert (arrivals + [a])[..|arrivals|] == arrivals;
  }

  lemma DeliverOneArrives(groups: Groups, items: Items, arrivals: map<ItemKey, seq<Arrival>>, e: Arrival)
    requires ArrivalsOk(items, arrivals)
    ensures ArrivalsOk(DeliverOne(groups, items, e).1, Arrived(arrivals, e))
  {
    hide Winner;
    var key := (e.recipient, Identity(e.groupKey, e.eventId));
    var before := if key in arrivals then arrivals[key] else [];
    WinnerOfMore(before, e);
    if key in items { assert ItemFrom(items[key], key, arrivals[key]); }
  }

  lemma {:induction false} DeliverAllArrives(groups: Groups, items: Items, arrivals: map<ItemKey, seq<Arrival>>, e: Event, recipients: seq<string>)
    requires ArrivalsOk(items, arrivals)
    ensures ArrivalsOk(DeliverAll(groups, items, e, recipients).1, AllArrived(arrivals, e, recipients))
    decreases |recipients|
  {
    if recipients != [] {
      hide ArrivalsOk;
      var one := DeliverOne(groups, items, ArrivalOf(e, recipients[0]));
      DeliverOneArrives(groups, items, arrivals, ArrivalOf(e, recipients[0]));
      DeliverAllArrives(one.0, one.1, Arrived(arrivals, ArrivalOf(e, recipients[0])), e, recipients[1..]);
    }
  }

  // ----- materialize -----

  function StampPlans(ph: PlanHistory, before: map<PlanId, Plan>, after: map<PlanId, Plan>, now: nat): PlanHistory {
    ph.(births := map p | p in after :: if p in before && p in ph.births then ph.births[p] else now)
  }

  /** The plan table after a delivery that ended insertion `now` of event `id`. */
  predicate Delivered(events: Events, events': Events, plans: map<PlanId, Plan>, plans': map<PlanId, Plan>, id: string, values: seq<Plan>) {
    && id in events && events[id].lease.phase.Processing? && id in events' && MaterializedRow(events', id)
    && events' == events[id := events[id].(lease := events'[id].lease)]
    && Grown(plans', plans, values)
    && forall i :: 0 <= i < |values| ==> values[i].id.event == id && values[i].eventId == id && values[i].id !in plans
  }

  lemma DeliveredRows(events: Events, events': Events, plans: map<PlanId, Plan>, plans': map<PlanId, Plan>, id: string, values: seq<Plan>,
                      births: map<string, nat>, crossed: set<(string, nat)>, ph: PlanHistory, p: PlanId)
    requires Delivered(events, events', plans, plans', id, values) && PlansOk(events, plans, births, crossed, ph) && p in plans'
    requires BirthOf(births, id) >= 1
    ensures var ph' := StampPlans(ph, plans, plans', BirthOf(births, id)); PlanRowOk(events', births, plans'[p], p, ph'.births[p])
  {
    if p in plans {
      assert PlanRowOk(events, births, plans[p], p, ph.births[p]);
    } else {
      var i :| 0 <= i < |values| && values[i].id == p;
      assert plans'[values[i].id] == values[i];
    }
  }

  lemma DeliveredPurged(events: Events, events': Events, plans: map<PlanId, Plan>, plans': map<PlanId, Plan>, id: string, values: seq<Plan>,
                        births: map<string, nat>, crossed: set<(string, nat)>, ph: PlanHistory, gone: (PlanId, nat))
    requires Delivered(events, events', plans, plans', id, values) && PlansOk(events, plans, births, crossed, ph) && gone in ph.purged
    ensures var ph' := StampPlans(ph, plans, plans', BirthOf(births, id));
      && (gone.0.event in events' && gone.1 == BirthOf(births, gone.0.event) ==> MaterializedRow(events', gone.0.event))
      && (gone.0 in plans' ==> ph'.births[gone.0] != gone.1)
  {
    if gone.0 in plans' && gone.0 !in plans {
      var i :| 0 <= i < |values| && values[i].id == gone.0;
      assert gone.0.event == id;
    }
  }

  lemma DeliveredAccounted(events: Events, events': Events, plans: map<PlanId, Plan>, plans': map<PlanId, Plan>, id: string, values: seq<Plan>,
                           births: map<string, nat>, crossed: set<(string, nat)>, ph: PlanHistory, other: string, i: nat)
    requires Delivered(events, events', plans, plans', id, values) && PlansOk(events, plans, births, crossed, ph)
    requires other in events' && MaterializedRow(events', other) && (other, BirthOf(births, other)) !in crossed && i < |events'[other].plans|
    requires other == id ==> |values| == |events[id].plans| && forall j :: 0 <= j < |values| ==> values[j].id == events[id].plans[j].id
    ensures Accounted(plans', StampPlans(ph, plans, plans', BirthOf(births, id)), events'[other].plans[i].id, BirthOf(births, other))
  {
    if other == id {
      assert values[i].id in plans' && values[i].id !in plans;
    } else {
      assert events'[other] == events[other];
      assert Accounted(plans, ph, events[other].plans[i].id, BirthOf(births, other));
    }
  }

  lemma DeliveredPlansOk(events: Events, events': Events, plans: map<PlanId, Plan>, plans': map<PlanId, Plan>, id: string, values: seq<Plan>,
                         births: map<string, nat>, crossed: set<(string, nat)>, crossed': set<(string, nat)>, ph: PlanHistory)
    requires Delivered(events, events', plans, plans', id, values) && PlansOk(events, plans, births, crossed, ph)
    requires crossed <= crossed' && BirthOf(births, id) >= 1
    requires (id, BirthOf(births, id)) !in crossed' ==>
      |values| == |events[id].plans| && forall j :: 0 <= j < |values| ==> values[j].id == events[id].plans[j].id
    ensures PlansOk(events', plans', births, crossed', StampPlans(ph, plans, plans', BirthOf(births, id)))
  {
    hide Delivered, PlanRowOk, Accounted, Grown;
    var ph' := StampPlans(ph, plans, plans', BirthOf(births, id));
    forall p | p in plans' ensures PlanRowOk(events', births, plans'[p], p, ph'.births[p]) {
      DeliveredRows(events, events', plans, plans', id, values, births, crossed, ph, p);
    }
    forall gone | gone in ph'.purged
      ensures gone.0.event in events' && gone.1 == BirthOf(births, gone.0.event) ==> MaterializedRow(events', gone.0.event)
      ensures gone.0 in plans' ==> ph'.births[gone.0] != gone.1
    {
      DeliveredPurged(events, events', plans, plans', id, values, births, crossed, ph, gone);
    }
    forall other, i | other in events' && MaterializedRow(events', other) && (other, BirthOf(births, other)) !in crossed' && 0 <= i < |events'[other].plans|
      ensures Accounted(plans', ph', events'[other].plans[i].id, BirthOf(births, other))
    {
      DeliveredAccounted(events, events', plans, plans', id, values, births, crossed, ph, other, i);
    }
  }

  lemma StoredIsBorn(events: Events, births: map<string, nat>, id: string)
    requires EventsOk(events, births) && id in events
    ensures BirthOf(births, id) >= 1
  {
  }

  /** A held snapshot of the current insertion is the row itself. */
  lemma HolderIsTheRow(events: Events, births: map<string, nat>, seen: Event, birth: nat)
    requires SeenOk(events, births, seen, birth) && seen.id in events && Holds(events[seen.id].lease, seen.lease)
    ensures birth == BirthOf(births, seen.id) ==> seen == events[seen.id]
  {
    if birth == BirthOf(births, seen.id) {
      HolderSeesTheRow(seen.lease, events[seen.id].lease);
    }
  }

  /** Ending a claim spends its token on the current insertion. */
  lemma EndedExtends(events: Events, events': Events, births: map<string, nat>, ended: seq<(string, nat, nat)>, id: string)
    requires EndedOk(events, births, ended) && EndedOk(events', births, ended)
    requires id in events && events[id].lease.phase.Processing? && id in events'
    requires events'[id].lease.token == events[id].lease.token && !events'[id].lease.phase.Processing?
    ensures EndedOk(events', births, ended + [(id, BirthOf(births, id), events[id].lease.token)])
  {
    var end := (id, BirthOf(births, id), events[id].lease.token);
    var more := ended + [end];
    forall i, j | 0 <= i < j < |more| ensures more[i] != more[j] {
      assert Spent(events, births, ended[i].0, ended[i].1, ended[i].2);
    }
    forall i | 0 <= i < |more| ensures Spent(events', births, more[i].0, more[i].1, more[i].2) {
      if i < |ended| { assert Spent(events', births, ended[i].0, ended[i].1, ended[i].2); }
    }
  }

  lemma CrossedKeepsLogs(events: Events, births: map<string, nat>, crossed: set<(string, nat)>, crossed': set<(string, nat)>,
                         recorded: map<(string, nat, nat), nat>)
    requires LogsOk(events, births, crossed, recorded) && crossed <= crossed'
    ensures LogsOk(events, births, crossed', recorded)
  {
    hide Spent, FailureLog;
  }

  lemma DeliveredRow(t: Tables, births: map<string, nat>, seen: Event, birth: nat, recipients: seq<string>)
    requires EventsOk(t.events, births) && SeenOk(t.events, births, seen, birth) && Materialize(t, seen, recipients).1.Ok?
    ensures var t' := Materialize(t, seen, recipients).0; var id := seen.id;
      && id in t.events && t.events[id].lease.phase.Processing? && t.events[id].lease.token == seen.lease.token && t'.failures == t.failures
      && Holds(t.events[id].lease, seen.lease) && id in t'.events
      && OnlyLease(t.events, t'.events, id) && SameAttempts(t.events, births, t'.events, births)
      && t'.events[id].lease.token == seen.lease.token && !t'.events[id].lease.phase.Processing?
      && (t'.groups, t'.items) == DeliverAll(t.groups, t.items, seen, recipients)
      && Delivered(t.events, t'.events, t.plans, t'.plans, id, Addressed(seen.plans, recipients))
  {
    hide DeliverAll, InsertPlans, Addressed, PlansOf, AlertDiscipline, GroupIdentity, SourcesUnique;
    var id := seen.id;
    assert EventRowOk(t.events[id], id);
    var l := t.events[id].lease;
    ReleaseKeepsLease(l, Ended("materialized"), 0, l.nextAttemptAt, "", seen.lease.updatedAt);
    InsertedPlans(t.plans, Addressed(seen.plans, recipients));
    AddressedKeepsIds(seen, recipients);
  }

  lemma DeliverKeeps(g: Global, w: nat, recipients: seq<string>)
    requires Inv(g)
    ensures Inv(Step(g, Deliver(w, recipients))) && StepEvolves(g, Deliver(w, recipients))
  {
    hide EventsOk, FailureRowsOk, LogsOk, PlansOk, MailboxOk, ArrivalsOk, EndedOk, CreatedOk, Evolves, OnlyLease, SameAttempts, Delivered, SeenOk, Materialize, DeliverAll, AllArrived;
    var t, h, l := g.tables, g.history, LocalOf(g, w);
    EvolvesReflexively(t.events, h.births);
    if l.Holding? && Materialize(t, l.seen, recipients).1.Ok? {
      assert LocalOk(t.events, h.births, g.workers[w]);
      hide WorkersOk, LocalOk;
      var seen, t' := l.seen, Materialize(t, l.seen, recipients).0;
      var h' := DeliverHistory(h, seen, l.birth, recipients, t.plans, t'.plans);
      DeliveredRow(t, h.births, seen, l.birth, recipients);
      LeaseChangeKeepsEvents(t.events, t'.events, h.births, seen.id);
      LeaseChangeKeepsTaken(t.events, t'.events, seen.id, h.created, h.purged);
      EvolvesKeepsEnded(t.events, h.births, t'.events, h.births, h.ended);
      EndedExtends(t.events, t'.events, h.births, h.ended, seen.id);
      EvolvesKeepsLogs(t.events, h.births, t'.events, h.births, h.crossed, h.failures.recorded);
      CrossedKeepsLogs(t'.events, h.births, h.crossed, h'.crossed, h.failures.recorded);
      SeenMail(t.events, h.births, seen, l.birth);
      DeliverAllKeepsMail(t.groups, t.items, h.torn, seen, recipients);
      DeliverAllArrives(t.groups, t.items, h.arrivals, seen, recipients);
      StoredIsBorn(t.events, h.births, seen.id);
      DeliveredPlansKeep(t, t', h, seen, l.birth, recipients);
      EvolvesKeepsWorkers(t.events, h.births, t'.events, h.births, g.workers);
      DropKeepsWorkers(t'.events, h.births, g.workers, w);
    }
  }

  lemma SeenMail(events: Events, births: map<string, nat>, seen: Event, birth: nat)
    requires SeenOk(events, births, seen, birth)
    ensures AlertDiscipline(seen) && PlansOf(seen)
  {
  }

  lemma DropKeepsWorkers(events: Events, births: map<string, nat>, workers: map<nat, Local>, w: nat)
    requires WorkersOk(events, births, workers)
    ensures WorkersOk(events, births, workers[w := Idle])
  {
  }

  lemma DeliveredPlansKeep(t: Tables, t': Tables, h: History, seen: Event, birth: nat, recipients: seq<string>)
    requires PlansOk(t.events, t.plans, h.births, h.crossed, h.plans) && SeenOk(t.events, h.births, seen, birth)
    requires Delivered(t.events, t'.events, t.plans, t'.plans, seen.id, Addressed(seen.plans, recipients))
    requires seen.id in t.events && Holds(t.events[seen.id].lease, seen.lease) && BirthOf(h.births, seen.id) >= 1
    ensures var h' := DeliverHistory(h, seen, birth, recipients, t.plans, t'.plans); PlansOk(t'.events, t'.plans, h.births, h'.crossed, h'.plans)
  {
    hide Delivered, PlansOk, AllArrived, Addressed;
    HolderIsTheRow(t.events, h.births, seen, birth);
    AddressedKeepsIds(seen, recipients);
    var h' := DeliverHistory(h, seen, birth, recipients, t.plans, t'.plans);
    DeliveredPlansOk(t.events, t'.events, t.plans, t'.plans, seen.id, Addressed(seen.plans, recipients), h.births, h.crossed, h'.crossed, h.plans);
  }

  // ----- retry and fail -----

  lemma FailedRow(t: Tables, births: map<string, nat>, seen: Event, birth: nat, to: Phase, stage: string, code: string, next: Option<Time>, at: Time)
    requires EventsOk(t.events, births) && SeenOk(t.events, births, seen, birth) && (to.Queued? || to == Ended("failed"))
    requires RecordFailure(t, seen, to, stage, code, next, at).1.Ok?
    ensures var t' := RecordFailure(t, seen, to, stage, code, next, at).0; var id := seen.id;
      && id in t.events && t.events[id].lease.phase.Processing? && t.events[id].lease.token == seen.lease.token
      && Holds(t.events[id].lease, seen.lease) && id in t'.events && (id, seen.lease.token) !in t.failures
      && OnlyLease(t.events, t'.events, id) && NoneMaterialized(t.events, births, t'.events, births)
      && t'.events[id].lease.token == seen.lease.token && !t'.events[id].lease.phase.Processing?
      && t'.events[id].lease.attempts == t.events[id].lease.attempts + 1
      && t' == t.(events := t'.events, failures := t'.failures)
      && (id, seen.lease.token) in t'.failures && t'.failures[(id, seen.lease.token)].attempt == seen.lease.attempts + 1
      && t'.failures == t.failures[(id, seen.lease.token) := t'.failures[(id, seen.lease.token)]]
  {
    hide PlansOf, AlertDiscipline, GroupIdentity, SourcesUnique, FailureEvidence;
    var id := seen.id;
    assert EventRowOk(t.events[id], id);
    ReleaseKeepsLease(t.events[id].lease, to, 1, next, code, at);
  }

  lemma FailureExtendsLog(recorded: map<(string, nat, nat), nat>, id: string, birth: nat, attempts: nat, token: nat)
    requires FailureLog(recorded, id, birth, attempts) && (id, birth, token) !in recorded
    requires forall k :: (id, birth, k) in recorded ==> k < token
    ensures FailureLog(recorded[(id, birth, token) := attempts + 1], id, birth, attempts + 1)
  {
    var more := recorded[(id, birth, token) := attempts + 1];
    forall a | 1 <= a <= attempts + 1 ensures LoggedAs(more, id, birth, a) {
      if a <= attempts {
        assert LoggedAs(recorded, id, birth, a);
        var k :| (id, birth, k) in recorded && recorded[(id, birth, k)] == a;
        assert (id, birth, k) in more && more[(id, birth, k)] == a;
      } else {
        assert (id, birth, token) in more;
      }
    }
  }

  lemma OtherLogKept(recorded: map<(string, nat, nat), nat>, full: (string, nat, nat), attempt: nat, id: string, birth: nat, attempts: nat)
    requires FailureLog(recorded, id, birth, attempts) && (full.0 != id || full.1 != birth)
    ensures FailureLog(recorded[full := attempt], id, birth, attempts)
  {
    var more := recorded[full := attempt];
    forall a | 1 <= a <= attempts ensures LoggedAs(more, id, birth, a) {
      assert LoggedAs(recorded, id, birth, a);
      var k :| (id, birth, k) in recorded && recorded[(id, birth, k)] == a;
      assert (id, birth, k) in more;
    }
  }

  /** A processing row's token is not among the failures recorded for this insertion. */
  lemma HeldTokenUnrecorded(events: Events, births: map<string, nat>, crossed: set<(string, nat)>, recorded: map<(string, nat, nat), nat>, id: string)
    requires LogsOk(events, births, crossed, recorded) && id in events && events[id].lease.phase.Processing?
    ensures var now := BirthOf(births, id);
      (id, now, events[id].lease.token) !in recorded && forall k :: (id, now, k) in recorded ==> k < events[id].lease.token
  {
    hide FailureLog;
    forall k | (id, BirthOf(births, id), k) in recorded ensures k < events[id].lease.token {
      var full := (id, BirthOf(births, id), k);
      assert full in recorded && Spent(events, births, full.0, full.1, full.2);
    }
  }

  lemma FailedLogsOk(events: Events, events': Events, births: map<string, nat>, crossed: set<(string, nat)>, crossed': set<(string, nat)>,
                     recorded: map<(string, nat, nat), nat>, id: string, attempt: nat)
    requires LogsOk(events, births, crossed, recorded) && OnlyLease(events, events', id) && crossed <= crossed'
    requires events[id].lease.phase.Processing? && !events'[id].lease.phase.Processing? && events'[id].lease.token == events[id].lease.token
    requires events'[id].lease.attempts == events[id].lease.attempts + 1
    requires (id, BirthOf(births, id)) !in crossed' ==> attempt == events[id].lease.attempts + 1
    ensures LogsOk(events', births, crossed', recorded[(id, BirthOf(births, id), events[id].lease.token) := attempt])
  {
    hide FailureLog, LeaseOk;
    var full := (id, BirthOf(births, id), events[id].lease.token);
    var more := recorded[full := attempt];
    HeldTokenUnrecorded(events, births, crossed, recorded, id);
    forall key | key in more ensures Spent(events', births, key.0, key.1, key.2) {
      if key in recorded { assert Spent(events, births, key.0, key.1, key.2); }
    }
    forall other | other in events' && (other, BirthOf(births, other)) !in crossed'
      ensures FailureLog(more, other, BirthOf(births, other), events'[other].lease.attempts)
    {
      assert FailureLog(recorded, other, BirthOf(births, other), events[other].lease.attempts);
      if other == id {
        FailureExtendsLog(recorded, id, full.1, events[id].lease.attempts, full.2);
      } else {
        OtherLogKept(recorded, full, attempt, other, BirthOf(births, other), events[other].lease.attempts);
      }
    }
  }

  lemma FailedRowsOk(failures: map<(string, nat), Failure>, fh: FailureHistory, id: string, now: nat, token: nat, row: Failure)
    requires FailureRowsOk(failures, fh) && (id, token) !in failures && (id, now, token) !in fh.recorded && now >= 1
    ensures FailureRowsOk(failures[(id, token) := row], FailureHistory(fh.births[(id, token) := now], fh.recorded[(id, now, token) := row.attempt]))
  {
  }

  lemma GiveUpKeeps(g: Global, w: nat, to: Phase, stage: string, code: string, next: Option<Time>, at: Time)
    requires Inv(g)
    ensures Inv(Step(g, GiveUp(w, to, stage, code, next, at))) && StepEvolves(g, GiveUp(w, to, stage, code, next, at))
  {
    hide EventsOk, FailureRowsOk, LogsOk, PlansOk, MailboxOk, ArrivalsOk, EndedOk, CreatedOk, Evolves, OnlyLease, NoneMaterialized, SeenOk, RecordFailure;
    var t, h, l := g.tables, g.history, LocalOf(g, w);
    EvolvesReflexively(t.events, h.births);
    if l.Holding? && (to.Queued? || to == Ended("failed")) {
      assert LocalOk(t.events, h.births, g.workers[w]);
      RefusedKeepsTables(t, l.seen, to, stage, code, next, at);
      hide WorkersOk, LocalOk;
      var seen, t' := l.seen, RecordFailure(t, l.seen, to, stage, code, next, at).0;
      DropKeepsWorkers(t.events, h.births, g.workers, w);
      if RecordFailure(t, seen, to, stage, code, next, at).1.Ok? {
        var h' := FailureHistoryOf(h, seen, l.birth);
        FailedRow(t, h.births, seen, l.birth, to, stage, code, next, at);
        LeaseChangeKeepsEvents(t.events, t'.events, h.births, seen.id);
        LeaseChangeKeepsTaken(t.events, t'.events, seen.id, h.created, h.purged);
        EvolvesKeepsEnded(t.events, h.births, t'.events, h.births, h.ended);
        EndedExtends(t.events, t'.events, h.births, h.ended, seen.id);
        HolderIsTheRow(t.events, h.births, seen, l.birth);
        FailedLogsOk(t.events, t'.events, h.births, h.crossed, h'.crossed, h.failures.recorded, seen.id, seen.lease.attempts + 1);
        HeldTokenUnrecorded(t.events, h.births, h.crossed, h.failures.recorded, seen.id);
        StoredIsBorn(t.events, h.births, seen.id);
        FailedRowsOk(t.failures, h.failures, seen.id, BirthOf(h.births, seen.id), seen.lease.token, t'.failures[(seen.id, seen.lease.token)]);
        EvolvesKeepsPlans(t.events, h.births, t'.events, h.births, t.plans, h.crossed, h.plans);
        CrossedKeepsPlans(t'.events, t.plans, h.births, h.crossed, h'.crossed, h.plans);
        EvolvesKeepsWorkers(t.events, h.births, t'.events, h.births, g.workers);
        DropKeepsWorkers(t'.events, h.births, g.workers, w);
      }
    }
  }

  lemma RefusedKeepsTables(t: Tables, seen: Event, to: Phase, stage: string, code: string, next: Option<Time>, at: Time)
    ensures RecordFailure(t, seen, to, stage, code, next, at).1.Err? ==> RecordFailure(t, seen, to, stage, code, next, at).0 == t
  {
  }

  lemma CrossedKeepsPlans(events: Events, plans: map<PlanId, Plan>, births: map<string, nat>, crossed: set<(string, nat)>, crossed': set<(string, nat)>, ph: PlanHistory)
    requires PlansOk(events, plans, births, crossed, ph) && crossed <= crossed'
    ensures PlansOk(events, plans, births, crossed', ph)
  {
    hide PlanRowOk, Accounted;
  }

  // ----- mailbox actions -----

  /** A step that touches only groups, items and the pairs' history. */
  lemma MailStepKeeps(g: Global, groups: Groups, items: Items, torn: set<(string, string)>, arrivals: map<ItemKey, seq<Arrival>>)
    requires Inv(g) && MailboxOk(groups, items, torn) && ArrivalsOk(items, arrivals)
    ensures Inv(g.(tables := g.tables.(groups := groups, items := items), history := g.history.(torn := torn, arrivals := arrivals)))
  {
    hide EventsOk, FailureRowsOk, LogsOk, PlansOk, MailboxOk, ArrivalsOk, EndedOk, CreatedOk, WorkersOk;
  }

  lemma AcknowledgeKeepsArrivals(t: Tables, recipient: string, identity: string, at: Time, arrivals: map<ItemKey, seq<Arrival>>)
    requires ArrivalsOk(t.items, arrivals)
    ensures ArrivalsOk(AcknowledgeItem(t, recipient, identity, at).0.items, arrivals)
  {
    hide Winner;
    var key := (recipient, identity);
    if key in t.items { assert ItemFrom(t.items[key], key, arrivals[key]); }
  }

  lemma AcknowledgeKeepsOthers(t: Tables, recipient: string, groupKey: string, at: Time, r: string, k: string)
    requires (recipient, "group:" + groupKey) in t.items && t.items[(recipient, "group:" + groupKey)].groupKey == groupKey
    requires r != recipient || k != groupKey
    ensures RowsOf(AcknowledgeItem(t, recipient, "group:" + groupKey, at).0, r, k) == RowsOf(t, r, k)
  {
    if "group:" + k == "group:" + groupKey { GroupPrefixInjective(k, groupKey); }
  }

  lemma AcknowledgeKeepsShape(t: Tables, recipient: string, groupKey: string, at: Time)
    requires (recipient, "group:" + groupKey) in t.items && t.items[(recipient, "group:" + groupKey)].groupKey == groupKey
    ensures var t' := AcknowledgeItem(t, recipient, "group:" + groupKey, at).0;
      && t'.groups.Keys == t.groups.Keys && t'.items.Keys == t.items.Keys
      && forall key :: key in t.items ==> t'.items[key].recipient == t.items[key].recipient && t'.items[key].groupKey == t.items[key].groupKey
  {
  }

  lemma AcknowledgedPair(t: Tables, recipient: string, groupKey: string, at: Time, torn: bool)
    requires groupKey != "" && (recipient, "group:" + groupKey) in t.items && t.items[(recipient, "group:" + groupKey)].groupKey == groupKey
    requires PairOk(RowsOf(t, recipient, groupKey), torn)
    ensures PairOk(RowsOf(AcknowledgeItem(t, recipient, "group:" + groupKey, at).0, recipient, groupKey), torn)
  {
    var before := RowsOf(t, recipient, groupKey);
    PairKeeps(before, Ack(recipient, at), torn);
    assert RowsOf(AcknowledgeItem(t, recipient, "group:" + groupKey, at).0, recipient, groupKey) == Next(before, Ack(recipient, at));
  }

  lemma AcknowledgeKeepsMail(t: Tables, torn: set<(string, string)>, recipient: string, identity: string, at: Time)
    requires MailboxOk(t.groups, t.items, torn)
    ensures var t' := AcknowledgeItem(t, recipient, identity, at).0; MailboxOk(t'.groups, t'.items, torn)
  {
    hide AcknowledgeItem, PairOk, RowsIn;
    var key := (recipient, identity);
    if key in t.items && t.items[key].groupKey != "" {
      var groupKey := t.items[key].groupKey;
      assert ItemShape(t.items[key], key);
      AcknowledgeKeepsShape(t, recipient, groupKey, at);
      var t' := AcknowledgeItem(t, recipient, identity, at).0;
      forall r, k | k != "" ensures PairOk(RowsIn(t'.groups, t'.items, r, k), (r, k) in torn) {
        assert PairOk(RowsIn(t.groups, t.items, r, k), (r, k) in torn);
        AcknowledgeKeepsPair(t, recipient, groupKey, at, r, k, (r, k) in torn);
      }
    } else {
      NothingToAcknowledge(t, recipient, identity, at);
    }
  }

  lemma AcknowledgeKeepsPair(t: Tables, recipient: string, groupKey: string, at: Time, r: string, k: string, torn: bool)
    requires groupKey != "" && (recipient, "group:" + groupKey) in t.items && t.items[(recipient, "group:" + groupKey)].groupKey == groupKey
    requires PairOk(RowsIn(t.groups, t.items, r, k), torn)
    ensures var t' := AcknowledgeItem(t, recipient, "group:" + groupKey, at).0; PairOk(RowsIn(t'.groups, t'.items, r, k), torn)
  {
    hide AcknowledgeItem, PairOk, RowsIn;
    assert RowsIn(t.groups, t.items, r, k) == RowsOf(t, r, k);
    if r == recipient && k == groupKey {
      AcknowledgedPair(t, recipient, groupKey, at, torn);
    } else {
      AcknowledgeKeepsOthers(t, recipient, groupKey, at, r, k);
    }
  }

  lemma NothingToAcknowledge(t: Tables, recipient: string, identity: string, at: Time)
    requires (recipient, identity) in t.items ==> t.items[(recipient, identity)].groupKey == ""
    ensures AcknowledgeItem(t, recipient, identity, at).0 == t
  {
  }

  lemma AcknowledgeKeeps(g: Global, recipient: string, identity: string, at: Time)
    requires Inv(g)
    ensures Inv(Step(g, Action.Acknowledge(recipient, identity, at)))
  {
    var t' := AcknowledgeItem(g.tables, recipient, identity, at).0;
    assert t' == g.tables.(groups := t'.groups, items := t'.items);
    hide MailboxOk, ArrivalsOk, EventsOk, FailureRowsOk, LogsOk, PlansOk, WorkersOk, EndedOk, CreatedOk, AcknowledgeItem;
    AcknowledgeKeepsMail(g.tables, g.history.torn, recipient, identity, at);
    AcknowledgeKeepsArrivals(g.tables, recipient, identity, at, g.history.arrivals);
    MailStepKeeps(g, t'.groups, t'.items, g.history.torn, g.history.arrivals);
  }

  /** Items that differ only in their personal columns and `updated_at`. */
  predicate OnlyPersonal(items: Items, items': Items) {
    && items'.Keys == items.Keys
    && forall key :: key in items ==>
         items'[key] == items[key].(readAt := items'[key].readAt, archivedAt := items'[key].archivedAt, updatedAt := items'[key].updatedAt)
  }

  lemma PersonalKeepsPair(groups: Groups, items: Items, items': Items, r: string, k: string, torn: bool)
    requires OnlyPersonal(items, items') && PairOk(RowsIn(groups, items, r, k), torn)
    ensures PairOk(RowsIn(groups, items', r, k), torn)
  {
  }

  lemma PersonalKeepsMail(groups: Groups, items: Items, items': Items, torn: set<(string, string)>, arrivals: map<ItemKey, seq<Arrival>>)
    requires MailboxOk(groups, items, torn) && ArrivalsOk(items, arrivals) && OnlyPersonal(items, items')
    ensures MailboxOk(groups, items', torn) && ArrivalsOk(items', arrivals)
  {
    hide Winner, PairOk, RowsIn;
    forall r, k | k != "" ensures PairOk(RowsIn(groups, items', r, k), (r, k) in torn) {
      assert PairOk(RowsIn(groups, items, r, k), (r, k) in torn);
      PersonalKeepsPair(groups, items, items', r, k, (r, k) in torn);
    }
    forall key | key in items' ensures ItemFrom(items'[key], key, arrivals[key]) {
      assert ItemFrom(items[key], key, arrivals[key]);
    }
  }

  lemma PersonalKeeps(g: Global, items': Items)
    requires Inv(g) && OnlyPersonal(g.tables.items, items')
    ensures Inv(g.(tables := g.tables.(items := items')))
  {
    hide MailboxOk, ArrivalsOk, EventsOk, FailureRowsOk, LogsOk, PlansOk, WorkersOk, EndedOk, CreatedOk, OnlyPersonal;
    PersonalKeepsMail(g.tables.groups, g.tables.items, items', g.history.torn, g.history.arrivals);
    MailStepKeeps(g, g.tables.groups, items', g.history.torn, g.history.arrivals);
  }

  // ----- plan workers and purges -----

  lemma MovePlanKeeps(g: Global, plan: PlanId, lease: Lease, outbox: string)
    requires Inv(g)
    ensures Inv(Step(g, MovePlan(plan, lease, outbox)))
  {
    hide EventsOk, FailureRowsOk, LogsOk, MailboxOk, ArrivalsOk, EndedOk, CreatedOk, WorkersOk;
    if plan in g.tables.plans {
      MovedPlansOk(g.tables.events, g.tables.plans, g.history.births, g.history.crossed, g.history.plans, plan, lease, outbox);
    }
  }

  lemma MovedPlansOk(events: Events, plans: map<PlanId, Plan>, births: map<string, nat>, crossed: set<(string, nat)>, ph: PlanHistory,
                     plan: PlanId, lease: Lease, outbox: string)
    requires PlansOk(events, plans, births, crossed, ph) && plan in plans
    ensures PlansOk(events, plans[plan := plans[plan].(lease := lease, outboxMessageId := outbox)], births, crossed, ph)
  {
    var plans' := plans[plan := plans[plan].(lease := lease, outboxMessageId := outbox)];
    forall id, i | id in events && MaterializedRow(events, id) && (id, BirthOf(births, id)) !in crossed && 0 <= i < |events[id].plans|
      ensures Accounted(plans', ph, events[id].plans[i].id, BirthOf(births, id))
    {
      assert Accounted(plans, ph, events[id].plans[i].id, BirthOf(births, id));
    }
  }

  lemma PurgedRows(events: Events, births: map<string, nat>, id: string)
    requires EventsOk(events, births) && id in events
    ensures var events' := events - {id};
      && EventsOk(events', births) && Evolves(events, births, events', births)
      && SameAttempts(events, births, events', births) && NoneMaterialized(events, births, events', births)
  {
    hide EventRowOk;
  }

  lemma PurgedTaken(events: Events, id: string, created: multiset<(string, string)>, purged: multiset<(string, string)>)
    requires CreatedOk(events, created, purged) && SourcesUnique(events) && id in events
    ensures CreatedOk(events - {id}, created, purged + multiset{SourceOf(events[id])})
  {
    var events' := events - {id};
    forall s: (string, string) ensures TakenIn(events, s.0, s.1) == (TakenIn(events', s.0, s.1) || s == SourceOf(events[id])) {
      if TakenIn(events, s.0, s.1) && s != SourceOf(events[id]) {
        var x :| x in events && events[x].source == s.0 && events[x].sourceEventId == s.1;
        assert x in events';
      }
    }
    forall s: (string, string) ensures s == SourceOf(events[id]) ==> !TakenIn(events', s.0, s.1) {
      assert forall x :: x in events' ==> SourceOf(events[x]) != SourceOf(events[id]);
    }
  }

  lemma PurgeEventKeeps(g: Global, id: string)
    requires Inv(g)
    ensures Inv(Step(g, PurgeEvent(id))) && StepEvolves(g, PurgeEvent(id))
  {
    hide FailureRowsOk, LogsOk, PlansOk, MailboxOk, ArrivalsOk, WorkersOk, EndedOk, CreatedOk, Evolves, SameAttempts, NoneMaterialized, EventRowOk, SourcesUnique;
    var t, h := g.tables, g.history;
    EvolvesReflexively(t.events, h.births);
    if id in t.events {
      var events' := t.events - {id};
      PurgedRows(t.events, h.births, id);
      PurgedTaken(t.events, id, h.created, h.purged);
      EvolvesKeepsWorkers(t.events, h.births, events', h.births, g.workers);
      EvolvesKeepsEnded(t.events, h.births, events', h.births, h.ended);
      EvolvesKeepsLogs(t.events, h.births, events', h.births, h.crossed, h.failures.recorded);
      EvolvesKeepsPlans(t.events, h.births, events', h.births, t.plans, h.crossed, h.plans);
    }
  }

  lemma PurgedPlansOk(events: Events, plans: map<PlanId, Plan>, births: map<string, nat>, crossed: set<(string, nat)>, ph: PlanHistory, id: PlanId)
    requires PlansOk(events, plans, births, crossed, ph) && id in plans
    ensures PlansOk(events, plans - {id}, births, crossed, ph.(purged := ph.purged + {(id, ph.births[id])}))
  {
    var plans', ph' := plans - {id}, ph.(purged := ph.purged + {(id, ph.births[id])});
    assert PlanRowOk(events, births, plans[id], id, ph.births[id]);
    forall e, i | e in events && MaterializedRow(events, e) && (e, BirthOf(births, e)) !in crossed && 0 <= i < |events[e].plans|
      ensures Accounted(plans', ph', events[e].plans[i].id, BirthOf(births, e))
    {
      assert Accounted(plans, ph, events[e].plans[i].id, BirthOf(births, e));
    }
  }

  lemma PurgePlanKeeps(g: Global, id: PlanId)
    requires Inv(g)
    ensures Inv(Step(g, PurgePlan(id)))
  {
    hide EventsOk, FailureRowsOk, LogsOk, PlansOk, MailboxOk, ArrivalsOk, EndedOk, CreatedOk, WorkersOk;
    if id in g.tables.plans && id in g.history.plans.births {
      PurgedPlansOk(g.tables.events, g.tables.plans, g.history.births, g.history.crossed, g.history.plans, id);
    }
  }

  lemma PurgeFailureKeeps(g: Global, key: (string, nat))
    requires Inv(g)
    ensures Inv(Step(g, PurgeFailure(key)))
  {
    hide EventsOk, LogsOk, PlansOk, MailboxOk, ArrivalsOk, EndedOk, CreatedOk, WorkersOk;
  }

  lemma DroppedPair(r: Rows, torn: bool)
    requires WeakMirror(r)
    ensures PairOk(r.(item := None), true) && PairOk(r.(group := None), true)
  {
  }

  lemma PurgedItemMail(groups: Groups, items: Items, torn: set<(string, string)>, key: ItemKey)
    requires MailboxOk(groups, items, torn) && key in items
    ensures MailboxOk(groups, items - {key}, torn + {(key.0, items[key].groupKey)})
  {
    hide PairOk, WeakMirror;
    var items', torn' := items - {key}, torn + {(key.0, items[key].groupKey)};
    assert ItemShape(items[key], key);
    forall r, k | k != "" ensures PairOk(RowsIn(groups, items', r, k), (r, k) in torn') {
      assert PairOk(RowsIn(groups, items, r, k), (r, k) in torn);
      PairIsWeak(RowsIn(groups, items, r, k), (r, k) in torn);
      if key == (r, "group:" + k) {
        assert GroupIdentity(key.1);
        GroupPrefixInjective(k, items[key].groupKey);
        DroppedPair(RowsIn(groups, items, r, k), true);
        assert RowsIn(groups, items', r, k) == RowsIn(groups, items, r, k).(item := None);
      } else {
        assert RowsIn(groups, items', r, k) == RowsIn(groups, items, r, k);
        TornIsWeaker(RowsIn(groups, items, r, k), (r, k) in torn, (r, k) in torn');
      }
    }
  }

  lemma PairIsWeak(r: Rows, torn: bool)
    requires PairOk(r, torn)
    ensures WeakMirror(r)
  {
  }

  lemma TornIsWeaker(r: Rows, torn: bool, torn': bool)
    requires PairOk(r, torn) && (torn ==> torn')
    ensures PairOk(r, torn')
  {
  }

  lemma PurgedGroupMail(groups: Groups, items: Items, torn: set<(string, string)>, key: (string, string))
    requires MailboxOk(groups, items, torn)
    ensures MailboxOk(groups - {key}, items, torn + {key})
  {
    hide PairOk, WeakMirror;
    var groups', torn' := groups - {key}, torn + {key};
    forall r, k | k != "" ensures PairOk(RowsIn(groups', items, r, k), (r, k) in torn') {
      assert PairOk(RowsIn(groups, items, r, k), (r, k) in torn);
      PairIsWeak(RowsIn(groups, items, r, k), (r, k) in torn);
      if key == (r, k) {
        DroppedPair(RowsIn(groups, items, r, k), true);
        assert RowsIn(groups', items, r, k) == RowsIn(groups, items, r, k).(group := None);
      } else {
        assert RowsIn(groups', items, r, k) == RowsIn(groups, items, r, k);
        TornIsWeaker(RowsIn(groups, items, r, k), (r, k) in torn, (r, k) in torn');
      }
    }
  }

  lemma PurgedItemArrivals(items: Items, arrivals: map<ItemKey, seq<Arrival>>, key: ItemKey)
    requires ArrivalsOk(items, arrivals)
    ensures ArrivalsOk(items - {key}, arrivals - {key})
  {
    hide ItemFrom;
  }

  lemma PurgeMailKeeps(g: Global, a: Action)
    requires Inv(g) && (a.PurgeItem? || a.PurgeGroup?)
    ensures Inv(Step(g, a))
  {
    hide EventsOk, FailureRowsOk, LogsOk, PlansOk, MailboxOk, ArrivalsOk, EndedOk, CreatedOk, WorkersOk;
    var t, h := g.tables, g.history;
    match a {
      case PurgeItem(key) =>
        if key in t.items {
          PurgedItemMail(t.groups, t.items, h.torn, key);
          PurgedItemArrivals(t.items, h.arrivals, key);
        }
      case PurgeGroup(key) => PurgedGroupMail(t.groups, t.items, h.torn, key);
    }
  }

  // ----- runs -----

  /** Steps that leave events and their insertions alone. */
  lemma OtherStepsLeaveEvents(g: Global, a: Action)
    requires !a.Produce? && !a.Claim? && !a.Deliver? && !a.GiveUp? && !a.PurgeEvent?
    ensures Step(g, a).tables.events == g.tables.events && Step(g, a).history.births == g.history.births
  {
  }

  lemma PersonalStepKeeps(g: Global, a: Action)
    requires Inv(g) && (a.SetPersonal? || a.MarkRead?)
    ensures Inv(Step(g, a))
  {
    hide Inv;
    match a {
      case SetPersonal(recipient, identity, change, at) => PersonalKeeps(g, EventTables.SetPersonal(g.tables, recipient, identity, change, at).items);
      case MarkRead(recipient, listed, at) => PersonalKeeps(g, MarkAllRead(g.tables, recipient, listed, at).items);
    }
  }

  lemma StepKeepsInv(g: Global, a: Action)
    requires Inv(g)
    ensures Inv(Step(g, a)) && StepEvolves(g, a)
  {
    hide *;
    if !a.Produce? && !a.Claim? && !a.Deliver? && !a.GiveUp? && !a.PurgeEvent? {
      OtherStepsLeaveEvents(g, a);
      OtherStepEvolves(g, a);
    }
    match a {
      case Produce(event) => ProduceKeeps(g, event);
      case Claim(w, id, owner, now, expires) => ClaimKeeps(g, w, id, owner, now, expires);
      case ReadBack(w) => ReadBackKeeps(g, w);
      case Deliver(w, recipients) => DeliverKeeps(g, w, recipients);
      case GiveUp(w, to, stage, code, next, at) => GiveUpKeeps(g, w, to, stage, code, next, at);
      case Acknowledge(recipient, identity, at) => AcknowledgeKeeps(g, recipient, identity, at);
      case SetPersonal(_, _, _, _) => PersonalStepKeeps(g, a);
      case MarkRead(_, _, _) => PersonalStepKeeps(g, a);
      case MovePlan(plan, lease, outbox) => MovePlanKeeps(g, plan, lease, outbox);
      case Crash(w) => CrashKeeps(g, w);
      case PurgeEvent(id) => PurgeEventKeeps(g, id);
      case PurgeFailure(key) => PurgeFailureKeeps(g, key);
      case PurgePlan(id) => PurgePlanKeeps(g, id);
      case PurgeItem(_) => PurgeMailKeeps(g, a);
      case PurgeGroup(_) => PurgeMailKeeps(g, a);
    }
  }

  lemma CrashKeeps(g: Global, w: nat)
    requires Inv(g)
    ensures Inv(Step(g, Crash(w)))
  {
    hide Inv;
    WorkerKeeps(g, w, Idle);
  }

  lemma OtherStepEvolves(g: Global, a: Action)
    requires Step(g, a).tables.events == g.tables.events && Step(g, a).history.births == g.history.births
    ensures StepEvolves(g, a)
  {
    hide Step;
    EvolvesReflexively(g.tables.events, g.history.births);
  }

  predicate RunEvolves(g: Global, g': Global) {
    Evolves(g.tables.events, g.history.births, g'.tables.events, g'.history.births)
  }

  lemma {:induction false} RunKeepsInv(g: Global, actions: seq<Action>)
    requires Inv(g)
    ensures Inv(Run(g, actions)) && RunEvolves(g, Run(g, actions))
    decreases |actions|
  {
    hide Inv, Evolves, Step;
    if actions == [] {
      EvolvesReflexively(g.tables.events, g.history.births);
    } else {
      var next, last := Step(g, actions[0]), Run(g, actions);
      StepKeepsInv(g, actions[0]);
      RunKeepsInv(next, actions[1..]);
      TableEvolvesTransitively(g.tables.events, g.history.births, next.tables.events, next.history.births, last.tables.events, last.history.births);
    }
  }

  lemma InitialIsOk()
    ensures Inv(INITIAL)
  {
    assert forall r, k :: RowsIn(map[], map[], r, k) == NO_ROWS;
  }

  lemma Reached(actions: seq<Action>)
    ensures Inv(Run(INITIAL, actions))
  {
    InitialIsOk();
    RunKeepsInv(INITIAL, actions);
  }
}
