/**
 * The channel-plan queue as a machine, and its safety over every interleaving of workers, batches, lease
 * expiries, crashes and purges. A claim's UPDATE and the SELECT that reads the row back are separate
 * steps. Retention may purge any row at any time, and a plan may be inserted again under a purged id.
 */
module PlanSafety {
  import opened Prelude
  import opened Leases
  import opened AlertFolding
  import opened EventTables
  import opened PlanQueue

  /** A worker's open claim, if any, and every row it has read back and not forgotten, with the insertion it was read from. */
  datatype Local = Local(claimed: Option<PlanId>, held: set<(Plan, nat)>)

  /** For the theorems only: how often each id was inserted and purged, and which insertion's tokens have ended a claim. */
  datatype History = History(births: multiset<PlanId>, purged: multiset<PlanId>, ended: seq<(PlanId, nat, nat)>)

  datatype Global = Global(plans: Plans, workers: map<nat, Local>, history: History)

  datatype Action =
    | Insert(plan: Plan)
    | Claim(worker: nat, id: PlanId, owner: string, now: Time, expires: Time)
    | ReadBack(worker: nat)
    | End(worker: nat, seen: Plan, ending: Ending, at: Time)
    | CompleteBatch(worker: nat, batch: seq<Plan>, outbox: string, at: Time)
    | Crash(worker: nat)
    | Purge(id: PlanId)

  const NOBODY := Local(None, {})
  const INITIAL := Global(map[], map[], History(multiset{}, multiset{}, []))

  function LocalOf(g: Global, w: nat): Local {
    if w in g.workers then g.workers[w] else NOBODY
  }

  predicate Remembers(l: Local, seen: Plan) {
    exists s :: s in l.held && s.0 == seen
  }

  predicate RemembersAll(l: Local, batch: seq<Plan>) {
    forall i :: 0 <= i < |batch| ==> Remembers(l, batch[i])
  }

  predicate AllHeld(plans: Plans, batch: seq<Plan>) {
    forall i :: 0 <= i < |batch| ==> Held(plans, batch[i])
  }

  predicate Completes(plans: Plans, batch: seq<Plan>) {
    OneWorkspace(batch) && DistinctPlans(batch) && AllHeld(plans, batch)
  }

  /** The claims that a transition of these plans ends: each of the insertion that is stored now. */
  function Tokens(births: multiset<PlanId>, batch: seq<Plan>): seq<(PlanId, nat, nat)> {
    seq(|batch|, i requires 0 <= i < |batch| => (batch[i].id, births[batch[i].id], batch[i].lease.token))
  }

  /** A plan as the event queue inserts it. */
  predicate Fresh(p: Plan) {
    p.lease == NewLease(p.lease.nextAttemptAt, p.lease.updatedAt) && p.workspace == p.id.workspace != ""
  }

  function Step(g: Global, a: Action): Global {
    var h := g.history;
    match a
    case Insert(plan) =>
      if plan.id !in g.plans && Fresh(plan)
      then g.(plans := g.plans[plan.id := plan], history := h.(births := h.births + multiset{plan.id})) else g
    case Claim(w, id, owner, now, expires) =>
      if LocalOf(g, w).claimed.None? && ClaimablePlan(g.plans, id, owner, now)
      then g.(plans := ClaimPlan(g.plans, id, owner, now, expires), workers := g.workers[w := LocalOf(g, w).(claimed := Some(id))]) else g
    case ReadBack(w) =>
      var l := LocalOf(g, w);
      if l.claimed.None? then g
      else
        var id := l.claimed.value;
        g.(workers := g.workers[w := Local(None, if id in g.plans then l.held + {(g.plans[id], h.births[id])} else l.held)])
    case End(w, seen, ending, at) =>
      if Remembers(LocalOf(g, w), seen) then
        var done := Transition(g.plans, seen, ending, at);
        g.(plans := done.0, history := if done.1.Ok? then h.(ended := h.ended + Tokens(h.births, [seen])) else h)
      else g
    case CompleteBatch(w, batch, outbox, at) =>
      if RemembersAll(LocalOf(g, w), batch) && Completes(g.plans, batch)
      then g.(plans := AllPlanned(g.plans, batch, outbox, at), history := h.(ended := h.ended + Tokens(h.births, batch))) else g
    case Crash(w) => g.(workers := g.workers[w := NOBODY])
    case Purge(id) =>
      if id in g.plans then g.(plans := g.plans - {id}, history := h.(purged := h.purged + multiset{id})) else g
  }

  function Run(g: Global, actions: seq<Action>): Global
    decreases |actions|
  {
    if actions == [] then g else Run(Step(g, actions[0]), actions[1..])
  }

  // ----- invariants -----

  predicate PlanOk(p: Plan, id: PlanId) {
    && p.id == id && p.workspace == id.workspace != "" && LeaseOk(p.lease)
    && (p.lease.phase.Ended? ==> p.lease.phase.how in {"planned", "failed", "cancelled"})
  }

  predicate PlansOk(plans: Plans) {
    forall id :: id in plans ==> PlanOk(plans[id], id)
  }

  predicate PlanEvolves(p: Plan, p': Plan) {
    && LeaseEvolves(p.lease, p'.lease)
    && p' == p.(lease := p'.lease, outboxMessageId := p'.outboxMessageId)
    && (p.lease == p'.lease ==> p' == p)
  }

  /** What any number of steps may do: a row of the same insertion comes from the earlier row, and insertions only go up. */
  ghost predicate Evolves(plans: Plans, births: multiset<PlanId>, plans': Plans, births': multiset<PlanId>) {
    && (forall id :: births[id] <= births'[id])
    && (forall id :: id in plans' && births'[id] == births[id] ==> id in plans && PlanEvolves(plans[id], plans'[id]))
  }

  /** What a snapshot still says about the row while that is the same insertion. */
  predicate SeenOk(plans: Plans, births: multiset<PlanId>, seen: Plan, birth: nat) {
    && birth <= births[seen.id] && PlanOk(seen, seen.id)
    && (seen.id in plans && birth == births[seen.id] ==> PlanEvolves(seen, plans[seen.id]))
  }

  predicate LocalOk(plans: Plans, births: multiset<PlanId>, l: Local) {
    forall s :: s in l.held ==> SeenOk(plans, births, s.0, s.1)
  }

  predicate WorkersOk(plans: Plans, births: multiset<PlanId>, workers: map<nat, Local>) {
    forall w :: w in workers ==> LocalOk(plans, births, workers[w])
  }

  /** A token that can no longer be spent on this insertion of the plan. */
  predicate Spent(plans: Plans, births: multiset<PlanId>, end: (PlanId, nat, nat)) {
    && end.1 <= births[end.0]
    && (end.0 in plans && end.1 == births[end.0] ==>
          end.2 <= plans[end.0].lease.token && (end.2 == plans[end.0].lease.token ==> !plans[end.0].lease.phase.Processing?))
  }

  predicate EndedOk(plans: Plans, births: multiset<PlanId>, ended: seq<(PlanId, nat, nat)>) {
    && (forall i :: 0 <= i < |ended| ==> Spent(plans, births, ended[i]))
    && (forall i, j :: 0 <= i < j < |ended| ==> ended[i] != ended[j])
  }

  /** Every id was inserted once more than it was purged, or exactly as often. */
  ghost predicate BornOk(plans: Plans, births: multiset<PlanId>, purged: multiset<PlanId>) {
    forall id :: births[id] == purged[id] + (if id in plans then 1 else 0)
  }

  ghost predicate Inv(g: Global) {
    && PlansOk(g.plans) && WorkersOk(g.plans, g.history.births, g.workers)
    && EndedOk(g.plans, g.history.births, g.history.ended) && BornOk(g.plans, g.history.births, g.history.purged)
  }

  ghost predicate RunEvolves(g: Global, g': Global) {
    Evolves(g.plans, g.history.births, g'.plans, g'.history.births) && forall id :: g.history.purged[id] <= g'.history.purged[id]
  }

  // ----- steps -----

  lemma PlanEvolvesTransitively(a: Plan, b: Plan, c: Plan)
    requires PlanEvolves(a, b) && PlanEvolves(b, c)
    ensures PlanEvolves(a, c)
  {
  }

  lemma SeenStays(plans: Plans, births: multiset<PlanId>, plans': Plans, births': multiset<PlanId>, seen: Plan, birth: nat)
    requires SeenOk(plans, births, seen, birth) && Evolves(plans, births, plans', births')
    ensures SeenOk(plans', births', seen, birth)
  {
    hide PlanOk;
    if seen.id in plans' && birth == births'[seen.id] {
      assert births[seen.id] <= births'[seen.id];
      PlanEvolvesTransitively(seen, plans[seen.id], plans'[seen.id]);
    }
  }

  lemma WorkersStay(plans: Plans, births: multiset<PlanId>, plans': Plans, births': multiset<PlanId>, workers: map<nat, Local>)
    requires WorkersOk(plans, births, workers) && Evolves(plans, births, plans', births')
    ensures WorkersOk(plans', births', workers)
  {
    hide SeenOk, Evolves;
    forall w, s | w in workers && s in workers[w].held ensures SeenOk(plans', births', s.0, s.1) {
      assert LocalOk(plans, births, workers[w]);
      SeenStays(plans, births, plans', births', s.0, s.1);
    }
  }

  lemma EndedStays(plans: Plans, births: multiset<PlanId>, plans': Plans, births': multiset<PlanId>, ended: seq<(PlanId, nat, nat)>)
    requires EndedOk(plans, births, ended) && Evolves(plans, births, plans', births')
    ensures EndedOk(plans', births', ended)
  {
    forall i | 0 <= i < |ended| ensures Spent(plans', births', ended[i]) {
      assert Spent(plans, births, ended[i]);
      assert births[ended[i].0] <= births'[ended[i].0];
    }
  }

  /** Everything but the log of a step that leaves the set of stored ids alone. */
  lemma PlansChange(g: Global, plans': Plans)
    requires Inv(g) && PlansOk(plans') && plans'.Keys == g.plans.Keys
    requires forall id :: id in g.plans ==> PlanEvolves(g.plans[id], plans'[id])
    ensures Evolves(g.plans, g.history.births, plans', g.history.births)
    ensures WorkersOk(plans', g.history.births, g.workers) && EndedOk(plans', g.history.births, g.history.ended)
    ensures BornOk(plans', g.history.births, g.history.purged)
  {
    hide PlanOk, PlanEvolves, LocalOk;
    WorkersStay(g.plans, g.history.births, plans', g.history.births, g.workers);
    EndedStays(g.plans, g.history.births, plans', g.history.births, g.history.ended);
  }

  lemma EndKeepsPlan(p: Plan, id: PlanId, e: Ending, at: Time)
    requires PlanOk(p, id) && p.lease.phase.Processing?
    ensures PlanOk(Ends(p, e, at), id) && PlanEvolves(p, Ends(p, e, at))
    ensures Ends(p, e, at).lease.token == p.lease.token && !Ends(p, e, at).lease.phase.Processing?
  {
  }

  lemma InsertKeeps(g: Global, plan: Plan)
    requires Inv(g)
    ensures var g' := Step(g, Insert(plan)); Inv(g') && RunEvolves(g, g')
  {
    hide LeaseEvolves, PlanEvolves;
    if plan.id !in g.plans && Fresh(plan) {
      var g' := Step(g, Insert(plan));
      assert Evolves(g.plans, g.history.births, g'.plans, g'.history.births) by {
        forall id | id in g'.plans && g'.history.births[id] == g.history.births[id]
          ensures id in g.plans && PlanEvolves(g.plans[id], g'.plans[id])
        {
          assert id != plan.id;
          PlanEvolvesToSelf(g.plans[id]);
        }
      }
      WorkersStay(g.plans, g.history.births, g'.plans, g'.history.births, g.workers);
      EndedStays(g.plans, g.history.births, g'.plans, g'.history.births, g.history.ended);
    } else {
      EvolvesToSelf(g);
    }
  }

  lemma PlanEvolvesToSelf(p: Plan)
    ensures PlanEvolves(p, p)
  {
  }

  lemma EvolvesToSelf(g: Global)
    ensures RunEvolves(g, g)
  {
  }

  lemma PurgeKeeps(g: Global, id: PlanId)
    requires Inv(g)
    ensures var g' := Step(g, Purge(id)); Inv(g') && RunEvolves(g, g')
  {
    hide LeaseEvolves, PlanEvolves, PlanOk;
    if id in g.plans {
      var g' := Step(g, Purge(id));
      forall p | p in g'.plans ensures PlanEvolves(g.plans[p], g'.plans[p]) { PlanEvolvesToSelf(g.plans[p]); }
      WorkersStay(g.plans, g.history.births, g'.plans, g'.history.births, g.workers);
      EndedStays(g.plans, g.history.births, g'.plans, g'.history.births, g.history.ended);
    } else {
      EvolvesToSelf(g);
    }
  }

  lemma ClaimKeeps(g: Global, w: nat, id: PlanId, owner: string, now: Time, expires: Time)
    requires Inv(g)
    ensures var g' := Step(g, Claim(w, id, owner, now, expires)); Inv(g') && RunEvolves(g, g')
  {
    if LocalOf(g, w).claimed.None? && ClaimablePlan(g.plans, id, owner, now) {
      assert PlanOk(g.plans[id], id);
      ClaimKeepsLease(g.plans[id].lease, owner, now, expires);
      var plans' := ClaimPlan(g.plans, id, owner, now, expires);
      assert PlanOk(plans'[id], id);
      hide LeaseEvolves, LeaseOk, PlanOk;
      PlansChange(g, plans');
      assert LocalOk(plans', g.history.births, LocalOf(g, w)) by {
        if w in g.workers { assert LocalOk(plans', g.history.births, g.workers[w]); }
      }
    } else {
      EvolvesToSelf(g);
    }
  }

  lemma ReadBackKeeps(g: Global, w: nat)
    requires Inv(g)
    ensures var g' := Step(g, ReadBack(w)); Inv(g') && RunEvolves(g, g')
  {
    EvolvesToSelf(g);
    var l := LocalOf(g, w);
    if l.claimed.Some? {
      assert LocalOk(g.plans, g.history.births, l);
      if l.claimed.value in g.plans {
        assert PlanOk(g.plans[l.claimed.value], l.claimed.value);
        PlanEvolvesToSelf(g.plans[l.claimed.value]);
      }
    }
  }

  lemma EndKeeps(g: Global, w: nat, seen: Plan, ending: Ending, at: Time)
    requires Inv(g)
    ensures var g' := Step(g, End(w, seen, ending, at)); Inv(g') && RunEvolves(g, g')
  {
    hide Evidenced, LocalOk;
    if Remembers(LocalOf(g, w), seen) && Transition(g.plans, seen, ending, at).1.Ok? {
      assert PlanOk(g.plans[seen.id], seen.id);
      EndKeepsPlan(g.plans[seen.id], seen.id, ending, at);
      var plans' := Transition(g.plans, seen, ending, at).0;
      hide Ends, PlanOk, LeaseEvolves;
      PlansChange(g, plans');
      EndedExtends(g.plans, g.history.births, plans', g.history.ended, (seen.id, g.history.births[seen.id], seen.lease.token));
      assert Tokens(g.history.births, [seen]) == [(seen.id, g.history.births[seen.id], seen.lease.token)];
    } else {
      EvolvesToSelf(g);
    }
  }

  /** A token that was being spent right now is not in the log of spent tokens. */
  lemma EndedExtends(plans: Plans, births: multiset<PlanId>, plans': Plans, ended: seq<(PlanId, nat, nat)>, end: (PlanId, nat, nat))
    requires EndedOk(plans, births, ended) && EndedOk(plans', births, ended) && Spent(plans', births, end)
    requires end.0 in plans && end.1 == births[end.0] && end.2 == plans[end.0].lease.token && plans[end.0].lease.phase.Processing?
    ensures EndedOk(plans', births, ended + [end])
  {
    forall i | 0 <= i < |ended| ensures ended[i] != end {
      assert Spent(plans, births, ended[i]);
    }
  }

  lemma {:induction false} BatchExtends(plans: Plans, births: multiset<PlanId>, plans': Plans, ended: seq<(PlanId, nat, nat)>, batch: seq<Plan>, i: nat)
    requires EndedOk(plans, births, ended) && EndedOk(plans', births, ended) && DistinctPlans(batch) && AllHeld(plans, batch) && i <= |batch|
    requires forall j :: 0 <= j < |batch| ==> Spent(plans', births, Tokens(births, batch)[j])
    ensures EndedOk(plans', births, ended + Tokens(births, batch)[..i])
    decreases i
  {
    if i == 0 {
      assert ended + Tokens(births, batch)[..0] == ended;
    } else {
      BatchExtends(plans, births, plans', ended, batch, i - 1);
      var end := Tokens(births, batch)[i - 1];
      var before := ended + Tokens(births, batch)[..i - 1];
      assert ended + Tokens(births, batch)[..i] == before + [end];
      assert Held(plans, batch[i - 1]);
      forall k | 0 <= k < |before| ensures before[k] != end {
        if k < |ended| {
          assert Spent(plans, births, ended[k]);
        } else {
          assert batch[k - |ended|].id != batch[i - 1].id;
        }
      }
    }
  }

  lemma BatchPlans(plans: Plans, batch: seq<Plan>, outbox: string, at: Time)
    requires PlansOk(plans) && DistinctPlans(batch) && AllHeld(plans, batch)
    ensures var plans' := AllPlanned(plans, batch, outbox, at);
      && plans'.Keys == plans.Keys && PlansOk(plans') && (forall p :: p in plans ==> PlanEvolves(plans[p], plans'[p]))
      && forall j :: 0 <= j < |batch| ==>
           && batch[j].id in plans' && plans'[batch[j].id].lease.token == batch[j].lease.token
           && !plans'[batch[j].id].lease.phase.Processing?
  {
    var plans' := AllPlanned(plans, batch, outbox, at);
    forall p | p in plans ensures PlanOk(plans'[p], p) && PlanEvolves(plans[p], plans'[p]) {
      assert PlanOk(plans[p], p);
      if i :| 0 <= i < |batch| && batch[i].id == p {
        assert Held(plans, batch[i]);
        EndKeepsPlan(plans[p], p, Planned(outbox), at);
      }
    }
    forall j | 0 <= j < |batch|
      ensures batch[j].id in plans' && plans'[batch[j].id].lease.token == batch[j].lease.token && !plans'[batch[j].id].lease.phase.Processing?
    {
      assert Held(plans, batch[j]) && PlanOk(plans[batch[j].id], batch[j].id);
      EndKeepsPlan(plans[batch[j].id], batch[j].id, Planned(outbox), at);
    }
  }

  lemma BatchKeeps(g: Global, w: nat, batch: seq<Plan>, outbox: string, at: Time)
    requires Inv(g)
    ensures var g' := Step(g, CompleteBatch(w, batch, outbox, at)); Inv(g') && RunEvolves(g, g')
  {
    hide OneWorkspace, RemembersAll, PlanOk, PlanEvolves, LocalOk;
    if RemembersAll(LocalOf(g, w), batch) && Completes(g.plans, batch) {
      var plans', births := AllPlanned(g.plans, batch, outbox, at), g.history.births;
      BatchPlans(g.plans, batch, outbox, at);
      hide AllPlanned;
      PlansChange(g, plans');
      BatchExtends(g.plans, births, plans', g.history.ended, batch, |batch|);
      assert Tokens(births, batch)[..|batch|] == Tokens(births, batch);
    } else {
      EvolvesToSelf(g);
    }
  }

  lemma StepKeepsInv(g: Global, a: Action)
    requires Inv(g)
    ensures Inv(Step(g, a)) && RunEvolves(g, Step(g, a))
  {
    hide Inv, RunEvolves, Step;
    match a {
      case Insert(plan) => InsertKeeps(g, plan);
      case Claim(w, id, owner, now, expires) => ClaimKeeps(g, w, id, owner, now, expires);
      case ReadBack(w) => ReadBackKeeps(g, w);
      case End(w, seen, ending, at) => EndKeeps(g, w, seen, ending, at);
      case CompleteBatch(w, batch, outbox, at) => BatchKeeps(g, w, batch, outbox, at);
      case Crash(w) => CrashKeeps(g, w);
      case Purge(id) => PurgeKeeps(g, id);
    }
  }

  lemma CrashKeeps(g: Global, w: nat)
    requires Inv(g)
    ensures var g' := Step(g, Crash(w)); Inv(g') && RunEvolves(g, g')
  {
    hide PlanOk, SeenOk, Spent;
    EvolvesToSelf(g);
  }

  lemma RunEvolvesTransitively(a: Global, b: Global, c: Global)
    requires RunEvolves(a, b) && RunEvolves(b, c)
    ensures RunEvolves(a, c)
  {
    hide PlanEvolves;
    forall id ensures a.history.births[id] <= c.history.births[id] && a.history.purged[id] <= c.history.purged[id] {
      assert a.history.births[id] <= b.history.births[id] <= c.history.births[id];
      assert a.history.purged[id] <= b.history.purged[id] <= c.history.purged[id];
    }
    forall id | id in c.plans && c.history.births[id] == a.history.births[id] ensures id in a.plans && PlanEvolves(a.plans[id], c.plans[id]) {
      assert a.history.births[id] <= b.history.births[id] <= c.history.births[id];
      PlanEvolvesTransitively(a.plans[id], b.plans[id], c.plans[id]);
    }
  }

  lemma {:induction false} RunKeepsInv(g: Global, actions: seq<Action>)
    requires Inv(g)
    ensures Inv(Run(g, actions)) && RunEvolves(g, Run(g, actions))
    decreases |actions|
  {
    hide Step, Inv, RunEvolves;
    if actions == [] {
      EvolvesToSelf(g);
    } else {
      StepKeepsInv(g, actions[0]);
      RunKeepsInv(Step(g, actions[0]), actions[1..]);
      RunEvolvesTransitively(g, Step(g, actions[0]), Run(g, actions));
    }
  }

  lemma Reached(actions: seq<Action>)
    ensures Inv(Run(INITIAL, actions))
  {
    RunKeepsInv(INITIAL, actions);
  }

  // ----- main results -----

  /**
   * Over every run each fencing token of an insertion ends at most one claim, failed attempts never outnumber
   * the tokens, and an id has been inserted once for each purge of its row and once more if it has a row.
   */
  lemma EachTokenEndsOnce(actions: seq<Action>, id: PlanId)
    ensures var g := Run(INITIAL, actions); var h := g.history;
      && (forall i, j :: 0 <= i < j < |h.ended| ==> h.ended[i] != h.ended[j])
      && (id in g.plans ==> g.plans[id].lease.attempts <= g.plans[id].lease.token)
      && h.births[id] == h.purged[id] + (if id in g.plans then 1 else 0)
  {
    Reached(actions);
    hide Run;
    var g := Run(INITIAL, actions);
    if id in g.plans { assert PlanOk(g.plans[id], id); }
  }

  /**
   * Planned, failed and cancelled plans, message id included, stay as they are exactly until they are purged:
   * afterwards the id has no row, or a row that was inserted anew.
   */
  lemma FinishedPlansStay(before: seq<Action>, after: seq<Action>, id: PlanId)
    requires id in Run(INITIAL, before).plans && Run(INITIAL, before).plans[id].lease.phase.Ended?
    ensures Run(INITIAL, before).plans[id].lease.phase.how in {"planned", "failed", "cancelled"}
    ensures var g := Run(INITIAL, before); var g' := Run(g, after);
      if g'.history.purged[id] == g.history.purged[id] then id in g'.plans && g'.plans[id] == g.plans[id]
      else id !in g'.plans || g'.history.births[id] > g.history.births[id]
  {
    hide Run, WorkersOk, EndedOk;
    Reached(before);
    var g := Run(INITIAL, before);
    var g' := Run(g, after);
    RunKeepsInv(g, after);
    assert PlanOk(g.plans[id], id);
    assert g.history.births[id] == g.history.purged[id] + 1;
    assert g'.history.births[id] == g'.history.purged[id] + if id in g'.plans then 1 else 0;
    assert g.history.births[id] <= g'.history.births[id] && g.history.purged[id] <= g'.history.purged[id];
  }

  /**
   * A snapshot of the stored insertion can change the row only while it is the row. One that is not the row
   * changes nothing, alone or in a batch, unless it was read before the plan was purged and inserted again.
   */
  lemma StaleSnapshotIsInert(g: Global, w: nat, seen: Plan, birth: nat, ending: Ending, batch: seq<Plan>, outbox: string, at: Time)
    requires Inv(g) && (seen, birth) in LocalOf(g, w).held && seen in batch
    ensures birth == g.history.births[seen.id] ==> (Held(g.plans, seen) <==> seen.id in g.plans && g.plans[seen.id] == seen && seen.lease.phase.Processing?)
    ensures !Held(g.plans, seen) ==> Step(g, End(w, seen, ending, at)) == g && Step(g, CompleteBatch(w, batch, outbox, at)) == g
  {
    hide PlanOk;
    assert LocalOk(g.plans, g.history.births, g.workers[w]) && SeenOk(g.plans, g.history.births, (seen, birth).0, (seen, birth).1);
    var i :| 0 <= i < |batch| && batch[i] == seen;
    if Held(g.plans, seen) {
      if birth == g.history.births[seen.id] { HolderSeesTheRow(seen.lease, g.plans[seen.id].lease); }
    } else {
      assert !AllHeld(g.plans, batch);
    }
  }

  lemma RunThree(g: Global, a: Action, b: Action, c: Action)
    ensures Run(g, [a, b, c]) == Step(Step(Step(g, a), b), c)
  {
    hide Step;
    assert [a, b, c][1..] == [b, c] && [b, c][1..] == [c] && [c][1..] == [];
    assert Run(Step(Step(g, a), b), [c]) == Run(Step(Step(Step(g, a), b), c), []);
    assert Run(Step(g, a), [b, c]) == Run(Step(Step(g, a), b), [c]);
  }

  /** The same id, inserted again after a purge and claimed by a worker. */
  lemma ReinsertedAndClaimed(g: Global, plan: Plan, w: nat, owner: string, now: Time, expires: Time)
    requires plan.id in g.plans && Fresh(plan) && DueBy(plan.lease.nextAttemptAt, now) && owner != "" && LocalOf(g, w).claimed.None?
    ensures var claimed := Step(Step(Step(g, Purge(plan.id)), Insert(plan)), Claim(w, plan.id, owner, now, expires));
      && claimed.plans == g.plans[plan.id := plan.(lease := Leases.Claimed(plan.lease, owner, now, expires))]
      && claimed.history.births == g.history.births + multiset{plan.id}
      && claimed.workers == g.workers[w := LocalOf(g, w).(claimed := Some(plan.id))]
  {
    var purged := Step(g, Purge(plan.id));
    assert plan.id !in purged.plans && purged.workers == g.workers;
    var inserted := Step(purged, Insert(plan));
    assert inserted.plans == g.plans[plan.id := plan] && inserted.workers == g.workers && inserted.history.births == g.history.births + multiset{plan.id};
    assert ClaimablePlan(inserted.plans, plan.id, owner, now);
    assert inserted.plans[plan.id] == plan;
  }

  /**
   * The exception does occur: a worker remembers a first claim by an owner, the plan is purged, inserted
   * again with other content and claimed under the same owner. The old snapshot then ends the new row.
   */
  lemma OldSnapshotEndsReinsertedPlan(g: Global, elder: nat, seen: Plan, birth: nat, plan: Plan, w: nat, now: Time, expires: Time, ending: Ending, at: Time)
    requires Inv(g) && (seen, birth) in LocalOf(g, elder).held && LocalOf(g, w).claimed.None? && Evidenced(ending)
    requires seen.id in g.plans && seen.lease.token == 1 && seen.lease.owner != ""
    requires Fresh(plan) && plan.id == seen.id && plan.body != seen.body && DueBy(plan.lease.nextAttemptAt, now)
    ensures var claimed := Run(g, [Purge(seen.id), Insert(plan), Claim(w, seen.id, seen.lease.owner, now, expires)]);
      && birth < claimed.history.births[seen.id] && seen.id in claimed.plans && claimed.plans[seen.id].body == plan.body
      && Step(claimed, End(elder, seen, ending, at)).plans == claimed.plans[seen.id := Ends(claimed.plans[seen.id], ending, at)]
  {
    assert LocalOk(g.plans, g.history.births, g.workers[elder]) && SeenOk(g.plans, g.history.births, (seen, birth).0, (seen, birth).1);
    ReinsertedAndClaimed(g, plan, w, seen.lease.owner, now, expires);
    RunThree(g, Purge(seen.id), Insert(plan), Claim(w, seen.id, seen.lease.owner, now, expires));
    var claimed := Run(g, [Purge(seen.id), Insert(plan), Claim(w, seen.id, seen.lease.owner, now, expires)]);
    hide Inv, Evidenced, Ends, SeenOk, Run;
    assert Remembers(LocalOf(claimed, elder), seen) by {
      assert (seen, birth) in LocalOf(claimed, elder).held && (seen, birth).0 == seen;
    }
    assert Held(claimed.plans, seen);
  }

  lemma {:induction false} RunAppend(g: Global, first: seq<Action>, second: seq<Action>)
    ensures Run(g, first + second) == Run(Run(g, first), second)
    decreases |first|
  {
    hide Step;
    if first == [] {
      assert first + second == second;
    } else {
      assert (first + second)[1..] == first[1..] + second;
      RunAppend(Step(g, first[0]), first[1..], second);
    }
  }

  lemma FirstClaimed(first: Plan)
    requires Fresh(first) && DueBy(first.lease.nextAttemptAt, 0)
    ensures var row := first.(lease := Leases.Claimed(first.lease, "o", 0, 9));
      Step(Step(Step(INITIAL, Insert(first)), Claim(1, first.id, "o", 0, 9)), ReadBack(1)) ==
        Global(map[first.id := row], map[1 := Local(None, {(row, 1)})], History(multiset{first.id}, multiset{}, []))
  {
    var g1 := Step(INITIAL, Insert(first));
    assert g1 == Global(map[first.id := first], map[], History(multiset{first.id}, multiset{}, []));
    assert ClaimablePlan(g1.plans, first.id, "o", 0);
    var g2 := Step(g1, Claim(1, first.id, "o", 0, 9));
    var row := first.(lease := Leases.Claimed(first.lease, "o", 0, 9));
    assert g2 == Global(map[first.id := row], map[1 := Local(Some(first.id), {})], g1.history);
    ReadBackAlone(g2, 1, first.id);
  }

  /** The first row a worker reads back is all it remembers. */
  lemma ReadBackAlone(g: Global, w: nat, id: PlanId)
    requires LocalOf(g, w) == Local(Some(id), {}) && id in g.plans
    ensures Step(g, ReadBack(w)) == g.(workers := g.workers[w := Local(None, {(g.plans[id], g.history.births[id])})])
  {
    var nothing: set<(Plan, nat)> := {};
    assert nothing + {(g.plans[id], g.history.births[id])} == {(g.plans[id], g.history.births[id])};
  }

  /** Worker 2 takes an expired claim over and completes the plan. */
  lemma TakenOverAndPlanned(g: Global, id: PlanId)
    requires id in g.plans && Due(g.plans[id].lease, 9) && 2 !in g.workers
    requires PlanOk(g.plans[id], id)
    ensures var row := g.plans[id].(lease := Leases.Claimed(g.plans[id].lease, "p", 9, 18));
      var g' := Step(Step(Step(g, Claim(2, id, "p", 9, 18)), ReadBack(2)), End(2, row, Planned("m"), 10));
      && id in g'.plans && g'.plans[id].lease.phase == Ended("planned") && (forall v :: v != 2 ==> LocalOf(g', v) == LocalOf(g, v))
      && g'.history.births == g.history.births
  {
    var row := g.plans[id].(lease := Leases.Claimed(g.plans[id].lease, "p", 9, 18));
    assert ClaimablePlan(g.plans, id, "p", 9);
    var g1 := Step(g, Claim(2, id, "p", 9, 18));
    assert g1.plans == g.plans[id := row] && g1.workers == g.workers[2 := Local(Some(id), {})];
    var g2 := Step(g1, ReadBack(2));
    ReadBackAlone(g1, 2, id);
    assert g2.plans == g1.plans && g2.workers == g.workers[2 := Local(None, {(row, g.history.births[id])})];
    assert (row, g.history.births[id]).0 == row && Remembers(LocalOf(g2, 2), row);
    assert Transition(g2.plans, row, Planned("m"), 10).1.Ok?;
  }

  /**
   * Such a run from the start, with a purge that retention makes: worker 1 claims the first plan, worker 2
   * takes over and completes it, the planned row is purged and its id inserted again, worker 0 claims it
   * under the owner of worker 1's old claim, and worker 1's snapshot ends the row.
   */
  lemma OldSnapshotRun(first: Plan, plan: Plan, ending: Ending, at: Time) returns (before: seq<Action>, seen: Plan)
    requires Fresh(first) && DueBy(first.lease.nextAttemptAt, 0) && Evidenced(ending)
    requires Fresh(plan) && plan.id == first.id && plan.body != first.body && DueBy(plan.lease.nextAttemptAt, 0)
    ensures plan.id in Run(INITIAL, before).plans && Run(INITIAL, before).plans[plan.id].lease.phase == Ended("planned")
    ensures var g := Run(INITIAL, before + [Purge(plan.id), Insert(plan), Claim(0, plan.id, "o", 0, 9)]);
      && plan.id in g.plans && g.plans[plan.id].body == plan.body != seen.body
      && Step(g, End(1, seen, ending, at)).plans == g.plans[plan.id := Ends(g.plans[plan.id], ending, at)]
  {
    seen := first.(lease := Leases.Claimed(first.lease, "o", 0, 9));
    var row := seen.(lease := Leases.Claimed(seen.lease, "p", 9, 18));
    var claim, over := [Insert(first), Claim(1, first.id, "o", 0, 9), ReadBack(1)], [Claim(2, first.id, "p", 9, 18), ReadBack(2), End(2, row, Planned("m"), 10)];
    FirstClaimed(first);
    RunThree(INITIAL, Insert(first), Claim(1, first.id, "o", 0, 9), ReadBack(1));
    var g := Run(INITIAL, claim);
    assert PlanOk(g.plans[first.id], first.id);
    TakenOverAndPlanned(g, first.id);
    RunThree(g, Claim(2, first.id, "p", 9, 18), ReadBack(2), End(2, row, Planned("m"), 10));
    RunAppend(INITIAL, claim, over);
    before := claim + over;
    Reached(before);
    hide Step, Run, Inv, Evidenced, Ends, Fresh;
    var ended := Run(INITIAL, before);
    assert (seen, 1) in LocalOf(ended, 1).held;
    OldSnapshotEndsReinsertedPlan(ended, 1, seen, 1, plan, 0, 0, 9, ending, at);
    RunAppend(INITIAL, before, [Purge(plan.id), Insert(plan), Claim(0, plan.id, "o", 0, 9)]);
  }
}
