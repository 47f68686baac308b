/**
 * What a delivery pass comes to when nobody else moves meanwhile: which plans it claims, cancels, sends, puts
 * back or gives up, row by row.
 */
module DeliveryOutcomes {
  import opened Prelude
  import opened Leases
  import opened EventTables
  import opened PlanQueue
  import opened DigestBatches

  /** What a worker brings along: its name, the action test, the dispatcher, and the retry policy. */
  datatype Env = Env(
    owner: string, lease: Time, terminal: Plan -> bool, dispatch: seq<Plan> -> Option<string>,
    allows: (nat, Time) -> bool, delay: nat -> Time, cancelCode: string, failCode: string)

  /** The row of a claimed plan. */
  function TakenRow(p: Plan, env: Env, now: Time): Plan {
    p.(lease := p.lease.(phase := Processing, owner := env.owner, expires := Some(now + env.lease), token := p.lease.token + 1, updatedAt := now))
  }

  /** Nobody is asked for a plan whose action is over. */
  predicate Pointless(p: Plan, env: Env) {
    p.body.cancelWhenTerminal && env.terminal(p)
  }

  /** The row after a failed dispatch: queued for its next attempt while the policy allows one, failed otherwise. */
  predicate PutBack(p: Plan, env: Env, now: Time, p': Plan) {
    var attempt := p.lease.attempts + 1;
    if env.allows(attempt, now) then EndsAs(p, RetryAt(now + env.delay(attempt), env.failCode), now, p')
    else EndsAs(p, FailedWith(env.failCode), now, p')
  }

  // ----- one plan -----

  ghost predicate OnlyRow(t: Plans, id: PlanId, t': Plans) {
    id in t && id in t' && t' == t[id := t'[id]]
  }

  /** A single plan: left alone, cancelled, sent, or put back. */
  ghost predicate SentAlone(t: Plans, id: PlanId, env: Env, now: Time, planned: bool, t': Plans) {
    if !ClaimablePlan(t, id, env.owner, now) then !planned && t' == t
    else
      var p := TakenRow(t[id], env, now);
      && OnlyRow(t, id, t')
      && if Pointless(p, env) then !planned && EndsAs(p, CancelledFor(env.cancelCode), now, t'[id])
         else
           var message := env.dispatch([p]);
           && planned == message.Some?
           && if message.Some? then EndsAs(p, Planned(message.value), now, t'[id]) else PutBack(p, env, now, t'[id])
  }

  // ----- a digest batch -----

  /** The rows a batch comes to: what can be claimed and is not pointless, in the batch's order. */
  function Deliverable(t: Plans, batch: seq<Plan>, env: Env, now: Time): seq<Plan>
    decreases |batch|
  {
    if batch == [] then []
    else
      var rest, id := Deliverable(t, batch[..|batch| - 1], env, now), batch[|batch| - 1].id;
      if ClaimablePlan(t, id, env.owner, now) && !Pointless(TakenRow(t[id], env, now), env) then rest + [TakenRow(t[id], env, now)] else rest
  }

  /** A batch: every plan that can be claimed is cancelled if pointless and otherwise shares the fate of the one message. */
  ghost predicate SentTogether(t: Plans, batch: seq<Plan>, env: Env, now: Time, planned: nat, t': Plans) {
    var claimed := Deliverable(t, batch, env, now);
    && t'.Keys == t.Keys
    && planned == (if claimed != [] && env.dispatch(claimed).Some? then |claimed| else 0)
    && forall id :: id in t ==>
         if id !in Ids(batch) || !ClaimablePlan(t, id, env.owner, now) then t'[id] == t[id]
         else
           var p := TakenRow(t[id], env, now);
           if Pointless(p, env) then EndsAs(p, CancelledFor(env.cancelCode), now, t'[id])
           else if env.dispatch(claimed).Some? then EndsAs(p, Planned(env.dispatch(claimed).value), now, t'[id])
           else PutBack(p, env, now, t'[id])
  }

  /** One call of a pass. */
  ghost predicate Done(t: Plans, w: Work, env: Env, now: Time, planned: nat, t': Plans) {
    match w
    case Immediate(p) => planned <= 1 && SentAlone(t, p.id, env, now, planned == 1, t')
    case Digest(batch) => SentTogether(t, batch, env, now, planned, t')
  }

  // ----- the claims of a batch, one after the other -----

  /** The table once the batch has been claimed. */
  function AfterClaims(t: Plans, batch: seq<Plan>, env: Env, now: Time): Plans {
    map id | id in t ::
      if id in Ids(batch) && ClaimablePlan(t, id, env.owner, now)
      then (if Pointless(TakenRow(t[id], env, now), env) then Ends(TakenRow(t[id], env, now), CancelledFor(env.cancelCode), now) else TakenRow(t[id], env, now))
      else t[id]
  }

  lemma IdsAppend(batch: seq<Plan>, i: nat)
    requires i < |batch|
    ensures Ids(batch[..i + 1]) == Ids(batch[..i]) + {batch[i].id}
    ensures DistinctPlans(batch) ==> batch[i].id !in Ids(batch[..i])
  {
    assert batch[..i + 1] == batch[..i] + [batch[i]];
  }

  /** One more claim, seen from the table the batch started with. */
  lemma OneMoreClaim(t: Plans, batch: seq<Plan>, i: nat, env: Env, now: Time)
    requires i < |batch| && DistinctPlans(batch)
    ensures var mid, id := AfterClaims(t, batch[..i], env, now), batch[i].id; var next := AfterClaims(t, batch[..i + 1], env, now);
      && mid.Keys == t.Keys && next.Keys == t.Keys && (id in t ==> mid[id] == t[id])
      && (ClaimablePlan(mid, id, env.owner, now) <==> ClaimablePlan(t, id, env.owner, now))
      && (!ClaimablePlan(t, id, env.owner, now) ==> next == mid)
      && (ClaimablePlan(t, id, env.owner, now) ==>
            next == mid[id := if Pointless(TakenRow(t[id], env, now), env) then Ends(TakenRow(t[id], env, now), CancelledFor(env.cancelCode), now) else TakenRow(t[id], env, now)])
  {
    hide Ids, ClaimablePlan, TakenRow, Ends, Pointless, DistinctPlans;
    IdsAppend(batch, i);
    var mid, id := AfterClaims(t, batch[..i], env, now), batch[i].id;
    SameClaimable(t, mid, id, env.owner, now);
    if ClaimablePlan(t, id, env.owner, now) {
      IsStored(t, id, env.owner, now);
      var row := if Pointless(TakenRow(t[id], env, now), env) then Ends(TakenRow(t[id], env, now), CancelledFor(env.cancelCode), now) else TakenRow(t[id], env, now);
      assert AfterClaims(t, batch[..i + 1], env, now) == mid[id := row];
    }
  }

  lemma IsStored(t: Plans, id: PlanId, owner: string, now: Time)
    requires ClaimablePlan(t, id, owner, now)
    ensures id in t
  {
  }

  lemma SameClaimable(t: Plans, mid: Plans, id: PlanId, owner: string, now: Time)
    requires mid.Keys == t.Keys && (id in t ==> mid[id] == t[id])
    ensures ClaimablePlan(mid, id, owner, now) <==> ClaimablePlan(t, id, owner, now)
  {
  }

  /** The claimed rows of a batch are its claimable, useful plans. */
  lemma {:induction false} DeliverableFacts(t: Plans, batch: seq<Plan>, env: Env, now: Time)
    requires DistinctPlans(batch) && forall id :: id in t ==> t[id].id == id
    ensures var claimed := Deliverable(t, batch, env, now);
      && DistinctPlans(claimed)
      && (forall p :: p in claimed <==>
            p.id in Ids(batch) && ClaimablePlan(t, p.id, env.owner, now) && p == TakenRow(t[p.id], env, now) && !Pointless(p, env))
    decreases |batch|
  {
    if batch != [] {
      hide ClaimablePlan, Pointless;
      var n := |batch| - 1;
      DeliverableFacts(t, batch[..n], env, now);
      IdsAppend(batch, n);
      assert batch[..n + 1] == batch;
      var rest, claimed := Deliverable(t, batch[..n], env, now), Deliverable(t, batch, env, now);
      forall i, j | 0 <= i < j < |claimed| ensures claimed[i].id != claimed[j].id {
        if j == |rest| { assert rest[i] in rest; }
      }
    } else {
      assert Ids(batch) == {};
    }
  }

  // ----- the three ends of a batch -----

  /** What a digest batch of one pass looks like: no plan twice, and one workspace. */
  predicate OneBatch(batch: seq<Plan>) {
    DistinctPlans(batch) && forall p :: p in batch ==> p.id.workspace == batch[0].id.workspace
  }

  /** Every listed row is stored as listed and held. */
  predicate AllLeased(t: Plans, claimed: seq<Plan>) {
    DistinctPlans(claimed) && forall c :: c in claimed ==> c.id in t && t[c.id] == c && c.lease.phase == Processing
  }

  ghost predicate StoredUnderOwnIds(t: Plans) {
    forall id :: id in t ==> t[id].id == id && t[id].workspace == id.workspace != ""
  }

  lemma NoClaims(t: Plans, batch: seq<Plan>, env: Env, now: Time)
    requires batch == []
    ensures AfterClaims(t, batch, env, now) == t
  {
  }

  lemma ClaimedRows(t: Plans, batch: seq<Plan>, env: Env, now: Time)
    requires OneBatch(batch) && StoredUnderOwnIds(t)
    ensures var claimed, mid := Deliverable(t, batch, env, now), AfterClaims(t, batch, env, now);
      && mid.Keys == t.Keys && AllLeased(mid, claimed) && OneWorkspace(claimed) && (forall i :: 0 <= i < |claimed| ==> Held(mid, claimed[i]))
  {
    hide Deliverable, ClaimablePlan;
    DeliverableFacts(t, batch, env, now);
    var claimed, mid := Deliverable(t, batch, env, now), AfterClaims(t, batch, env, now);
    forall c | c in claimed ensures c.id in mid && mid[c.id] == c && c.lease.phase == Processing && c.workspace == batch[0].id.workspace != "" {
      IsStored(t, c.id, env.owner, now);
      var p :| p in batch && p.id == c.id;
    }
  }

  lemma NothingSent(t: Plans, batch: seq<Plan>, env: Env, now: Time)
    requires OneBatch(batch) && StoredUnderOwnIds(t)
    ensures Deliverable(t, batch, env, now) == [] ==> SentTogether(t, batch, env, now, 0, AfterClaims(t, batch, env, now))
  {
    hide Deliverable, ClaimablePlan, TakenRow, Pointless;
    DeliverableFacts(t, batch, env, now);
    TakenIds(t, env, now);
    forall id | id in t ensures EndsAs(TakenRow(t[id], env, now), CancelledFor(env.cancelCode), now, Ends(TakenRow(t[id], env, now), CancelledFor(env.cancelCode), now)) {
    }
  }

  lemma TakenIds(t: Plans, env: Env, now: Time)
    ensures forall id :: id in t ==> TakenRow(t[id], env, now).id == t[id].id
  {
  }

  lemma BatchPlanned(t: Plans, batch: seq<Plan>, env: Env, now: Time, outbox: string)
    requires OneBatch(batch) && StoredUnderOwnIds(t)
    requires Deliverable(t, batch, env, now) != [] && env.dispatch(Deliverable(t, batch, env, now)) == Some(outbox)
    ensures var claimed := Deliverable(t, batch, env, now);
      SentTogether(t, batch, env, now, |claimed|, AllPlanned(AfterClaims(t, batch, env, now), claimed, outbox, now))
  {
    hide Deliverable, ClaimablePlan, TakenRow, Pointless, Ends, EndsAs;
    DeliverableFacts(t, batch, env, now);
    TakenIds(t, env, now);
    var claimed, mid := Deliverable(t, batch, env, now), AfterClaims(t, batch, env, now);
    forall id | id in t
      ensures EndsAs(TakenRow(t[id], env, now), CancelledFor(env.cancelCode), now, Ends(TakenRow(t[id], env, now), CancelledFor(env.cancelCode), now))
      ensures EndsAs(TakenRow(t[id], env, now), Planned(outbox), now, Ends(TakenRow(t[id], env, now), Planned(outbox), now))
      ensures (exists i :: 0 <= i < |claimed| && claimed[i].id == id) <==>
                id in Ids(batch) && ClaimablePlan(t, id, env.owner, now) && !Pointless(TakenRow(t[id], env, now), env)
    {
      EndsLaw(TakenRow(t[id], env, now), CancelledFor(env.cancelCode), now);
      EndsLaw(TakenRow(t[id], env, now), Planned(outbox), now);
      InClaimed(claimed, id);
      if exists p :: p in claimed && p.id == id {
        var p :| p in claimed && p.id == id;
      }
    }
  }

  lemma InClaimed(claimed: seq<Plan>, id: PlanId)
    ensures (exists i :: 0 <= i < |claimed| && claimed[i].id == id) <==> exists p :: p in claimed && p.id == id
  {
    if i :| 0 <= i < |claimed| && claimed[i].id == id {
      assert claimed[i] in claimed;
    }
  }

  lemma EndsLaw(p: Plan, e: Ending, at: Time)
    ensures EndsAs(p, e, at, Ends(p, e, at))
  {
  }

  lemma BatchPutBack(t: Plans, batch: seq<Plan>, env: Env, now: Time, t': Plans)
    requires OneBatch(batch) && StoredUnderOwnIds(t) && t'.Keys == t.Keys
    requires Deliverable(t, batch, env, now) != [] && env.dispatch(Deliverable(t, batch, env, now)).None?
    requires var claimed, mid := Deliverable(t, batch, env, now), AfterClaims(t, batch, env, now);
      && (forall c :: c in claimed ==> c.id in t' && PutBack(c, env, now, t'[c.id]))
      && (forall id :: id in t' && id !in Ids(claimed) ==> t'[id] == mid[id])
    ensures SentTogether(t, batch, env, now, 0, t')
  {
    hide Deliverable, ClaimablePlan, TakenRow, Pointless, Ends, EndsAs, PutBack;
    DeliverableFacts(t, batch, env, now);
    TakenIds(t, env, now);
    var claimed := Deliverable(t, batch, env, now);
    forall id | id in t
      ensures EndsAs(TakenRow(t[id], env, now), CancelledFor(env.cancelCode), now, Ends(TakenRow(t[id], env, now), CancelledFor(env.cancelCode), now))
      ensures id in Ids(claimed) <==> id in Ids(batch) && ClaimablePlan(t, id, env.owner, now) && !Pointless(TakenRow(t[id], env, now), env)
      ensures id in Ids(claimed) ==> TakenRow(t[id], env, now) in claimed
    {
      EndsLaw(TakenRow(t[id], env, now), CancelledFor(env.cancelCode), now);
    }
  }

  // ----- a whole pass -----

  /** Due plans as they are read from the table: no plan twice, each under its own workspace. */
  predicate Listed(plans: seq<Plan>) {
    DistinctPlans(plans) && forall p :: p in plans ==> p.workspace == p.id.workspace
  }

  function Sum(counts: seq<nat>): nat {
    if counts == [] then 0 else Sum(counts[..|counts| - 1]) + counts[|counts| - 1]
  }

  /** The calls of a pass, each from the table the one before it left. */
  ghost predicate Passes(states: seq<Plans>, handled: seq<Work>, counts: seq<nat>, env: Env, now: Time) {
    && |states| == |handled| + 1 && |counts| == |handled|
    && forall i :: 0 <= i < |handled| ==> Done(states[i], handled[i], env, now, counts[i], states[i + 1])
  }

  /** A call leaves every plan outside its work alone, and settles each of its own that can be claimed. */
  lemma DoneTouches(t: Plans, w: Work, env: Env, now: Time, count: nat, t': Plans, id: PlanId)
    requires Done(t, w, env, now, count, t') && StoredUnderOwnIds(t)
    ensures t'.Keys == t.Keys
    ensures id in t && (id !in Ids(PlansIn(w)) || !ClaimablePlan(t, id, env.owner, now)) ==> t'[id] == t[id]
    ensures id in Ids(PlansIn(w)) && ClaimablePlan(t, id, env.owner, now) ==>
              && id in t && id in t' && t'[id] != t[id] && t'[id] == t[id].(lease := t'[id].lease, outboxMessageId := t'[id].outboxMessageId)
              && t'[id].lease.token == t[id].lease.token + 1 && !t'[id].lease.phase.Processing?
  {
    hide Deliverable, ClaimablePlan, Pointless;
    match w
    case Immediate(p) =>
      assert Ids([p]) == {p.id};
      if ClaimablePlan(t, p.id, env.owner, now) { IsStored(t, p.id, env.owner, now); }
    case Digest(batch) =>
      if ClaimablePlan(t, id, env.owner, now) { IsStored(t, id, env.owner, now); }
  }

  lemma StillStored(t: Plans, w: Work, env: Env, now: Time, count: nat, t': Plans)
    requires Done(t, w, env, now, count, t') && StoredUnderOwnIds(t)
    ensures StoredUnderOwnIds(t') && t'.Keys == t.Keys
  {
    hide Done, ClaimablePlan;
    DoneKeys(t, w, env, now, count, t');
    forall id | id in t' ensures t'[id].id == id && t'[id].workspace == id.workspace != "" {
      DoneTouches(t, w, env, now, count, t', id);
    }
  }

  lemma DoneKeys(t: Plans, w: Work, env: Env, now: Time, count: nat, t': Plans)
    requires Done(t, w, env, now, count, t') && StoredUnderOwnIds(t)
    ensures t'.Keys == t.Keys
  {
    if id :| id in t {
      DoneTouches(t, w, env, now, count, t', id);
    } else {
      NothingStored(t, w, env, now, count, t');
    }
  }

  lemma NothingStored(t: Plans, w: Work, env: Env, now: Time, count: nat, t': Plans)
    requires Done(t, w, env, now, count, t') && t.Keys == {}
    ensures t'.Keys == {}
  {
    hide Deliverable;
  }

  /**
   * What a pass by itself does to a stored plan: a listed plan that can be claimed is settled, under one new
   * token; every other plan stays as it is.
   */
  lemma {:induction false} PassSettles(states: seq<Plans>, handled: seq<Work>, counts: seq<nat>, env: Env, now: Time, id: PlanId)
    requires Passes(states, handled, counts, env, now) && StoredUnderOwnIds(states[0]) && DistinctPlans(Flatten(handled)) && id in states[0]
    ensures id in states[|handled|] && StoredUnderOwnIds(states[|handled|])
    ensures var p, p' := states[0][id], states[|handled|][id];
      if id in Ids(Flatten(handled)) && ClaimablePlan(states[0], id, env.owner, now)
      then !p'.lease.phase.Processing? && p'.lease.token == p.lease.token + 1 && p'.body == p.body
      else p' == p
    decreases |handled|
  {
    if handled == [] {
      assert Ids(Flatten(handled)) == {};
    } else {
      hide Done, ClaimablePlan, StoredUnderOwnIds;
      var w, rest := handled[0], handled[1..];
      assert Done(states[0], w, env, now, counts[0], states[1]);
      StillStored(states[0], w, env, now, counts[0], states[1]);
      DoneTouches(states[0], w, env, now, counts[0], states[1], id);
      FlattenSplits(handled);
      forall i | 0 <= i < |rest| ensures Done(states[1..][i], rest[i], env, now, counts[1..][i], states[1..][i + 1]) {
        assert Done(states[i + 1], handled[i + 1], env, now, counts[i + 1], states[i + 2]);
      }
      PassSettles(states[1..], rest, counts[1..], env, now, id);
      if id !in Ids(PlansIn(w)) { SameClaimable(states[0], states[1], id, env.owner, now); }
    }
  }

  lemma FlattenSplits(handled: seq<Work>)
    requires handled != [] && DistinctPlans(Flatten(handled))
    ensures DistinctPlans(Flatten(handled[1..]))
    ensures Ids(Flatten(handled)) == Ids(PlansIn(handled[0])) + Ids(Flatten(handled[1..]))
    ensures Ids(PlansIn(handled[0])) !! Ids(Flatten(handled[1..]))
  {
    var first, rest := PlansIn(handled[0]), Flatten(handled[1..]);
    assert Flatten(handled) == first + rest;
    hide Flatten, PlansIn;
    SplitDistinct(first, rest);
  }

  lemma SplitDistinct(first: seq<Plan>, rest: seq<Plan>)
    requires DistinctPlans(first + rest)
    ensures DistinctPlans(rest) && Ids(first + rest) == Ids(first) + Ids(rest) && Ids(first) !! Ids(rest)
  {
    var all := first + rest;
    forall i, j | 0 <= i < j < |rest| ensures rest[i].id != rest[j].id {
      assert all[|first| + i] == rest[i] && all[|first| + j] == rest[j];
    }
    forall p, q | p in first && q in rest ensures p.id != q.id {
      var i :| 0 <= i < |first| && first[i] == p;
      var j :| 0 <= j < |rest| && rest[j] == q;
      assert all[i] == p && all[|first| + j] == q;
    }
  }
}
