/** How one pass of the delivery processor cuts the due plans into single deliveries and digest batches. */
module DigestBatches {
  import opened Prelude
  import opened Leases
  import opened EventTables

  datatype Work = Immediate(plan: Plan) | Digest(batch: seq<Plan>)

  function PlansIn(w: Work): seq<Plan> {
    match w
    case Immediate(plan) => [plan]
    case Digest(batch) => batch
  }

  function Maximum(first: Plan): nat {
    var m := first.body.digestMaximum;
    if m <= 0 || m > 100 then 50 else m
  }

  predicate Digestible(p: Plan) {
    p.body.digest && p.body.digestKey != ""
  }

  /** Everything the one outgoing message of a batch is addressed and rendered by. */
  predicate SameDispatch(p: Plan, first: Plan) {
    && p.workspace == first.workspace && p.body.digest && p.body.digestKey == first.body.digestKey && p.lease.nextAttemptAt == first.lease.nextAttemptAt
    && p.body.channel == first.body.channel && p.body.templateKey == first.body.templateKey && p.body.locale == first.body.locale
    && p.body.connector == first.body.connector && p.body.connection == first.body.connection
    && p.body.operation == first.body.operation && p.body.recipients == first.body.recipients
  }

  /** The plans from index `i` on that join a batch which already has `room` places left. */
  function Joining(plans: seq<Plan>, i: nat, first: Plan, consumed: set<PlanId>, room: nat): seq<Plan>
    requires i <= |plans|
    decreases |plans| - i
  {
    if i == |plans| || room == 0 then []
    else if plans[i].id !in consumed && SameDispatch(plans[i], first) then
      [plans[i]] + Joining(plans, i + 1, first, consumed, room - 1)
    else Joining(plans, i + 1, first, consumed, room)
  }

  method SameRecipients(left: seq<string>, right: seq<string>) returns (same: bool)
    ensures same == (left == right)
  {
    if |left| != |right| {
      return false;
    }
    for i := 0 to |left|
      invariant left[..i] == right[..i]
    {
      if left[i] != right[i] {
        return false;
      }
    }
    return true;
  }

  /** Column by column: what two plans of one digest message have in common. */
  predicate Joins(p: Plan, first: Plan) {
    && p.workspace == first.workspace && p.lease.nextAttemptAt == first.lease.nextAttemptAt
    && p.body.digest && p.body.digestKey == first.body.digestKey && p.body.channel == first.body.channel
    && p.body.templateKey == first.body.templateKey && p.body.locale == first.body.locale && p.body.connector == first.body.connector
    && p.body.connection == first.body.connection && p.body.operation == first.body.operation && p.body.recipients == first.body.recipients
  }

  lemma {:induction false} JoiningColumns(plans: seq<Plan>, i: nat, first: Plan, consumed: set<PlanId>, room: nat)
    requires i <= |plans|
    ensures var batch := Joining(plans, i, first, consumed, room);
      && |batch| <= room && (forall p :: p in batch ==> p in plans[i..] && p.id !in consumed && Joins(p, first))
      && (|batch| < room ==> forall p :: p in plans[i..] && p.id !in consumed && Joins(p, first) ==> p in batch)
    decreases |plans| - i
  {
    if i < |plans| && room > 0 {
      assert plans[i..] == [plans[i]] + plans[i + 1..];
      assert SameDispatch(plans[i], first) <==> Joins(plans[i], first);
      hide SameDispatch, Joins;
      JoiningColumns(plans, i + 1, first, consumed, room - 1);
      JoiningColumns(plans, i + 1, first, consumed, room);
    }
  }

  method DigestCandidates(plans: seq<Plan>, first: Plan, consumed: set<PlanId>) returns (result: seq<Plan>)
    ensures result == Joining(plans, 0, first, consumed, Maximum(first))
    ensures forall p :: p in result ==> p in plans && p.id !in consumed && Joins(p, first)
    ensures var maximum := if 0 < first.body.digestMaximum <= 100 then first.body.digestMaximum else 50;
      |result| <= maximum && (|result| < maximum ==> forall p :: p in plans && p.id !in consumed && Joins(p, first) ==> p in result)
  {
    JoiningColumns(plans, 0, first, consumed, Maximum(first));
    assert plans[0..] == plans;
    var maximum := first.body.digestMaximum;
    if maximum <= 0 || maximum > 100 {
      maximum := 50;
    }
    result := [];
    for i := 0 to |plans|
      invariant |result| <= maximum
      invariant Joining(plans, 0, first, consumed, Maximum(first)) == result + Joining(plans, i, first, consumed, maximum - |result|)
    {
      if |result| >= maximum {
        break;
      }
      var p, b, f := plans[i], plans[i].body, first.body;
      if p.id !in consumed && p.workspace == first.workspace && b.digest && b.digestKey == f.digestKey && p.lease.nextAttemptAt == first.lease.nextAttemptAt
         && b.channel == f.channel && b.templateKey == f.templateKey && b.locale == f.locale
         && b.connector == f.connector && b.connection == f.connection && b.operation == f.operation {
        var same := SameRecipients(b.recipients, f.recipients);
        if same {
          result := result + [p];
        }
      }
    }
  }

  function Ids(plans: seq<Plan>): set<PlanId> {
    set p | p in plans :: p.id
  }

  /** The work of one pass from index `i` on, given what earlier batches already took. */
  function Schedule(plans: seq<Plan>, i: nat, consumed: set<PlanId>): seq<Work>
    requires i <= |plans|
    decreases |plans| - i
  {
    if i == |plans| then []
    else if plans[i].id in consumed then Schedule(plans, i + 1, consumed)
    else if Digestible(plans[i]) then
      var batch := Joining(plans, 0, plans[i], consumed, Maximum(plans[i]));
      [Digest(batch)] + Schedule(plans, i + 1, consumed + Ids(batch))
    else [Immediate(plans[i])] + Schedule(plans, i + 1, consumed + {plans[i].id})
  }

  // ----- what a pass does -----

  function Flatten(handled: seq<Work>): seq<Plan> {
    if handled == [] then [] else PlansIn(handled[0]) + Flatten(handled[1..])
  }

  /** The plans that earlier work has not consumed, from index `i` on. */
  predicate Waiting(plans: seq<Plan>, i: nat, consumed: set<PlanId>, p: Plan)
    requires i <= |plans|
  {
    p.id !in consumed && exists k :: i <= k < |plans| && plans[k] == p
  }

  lemma {:induction false} JoiningFacts(plans: seq<Plan>, i: nat, first: Plan, consumed: set<PlanId>, room: nat)
    requires i <= |plans| && DistinctPlans(plans)
    ensures var batch := Joining(plans, i, first, consumed, room);
      && |batch| <= room && DistinctPlans(batch)
      && forall p :: p in batch ==> Waiting(plans, i, consumed, p) && SameDispatch(p, first)
    decreases |plans| - i
  {
    if i < |plans| && room > 0 {
      hide SameDispatch;
      JoiningFacts(plans, i + 1, first, consumed, room - 1);
      JoiningFacts(plans, i + 1, first, consumed, room);
      var rest := Joining(plans, i + 1, first, consumed, room - 1);
      forall p | p in rest ensures p.id != plans[i].id && Waiting(plans, i, consumed, p) {
        assert Waiting(plans, i + 1, consumed, p);
      }
      forall p | p in Joining(plans, i + 1, first, consumed, room) ensures Waiting(plans, i, consumed, p) {
        assert Waiting(plans, i + 1, consumed, p);
      }
    }
  }

  /** Plans before the trigger are all consumed, so the trigger leads its own batch. */
  lemma {:induction false} TriggerLeads(plans: seq<Plan>, j: nat, i: nat, consumed: set<PlanId>, room: nat)
    requires j <= i < |plans| && room > 0 && plans[i].id !in consumed && Digestible(plans[i])
    requires forall k :: 0 <= k < i ==> plans[k].id in consumed
    ensures var batch := Joining(plans, j, plans[i], consumed, room); batch != [] && batch[0] == plans[i]
    decreases i - j
  {
    if j < i {
      TriggerLeads(plans, j + 1, i, consumed, room);
    }
  }

  /** Column by column: a named digest, at most its own maximum or 50, and one workspace, schedule, template, route and audience. */
  predicate BatchOk(batch: seq<Plan>) {
    && batch != []
    && var first := batch[0];
       && first.body.digest && first.body.digestKey != ""
       && |batch| <= (if 0 < first.body.digestMaximum <= 100 then first.body.digestMaximum else 50)
       && forall p :: p in batch ==> Joins(p, first)
  }

  /** A plan that is sent on its own names no digest. */
  predicate AloneOk(p: Plan) {
    !p.body.digest || p.body.digestKey == ""
  }

  lemma IdsDecide(plans: seq<Plan>, taken: seq<Plan>, p: Plan)
    requires DistinctPlans(plans) && p in plans && forall q :: q in taken ==> q in plans
    ensures p.id in Ids(taken) <==> p in taken
  {
    if p.id in Ids(taken) {
      var q :| q in taken && q.id == p.id;
      var m :| 0 <= m < |plans| && plans[m] == q;
      var k :| 0 <= k < |plans| && plans[k] == p;
      assert m == k;
    }
  }

  lemma TakenOrWaiting(plans: seq<Plan>, i: nat, consumed: set<PlanId>, taken: seq<Plan>, p: Plan)
    requires i < |plans| && DistinctPlans(plans) && plans[i] in taken
    requires forall k :: 0 <= k < i ==> plans[k].id in consumed
    requires forall q :: q in taken ==> Waiting(plans, 0, consumed, q)
    ensures Waiting(plans, i, consumed, p) <==> p in taken || Waiting(plans, i + 1, consumed + Ids(taken), p)
  {
    if p in plans {
      IdsDecide(plans, taken, p);
    }
    if p in taken {
      var k :| 0 <= k < |plans| && plans[k] == p;
      assert k >= i;
    } else if Waiting(plans, i, consumed, p) {
      var k :| i <= k < |plans| && plans[k] == p;
      assert k > i;
    }
  }

  /** What one turn of the loop takes, and that its trigger is part of it. */
  function Taken(plans: seq<Plan>, i: nat, consumed: set<PlanId>): seq<Plan>
    requires i < |plans|
  {
    if Digestible(plans[i]) then Joining(plans, 0, plans[i], consumed, Maximum(plans[i])) else [plans[i]]
  }

  lemma TakenFacts(plans: seq<Plan>, i: nat, consumed: set<PlanId>)
    requires i < |plans| && DistinctPlans(plans) && plans[i].id !in consumed
    requires forall k :: 0 <= k < i ==> plans[k].id in consumed
    ensures var taken := Taken(plans, i, consumed); var handled := Schedule(plans, i, consumed);
      && plans[i] in taken && DistinctPlans(taken) && (forall q :: q in taken ==> Waiting(plans, 0, consumed, q))
      && handled != [] && PlansIn(handled[0]) == taken && handled[1..] == Schedule(plans, i + 1, consumed + Ids(taken))
      && (if handled[0].Digest? then BatchOk(handled[0].batch) else AloneOk(handled[0].plan))
  {
    assert Ids([plans[i]]) == {plans[i].id};
    if Digestible(plans[i]) {
      JoiningFacts(plans, 0, plans[i], consumed, Maximum(plans[i]));
      TriggerLeads(plans, 0, i, consumed, Maximum(plans[i]));
      hide Joining;
      assert Taken(plans, i, consumed)[0] == plans[i];
    }
  }

  lemma {:induction false} ScheduleFacts(plans: seq<Plan>, i: nat, consumed: set<PlanId>)
    requires i <= |plans| && DistinctPlans(plans)
    requires forall k :: 0 <= k < i ==> plans[k].id in consumed
    ensures var handled := Schedule(plans, i, consumed);
      && DistinctPlans(Flatten(handled))
      && (forall p :: p in Flatten(handled) <==> Waiting(plans, i, consumed, p))
      && (forall w :: w in handled ==> if w.Digest? then BatchOk(w.batch) else AloneOk(w.plan))
    decreases |plans| - i
  {
    if i < |plans| && plans[i].id in consumed {
      ScheduleFacts(plans, i + 1, consumed);
      forall p ensures Waiting(plans, i, consumed, p) <==> Waiting(plans, i + 1, consumed, p) {
      }
    } else if i < |plans| {
      hide Taken, BatchOk, AloneOk, Digestible;
      var taken := Taken(plans, i, consumed);
      TakenFacts(plans, i, consumed);
      var handled := Schedule(plans, i, consumed);
      ScheduleFacts(plans, i + 1, consumed + Ids(taken));
      hide Schedule, Waiting, DistinctPlans;
      assert Flatten(handled) == taken + Flatten(handled[1..]);
      StepFacts(plans, i, consumed, taken, Flatten(handled[1..]));
      assert handled == [handled[0]] + handled[1..];
    }
  }

  lemma StepFacts(plans: seq<Plan>, i: nat, consumed: set<PlanId>, taken: seq<Plan>, rest: seq<Plan>)
    requires i < |plans| && DistinctPlans(plans) && plans[i] in taken && DistinctPlans(taken) && DistinctPlans(rest)
    requires forall k :: 0 <= k < i ==> plans[k].id in consumed
    requires forall q :: q in taken ==> Waiting(plans, 0, consumed, q)
    requires forall p :: p in rest <==> Waiting(plans, i + 1, consumed + Ids(taken), p)
    ensures DistinctPlans(taken + rest)
    ensures forall p :: p in taken + rest <==> Waiting(plans, i, consumed, p)
  {
    forall p ensures p in taken + rest <==> Waiting(plans, i, consumed, p) {
      TakenOrWaiting(plans, i, consumed, taken, p);
    }
    var all := taken + rest;
    forall a, b | 0 <= a < b < |all| ensures all[a].id != all[b].id {
      if a < |taken| <= b {
        assert rest[b - |taken|] in rest && taken[a] in taken;
      }
    }
  }

  /**
   * One pass over due plans with distinct ids handles each exactly once: as itself when it is not
   * digestible, or in one batch of at most the normalized maximum whose members all share the trigger's
   * whole dispatch identity and whose first member is the trigger.
   */
  lemma PassPartitionsDuePlans(plans: seq<Plan>)
    requires DistinctPlans(plans)
    ensures var handled := Schedule(plans, 0, {});
      && multiset(Flatten(handled)) == multiset(plans)
      && (forall w :: w in handled ==> if w.Digest? then BatchOk(w.batch) else AloneOk(w.plan))
  {
    ScheduleFacts(plans, 0, {});
    var all := Flatten(Schedule(plans, 0, {}));
    forall p ensures p in all <==> p in plans {
      assert Waiting(plans, 0, {}, p) <==> p in plans;
    }
    forall p ensures multiset(all)[p] == multiset(plans)[p] {
      DistinctCount(all, p);
      DistinctCount(plans, p);
    }
  }

  lemma {:induction false} DistinctCount(plans: seq<Plan>, p: Plan)
    requires DistinctPlans(plans)
    ensures multiset(plans)[p] == if p in plans then 1 else 0
    decreases |plans|
  {
    if plans != [] {
      assert plans == [plans[0]] + plans[1..];
      DistinctCount(plans[1..], p);
      assert multiset(plans) == multiset{plans[0]} + multiset(plans[1..]);
      if p in plans[1..] {
        var k :| 0 <= k < |plans[1..]| && plans[1..][k] == p;
        assert plans[k + 1] == p;
      }
    }
  }

  /** A batch is only short of its maximum when no other due plan could have joined it. */
  lemma {:induction false} BatchIsFull(plans: seq<Plan>, i: nat, first: Plan, consumed: set<PlanId>, room: nat, p: Plan)
    requires i <= |plans| && Waiting(plans, i, consumed, p) && SameDispatch(p, first)
    ensures var batch := Joining(plans, i, first, consumed, room); |batch| == room || p in batch
    decreases |plans| - i
  {
    if room > 0 {
      var k :| i <= k < |plans| && plans[k] == p;
      if k > i {
        var joins := plans[i].id !in consumed && SameDispatch(plans[i], first);
        BatchIsFull(plans, i + 1, first, consumed, if joins then room - 1 else room, p);
      }
    }
  }
}
