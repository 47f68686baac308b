/** When an approved request may be taken up: never before its schedule, and by one worker at a time. */
module PublicationTiming {
  import opened Prelude
  import opened TemplateModel
  import opened TemplateStore
  import opened PublicationMachine
  import opened PublicationInvariants
  import opened PublicationSafety

  /** A worker's claim that goes through. */
  predicate Takes(g: Global, a: Action, id: RequestId) {
    a.StartClaim? && a.id == id && Step(g, a) != g
  }

  predicate TakenWithin(g: Global, actions: seq<Action>, id: RequestId)
    decreases |actions|
  {
    actions != [] && (Takes(g, actions[0], id) || TakenWithin(Step(g, actions[0]), actions[1..], id))
  }

  /**
   * An idle worker's claim goes through exactly when the request is scheduled for a time that is not in the
   * future, or publishing under a lease that is not in the future. Then it is publishing for that worker under
   * the next token, and nothing else changes.
   */
  lemma ClaimTakesIff(g: Global, w: nat, id: RequestId, owner: string, now: Time, expires: Time)
    requires LocalOf(g, w).Idle?
    ensures var a := StartClaim(w, id, owner, now, expires); var g' := Step(g, a);
      && (Takes(g, a, id) <==>
            && id != "" && owner != "" && id in g.tables.requests
            && var r := g.tables.requests[id];
               || (r.status == Scheduled && (r.scheduledFor == None || r.scheduledFor.value <= now))
               || (r.status == Publishing && (r.leaseExpiresAt == None || r.leaseExpiresAt.value <= now)))
      && (Takes(g, a, id) ==>
            && LocalOf(g', w) == Claimed(id) && id in g'.tables.requests && g'.commits == g.commits
            && var r, r' := g.tables.requests[id], g'.tables.requests[id];
               && r'.status == Publishing && r'.leaseOwner == owner && r'.leaseExpiresAt == Some(expires)
               && r'.fencingToken == r.fencingToken + 1 && r'.updatedAt == now
               && r' == r.(status := Publishing, leaseOwner := owner, leaseExpiresAt := Some(expires), fencingToken := r.fencingToken + 1, updatedAt := now)
               && g'.tables == g.tables.(requests := g.tables.requests[id := r']))
  {
  }

  lemma ClaimIsIdle(g: Global, a: Action)
    requires a.StartClaim? && Step(g, a) != g
    ensures LocalOf(g, a.worker).Idle? && a == StartClaim(a.worker, a.id, a.owner, a.now, a.expires)
  {
    hide ClaimRequest;
  }

  lemma TokenStays(g: Global, a: Action, id: RequestId)
    requires !Takes(g, a, id) && id in g.tables.requests && id in Step(g, a).tables.requests
    ensures Step(g, a).tables.requests[id].fencingToken == g.tables.requests[id].fencingToken
  {
    hide SaveDraft, Disable, Seed, Publish, Inspect, Recover, HasOpen, NewRequest;
    if a.EditDraft? || a.DisableTemplate? || a.SeedTemplate? {
      RecordsOnly(g, a);
    } else if a.Advance? && LocalOf(g, a.worker).Committing? {
      CommitLeavesRequests(g.tables, LocalOf(g, a.worker), a.choice);
    }
  }

  lemma RecordsOnly(g: Global, a: Action)
    requires a.EditDraft? || a.DisableTemplate? || a.SeedTemplate?
    ensures Step(g, a).tables.requests == g.tables.requests
  {
  }

  lemma CommitLeavesRequests(t: Tables, l: Local, c: Choice)
    requires l.Committing?
    ensures WorkerStep(t, l, c).tables.requests == t.requests
  {
    hide PublishedValue;
  }

  /** A request that nobody takes up keeps its token. */
  lemma {:induction false} UntakenRequest(g: Global, actions: seq<Action>, id: RequestId)
    requires Inv(g) && !TakenWithin(g, actions, id) && id in g.tables.requests
    ensures id in Run(g, actions).tables.requests && RequestEvolves(g.tables.requests[id], Run(g, actions).tables.requests[id])
    ensures Run(g, actions).tables.requests[id].fencingToken == g.tables.requests[id].fencingToken
    decreases |actions|
  {
    hide Inv, Step, Takes, Evolves, RequestEvolves;
    RunEvolves(g, actions);
    Evolved(g.tables, Run(g, actions).tables, id);
    if actions != [] {
      StepKeepsInv(g, actions[0]);
      Evolved(g.tables, Step(g, actions[0]).tables, id);
      TokenStays(g, actions[0], id);
      UntakenRequest(Step(g, actions[0]), actions[1..], id);
    }
  }

  lemma Evolved(t: Tables, t': Tables, id: RequestId)
    requires Evolves(t, t') && id in t.requests
    ensures id in t'.requests && RequestEvolves(t.requests[id], t'.requests[id])
  {
  }

  /** The next claim that goes through finds the first one's lease run out: a publishing request is only ever ended, not given back. */
  lemma LeaseKeepsOthersAway(before: seq<Action>, first: Action, between: seq<Action>, second: Action)
    requires first.StartClaim? && second.StartClaim? && second.id == first.id && Takes(Reached(before), first, first.id)
    requires var g := Step(Reached(before), first); !TakenWithin(g, between, first.id) && Takes(Run(g, between), second, first.id)
    ensures first.expires <= second.now
  {
    var g0 := Reached(before);
    var g := Step(g0, first);
    var g' := Run(g, between);
    ReachedInv(before);
    ClaimIsIdle(g0, first);
    ClaimTakesIff(g0, first.worker, first.id, first.owner, first.now, first.expires);
    StepKeepsInv(g0, first);
    UntakenRequest(g, between, first.id);
    ClaimIsIdle(g', second);
    ClaimTakesIff(g', second.worker, second.id, second.owner, second.now, second.expires);
    hide Inv, Step, Run, TakenWithin;
  }

  // ----- the schedule -----

  /** The request keeps the schedule it was made with until it is taken up, and so does whoever is approving it. */
  predicate Timed(g: Global, id: RequestId, at: Time) {
    && id in g.tables.requests
    && (g.tables.requests[id].status.Pending? || g.tables.requests[id].status.Scheduled? ==> g.tables.requests[id].scheduledFor == Some(at))
    && (forall w :: w in g.workers && g.workers[w].Approving? && g.workers[w].id == id ==> g.workers[w].seen.scheduledFor == Some(at))
  }

  lemma StepKeepsTimed(g: Global, a: Action, id: RequestId, at: Time)
    requires Inv(g) && Timed(g, id, at)
    ensures Timed(Step(g, a), id, at)
  {
    hide SaveDraft, Disable, Seed, Publish, Inspect, Recover, HasOpen, NewRequest, TablesOk, CommitsOk;
    if a.EditDraft? || a.DisableTemplate? || a.SeedTemplate? {
      RecordsOnly(g, a);
    } else if a.Advance? {
      AdvanceKeepsTimed(g, a.worker, a.choice, id, at);
    }
  }

  lemma AdvanceKeepsTimed(g: Global, w: nat, c: Choice, id: RequestId, at: Time)
    requires Inv(g) && Timed(g, id, at)
    ensures Timed(Step(g, Advance(w, c)), id, at)
  {
    hide WorkerStep, TablesOk, CommitsOk;
    LocalOfOk(g, w);
    TimedRow(g.tables, LocalOf(g, w), c, id, at);
  }

  predicate TimedRequest(t: Tables, id: RequestId, at: Time) {
    id in t.requests && (t.requests[id].status.Pending? || t.requests[id].status.Scheduled? ==> t.requests[id].scheduledFor == Some(at))
  }

  lemma TimedRow(t: Tables, l: Local, c: Choice, id: RequestId, at: Time)
    requires LocalOk(t, l) && TimedRequest(t, id, at) && (l.Approving? && l.id == id ==> l.seen.scheduledFor == Some(at))
    ensures var out := WorkerStep(t, l, c); TimedRequest(out.tables, id, at) && !out.local.Approving?
  {
    hide SaveDraft, Disable, Seed, HasOpen, NewRequest, VersionMatches, SeenOk, CandidateHash, PublishedValue;
    if l.Committing? {
      CommitLeavesRequests(t, l, c);
    } else if l.Approving? || l.Rejecting? || l.Cancelling? || l.Finishing? {
      hide Inspect, Recover, Publish;
    }
  }

  lemma {:induction false} RunKeepsTimed(g: Global, actions: seq<Action>, id: RequestId, at: Time)
    requires Inv(g) && Timed(g, id, at)
    ensures Timed(Run(g, actions), id, at)
    decreases |actions|
  {
    hide Inv, Step, Timed;
    if actions != [] {
      StepKeepsInv(g, actions[0]);
      StepKeepsTimed(g, actions[0], id, at);
      RunKeepsTimed(Step(g, actions[0]), actions[1..], id, at);
    }
  }

  /** A request made with a schedule is first taken up, if ever, at that time or later, whoever approves it and whenever. */
  lemma ScheduleIsKept(before: seq<Action>, w: nat, c: Choice, after: seq<Action>, claim: Action, at: Time)
    requires claim.StartClaim? && claim.id !in Reached(before).tables.requests
    requires var g := Step(Reached(before), Advance(w, c)); claim.id in g.tables.requests && g.tables.requests[claim.id].scheduledFor == Some(at)
    requires var g' := Run(Step(Reached(before), Advance(w, c)), after);
      Takes(g', claim, claim.id) && claim.id in g'.tables.requests && g'.tables.requests[claim.id].status == Scheduled
    ensures at <= claim.now
  {
    var g0 := Reached(before);
    var g := Step(g0, Advance(w, c));
    ReachedInv(before);
    StepKeepsInv(g0, Advance(w, c));
    NewIsTimed(g0, w, c, claim.id, at);
    RunKeepsTimed(g, after, claim.id, at);
    var g' := Run(g, after);
    ClaimIsIdle(g', claim);
    ClaimTakesIff(g', claim.worker, claim.id, claim.owner, claim.now, claim.expires);
    hide Inv, Step, Run;
  }

  lemma NewIsTimed(g: Global, w: nat, c: Choice, id: RequestId, at: Time)
    requires Inv(g) && id !in g.tables.requests && id in Step(g, Advance(w, c)).tables.requests
    requires Step(g, Advance(w, c)).tables.requests[id].scheduledFor == Some(at)
    ensures Timed(Step(g, Advance(w, c)), id, at)
  {
    hide SaveDraft, Disable, Seed, Publish, Inspect, Recover, HasOpen, NewRequest, TablesOk, CommitsOk;
    var l := LocalOf(g, w);
    if l.Committing? {
      CommitLeavesRequests(g.tables, l, c);
    }
    forall v | v in g.workers && g.workers[v].Approving? ensures g.workers[v].id != id {
      assert LocalOk(g.tables, g.workers[v]);
    }
  }
}
