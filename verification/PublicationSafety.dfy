/** Safety of template publication over every interleaving of workers, edits, lease expiries and crashes. */
module PublicationSafety {
  import opened Prelude
  import opened TemplateModel
  import opened TemplateStore
  import opened PublicationMachine
  import opened PublicationInvariants

  // ----- one worker step -----

  /** The row a claim reads back: reviewed by another actor, and past the queue. */
  lemma ReadBackKeeps(t: Tables, id: RequestId)
    requires TablesOk(t) && id in t.requests && Reaches(Publishing, t.requests[id].status)
    ensures SeenOk(t, id, t.requests[id])
  {
    assert RequestOk(t, id);
  }

  lemma InspectKeeps(t: Tables, id: RequestId, seen: Request)
    requires TablesOk(t) && SeenOk(t, id, seen)
    ensures LocalOk(t, Inspect(t, id, seen)) && LocalOk(t, Recover(t, id, seen))
  {
    hide TablesOk;
    RecordIsOk(t, seen.key);
  }

  lemma PrepareKeeps(t: Tables, id: RequestId, seen: Request)
    requires TablesOk(t) && SeenOk(t, id, seen) && seen.key in t.records && t.records[seen.key].draft.Some?
    ensures LocalOk(t, Committing(id, seen, t.records[seen.key]))
  {
    hide TablesOk;
    RecordIsOk(t, seen.key);
  }

  /** Steps that only read leave a local state that is again well founded. */
  lemma ReadStepKeeps(t: Tables, l: Local, c: Choice)
    requires TablesOk(t) && LocalOk(t, l)
    requires l.Claimed? || l.Authorizing? || l.Inspecting? || l.Preparing? || l.Recovering?
    ensures LocalOk(t, WorkerStep(t, l, c).local)
  {
    hide TablesOk, SeenOk, Inspect, Recover, Publish, CreateRequest, TransitionRequest;
    match l {
      case Claimed(id) => ReadBackKeeps(t, id);
      case Inspecting(id, seen) => InspectKeeps(t, id, seen);
      case Recovering(id, seen) => InspectKeeps(t, id, seen);
      case Preparing(id, seen) => if seen.key in t.records && t.records[seen.key].draft.Some? { PrepareKeeps(t, id, seen); }
      case _ =>
    }
  }

  /** The compare-and-set on updated_at pins the record to the one the draft was approved on. */
  lemma CommitReadsApprovedDraft(t: Tables, l: Local)
    requires TablesOk(t) && LocalOk(t, l) && l.Committing?
    requires l.seen.key in t.records && t.records[l.seen.key].updatedAt == l.seen.draftUpdatedAt
    ensures t.records[l.seen.key] == l.record
    ensures CandidateHash(PublishedValue(l.record)) == l.seen.candidateHash
    ensures PublishedValue(l.record).key == l.seen.key
    ensures 0 <= l.record.publishedVersion < PublishedValue(l.record).version
    ensures (l.seen.key, PublishedValue(l.record).version) !in t.versions
  {
    assert RequestOk(t, l.id) && RecordOk(t, l.seen.key);
    var kv := (l.seen.key, PublishedValue(l.record).version);
    assert kv in t.versions ==> VersionOk(t, kv);
  }

  lemma CommittingFacts(t: Tables, l: Local)
    requires LocalOk(t, l) && l.Committing?
    ensures l.seen.key in t.records && l.record.draft.Some? && PublishedValue(l.record).key == l.seen.key
  {
  }

  /** The tables after a committed publication by this worker. */
  lemma CommitSucceeds(t: Tables, l: Local, now: Time)
    requires TablesOk(t) && LocalOk(t, l) && l.Committing? && Later(t, l.seen.key, now)
    requires Publish(t, PublishedValue(l.record), Some(l.seen.draftUpdatedAt), l.seen.reviewedBy, now).1.Ok?
    ensures var done := Publish(t, PublishedValue(l.record), Some(l.seen.draftUpdatedAt), l.seen.reviewedBy, now);
      && TablesOk(done.0) && Evolves(t, done.0)
      && CommitOk(done.0, Commit(l.id, l.seen.key, t.records[l.seen.key].publishedVersion, done.1.value.publishedVersion))
      && VersionMatches(done.0, l.seen.key, done.1.value.publishedVersion, l.seen.candidateHash)
      && t.records[l.seen.key].updatedAt == t.requests[l.id].draftUpdatedAt
  {
    CommitReadsApprovedDraft(t, l);
    PublishKeeps(t, PublishedValue(l.record), Some(l.seen.draftUpdatedAt), l.seen.reviewedBy, now);
    hide TablesOk, Evolves;
  }

  lemma CommittingStepKeeps(t: Tables, l: Local, c: Choice)
    requires TablesOk(t) && LocalOk(t, l) && l.Committing?
    ensures var out := WorkerStep(t, l, c);
      && TablesOk(out.tables) && Evolves(t, out.tables) && LocalOk(out.tables, out.local)
      && (out.commit.Some? ==>
            && CommitOk(out.tables, out.commit.value)
            && out.commit.value.id == l.id && out.commit.value.key == l.seen.key
            && out.commit.value.before == t.records[l.seen.key].publishedVersion
            && t.records[l.seen.key].updatedAt == t.requests[l.id].draftUpdatedAt)
  {
    hide TablesOk, Evolves, CommitOk, SeenOk, VersionMatches;
    assert SeenOk(t, l.id, l.seen) && l.record.draft.Some?;
    var out := WorkerStep(t, l, c);
    EvolvesReflexive(t);
    if Later(t, l.seen.key, c.now) {
      var done := Publish(t, PublishedValue(l.record), Some(l.seen.draftUpdatedAt), l.seen.reviewedBy, c.now);
      if done.1.Ok? {
        CommitSucceeds(t, l, c.now);
        SeenStable(t, done.0, l.id, l.seen);
      }
    }
  }

  lemma MoveStepKeeps(t: Tables, l: Local, c: Choice)
    requires TablesOk(t) && LocalOk(t, l)
    requires l.Approving? || l.Rejecting? || l.Cancelling? || l.Finishing?
    ensures var out := WorkerStep(t, l, c); TablesOk(out.tables) && Evolves(t, out.tables)
  {
    hide TablesOk, Evolves, TransitionRequest;
    if l.id in t.requests { RequestIsOk(t, l.id); }
    match l
    case Approving(id, _, _) => TransitionKeeps(t, id, Pending, ApproveTransition(l, c.now));
    case Rejecting(id, _, _, _) => TransitionKeeps(t, id, Pending, RejectTransition(l, c.now));
    case Cancelling(id, seen, _) => TransitionKeeps(t, id, seen.status, CancelTransition(l, c.now));
    case Finishing(id, _, _, _, _) => TransitionKeeps(t, id, Publishing, FinishTransition(l, c.now));
  }

  lemma RequestingStepKeeps(t: Tables, l: Local, c: Choice)
    requires TablesOk(t) && LocalOk(t, l) && l.Requesting?
    ensures var out := WorkerStep(t, l, c); TablesOk(out.tables) && Evolves(t, out.tables)
  {
    assert RecordOk(t, l.key);
    CreateKeeps(t, l.id, NewRequest(l, c.now));
  }

  lemma WorkerStepKeeps(t: Tables, l: Local, c: Choice)
    requires TablesOk(t) && LocalOk(t, l)
    ensures var out := WorkerStep(t, l, c); TablesOk(out.tables) && Evolves(t, out.tables) && LocalOk(out.tables, out.local)
  {
    hide TablesOk, Evolves, CreateRequest, TransitionRequest, Publish, Inspect, Recover, SeenOk, ReadOk, VersionMatches;
    EvolvesReflexive(t);
    match l {
      case Idle =>
      case Explaining(_, _) =>
      case Told(_, _, _) =>
      case Requesting(_, _, _, _, _) => RequestingStepKeeps(t, l, c);
      case Committing(_, _, _) => CommittingStepKeeps(t, l, c);
      case Claimed(_) => ReadStepKeeps(t, l, c);
      case Authorizing(_, _) => ReadStepKeeps(t, l, c);
      case Inspecting(_, _) => ReadStepKeeps(t, l, c);
      case Preparing(_, _) => ReadStepKeeps(t, l, c);
      case Recovering(_, _) => ReadStepKeeps(t, l, c);
      case _ => MoveStepKeeps(t, l, c);
    }
  }

  lemma OnlyCommittingCommits(t: Tables, l: Local, c: Choice)
    ensures WorkerStep(t, l, c).commit.Some? ==> l.Committing?
  {
    hide Publish, CreateRequest, TransitionRequest, Inspect, Recover;
  }

  lemma WorkerStepKeepsCommits(t: Tables, l: Local, c: Choice, log: seq<Commit>)
    requires TablesOk(t) && LocalOk(t, l) && CommitsOk(t, log)
    ensures var out := WorkerStep(t, l, c);
      CommitsOk(out.tables, log + (if out.commit.Some? then [out.commit.value] else []))
  {
    hide TablesOk, Evolves, LocalOk, WorkerStep, VersionMatches;
    var out := WorkerStep(t, l, c);
    WorkerStepKeeps(t, l, c);
    CommitsStable(t, out.tables, log);
    OnlyCommittingCommits(t, l, c);
    if out.commit.Some? {
      CommittingStepKeeps(t, l, c);
      forall i | 0 <= i < |log|
        ensures log[i].id != out.commit.value.id
        ensures log[i].key == out.commit.value.key ==> log[i].after <= out.commit.value.before
      {
        assert CommitOk(t, log[i]);
      }
    } else {
      assert log + [] == log;
    }
  }

  // ----- every action of the machine -----

  lemma LocalOfOk(g: Global, w: nat)
    requires Inv(g)
    ensures LocalOk(g.tables, LocalOf(g, w))
  {
    hide TablesOk, CommitsOk;
  }

  lemma StepKeepsTables(g: Global, a: Action)
    requires Inv(g)
    ensures TablesOk(Step(g, a).tables) && Evolves(g.tables, Step(g, a).tables)
  {
    var t := g.tables;
    EvolvesReflexive(t);
    match a {
      case EditDraft(value, expected, actor, at) =>
        if EditableDraft(value) && Later(t, value.key, at) { SaveDraftKeeps(t, value, expected, actor, at); }
      case DisableTemplate(key, expected, actor, at) =>
        if Later(t, key, at) { DisableKeeps(t, key, expected, actor, at); }
      case SeedTemplate(value, at) => SeedKeeps(t, value, at);
      case StartClaim(w, id, owner, now, expires) => ClaimKeeps(t, id, owner, now, expires);
      case Advance(w, c) => WorkerStepKeeps(t, LocalOf(g, w), c);
      case _ =>
    }
    hide TablesOk, Evolves;
  }

  /** The worker that acts ends in a well-founded local state; every other worker's stays so. */
  lemma StepKeepsLocals(g: Global, a: Action)
    requires Inv(g)
    ensures forall w :: w in Step(g, a).workers ==> LocalOk(Step(g, a).tables, Step(g, a).workers[w])
  {
    StepKeepsTables(g, a);
    var g' := Step(g, a);
    forall w | w in g'.workers ensures LocalOk(g'.tables, g'.workers[w]) {
      if w in g.workers && g'.workers[w] == g.workers[w] {
        LocalStable(g.tables, g'.tables, g.workers[w]);
      } else {
        ActorLocalOk(g, a, w);
      }
    }
  }

  lemma ActorLocalOk(g: Global, a: Action, w: nat)
    requires Inv(g) && w in Step(g, a).workers
    requires w !in g.workers || Step(g, a).workers[w] != g.workers[w]
    ensures LocalOk(Step(g, a).tables, Step(g, a).workers[w])
  {
    hide TablesOk, Evolves, CommitsOk;
    match a {
      case Advance(_, c) => LocalOfOk(g, w); hide WorkerStep; WorkerStepKeeps(g.tables, LocalOf(g, w), c);
      case StartRequest(_, _, key, _, _) => if key in g.tables.records { RecordIsOk(g.tables, key); }
      case _ =>
    }
  }

  lemma StepKeepsInv(g: Global, a: Action)
    requires Inv(g)
    ensures Inv(Step(g, a)) && Evolves(g.tables, Step(g, a).tables)
  {
    hide TablesOk, Evolves, LocalOk, CommitsOk, WorkerStep;
    StepKeepsTables(g, a);
    StepKeepsLocals(g, a);
    if a.Advance? {
      LocalOfOk(g, a.worker);
      WorkerStepKeepsCommits(g.tables, LocalOf(g, a.worker), a.choice, g.commits);
    } else {
      CommitsStable(g.tables, Step(g, a).tables, g.commits);
    }
  }

  lemma {:induction false} RunKeepsInv(g: Global, actions: seq<Action>)
    requires Inv(g)
    ensures Inv(Run(g, actions))
    decreases |actions|
  {
    if actions != [] {
      StepKeepsInv(g, actions[0]);
      RunKeepsInv(Step(g, actions[0]), actions[1..]);
    }
  }

  lemma InitialInv()
    ensures Inv(INITIAL)
  {
  }

  lemma {:induction false} RunAppend(g: Global, first: seq<Action>, second: seq<Action>)
    ensures Run(g, first + second) == Run(Run(g, first), second)
    decreases |first|
  {
    if first == [] {
      assert first + second == second;
    } else {
      assert (first + second)[1..] == first[1..] + second;
      RunAppend(Step(g, first[0]), first[1..], second);
    }
  }

  lemma EvolvesTransitive(a: Tables, b: Tables, c: Tables)
    requires Evolves(a, b) && Evolves(b, c)
    ensures Evolves(a, c)
  {
    forall k | k in a.records ensures k in c.records && RecordEvolves(a.records[k], c.records[k]) {
      assert k in b.records;
    }
    forall kv | kv in a.versions ensures kv in c.versions && c.versions[kv] == a.versions[kv] {
      assert kv in b.versions;
    }
    forall id | id in a.requests ensures id in c.requests && RequestEvolves(a.requests[id], c.requests[id]) {
      assert id in b.requests;
    }
  }

  lemma {:induction false} RunEvolves(g: Global, actions: seq<Action>)
    requires Inv(g)
    ensures Evolves(g.tables, Run(g, actions).tables)
    decreases |actions|
  {
    EvolvesReflexive(g.tables);
    if actions != [] {
      StepKeepsInv(g, actions[0]);
      RunEvolves(Step(g, actions[0]), actions[1..]);
      EvolvesTransitive(g.tables, Step(g, actions[0]).tables, Run(g, actions).tables);
    }
    hide Evolves, Inv, Step;
  }

  // ----- main results, for every run from empty tables -----

  function Reached(actions: seq<Action>): Global {
    Run(INITIAL, actions)
  }

  lemma ReachedInv(actions: seq<Action>)
    ensures Inv(Reached(actions))
  {
    InitialInv();
    RunKeepsInv(INITIAL, actions);
  }

  /** No request ever commits two versions, and every committed publication raises its template's version. */
  lemma AtMostOneVersionPerRequest(actions: seq<Action>)
    ensures var log := Reached(actions).commits;
      && (forall i :: 0 <= i < |log| ==> log[i].before < log[i].after)
      && (forall i, j :: 0 <= i < j < |log| ==> log[i].id != log[j].id)
      && (forall i, j :: 0 <= i < j < |log| && log[i].key == log[j].key ==> log[i].after <= log[j].before)
  {
    ReachedInv(actions);
    var g := Reached(actions);
    forall i | 0 <= i < |g.commits| ensures g.commits[i].before < g.commits[i].after {
      assert CommitOk(g.tables, g.commits[i]);
    }
  }

  /** A worker step inserts a version row exactly when it logs a commit, and the row is the logged one. */
  lemma WorkerStepVersions(t: Tables, l: Local, c: Choice)
    requires TablesOk(t) && LocalOk(t, l)
    ensures var out := WorkerStep(t, l, c);
      if out.commit.None? then out.tables.versions == t.versions
      else
        var kv := (out.commit.value.key, out.commit.value.after);
        kv !in t.versions && out.tables.versions.Keys == t.versions.Keys + {kv}
  {
    hide TablesOk, LocalOk, Inspect, Recover, LocksWithout, Later;
    if l.Committing? {
      CommittingFacts(t, l);
      if t.records[l.seen.key].updatedAt == l.seen.draftUpdatedAt {
        CommitReadsApprovedDraft(t, l);
      }
    }
  }

  /** Apart from seeding, a version row appears only with one logged commit. */
  lemma EveryVersionRowIsLogged(g: Global, a: Action)
    requires Inv(g) && !a.SeedTemplate?
    ensures var g' := Step(g, a);
      if |g'.commits| == |g.commits| then g'.tables.versions == g.tables.versions
      else
        && |g'.commits| == |g.commits| + 1
        && var c := g'.commits[|g.commits|];
           (c.key, c.after) !in g.tables.versions && g'.tables.versions.Keys == g.tables.versions.Keys + {(c.key, c.after)}
  {
    hide TablesOk, LocalOk, CommitsOk, WorkerStep;
    if a.Advance? {
      LocalOfOk(g, a.worker);
      WorkerStepVersions(g.tables, LocalOf(g, a.worker), a.choice);
    }
  }

  /** A published request names a version row holding exactly the content that was approved. */
  lemma PublishedNamesApprovedContent(actions: seq<Action>, id: RequestId)
    ensures var t := Reached(actions).tables;
      id in t.requests && t.requests[id].status == Published ==>
        var r := t.requests[id];
        && (r.key, r.publishedVersion) in t.versions
        && CandidateHash(t.versions[(r.key, r.publishedVersion)].template) == CandidateHash(r.snapshot) == r.candidateHash
  {
    ReachedInv(actions);
    if id in Reached(actions).tables.requests {
      assert RequestOk(Reached(actions).tables, id);
    }
  }

  /** Nobody's own request gets past the queue: every status but pending and cancelled has a second person. */
  lemma ReviewedBySomebodyElse(actions: seq<Action>, id: RequestId)
    ensures var t := Reached(actions).tables;
      id in t.requests && t.requests[id].status != Pending && t.requests[id].status != Cancelled ==>
        t.requests[id].reviewedBy != t.requests[id].requestedBy
  {
    ReachedInv(actions);
    if id in Reached(actions).tables.requests {
      assert RequestOk(Reached(actions).tables, id);
    }
  }

  /** Cancelling records the canceller as reviewer, so the rule survives exactly when that is not the author. */
  lemma CancellationKeepsSecondPersonIff(t: Tables, l: Local, c: Choice)
    requires TablesOk(t) && l.Cancelling? && LocalOk(t, l) && l.id in t.requests && t.requests[l.id].status == l.seen.status && l.id != ""
    ensures var r := WorkerStep(t, l, c).tables.requests[l.id];
      r.status == Cancelled && (r.reviewedBy != r.requestedBy <==> l.actor != t.requests[l.id].requestedBy)
  {
    hide TablesOk;
  }

  lemma RunCons(g: Global, a: Action, rest: seq<Action>)
    ensures Run(g, [a] + rest) == Run(Step(g, a), rest)
  {
    assert ([a] + rest)[1..] == rest;
  }

  predicate OnlyAlices(g: Global) {
    && g.tables.requests.Keys == {"r"} && g.tables.requests["r"].key == "k" && g.tables.locks == map["k" := "r"]
    && "k" in g.tables.records && g.tables.records["k"].draft.Some?
  }

  lemma RequestedByAlice(draft: Template, tick: Choice)
    requires draft.key == "k" && EditableDraft(draft) && tick == Choice(1, true)
    ensures var g := Step(Step(Step(INITIAL, EditDraft(draft, None, "alice", 0)), StartRequest(0, "r", "k", None, "alice")), Advance(0, tick));
      && "r" in g.tables.requests && g.tables.requests["r"].status == Pending && g.tables.requests["r"].requestedBy == "alice"
      && LocalOf(g, 0).Idle? && OnlyAlices(g) && LocalOf(g, 1).Idle?
  {
    var g1 := Step(INITIAL, EditDraft(draft, None, "alice", 0));
    assert "k" in g1.tables.records && g1.tables.records["k"].draft.Some? && LocalOf(g1, 0).Idle? && g1.tables.requests == map[] && g1.tables.locks == map[];
    var g2 := Step(g1, StartRequest(0, "r", "k", None, "alice"));
    assert g2.tables == g1.tables && LocalOf(g2, 0) == Requesting("r", "k", g1.tables.records["k"], None, "alice");
  }

  lemma ApprovedNext(g: Global, tick: Choice)
    requires "r" in g.tables.requests && g.tables.requests["r"].status == Pending && g.tables.requests["r"].requestedBy == "alice"
    requires LocalOf(g, 0).Idle?
    ensures var g' := Step(Step(g, StartApprove(0, "r", "bob")), Advance(0, tick));
      && "r" in g'.tables.requests && g'.tables.requests["r"].status == Scheduled && g'.tables.requests["r"].requestedBy == "alice"
      && LocalOf(g', 0).Idle?
  {
    var g1 := Step(g, StartApprove(0, "r", "bob"));
    assert g1.tables == g.tables && LocalOf(g1, 0) == Approving("r", g.tables.requests["r"], "bob");
  }

  /** Alice drafts and asks, Bob approves: the request is scheduled with Bob as its reviewer. */
  lemma ApprovedByBob(draft: Template) returns (actions: seq<Action>)
    requires draft.key == "k" && EditableDraft(draft)
    ensures var g := Reached(actions);
      && "r" in g.tables.requests && g.tables.requests["r"].status == Scheduled && g.tables.requests["r"].requestedBy == "alice"
      && LocalOf(g, 0).Idle?
  {
    var tick := Choice(1, true);
    var a1, a2, a3 := EditDraft(draft, None, "alice", 0), StartRequest(0, "r", "k", None, "alice"), Advance(0, tick);
    var a4 := StartApprove(0, "r", "bob");
    var g3 := Step(Step(Step(INITIAL, a1), a2), a3);
    RequestedByAlice(draft, tick);
    ApprovedNext(g3, tick);
    hide Step;
    actions := [a1] + ([a2] + ([a3] + ([a4] + ([a3] + []))));
    RunCons(INITIAL, a1, [a2] + ([a3] + ([a4] + ([a3] + []))));
    RunCons(Step(INITIAL, a1), a2, [a3] + ([a4] + ([a3] + [])));
    RunCons(Step(Step(INITIAL, a1), a2), a3, [a4] + ([a3] + []));
    RunCons(g3, a4, [a3] + []);
    RunCons(Step(g3, a4), a3, []);
  }

  /** An approved request whose author cancels it ends with its author as reviewer. */
  lemma AuthorCanReviewByCancelling() returns (approved: seq<Action>, cancelled: seq<Action>)
    ensures "r" in Reached(approved).tables.requests && Reached(approved).tables.requests["r"].status == Scheduled
    ensures approved <= cancelled && "r" in Reached(cancelled).tables.requests
    ensures var r := Reached(cancelled).tables.requests["r"]; r.status == Cancelled && r.reviewedBy == r.requestedBy
  {
    approved := ApprovedByBob(Template("k", "text", [], DraftText, 1, NoDigest));
    var g := Reached(approved);
    var a6, a7 := StartCancel(0, "r", "alice"), Advance(0, Choice(1, true));
    var g7 := Step(Step(g, a6), a7);
    hide Step;
    cancelled := approved + ([a6] + ([a7] + []));
    RunAppend(INITIAL, approved, [a6] + ([a7] + []));
    RunCons(g, a6, [a7] + []);
    RunCons(Step(g, a6), a7, []);
  }

  /** A template is locked exactly when one request of it is open, and the lock names that request. */
  lemma LockedIffOneOpenRequest(actions: seq<Action>, key: Key)
    ensures var t := Reached(actions).tables;
      && (key in t.locks <==> HasOpen(t, key))
      && (forall id :: id in t.requests && t.requests[id].key == key && t.requests[id].status.Open() ==> t.locks[key] == id)
      && (key in t.locks ==> t.locks[key] in t.requests && t.requests[t.locks[key]].key == key && t.requests[t.locks[key]].status.Open())
  {
    ReachedInv(actions);
    var t := Reached(actions).tables;
    if key in t.locks { assert LockOk(t, key); }
    forall id | id in t.requests && t.requests[id].key == key && t.requests[id].status.Open()
      ensures key in t.locks && t.locks[key] == id
    {
      assert RequestOk(t, id);
    }
  }

  lemma RivalKeepsLocal(g: Global, a: Action, me: nat)
    requires !ActsAs(a, me)
    ensures LocalOf(Step(g, a), me) == LocalOf(g, me)
  {
    hide SaveDraft, Disable, Seed, ClaimRequest, WorkerStep;
  }

  lemma {:induction false} RivalsKeepLocal(g: Global, actions: seq<Action>, me: nat)
    requires forall i :: 0 <= i < |actions| ==> !ActsAs(actions[i], me)
    ensures LocalOf(Run(g, actions), me) == LocalOf(g, me)
    decreases |actions|
  {
    hide Step, ActsAs;
    if actions != [] {
      RivalKeepsLocal(g, actions[0], me);
      RivalsKeepLocal(Step(g, actions[0]), actions[1..], me);
    }
  }

  /** A refused insert: the lock row is there, and it names an open request of the template. */
  lemma RefusedByHolder(before: seq<Action>, w: nat, c: Choice)
    requires LocalOf(Reached(before), w).Requesting? && LocalOf(Step(Reached(before), Advance(w, c)), w).Explaining?
    ensures var t, key := Reached(before).tables, LocalOf(Reached(before), w).key;
      && Step(Reached(before), Advance(w, c)).tables == t
      && LocalOf(Step(Reached(before), Advance(w, c)), w) == Explaining(LocalOf(Reached(before), w).id, key)
      && key in t.locks && t.locks[key] in t.requests && t.requests[t.locks[key]].key == key && t.requests[t.locks[key]].status.Open()
  {
    hide Run, HasOpen;
    LockedIffOneOpenRequest(before, LocalOf(Reached(before), w).key);
  }

  /**
   * A refused insert is explained by a query of its own, after the rollback and after whatever rivals did in
   * between. The caller is told of a conflict exactly when the template is locked at that moment, by the
   * request that refused the insert or by a newer one; once that request has ended and no other has been
   * made, the caller gets the plain lock error.
   */
  lemma RefusedLockIsConflictIff(before: seq<Action>, w: nat, c: Choice, between: seq<Action>, c': Choice)
    requires LocalOf(Reached(before), w).Requesting? && LocalOf(Step(Reached(before), Advance(w, c)), w).Explaining?
    requires forall i :: 0 <= i < |between| ==> !ActsAs(between[i], w)
    ensures var key := LocalOf(Reached(before), w).key; var holder := Reached(before).tables.locks[key];
      var g := Run(Step(Reached(before), Advance(w, c)), between); var told := LocalOf(Step(g, Advance(w, c')), w);
      && Step(g, Advance(w, c')).tables == g.tables && told.Told? && told.key == key && holder in g.tables.requests
      && told.error == (if key in g.tables.locks then Conflict else Duplicate)
      && (told.error == Conflict <==> g.tables.requests[holder].status.Open() || (key in g.tables.locks && g.tables.locks[key] != holder))
  {
    hide Run, HasOpen, TablesOk, Evolves;
    var first := Advance(w, c);
    var key, holder := LocalOf(Reached(before), w).key, Reached(before).tables.locks[LocalOf(Reached(before), w).key];
    RefusedByHolder(before, w, c);
    var refused := Step(Reached(before), first);
    var g := Run(refused, between);
    RivalsKeepLocal(refused, between, w);
    RunSnocIs(before, first);
    RunAppend(INITIAL, before + [first], between);
    ReachedInv(before + [first]);
    RunEvolves(refused, between);
    HolderEvolves(refused.tables, g.tables, holder);
    assert g == Reached(before + [first] + between);
    LockedIffOneOpenRequest(before + [first] + between, key);
    if g.tables.requests[holder].status.Open() { OpenIsFound(g.tables, holder); }
    assert LocalOf(Step(g, Advance(w, c')), w) == Told(LocalOf(g, w).id, key, Explanation(g.tables, key));
  }

  lemma CarolIsRefused(g: Global, tick: Choice)
    requires OnlyAlices(g) && g.tables.requests["r"].status == Pending && LocalOf(g, 0).Idle? && LocalOf(g, 1).Idle?
    ensures var g1 := Step(g, StartRequest(1, "s", "k", None, "carol")); var g2 := Step(g1, Advance(1, tick));
      LocalOf(g1, 1).Requesting? && g2.tables == g.tables && LocalOf(g2, 1) == Explaining("s", "k") && LocalOf(g2, 0).Idle?
  {
    var g1 := Step(g, StartRequest(1, "s", "k", None, "carol"));
    assert g1.tables == g.tables && LocalOf(g1, 1) == Requesting("s", "k", g.tables.records["k"], None, "carol") && LocalOf(g1, 0).Idle?;
  }

  lemma AliceCancels(g: Global, tick: Choice)
    requires OnlyAlices(g) && g.tables.requests["r"].status == Pending && LocalOf(g, 0).Idle?
    ensures var g' := Step(Step(g, StartCancel(0, "r", "alice")), Advance(0, tick));
      !HasOpen(g'.tables, "k") && LocalOf(g', 1) == LocalOf(g, 1)
  {
    var g1 := Step(g, StartCancel(0, "r", "alice"));
    assert g1.tables == g.tables && LocalOf(g1, 0) == Cancelling("r", g.tables.requests["r"], "alice");
    var g2 := Step(g1, Advance(0, tick));
    assert g2.tables.requests.Keys == {"r"} && g2.tables.requests["r"].status == Cancelled;
  }

  /** Carol's insert is refused by Alice's open request, and Alice cancels before Carol's query runs. */
  lemma PlainErrorAfterCancellation() returns (before: seq<Action>, between: seq<Action>)
    ensures LocalOf(Reached(before), 1).Requesting? && LocalOf(Step(Reached(before), Advance(1, Choice(1, true))), 1).Explaining?
    ensures forall i :: 0 <= i < |between| ==> !ActsAs(between[i], 1)
    ensures var g := Run(Step(Reached(before), Advance(1, Choice(1, true))), between);
      LocalOf(Step(g, Advance(1, Choice(1, true))), 1) == Told("s", "k", Duplicate)
  {
    hide Step, HasOpen, OnlyAlices;
    var draft, tick := Template("k", "text", [], DraftText, 1, NoDigest), Choice(1, true);
    var a1, a2, a3 := EditDraft(draft, None, "alice", 0), StartRequest(0, "r", "k", None, "alice"), Advance(0, tick);
    var a4, a5, a6 := StartRequest(1, "s", "k", None, "carol"), Advance(1, tick), StartCancel(0, "r", "alice");
    RequestedByAlice(draft, tick);
    var g2 := Step(Step(INITIAL, a1), a2);
    var g3 := Step(g2, a3);
    CarolIsRefused(g3, tick);
    var g4 := Step(g3, a4);
    var g5 := Step(g4, a5);
    SameAlice(g3, g5);
    AliceCancels(g5, tick);
    ToldNext(Step(Step(g5, a6), a3), tick);
    before, between := [a1] + ([a2] + ([a3] + ([a4] + []))), [a6] + ([a3] + []);
    RunCons(INITIAL, a1, [a2] + ([a3] + ([a4] + [])));
    RunCons(Step(INITIAL, a1), a2, [a3] + ([a4] + []));
    RunCons(g2, a3, [a4] + []);
    RunCons(g3, a4, []);
    RunCons(g5, a6, [a3] + []);
    RunCons(Step(g5, a6), a3, []);
  }

  lemma SameAlice(g: Global, g': Global)
    requires OnlyAlices(g) && g'.tables == g.tables
    ensures OnlyAlices(g') && g'.tables.requests["r"] == g.tables.requests["r"]
  {
  }

  lemma ToldNext(g: Global, tick: Choice)
    requires LocalOf(g, 1) == Explaining("s", "k") && !HasOpen(g.tables, "k")
    ensures LocalOf(Step(g, Advance(1, tick)), 1) == Told("s", "k", Duplicate)
  {
  }

  lemma RunSnocIs(before: seq<Action>, a: Action)
    ensures Reached(before + [a]) == Step(Reached(before), a)
  {
    hide Step;
    RunAppend(INITIAL, before, [a]);
    assert Run(Reached(before), [a]) == Run(Step(Reached(before), a), []);
  }

  lemma OpenIsFound(t: Tables, id: RequestId)
    requires id in t.requests && t.requests[id].status.Open()
    ensures HasOpen(t, t.requests[id].key)
  {
  }

  lemma HolderEvolves(t: Tables, t': Tables, id: RequestId)
    requires Evolves(t, t') && id in t.requests
    ensures id in t'.requests && t'.requests[id].key == t.requests[id].key
  {
  }

  /** Terminal requests never change again, and what was seen of a request stays true of it. */
  lemma TerminalIsAbsorbing(before: seq<Action>, after: seq<Action>, id: RequestId)
    requires id in Reached(before).tables.requests
    ensures id in Reached(before + after).tables.requests
    ensures RequestEvolves(Reached(before).tables.requests[id], Reached(before + after).tables.requests[id])
    ensures !Reached(before).tables.requests[id].status.Open() ==>
              Reached(before + after).tables.requests[id] == Reached(before).tables.requests[id]
  {
    ReachedInv(before);
    RunAppend(INITIAL, before, after);
    RunEvolves(Reached(before), after);
    hide Inv;
  }

  /** The step that ends a request also frees its template. */
  lemma EndingReleasesLock(before: seq<Action>, a: Action, id: RequestId)
    requires id in Reached(before).tables.requests && Reached(before).tables.requests[id].status.Open()
    requires id in Reached(before + [a]).tables.requests && !Reached(before + [a]).tables.requests[id].status.Open()
    ensures Reached(before).tables.requests[id].key in Reached(before).tables.locks
    ensures Reached(before).tables.requests[id].key !in Reached(before + [a]).tables.locks
  {
    var key := Reached(before).tables.requests[id].key;
    LockedIffOneOpenRequest(before, key);
    LockedIffOneOpenRequest(before + [a], key);
    ReachedInv(before);
    RunAppend(INITIAL, before, [a]);
    assert Run(Reached(before), [a]) == Step(Reached(before), a);
    LocksOnlyShrinkOrOpenFresh(Reached(before), a, key);
    hide Inv, Run, Step;
  }

  lemma WorkerStepLocks(t: Tables, l: Local, c: Choice, key: Key)
    requires key in t.locks
    ensures var t' := WorkerStep(t, l, c).tables; key in t'.locks ==> t'.locks[key] == t.locks[key]
  {
    hide Inspect, Recover, NewRequest, FinishTransition, PublishedValue;
  }

  lemma LocksOnlyShrinkOrOpenFresh(g: Global, a: Action, key: Key)
    requires key in g.tables.locks
    ensures key in Step(g, a).tables.locks ==> Step(g, a).tables.locks[key] == g.tables.locks[key]
  {
    hide WorkerStep;
    if a.Advance? { WorkerStepLocks(g.tables, LocalOf(g, a.worker), a.choice, key); }
  }

  /** A worker whose fencing token or owner is no longer the row's cannot change anything by finishing. */
  lemma StaleLeaseIsInert(t: Tables, l: Local, c: Choice)
    requires l.Finishing? && l.id in t.requests
    requires !(t.requests[l.id].status == Publishing && t.requests[l.id].leaseOwner == l.seen.leaseOwner
               && t.requests[l.id].fencingToken == l.seen.fencingToken)
    ensures WorkerStep(t, l, c).tables == t
  {
  }

  lemma SuccessfulClaim(g: Global, a: Action)
    requires a.StartClaim? && Step(g, a) != g
    ensures a.id in g.tables.requests && a.id in Step(g, a).tables.requests
    ensures Step(g, a).tables.requests[a.id].fencingToken == g.tables.requests[a.id].fencingToken + 1
  {
  }

  lemma TokensRise(t: Tables, t': Tables, id: RequestId)
    requires Evolves(t, t') && id in t.requests
    ensures id in t'.requests && t.requests[id].fencingToken <= t'.requests[id].fencingToken
  {
  }

  /**
   * Once a claim has succeeded, no row that anybody read before it can finish the request any more: in every
   * continuation the finishing transition of such a snapshot, whatever its outcome, changes no table.
   */
  lemma ClaimOutdatesSnapshots(earlier: seq<Action>, between: seq<Action>, claim: Action, after: seq<Action>, l: Local, c: Choice)
    requires l.Finishing? && l.id in Reached(earlier).tables.requests && l.seen == Reached(earlier).tables.requests[l.id]
    requires claim.StartClaim? && claim.id == l.id && Step(Reached(earlier + between), claim) != Reached(earlier + between)
    ensures var t := Run(Step(Reached(earlier + between), claim), after).tables; WorkerStep(t, l, c).tables == t
  {
    hide Run, Evolves;
    var g := Reached(earlier + between);
    ReachedInv(earlier);
    RunAppend(INITIAL, earlier, between);
    RunEvolves(Reached(earlier), between);
    TokensRise(Reached(earlier).tables, g.tables, l.id);
    SuccessfulClaim(g, claim);
    ReachedInv(earlier + between);
    StepKeepsInv(g, claim);
    RunEvolves(Step(g, claim), after);
    TokensRise(Step(g, claim).tables, Run(Step(g, claim), after).tables, l.id);
    hide Inv, Step;
    var t := Run(Step(g, claim), after).tables;
    assert t.requests[l.id].fencingToken > l.seen.fencingToken;
    StaleLeaseIsInert(t, l, c);
  }

  /**
   * After a crash between publishing and finishing, the next worker adopts the committed version
   * instead of publishing again, as long as nobody has started a new draft.
   */
  lemma TakeoverAdoptsCommit(actions: seq<Action>, i: nat, seen: Request)
    requires i < |Reached(actions).commits|
    requires var t, c := Reached(actions).tables, Reached(actions).commits[i];
      SeenOk(t, c.id, seen) && c.key in t.records && t.records[c.key].draft.None? && t.records[c.key].publishedVersion == c.after
    ensures var t, c := Reached(actions).tables, Reached(actions).commits[i];
      Inspect(t, c.id, seen) == Finishing(c.id, seen, Published, c.after, "")
  {
    ReachedInv(actions);
    var t, c := Reached(actions).tables, Reached(actions).commits[i];
    assert CommitOk(t, c) && RecordOk(t, c.key);
    hide Inv, Reached;
  }
}
