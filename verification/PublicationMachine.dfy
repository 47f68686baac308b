/**
 * The publication protocol as a machine: shared tables, any number of workers, and one
 * atomic step per store statement or transaction. A worker only remembers rows it read earlier.
 */
module PublicationMachine {
  import opened Prelude
  import opened TemplateModel
  import opened TemplateStore

  /** Where a worker stands between two store calls, with the rows it has read so far. */
  datatype Local =
    | Idle
    | Requesting(id: RequestId, key: Key, record: Record, scheduledFor: Option<Time>, actor: string)
    | Explaining(id: RequestId, key: Key)
    | Told(id: RequestId, key: Key, error: StoreError)
    | Approving(id: RequestId, seen: Request, actor: string)
    | Rejecting(id: RequestId, seen: Request, actor: string, reason: string)
    | Cancelling(id: RequestId, seen: Request, actor: string)
    | Claimed(id: RequestId)
    | Authorizing(id: RequestId, seen: Request)
    | Inspecting(id: RequestId, seen: Request)
    | Preparing(id: RequestId, seen: Request)
    | Committing(id: RequestId, seen: Request, record: Record)
    | Recovering(id: RequestId, seen: Request)
    | Finishing(id: RequestId, seen: Request, outcome: RequestStatus, version: int, failure: string)

  /** One committed approved publication: for which request, and the version numbers around it. */
  datatype Commit = Commit(id: RequestId, key: Key, before: int, after: int)

  datatype Global = Global(tables: Tables, workers: map<nat, Local>, commits: seq<Commit>)

  /** What the environment decides during a worker's step: the clock, and yes/no answers. */
  datatype Choice = Choice(now: Time, yes: bool)

  datatype Action =
    | EditDraft(value: Template, expected: Option<Time>, actor: string, at: Time)
    | DisableTemplate(key: Key, expected: Option<Time>, actor: string, at: Time)
    | SeedTemplate(value: Template, at: Time)
    | StartRequest(worker: nat, id: RequestId, key: Key, scheduledFor: Option<Time>, actor: string)
    | StartApprove(worker: nat, id: RequestId, actor: string)
    | StartReject(worker: nat, id: RequestId, actor: string, reason: string)
    | StartCancel(worker: nat, id: RequestId, actor: string)
    | StartClaim(worker: nat, id: RequestId, owner: string, now: Time, expires: Time)
    | Advance(worker: nat, choice: Choice)
    | Crash(worker: nat)

  /** Which worker an action belongs to; edits, disables and seeds belong to none. */
  predicate ActsAs(a: Action, w: nat) {
    match a
    case EditDraft(_, _, _, _) => false
    case DisableTemplate(_, _, _, _) => false
    case SeedTemplate(_, _) => false
    case _ => a.worker == w
  }

  const INITIAL := Global(EMPTY_TABLES, map[], [])

  function LocalOf(g: Global, w: nat): Local {
    if w in g.workers then g.workers[w] else Idle
  }

  /** The stated clock assumption: a committed record write gets a later updated_at than the row had. */
  predicate Later(t: Tables, key: Key, now: Time) {
    key in t.records ==> t.records[key].updatedAt < now
  }

  /** Draft text reaches the store with its draft status and a version of at least one. */
  predicate EditableDraft(value: Template) {
    value.version >= 1 && value.status == DraftText
  }

  function NewRequest(l: Local, now: Time): Request
    requires l.Requesting? && l.record.draft.Some?
  {
    var snapshot := l.record.draft.value.(key := l.key, status := DraftText);
    Request(l.key, snapshot, CandidateHash(snapshot), l.record.updatedAt, Pending, l.scheduledFor, l.actor, now, "", None,
            0, "", "", None, 0, now)
  }

  /** The version a draft is published as: its own number unless the record already reached it. */
  function NextVersion(record: Record): int
    requires record.draft.Some?
  {
    if record.draft.value.version <= record.publishedVersion then record.publishedVersion + 1 else record.draft.value.version
  }

  function PublishedValue(record: Record): Template
    requires record.draft.Some?
  {
    AsPublished(record.draft.value.(version := NextVersion(record)))
  }

  /** What a claimed request comes to when the worker inspects the record. */
  function Inspect(t: Tables, id: RequestId, seen: Request): Local {
    if seen.key in t.records then
      var record := t.records[seen.key];
      if record.published.Some? && CandidateHash(record.published.value) == seen.candidateHash && record.draft.None? then
        Finishing(id, seen, Published, record.publishedVersion, "")
      else if record.draft.None? || record.updatedAt != seen.draftUpdatedAt || CandidateHash(record.draft.value) != seen.candidateHash then
        Finishing(id, seen, Superseded, 0, "backend.notification.publication_candidate_changed")
      else Preparing(id, seen)
    else Finishing(id, seen, Superseded, 0, "backend.notification.publication_candidate_changed")
  }

  /** After a failed publish call: adopt a published version with the approved content, else fail. */
  function Recover(t: Tables, id: RequestId, seen: Request): Local {
    if seen.key in t.records && t.records[seen.key].published.Some?
       && CandidateHash(t.records[seen.key].published.value) == seen.candidateHash then
      Finishing(id, seen, Published, t.records[seen.key].publishedVersion, "")
    else Finishing(id, seen, Failed, 0, "backend.notification.publication_failed")
  }

  function FinishTransition(l: Local, now: Time): Transition
    requires l.Finishing?
  {
    Transition(l.outcome, l.seen.scheduledFor, l.seen.reviewedBy, l.seen.reviewedAt, l.version, l.failure,
               l.seen.leaseOwner, l.seen.fencingToken, now)
  }

  function ApproveTransition(l: Local, now: Time): Transition
    requires l.Approving?
  {
    Transition(Scheduled, if l.seen.scheduledFor.Some? then l.seen.scheduledFor else Some(now), l.actor, Some(now), 0, "", "", 0, now)
  }

  function RejectTransition(l: Local, now: Time): Transition
    requires l.Rejecting?
  {
    Transition(Rejected, None, l.actor, Some(now), 0, l.reason, "", 0, now)
  }

  function CancelTransition(l: Local, now: Time): Transition
    requires l.Cancelling?
  {
    Transition(Cancelled, None, l.actor, Some(now), 0, "", "", 0, now)
  }

  /** One worker step: the tables and local state it leaves, and the version it committed, if any. */
  datatype Outcome = Outcome(tables: Tables, local: Local, commit: Option<Commit>)

  function WorkerStep(t: Tables, l: Local, c: Choice): Outcome {
    match l
    case Idle => Outcome(t, Idle, None)
    case Requesting(id, _, record, _, _) =>
      if record.draft.None? then Outcome(t, Idle, None)
      else
        var done := CreateRequest(t, id, NewRequest(l, c.now));
        Outcome(done.0, if done.1.LockTaken? then Explaining(id, l.key) else Idle, None)
    case Explaining(id, key) => Outcome(t, Told(id, key, Explanation(t, key)), None)
    case Told(_, _, _) => Outcome(t, Idle, None)
    case Approving(id, _, _) => Outcome(TransitionRequest(t, id, Pending, ApproveTransition(l, c.now)).0, Idle, None)
    case Rejecting(id, _, _, _) => Outcome(TransitionRequest(t, id, Pending, RejectTransition(l, c.now)).0, Idle, None)
    case Cancelling(id, seen, _) => Outcome(TransitionRequest(t, id, seen.status, CancelTransition(l, c.now)).0, Idle, None)
    case Claimed(id) => Outcome(t, if id in t.requests then Authorizing(id, t.requests[id]) else Idle, None)
    case Authorizing(id, seen) =>
      Outcome(t, if c.yes then Inspecting(id, seen)
                 else Finishing(id, seen, Failed, 0, "backend.notification.publication_authorization_revoked"), None)
    case Inspecting(id, seen) => Outcome(t, Inspect(t, id, seen), None)
    case Preparing(id, seen) =>
      // The read inside the publish call, then validation, which may refuse the draft.
      Outcome(t, if seen.key in t.records && t.records[seen.key].draft.Some? && c.yes
                 then Committing(id, seen, t.records[seen.key]) else Recovering(id, seen), None)
    case Committing(id, seen, record) =>
      if record.draft.None? || !Later(t, seen.key, c.now) then Outcome(t, l, None)
      else
        var done := Publish(t, PublishedValue(record), Some(seen.draftUpdatedAt), seen.reviewedBy, c.now);
        if done.1.Err? || seen.key !in t.records then Outcome(done.0, Recovering(id, seen), None)
        else
          // The in-memory catalog may still refuse the committed version.
          Outcome(done.0, if c.yes then Finishing(id, seen, Published, done.1.value.publishedVersion, "") else Recovering(id, seen),
                  Some(Commit(id, seen.key, t.records[seen.key].publishedVersion, done.1.value.publishedVersion)))
    case Recovering(id, seen) => Outcome(t, Recover(t, id, seen), None)
    case Finishing(id, _, _, _, _) => Outcome(TransitionRequest(t, id, Publishing, FinishTransition(l, c.now)).0, Idle, None)
  }

  function Step(g: Global, a: Action): Global {
    match a
    case EditDraft(value, expected, actor, at) =>
      if EditableDraft(value) && Later(g.tables, value.key, at)
      then g.(tables := SaveDraft(g.tables, value, expected, actor, at).0) else g
    case DisableTemplate(key, expected, actor, at) =>
      if Later(g.tables, key, at) then g.(tables := Disable(g.tables, key, expected, actor, at).0) else g
    case SeedTemplate(value, at) => g.(tables := Seed(g.tables, value, at).0)
    case StartRequest(w, id, key, scheduledFor, actor) =>
      if LocalOf(g, w).Idle? && key in g.tables.records && g.tables.records[key].draft.Some? && actor != ""
      then g.(workers := g.workers[w := Requesting(id, key, g.tables.records[key], scheduledFor, actor)]) else g
    case StartApprove(w, id, actor) =>
      if LocalOf(g, w).Idle? && id in g.tables.requests && g.tables.requests[id].requestedBy != actor && g.tables.requests[id].status == Pending
      then g.(workers := g.workers[w := Approving(id, g.tables.requests[id], actor)]) else g
    case StartReject(w, id, actor, reason) =>
      if LocalOf(g, w).Idle? && reason != "" && id in g.tables.requests && g.tables.requests[id].requestedBy != actor
      then g.(workers := g.workers[w := Rejecting(id, g.tables.requests[id], actor, reason)]) else g
    case StartCancel(w, id, actor) =>
      if LocalOf(g, w).Idle? && id in g.tables.requests && (g.tables.requests[id].status == Pending || g.tables.requests[id].status == Scheduled)
      then g.(workers := g.workers[w := Cancelling(id, g.tables.requests[id], actor)]) else g
    case StartClaim(w, id, owner, now, expires) =>
      var claim := ClaimRequest(g.tables, id, owner, now, expires);
      if LocalOf(g, w).Idle? && claim.1 == Ok(true)
      then g.(tables := claim.0, workers := g.workers[w := Claimed(id)]) else g
    case Advance(w, c) =>
      var out := WorkerStep(g.tables, LocalOf(g, w), c);
      Global(out.tables, g.workers[w := out.local], g.commits + (if out.commit.Some? then [out.commit.value] else []))
    case Crash(w) => g.(workers := g.workers[w := Idle])
  }

  function Run(g: Global, actions: seq<Action>): Global
    decreases |actions|
  {
    if actions == [] then g else Run(Step(g, actions[0]), actions[1..])
  }
}
