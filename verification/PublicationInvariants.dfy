/** What every reachable state of the publication protocol satisfies, and how tables may evolve. */
module PublicationInvariants {
  import opened Prelude
  import opened TemplateModel
  import opened TemplateStore
  import opened PublicationMachine

  // ----- the tables -----

  predicate RecordOk(t: Tables, k: Key)
    requires k in t.records
  {
    var r := t.records[k];
    && (r.draft.Some? ==> r.draft.value.key == k && EditableDraft(r.draft.value))
    && (r.published.None? ==> r.publishedVersion == 0)
    && (r.published.Some? ==>
          && r.published.value.key == k
          && r.published.value == AsPublished(r.published.value)
          && r.published.value.version == r.publishedVersion >= 1
          && (k, r.publishedVersion) in t.versions
          && t.versions[(k, r.publishedVersion)].template == r.published.value)
  }

  predicate VersionOk(t: Tables, kv: (Key, int))
    requires kv in t.versions
  {
    kv.0 in t.records && 1 <= kv.1 <= t.records[kv.0].publishedVersion
  }

  /** A stored version row carrying exactly the approved content. */
  predicate VersionMatches(t: Tables, key: Key, version: int, hash: Digest) {
    (key, version) in t.versions && CandidateHash(t.versions[(key, version)].template) == hash
  }

  /** The record has moved on from the approved draft, or still holds exactly that draft. */
  predicate DraftLink(t: Tables, key: Key, at: Time, hash: Digest) {
    && key in t.records
    && at <= t.records[key].updatedAt
    && (at == t.records[key].updatedAt ==> t.records[key].draft.Some? && CandidateHash(t.records[key].draft.value) == hash)
  }

  /** Statuses a request can only have after somebody other than its author reviewed it. */
  predicate Reviewed(s: RequestStatus) {
    s.Scheduled? || s.Publishing? || s.Published? || s.Failed? || s.Superseded? || s.Rejected?
  }

  predicate RequestOk(t: Tables, id: RequestId)
    requires id in t.requests
  {
    var r := t.requests[id];
    && r.candidateHash == CandidateHash(r.snapshot)
    && DraftLink(t, r.key, r.draftUpdatedAt, r.candidateHash)
    && (Reviewed(r.status) ==> r.reviewedBy != r.requestedBy)
    && (r.status == Published ==> VersionMatches(t, r.key, r.publishedVersion, r.candidateHash))
    && (r.status == Publishing <==> r.leaseOwner != "")
    && (r.status == Publishing ==> r.fencingToken >= 1)
    && (r.status.Open() ==> r.key in t.locks && t.locks[r.key] == id)
  }

  predicate LockOk(t: Tables, k: Key)
    requires k in t.locks
  {
    t.locks[k] in t.requests && t.requests[t.locks[k]].key == k && t.requests[t.locks[k]].status.Open()
  }

  predicate RecordsOk(t: Tables) {
    && (forall k :: k in t.records ==> RecordOk(t, k))
    && (forall kv :: kv in t.versions ==> VersionOk(t, kv))
  }

  predicate RequestsOk(t: Tables) {
    && (forall id :: id in t.requests ==> RequestOk(t, id))
    && (forall k :: k in t.locks ==> LockOk(t, k))
  }

  predicate TablesOk(t: Tables) {
    RecordsOk(t) && RequestsOk(t)
  }

  // ----- how one state may follow another -----

  predicate RecordEvolves(r: Record, r': Record) {
    r.updatedAt <= r'.updatedAt && r.publishedVersion <= r'.publishedVersion && (r.updatedAt == r'.updatedAt ==> r == r')
  }

  predicate Reaches(s: RequestStatus, s': RequestStatus) {
    match s
    case Pending => true
    case Scheduled => !s'.Pending? && !s'.Rejected?
    case Publishing => s'.Publishing? || s'.Published? || s'.Failed? || s'.Superseded?
    case _ => s' == s
  }

  predicate RequestEvolves(r: Request, r': Request) {
    && r'.key == r.key && r'.snapshot == r.snapshot && r'.candidateHash == r.candidateHash
    && r'.draftUpdatedAt == r.draftUpdatedAt && r'.requestedBy == r.requestedBy && r'.requestedAt == r.requestedAt
    && r.fencingToken <= r'.fencingToken
    && Reaches(r.status, r'.status)
    && (r.status.Publishing? ==> r'.reviewedBy == r.reviewedBy)
    && (r.status.Publishing? && r'.status.Publishing? && r.fencingToken == r'.fencingToken ==> r' == r)
    && (!r.status.Open() ==> r' == r)
  }

  predicate RecordsEvolve(t: Tables, t': Tables) {
    && (forall k :: k in t.records ==> k in t'.records && RecordEvolves(t.records[k], t'.records[k]))
    && (forall kv :: kv in t.versions ==> kv in t'.versions && t'.versions[kv] == t.versions[kv])
  }

  predicate Evolves(t: Tables, t': Tables) {
    && RecordsEvolve(t, t')
    && (forall id :: id in t.requests ==> id in t'.requests && RequestEvolves(t.requests[id], t'.requests[id]))
  }

  // ----- what a worker may rely on between its store calls -----

  /** A row read after a claim: identity as stored, reviewed by somebody else, past the queue. */
  predicate SeenOk(t: Tables, id: RequestId, seen: Request) {
    && id in t.requests
    && seen.key == t.requests[id].key
    && seen.candidateHash == t.requests[id].candidateHash
    && seen.draftUpdatedAt == t.requests[id].draftUpdatedAt
    && seen.requestedBy == t.requests[id].requestedBy
    && seen.reviewedBy == t.requests[id].reviewedBy
    && Reaches(Publishing, seen.status) && Reaches(Publishing, t.requests[id].status)
    && seen.reviewedBy != seen.requestedBy
    && (seen.status.Publishing? <==> seen.leaseOwner != "")
    && seen.key in t.records
    && seen.draftUpdatedAt <= t.records[seen.key].updatedAt
  }

  predicate ReadOk(t: Tables, key: Key, record: Record) {
    && record.draft.Some? && record.draft.value.key == key && EditableDraft(record.draft.value)
    && key in t.records && RecordEvolves(record, t.records[key])
  }

  predicate LocalOk(t: Tables, l: Local) {
    match l
    case Idle => true
    case Requesting(_, key, record, _, _) => ReadOk(t, key, record)
    case Explaining(_, _) => true
    case Told(_, _, _) => true
    case Approving(id, seen, actor) => id in t.requests && t.requests[id].requestedBy == seen.requestedBy != actor
    case Rejecting(id, seen, actor, _) => id in t.requests && t.requests[id].requestedBy == seen.requestedBy != actor
    case Cancelling(id, seen, _) => seen.status.Pending? || seen.status.Scheduled?
    case Claimed(id) => id in t.requests && Reaches(Publishing, t.requests[id].status)
    case Authorizing(id, seen) => SeenOk(t, id, seen)
    case Inspecting(id, seen) => SeenOk(t, id, seen)
    case Preparing(id, seen) => SeenOk(t, id, seen)
    case Committing(id, seen, record) =>
      SeenOk(t, id, seen) && ReadOk(t, seen.key, record) && seen.draftUpdatedAt <= record.updatedAt
      && record.publishedVersion >= 0
    case Recovering(id, seen) => SeenOk(t, id, seen)
    case Finishing(id, seen, outcome, version, _) =>
      SeenOk(t, id, seen) && (outcome.Published? || outcome.Failed? || outcome.Superseded?)
      && (outcome.Published? ==> VersionMatches(t, seen.key, version, seen.candidateHash))
  }

  // ----- the log of committed publications -----

  predicate CommitOk(t: Tables, c: Commit) {
    && c.id in t.requests && t.requests[c.id].key == c.key && c.key in t.records
    && c.before < c.after <= t.records[c.key].publishedVersion
    && VersionMatches(t, c.key, c.after, t.requests[c.id].candidateHash)
    && t.requests[c.id].draftUpdatedAt < t.records[c.key].updatedAt
    && Reaches(Publishing, t.requests[c.id].status)
  }

  predicate CommitsOk(t: Tables, log: seq<Commit>) {
    && (forall i :: 0 <= i < |log| ==> CommitOk(t, log[i]))
    && (forall i, j :: 0 <= i < j < |log| ==>
          log[i].id != log[j].id && (log[i].key == log[j].key ==> log[i].after <= log[j].before))
  }

  predicate Inv(g: Global) {
    && TablesOk(g.tables)
    && (forall w :: w in g.workers ==> LocalOk(g.tables, g.workers[w]))
    && CommitsOk(g.tables, g.commits)
  }

  // ----- stability: facts a worker relies on survive every evolution -----

  lemma LocalStable(t: Tables, t': Tables, l: Local)
    requires Evolves(t, t') && LocalOk(t, l)
    ensures LocalOk(t', l)
  {
    hide SeenOk;
    match l
    case Idle =>
    case Requesting(_, key, _, _, _) => assert key in t.records;
    case Explaining(_, _) =>
    case Told(_, _, _) =>
    case Approving(id, _, _) => assert id in t.requests;
    case Rejecting(id, _, _, _) => assert id in t.requests;
    case Cancelling(_, _, _) =>
    case Claimed(id) => assert id in t.requests;
    case Authorizing(id, seen) => SeenStable(t, t', id, seen);
    case Inspecting(id, seen) => SeenStable(t, t', id, seen);
    case Preparing(id, seen) => SeenStable(t, t', id, seen);
    case Committing(id, seen, _) => SeenStable(t, t', id, seen); assert seen.key in t.records;
    case Recovering(id, seen) => SeenStable(t, t', id, seen);
    case Finishing(id, seen, _, _, _) => SeenStable(t, t', id, seen);
  }

  lemma SeenStable(t: Tables, t': Tables, id: RequestId, seen: Request)
    requires Evolves(t, t') && SeenOk(t, id, seen)
    ensures SeenOk(t', id, seen)
  {
    assert id in t.requests && seen.key in t.records;
  }

  lemma CommitsStable(t: Tables, t': Tables, log: seq<Commit>)
    requires Evolves(t, t') && CommitsOk(t, log)
    ensures CommitsOk(t', log)
  {
    forall i | 0 <= i < |log| ensures CommitOk(t', log[i]) {
      assert CommitOk(t, log[i]);
      assert log[i].id in t.requests && log[i].key in t.records && (log[i].key, log[i].after) in t.versions;
    }
  }

  // ----- each store call keeps the tables well formed and only evolves them -----

  lemma RecordIsOk(t: Tables, k: Key)
    requires TablesOk(t) && k in t.records
    ensures RecordOk(t, k)
  {
  }

  lemma RequestIsOk(t: Tables, id: RequestId)
    requires TablesOk(t) && id in t.requests
    ensures RequestOk(t, id)
  {
  }

  lemma SaveDraftKeeps(t: Tables, value: Template, expected: Option<Time>, actor: string, now: Time)
    requires TablesOk(t) && EditableDraft(value) && Later(t, value.key, now)
    ensures var t' := SaveDraft(t, value, expected, actor, now).0; TablesOk(t') && Evolves(t, t')
  {
    hide TablesOk, Evolves;
    EvolvesReflexive(t);
    if SaveDraft(t, value, expected, actor, now).1.Ok? {
      if value.key in t.records { RecordIsOk(t, value.key); }
      RecordWriteKeeps(t, SaveDraft(t, value, expected, actor, now).0, value.key);
    }
  }

  lemma DisableKeeps(t: Tables, key: Key, expected: Option<Time>, actor: string, now: Time)
    requires TablesOk(t) && Later(t, key, now)
    ensures var t' := Disable(t, key, expected, actor, now).0; TablesOk(t') && Evolves(t, t')
  {
    hide TablesOk, Evolves;
    EvolvesReflexive(t);
    if Disable(t, key, expected, actor, now).1.Ok? {
      RecordIsOk(t, key);
      RecordWriteKeeps(t, Disable(t, key, expected, actor, now).0, key);
    }
  }

  /** Shared by every write of one record row that moves its clock forward. */
  lemma RecordWriteKeeps(t: Tables, t': Tables, key: Key)
    requires TablesOk(t)
    requires t'.requests == t.requests && t'.locks == t.locks
    requires key in t'.records && t'.records == t.records[key := t'.records[key]] && RecordOk(t', key)
    requires key in t.records ==>
               t.records[key].updatedAt < t'.records[key].updatedAt && t.records[key].publishedVersion <= t'.records[key].publishedVersion
    requires forall kv :: kv in t.versions ==> kv in t'.versions && t'.versions[kv] == t.versions[kv]
    requires forall kv :: kv in t'.versions && kv !in t.versions ==> VersionOk(t', kv)
    ensures TablesOk(t') && Evolves(t, t')
  {
    RecordWriteKeepsRecords(t, t', key);
    forall id | id in t'.requests ensures RequestOk(t', id) {
      RequestUntouched(t, t', id);
    }
    forall k | k in t'.locks ensures LockOk(t', k) {
      assert LockOk(t, k);
    }
  }

  lemma RecordWriteKeepsRecords(t: Tables, t': Tables, key: Key)
    requires RecordsOk(t)
    requires key in t'.records && t'.records == t.records[key := t'.records[key]] && RecordOk(t', key)
    requires key in t.records ==>
               t.records[key].updatedAt < t'.records[key].updatedAt && t.records[key].publishedVersion <= t'.records[key].publishedVersion
    requires forall kv :: kv in t.versions ==> kv in t'.versions && t'.versions[kv] == t.versions[kv]
    requires forall kv :: kv in t'.versions && kv !in t.versions ==> VersionOk(t', kv)
    ensures RecordsOk(t') && RecordsEvolve(t, t')
  {
    forall k | k in t'.records ensures RecordOk(t', k) {
      if k != key { assert k in t.records && RecordOk(t, k); }
    }
    forall kv | kv in t'.versions ensures VersionOk(t', kv) {
      if kv in t.versions { assert VersionOk(t, kv); }
    }
  }

  lemma SeedKeeps(t: Tables, value: Template, now: Time)
    requires TablesOk(t)
    ensures var t' := Seed(t, value, now).0; TablesOk(t') && Evolves(t, t')
  {
    hide TablesOk, Evolves;
    EvolvesReflexive(t);
    if value.key !in t.records && Seed(t, value, now).1.Ok? {
      RecordWriteKeeps(t, Seed(t, value, now).0, value.key);
    }
  }

  lemma EvolvesReflexive(t: Tables)
    ensures Evolves(t, t)
  {
  }

  /** Writing a higher published version together with its version row. */
  lemma PublicationWriteKeeps(t: Tables, key: Key, row: Record, version: VersionRow)
    requires TablesOk(t) && key in t.records && (key, row.publishedVersion) !in t.versions
    requires t.records[key].updatedAt < row.updatedAt && t.records[key].publishedVersion < row.publishedVersion && row.publishedVersion >= 1
    requires row.draft.None? && row.published == Some(version.template) && version.template == AsPublished(version.template)
    requires version.template.key == key && version.template.version == row.publishedVersion
    ensures var t' := t.(records := t.records[key := row], versions := t.versions[(key, row.publishedVersion) := version]);
      TablesOk(t') && Evolves(t, t')
  {
    var t' := t.(records := t.records[key := row], versions := t.versions[(key, row.publishedVersion) := version]);
    RecordWriteKeeps(t, t', key);
  }

  lemma PublishKeeps(t: Tables, value: Template, expected: Option<Time>, actor: string, now: Time)
    requires TablesOk(t) && Later(t, value.key, now)
    requires Publish(t, value, expected, actor, now).1.Ok? ==> t.records[value.key].publishedVersion < value.version
    ensures var t' := Publish(t, value, expected, actor, now).0; TablesOk(t') && Evolves(t, t')
  {
    hide TablesOk, Evolves;
    EvolvesReflexive(t);
    if Publish(t, value, expected, actor, now).1.Ok? {
      var stored := AsPublished(value);
      var row := t.records[value.key].(draft := None, published := Some(stored), publishedVersion := value.version,
                                       active := true, updatedBy := actor, updatedAt := now);
      PublicationWriteKeeps(t, value.key, row, VersionRow(stored, actor, now));
    }
  }

  /** An unwritten request row stays well formed while records evolve and its lock stands. */
  lemma RequestUntouched(t: Tables, t': Tables, id: RequestId)
    requires id in t.requests && RequestOk(t, id) && RecordsEvolve(t, t')
    requires id in t'.requests && t'.requests[id] == t.requests[id]
    requires t.requests[id].status.Open() ==> t.requests[id].key in t'.locks && t'.locks[t.requests[id].key] == id
    ensures RequestOk(t', id)
  {
    assert t.requests[id].key in t.records;
  }

  lemma RecordsUntouched(t: Tables, t': Tables)
    requires RecordsOk(t) && t'.records == t.records && t'.versions == t.versions
    ensures RecordsOk(t') && RecordsEvolve(t, t')
  {
    forall k | k in t'.records ensures RecordOk(t', k) { assert RecordOk(t, k); }
    forall kv | kv in t'.versions ensures VersionOk(t', kv) { assert VersionOk(t, kv); }
  }

  lemma CreateKeeps(t: Tables, id: RequestId, request: Request)
    requires TablesOk(t)
    requires request.status.Pending? && request.leaseOwner == "" && request.candidateHash == CandidateHash(request.snapshot)
    requires DraftLink(t, request.key, request.draftUpdatedAt, request.candidateHash)
    ensures var t' := CreateRequest(t, id, request).0; TablesOk(t') && Evolves(t, t')
  {
    if id != "" && request.key != "" && request.key !in t.locks && id !in t.requests {
      InsertKeeps(t, t.(locks := t.locks[request.key := id], requests := t.requests[id := request]), id, request);
    }
  }

  lemma InsertKeeps(t: Tables, t': Tables, id: RequestId, request: Request)
    requires TablesOk(t) && request.key !in t.locks && id !in t.requests
    requires request.status.Pending? && request.leaseOwner == "" && request.candidateHash == CandidateHash(request.snapshot)
    requires DraftLink(t, request.key, request.draftUpdatedAt, request.candidateHash)
    requires t' == t.(locks := t.locks[request.key := id], requests := t.requests[id := request])
    ensures TablesOk(t') && Evolves(t, t')
  {
    RecordsUntouched(t, t');
    InsertKeepsLocks(t, t', id, request);
    InsertEvolves(t, t', id, request);
    hide LockOk, RecordOk, VersionOk, Evolves;
    forall other | other in t'.requests ensures RequestOk(t', other) {
      if other != id {
        RequestUntouched(t, t', other);
      } else {
        InsertedIsOk(t, t', id, request);
      }
    }
    hide RequestOk;
  }

  lemma InsertEvolves(t: Tables, t': Tables, id: RequestId, request: Request)
    requires id !in t.requests && t' == t.(locks := t'.locks, requests := t.requests[id := request])
    ensures Evolves(t, t')
  {
  }

  lemma InsertedIsOk(t: Tables, t': Tables, id: RequestId, request: Request)
    requires request.status.Pending? && request.leaseOwner == "" && request.candidateHash == CandidateHash(request.snapshot)
    requires DraftLink(t, request.key, request.draftUpdatedAt, request.candidateHash)
    requires t' == t.(locks := t.locks[request.key := id], requests := t.requests[id := request])
    ensures RequestOk(t', id)
  {
    assert DraftLink(t', request.key, request.draftUpdatedAt, request.candidateHash);
  }

  lemma InsertKeepsLocks(t: Tables, t': Tables, id: RequestId, request: Request)
    requires RequestsOk(t) && request.key !in t.locks && id !in t.requests && request.status.Pending?
    requires t' == t.(locks := t.locks[request.key := id], requests := t.requests[id := request])
    ensures forall k :: k in t'.locks ==> LockOk(t', k)
  {
    forall k | k in t'.locks ensures LockOk(t', k) {
      if k != request.key { assert LockOk(t, k); }
    }
  }

  /** The moves of a request's status that the application ever asks for, with their evidence. */
  predicate LegalMove(t: Tables, r: Request, x: Transition) {
    match r.status
    case Pending => ((x.status.Scheduled? || x.status.Rejected?) && x.reviewedBy != r.requestedBy) || x.status.Cancelled?
    case Scheduled => x.status.Cancelled?
    case Publishing =>
      && (x.status.Published? || x.status.Failed? || x.status.Superseded?)
      && x.reviewedBy == r.reviewedBy
      && (x.status.Published? ==> VersionMatches(t, r.key, x.publishedVersion, r.candidateHash))
    case _ => false
  }

  lemma TransitionKeeps(t: Tables, id: RequestId, from: RequestStatus, x: Transition)
    requires TablesOk(t)
    requires id in t.requests && t.requests[id].status == from ==> LegalMove(t, t.requests[id], x)
    ensures var t' := TransitionRequest(t, id, from, x).0; TablesOk(t') && Evolves(t, t')
  {
    hide TablesOk, Evolves;
    EvolvesReflexive(t);
    if TransitionRequest(t, id, from, x).1.Ok? {
      RequestIsOk(t, id);
      OneRequestChanged(t, TransitionRequest(t, id, from, x).0, id);
    }
  }

  lemma ClaimKeeps(t: Tables, id: RequestId, owner: string, now: Time, expires: Time)
    requires TablesOk(t)
    ensures var t' := ClaimRequest(t, id, owner, now, expires).0; TablesOk(t') && Evolves(t, t')
  {
    hide TablesOk, Evolves;
    EvolvesReflexive(t);
    if ClaimRequest(t, id, owner, now, expires).1 == Ok(true) {
      RequestIsOk(t, id);
      OneRequestChanged(t, ClaimRequest(t, id, owner, now, expires).0, id);
    }
  }

  /** Shared by every write of one request row: the lock follows the row's openness. */
  lemma OneRequestChanged(t: Tables, t': Tables, id: RequestId)
    requires TablesOk(t) && id in t.requests && id in t'.requests
    requires t'.records == t.records && t'.versions == t.versions && t'.requests == t.requests[id := t'.requests[id]]
    requires t.requests[id].status.Open() && RequestEvolves(t.requests[id], t'.requests[id])
    requires t'.locks == if t'.requests[id].status.Open() then t.locks else LocksWithout(t.locks, id)
    requires Reviewed(t'.requests[id].status) ==> t'.requests[id].reviewedBy != t'.requests[id].requestedBy
    requires t'.requests[id].status == Published ==> VersionMatches(t, t.requests[id].key, t'.requests[id].publishedVersion, t.requests[id].candidateHash)
    requires t'.requests[id].status == Publishing <==> t'.requests[id].leaseOwner != ""
    requires t'.requests[id].status == Publishing ==> t'.requests[id].fencingToken >= 1
    ensures TablesOk(t') && Evolves(t, t')
  {
    RecordsUntouched(t, t');
    hide RecordsOk, RecordsEvolve, LockOk;
    assert RequestOk(t', id) by { OneRequestChangedSelf(t, t', id); }
    OneRequestChangedRow(t, t', id);
    OneRequestChangedLocks(t, t', id);
  }

  lemma OneRequestChangedSelf(t: Tables, t': Tables, id: RequestId)
    requires RequestsOk(t) && RecordsEvolve(t, t') && t'.records == t.records && t'.versions == t.versions
    requires id in t.requests && id in t'.requests
    requires t.requests[id].status.Open() && RequestEvolves(t.requests[id], t'.requests[id])
    requires t'.locks == if t'.requests[id].status.Open() then t.locks else LocksWithout(t.locks, id)
    requires Reviewed(t'.requests[id].status) ==> t'.requests[id].reviewedBy != t'.requests[id].requestedBy
    requires t'.requests[id].status == Published ==> VersionMatches(t, t.requests[id].key, t'.requests[id].publishedVersion, t.requests[id].candidateHash)
    requires t'.requests[id].status == Publishing <==> t'.requests[id].leaseOwner != ""
    requires t'.requests[id].status == Publishing ==> t'.requests[id].fencingToken >= 1
    ensures RequestOk(t', id)
  {
    assert RequestOk(t, id);
  }

  lemma OneRequestChangedRow(t: Tables, t': Tables, id: RequestId)
    requires RequestsOk(t) && RecordsEvolve(t, t') && id in t.requests && id in t'.requests && RequestOk(t', id)
    requires t'.requests == t.requests[id := t'.requests[id]]
    requires t'.locks == if t'.requests[id].status.Open() then t.locks else LocksWithout(t.locks, id)
    ensures forall other :: other in t'.requests ==> RequestOk(t', other)
  {
    hide RecordsEvolve;
    forall other | other in t'.requests ensures RequestOk(t', other) {
      if other != id {
        assert RequestOk(t, other);
        RequestUntouched(t, t', other);
      }
    }
  }

  lemma OneRequestChangedLocks(t: Tables, t': Tables, id: RequestId)
    requires RequestsOk(t) && id in t.requests && id in t'.requests && t'.requests[id].key == t.requests[id].key
    requires t'.requests == t.requests[id := t'.requests[id]]
    requires t'.locks == if t'.requests[id].status.Open() then t.locks else LocksWithout(t.locks, id)
    ensures forall k :: k in t'.locks ==> LockOk(t', k)
  {
    hide RequestOk;
    forall k | k in t'.locks ensures LockOk(t', k) { assert LockOk(t, k); }
  }
}
