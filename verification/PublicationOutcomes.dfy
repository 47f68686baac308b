/**
 * What the publication calls come to when nobody else moves meanwhile, column by column: the end of a
 * claimed request, the review of a pending one, and the request itself.
 */
module PublicationOutcomes {
  import opened Prelude
  import opened TemplateModel

  const REVOKED := "backend.notification.publication_authorization_revoked"
  const CHANGED := "backend.notification.publication_candidate_changed"
  const FAILED := "backend.notification.publication_failed"

  // ----- the end of a claimed request -----

  /** The stored request is the row that was read, and it carries a lease. */
  ghost predicate Held(t: Tables, id: RequestId, seen: Request) {
    id != "" && id in t.requests && t.requests[id] == seen && seen.status == Publishing && seen.leaseOwner != "" && seen.fencingToken > 0
  }

  ghost predicate SameRecords(t: Tables, t': Tables) {
    t'.records == t.records && t'.versions == t.versions
  }

  /** The request ends, gives up its lease and its lock, and no other request or lock moves. */
  ghost predicate EndsAs(t: Tables, id: RequestId, seen: Request, status: RequestStatus, version: int, failure: string, now: Time, t': Tables) {
    && t'.requests == t.requests[id := seen.(status := status, publishedVersion := version, failure := failure,
                                             leaseOwner := "", leaseExpiresAt := None, updatedAt := now)]
    && (forall k :: k in t'.locks <==> k in t.locks && t.locks[k] != id)
    && (forall k :: k in t'.locks ==> t'.locks[k] == t.locks[k])
  }

  /** The record's published template has the approved content and no newer draft stands beside it. */
  ghost predicate AlreadyPublished(t: Tables, seen: Request) {
    HasApproved(t, seen) && t.records[seen.key].draft.None?
  }

  ghost predicate HasApproved(t: Tables, seen: Request) {
    seen.key in t.records && t.records[seen.key].published.Some? && SameContent(t.records[seen.key].published.value, seen.snapshot)
  }

  /** What an approval is about. */
  ghost predicate SameContent(a: Template, b: Template) {
    a.key == b.key && a.content == b.content && a.fallbacks == b.fallbacks
  }

  /** The record still is the one that was approved. */
  ghost predicate StillApproved(t: Tables, seen: Request) {
    && seen.key in t.records && t.records[seen.key].draft.Some?
    && t.records[seen.key].updatedAt == seen.draftUpdatedAt && SameContent(t.records[seen.key].draft.value, seen.snapshot)
  }

  /**
   * The draft has become the record's published template and one new version row, under the least number that
   * is above the published version and not below the draft's own.
   */
  ghost predicate Committed(t: Tables, key: Key, reviewer: string, now: Time, t': Tables) {
    && key in t.records && t.records[key].draft.Some? && key in t'.records && t'.records[key].published.Some?
    && var r, r' := t.records[key], t'.records[key];
       var d, p := r.draft.value, r'.published.value;
       && SameContent(p, d) && p.status == PublishedText && p.version == r'.publishedVersion && p.contentHash == ContentHash(p)
       && r'.publishedVersion == (if d.version > r.publishedVersion then d.version else r.publishedVersion + 1)
       && (key, r'.publishedVersion) !in t.versions
       && r'.draft == None && r'.active && r'.updatedBy == reviewer && r'.createdAt == r.createdAt
       && r.updatedAt < r'.updatedAt && (r.updatedAt < now ==> r'.updatedAt == now)
       && t'.records == t.records[key := r']
       && t'.versions == t.versions[(key, r'.publishedVersion) := VersionRow(p, reviewer, r'.updatedAt)]
  }

  /** How a claimed request ends, by what the worker is allowed to do and what it finds in the record. */
  ghost predicate Concludes(t: Tables, id: RequestId, seen: Request, allowed: bool, valid: bool, now: Time, t': Tables) {
    if !allowed then SameRecords(t, t') && EndsAs(t, id, seen, Failed, 0, REVOKED, now, t')
    else if AlreadyPublished(t, seen) then SameRecords(t, t') && EndsAs(t, id, seen, Published, t.records[seen.key].publishedVersion, "", now, t')
    else if !StillApproved(t, seen) then SameRecords(t, t') && EndsAs(t, id, seen, Superseded, 0, CHANGED, now, t')
    else if valid && seen.key != "" && seen.reviewedBy != "" then
      Committed(t, seen.key, seen.reviewedBy, now, t') && EndsAs(t, id, seen, Published, t'.records[seen.key].publishedVersion, "", now, t')
    else if HasApproved(t, seen) then SameRecords(t, t') && EndsAs(t, id, seen, Published, t.records[seen.key].publishedVersion, "", now, t')
    else SameRecords(t, t') && EndsAs(t, id, seen, Failed, 0, FAILED, now, t')
  }

  /** Scheduled for a time that has come, or publishing under a lease that has run out. */
  ghost predicate Ready(t: Tables, id: RequestId, now: Time) {
    && id != "" && id in t.requests
    && var r := t.requests[id];
       || (r.status == Scheduled && (r.scheduledFor == None || r.scheduledFor.value <= now))
       || (r.status == Publishing && (r.leaseExpiresAt == None || r.leaseExpiresAt.value <= now))
  }

  /** One due request from claim to end. */
  ghost predicate Processed(t: Tables, id: RequestId, owner: string, allowed: bool, valid: bool, now: Time, expires: Time, t': Tables) {
    && id in t.requests
    && var r := t.requests[id];
       var seen := r.(status := Publishing, leaseOwner := owner, leaseExpiresAt := Some(expires), fencingToken := r.fencingToken + 1, updatedAt := now);
       Concludes(t.(requests := t.requests[id := seen]), id, seen, allowed, valid, now, t')
  }

  // ----- reviews and requests -----

  /** Nothing but one request's review columns has changed, and its lock is gone if that ended it. */
  ghost predicate ReviewedAs(t: Tables, id: RequestId, status: RequestStatus, scheduledFor: Option<Time>, actor: string, reason: string, now: Time, t': Tables) {
    && id in t.requests
    && SameRecords(t, t')
    && t'.requests == t.requests[id := t.requests[id].(status := status, scheduledFor := scheduledFor, reviewedBy := actor, reviewedAt := Some(now),
                                                       publishedVersion := 0, failure := reason, leaseOwner := "", leaseExpiresAt := None, updatedAt := now)]
    && (forall k :: k in t'.locks <==> k in t.locks && (status == Scheduled || t.locks[k] != id))
    && (forall k :: k in t'.locks ==> t'.locks[k] == t.locks[k])
  }

  ghost predicate OpenRequest(t: Tables, key: Key) {
    exists id :: id in t.requests && t.requests[id].key == key && t.requests[id].status in {Pending, Scheduled, Publishing}
  }

  /** The request and its lock are new, the candidate is the record's draft, and nothing else has changed. */
  ghost predicate RequestedAs(t: Tables, id: RequestId, key: Key, scheduledFor: Option<Time>, actor: string, now: Time, t': Tables) {
    && key in t.records && t.records[key].draft.Some? && id !in t.requests && id in t'.requests
    && SameRecords(t, t') && t'.locks == t.locks[key := id] && t'.requests == t.requests[id := t'.requests[id]]
    && var d, r := t.records[key].draft.value, t'.requests[id];
       && r.key == key && r.snapshot.key == key && r.snapshot.content == d.content && r.snapshot.fallbacks == d.fallbacks
       && r.snapshot.status == DraftText && r.snapshot.version == d.version && r.candidateHash == CandidateHash(r.snapshot)
       && r.draftUpdatedAt == t.records[key].updatedAt && r.status == Pending && r.scheduledFor == scheduledFor
       && r.requestedBy == actor && r.requestedAt == r.updatedAt == now && r.reviewedBy == "" && r.reviewedAt == None
       && r.publishedVersion == 0 && r.failure == "" && r.leaseOwner == "" && r.leaseExpiresAt == None && r.fencingToken == 0
  }

  /** Equal candidate hashes mean equal content, whatever the status, version and content hash. */
  lemma SameCandidateIff(a: Template, b: Template)
    ensures CandidateHash(a) == CandidateHash(b) <==> SameContent(a, b)
  {
  }
}
