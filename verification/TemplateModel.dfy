/** Templates, their stored records and version rows, and publication requests. */
module TemplateModel {
  import opened Prelude

  type Key = string
  type RequestId = string

  datatype TemplateStatus = DraftText | PublishedText

  /** A digest is its own preimage, so equal digests mean equal inputs. */
  datatype Digest =
    | NoDigest
    | Digest(key: Key, content: string, fallbacks: seq<Key>, status: TemplateStatus, version: int)

  datatype Template = Template(
    key: Key, content: string, fallbacks: seq<Key>, status: TemplateStatus, version: int, contentHash: Digest)

  function ContentHash(t: Template): Digest {
    Digest(t.key, t.content, t.fallbacks, t.status, t.version)
  }

  /** The hash an approval is about: it ignores status, version number and content hash. */
  function CandidateHash(t: Template): Digest {
    Digest(t.key, t.content, t.fallbacks, DraftText, 0)
  }

  /** What publication stores: status and content hash are always recomputed. */
  function AsPublished(t: Template): Template {
    var u := t.(status := PublishedText);
    u.(contentHash := ContentHash(u))
  }

  datatype Record = Record(
    draft: Option<Template>, published: Option<Template>, publishedVersion: int,
    active: bool, updatedBy: string, createdAt: Time, updatedAt: Time)

  datatype VersionRow = VersionRow(template: Template, publishedBy: string, publishedAt: Time)

  datatype RequestStatus = Pending | Scheduled | Publishing | Published | Rejected | Cancelled | Failed | Superseded {
    /** The three statuses under which the template stays locked. */
    predicate Open() { Pending? || Scheduled? || Publishing? }
  }

  datatype Request = Request(
    key: Key, snapshot: Template, candidateHash: Digest, draftUpdatedAt: Time, status: RequestStatus,
    scheduledFor: Option<Time>, requestedBy: string, requestedAt: Time, reviewedBy: string, reviewedAt: Option<Time>,
    publishedVersion: int, failure: string,
    leaseOwner: string, leaseExpiresAt: Option<Time>, fencingToken: nat, updatedAt: Time)

  /** The columns a status transition writes, and the lease it expects to find. */
  datatype Transition = Transition(
    status: RequestStatus, scheduledFor: Option<Time>, reviewedBy: string, reviewedAt: Option<Time>,
    publishedVersion: int, failure: string, expectedOwner: string, expectedToken: nat, updatedAt: Time)

  /** The four publication tables of one workspace, keyed by their unique keys. */
  datatype Tables = Tables(
    records: map<Key, Record>,
    versions: map<(Key, int), VersionRow>,
    requests: map<RequestId, Request>,
    locks: map<Key, RequestId>)

  const EMPTY_TABLES := Tables(map[], map[], map[], map[])
}
