/** The leased row shared by the event queue and the channel-plan queue: claim, fence, retry, end. */
module Leases {
  import opened Prelude

  datatype Phase = Queued | Processing | Ended(how: string)

  datatype Lease = Lease(
    phase: Phase, attempts: nat, nextAttemptAt: Option<Time>, lastError: string,
    owner: string, expires: Option<Time>, token: nat, updatedAt: Time)

  function NewLease(next: Option<Time>, at: Time): Lease {
    Lease(Queued, 0, next, "", "", None, 0, at)
  }

  predicate Due(l: Lease, now: Time) {
    (l.phase.Queued? && DueBy(l.nextAttemptAt, now)) || (l.phase.Processing? && DueBy(l.expires, now))
  }

  function Claimed(l: Lease, owner: string, now: Time, expires: Time): Lease {
    l.(phase := Processing, owner := owner, expires := Some(expires), token := l.token + 1, updatedAt := now)
  }

  /** The predicate of every finishing UPDATE: still processing, under the owner and token that were read. */
  predicate Holds(l: Lease, seen: Lease) {
    l.phase.Processing? && l.owner == seen.owner && l.token == seen.token
  }

  function Released(l: Lease, to: Phase, failures: nat, next: Option<Time>, error: string, at: Time): Lease {
    l.(phase := to, attempts := l.attempts + failures, nextAttemptAt := next, lastError := error, owner := "", expires := None, updatedAt := at)
  }

  /** Each token is spent on at most one failure, and only a processing row has an owner. */
  predicate LeaseOk(l: Lease) {
    && l.attempts <= l.token
    && (l.phase.Processing? <==> l.owner != "")
    && (l.phase.Processing? ==> l.attempts < l.token)
  }

  /** How a leased row may change over any number of statements. */
  predicate LeaseEvolves(l: Lease, l': Lease) {
    && l.token <= l'.token && l.attempts <= l'.attempts
    && (l.phase.Ended? ==> l' == l)
    && (l.token == l'.token && (l'.phase.Processing? || !l.phase.Processing?) ==> l' == l)
  }

  /** A lease read at some earlier moment: it is the current one, or it can no longer be honoured. */
  predicate SeenLease(seen: Lease, l: Lease) {
    LeaseEvolves(seen, l)
  }

  lemma EvolvesTransitively(a: Lease, b: Lease, c: Lease)
    requires LeaseEvolves(a, b) && LeaseEvolves(b, c)
    ensures LeaseEvolves(a, c)
  {
  }

  /** A snapshot that still satisfies the UPDATE's predicate is the row itself. */
  lemma HolderSeesTheRow(seen: Lease, l: Lease)
    requires SeenLease(seen, l) && Holds(l, seen)
    ensures seen == l
  {
  }

  lemma ClaimKeepsLease(l: Lease, owner: string, now: Time, expires: Time)
    requires LeaseOk(l) && Due(l, now) && owner != ""
    ensures LeaseOk(Claimed(l, owner, now, expires)) && LeaseEvolves(l, Claimed(l, owner, now, expires))
  {
  }

  lemma ReleaseKeepsLease(l: Lease, to: Phase, failures: nat, next: Option<Time>, error: string, at: Time)
    requires LeaseOk(l) && l.phase.Processing? && !to.Processing? && failures <= 1
    ensures var l' := Released(l, to, failures, next, error, at); LeaseOk(l') && LeaseEvolves(l, l')
  {
  }
}
