/** Policy evaluation before a dispatch: opt-outs, then reservations, then quiet hours. */
module DeliveryPolicy {
  import opened Prelude
  import opened Reservations
  import EventTables
  import PlanQueue
  import DigestBatches
  import Timestamps
  import Users
  import QuietHours

  datatype Preference = Preference(enabled: map<string, bool>, muted: seq<string>)

  datatype Policy = Policy(
    enabled: bool, limit: int, window: int, quietEnabled: bool, quiet: QuietHours.Policy, fallbacks: seq<string>)

  datatype Evaluation = Evaluation(
    workspace: string, template: string, channel: string, recipients: seq<string>, dedupe: string, key: string)

  datatype Decision = Decision(fallbacks: seq<string>, deliverAfter: Option<Time>)

  predicate OptedOut(p: Preference, e: Evaluation) {
    (e.channel in p.enabled && !p.enabled[e.channel]) || e.template in p.muted
  }

  predicate Refused(preferences: map<string, Preference>, e: Evaluation) {
    exists u :: u in Users.Unique(e.recipients) && u in preferences && OptedOut(preferences[u], e)
  }

  /** A blank reservation key falls back to the evaluation's own timestamp. */
  function ReservationFor(e: Evaluation, recipient: string, keyAt: Time -> string, now: Time): Reservation {
    Reservation(ReservationId(e.workspace, recipient, e.template, e.channel, e.dedupe, if e.key == "" then keyAt(now) else e.key),
                recipient, e.template, e.channel, e.dedupe, Some(now))
  }

  function ReservationsFor(e: Evaluation, keyAt: Time -> string, now: Time): seq<Reservation> {
    var users := Users.Unique(e.recipients);
    seq(|users|, i requires 0 <= i < |users| => ReservationFor(e, users[i], keyAt, now))
  }

  /** Refused or malformed evaluations, and evaluations under a disabled policy, reserve nothing. */
  function Evaluate(rows: seq<Row>, e: Evaluation, policy: Policy, preferences: map<string, Preference>, keyAt: Time -> string, now: Time):
    (seq<Row>, Result<Decision>)
  {
    if e.workspace == "" || e.template == "" || e.channel == "" || Users.Unique(e.recipients) == [] then (rows, Err(Invalid))
    else if !policy.enabled then (rows, Ok(Decision([], None)))
    else if Refused(preferences, e) then (rows, Err(Conflict))
    else if policy.limit < 1 then (rows, Err(Invalid))
    else
      match ReserveAll(rows, ReservationsFor(e, keyAt, now), policy.limit, policy.window)
      case Err(error) => (rows, Err(error))
      case Ok(more) =>
        (more, Ok(Decision(policy.fallbacks, if policy.quietEnabled then QuietHours.NextQuietHoursEnd(now, policy.quiet) else None)))
  }

  class PolicyManager {
    const store: ReservationStore
    const keyAt: Time -> string
    var policy: Policy
    var preferences: map<string, Preference>

    constructor (store: ReservationStore, keyAt: Time -> string, policy: Policy)
      ensures this.store == store && this.policy == policy && preferences == map[]
    {
      this.store, this.keyAt, this.policy := store, keyAt, policy;
      preferences := map[];
    }

    method EvaluateDelivery(e: Evaluation, now: Time) returns (result: Result<Decision>)
      modifies store
      ensures (store.rows, result) == Evaluate(old(store.rows), e, policy, preferences, keyAt, now)
    {
      if e.workspace == "" || e.template == "" || e.channel == "" {
        return Err(Invalid);
      }
      var recipients := Users.UniqueUsers(e.recipients);
      if |recipients| == 0 {
        return Err(Invalid);
      }
      if !policy.enabled {
        return Ok(Decision([], None));
      }
      var reservations := [];
      for i := 0 to |recipients|
        invariant reservations == ReservationsFor(e, keyAt, now)[..i]
        invariant forall j :: 0 <= j < i ==> recipients[j] !in preferences || !OptedOut(preferences[recipients[j]], e)
      {
        if recipients[i] in preferences {
          var preference := preferences[recipients[i]];
          if (e.channel in preference.enabled && !preference.enabled[e.channel]) || e.template in preference.muted {
            return Err(Conflict);
          }
        }
        reservations := reservations + [ReservationFor(e, recipients[i], keyAt, now)];
      }
      assert reservations == ReservationsFor(e, keyAt, now);
      var reserved := store.ReserveBatch(reservations, policy.limit, policy.window);
      if reserved.Err? {
        return Err(reserved.error);
      }
      var deliverAfter := None;
      if policy.quietEnabled {
        deliverAfter := QuietHours.NextQuietHoursEnd(now, policy.quiet);
      }
      return Ok(Decision(policy.fallbacks, deliverAfter));
    }
  }

  // ----- what the policy decides -----

  /** Some named recipient has switched the channel off or muted the template. */
  predicate SomebodyOptedOut(preferences: map<string, Preference>, e: Evaluation) {
    exists u :: u in e.recipients && u != "" && u in preferences
                && ((e.channel in preferences[u].enabled && preferences[u].enabled[e.channel] == false) || e.template in preferences[u].muted)
  }

  lemma RefusedIff(preferences: map<string, Preference>, e: Evaluation)
    ensures Refused(preferences, e) <==> SomebodyOptedOut(preferences, e)
  {
    if Refused(preferences, e) {
      var u :| u in Users.Unique(e.recipients) && u in preferences && OptedOut(preferences[u], e);
      assert u in e.recipients && u != "";
    }
    if SomebodyOptedOut(preferences, e) {
      var u :| u in e.recipients && u != "" && u in preferences
               && ((e.channel in preferences[u].enabled && preferences[u].enabled[e.channel] == false) || e.template in preferences[u].muted);
      assert u in Users.Unique(e.recipients) && OptedOut(preferences[u], e);
    }
  }

  /** The reservation of one recipient, column by column; a blank key is replaced by the evaluation's time. */
  predicate ReservesFor(r: Reservation, e: Evaluation, user: string, keyAt: Time -> string, now: Time) {
    && r.recipient == user && r.template == e.template && r.channel == e.channel && r.dedupe == e.dedupe && r.at == Some(now)
    && r.id == ReservationId(e.workspace, user, e.template, e.channel, e.dedupe, if e.key != "" then e.key else keyAt(now))
  }

  /**
   * The policy's decision. A malformed evaluation, an opt-out and an enabled policy without a limit are refused; a
   * disabled policy lets everything pass at once; in all these cases nothing is reserved. Otherwise there is one
   * reservation for each distinct recipient, in order, all or none of them are made, and what passes waits for
   * the end of quiet hours when they are enabled.
   */
  lemma PolicyDecides(rows: seq<Row>, e: Evaluation, policy: Policy, preferences: map<string, Preference>, keyAt: Time -> string, now: Time)
    ensures var done := Evaluate(rows, e, policy, preferences, keyAt, now); var batch := ReservationsFor(e, keyAt, now); var users := Users.Unique(e.recipients);
      var malformed := e.workspace == "" || e.template == "" || e.channel == "" || forall u :: u in e.recipients ==> u == "";
      && |batch| == |users| && (forall i :: 0 <= i < |users| ==> ReservesFor(batch[i], e, users[i], keyAt, now))
      && (malformed ==> done == (rows, Err(Invalid)))
      && (!malformed && !policy.enabled ==> done == (rows, Ok(Decision([], None))))
      && (!malformed && policy.enabled && SomebodyOptedOut(preferences, e) ==> done == (rows, Err(Conflict)))
      && (!malformed && policy.enabled && !SomebodyOptedOut(preferences, e) ==>
            match ReserveAll(rows, batch, policy.limit, policy.window)
            case Err(error) => done == (rows, Err(if policy.limit < 1 then Invalid else error))
            case Ok(more) =>
              if policy.limit < 1 then done == (rows, Err(Invalid))
              else done == (more, Ok(Decision(policy.fallbacks, if policy.quietEnabled then QuietHours.NextQuietHoursEnd(now, policy.quiet) else None))))
  {
    hide ReserveAll, QuietHours.NextQuietHoursEnd;
    RefusedIff(preferences, e);
    hide Refused, SomebodyOptedOut;
    var users := Users.Unique(e.recipients);
    assert users == [] <==> forall u :: u in e.recipients ==> u == "" by {
      if users != [] { assert users[0] in users; }
    }
  }

  // ----- retries -----

  /** A plan that is dispatched again under its own id passes the policy again and reserves nothing, at any later time. */
  lemma ImmediateRetryIsFree(rows: seq<Row>, later: seq<Row>, e: Evaluation, policy: Policy, policy': Policy,
                             preferences: map<string, Preference>, preferences': map<string, Preference>, keyAt: Time -> string, t: Time, t': Time)
    requires TableOk(rows, policy.limit, policy.window) && policy.enabled && e.key != ""
    requires var first := Evaluate(rows, e, policy, preferences, keyAt, t); first.1.Ok? && first.0 <= later && UniqueIds(later)
    requires policy'.enabled && policy'.limit >= 1 && !Refused(preferences', e)
    ensures var again := Evaluate(later, e, policy', preferences', keyAt, t'); again.0 == later && again.1.Ok?
  {
    var batch, repeat := ReservationsFor(e, keyAt, t), ReservationsFor(e, keyAt, t');
    assert Again(batch, repeat);
    ReplaySucceeds(rows, batch, later, repeat, policy.limit, policy.window, policy'.limit, policy'.window);
  }

  lemma {:induction false} NewIdsInsert(rows: seq<Row>, batch: seq<Reservation>, limit: int, window: int)
    requires ReserveAll(rows, batch, limit, window).Ok?
    requires forall i, k :: 0 <= i < |batch| && 0 <= k < |rows| ==> batch[i].id != rows[k].id
    requires forall i, j :: 0 <= i < j < |batch| ==> batch[i].id != batch[j].id
    ensures |ReserveAll(rows, batch, limit, window).value| == |rows| + |batch|
    decreases |batch|
  {
    if batch != [] {
      var more := Reserve(rows, batch[0], limit, window).value;
      assert Lookup(rows, batch[0].id).None?;
      NewIdsInsert(more, batch[1..], limit, window);
    }
  }

  // ----- digests -----

  /** Next attempts are stored as text, which exists for the years 0 to 9999. */
  predicate Dated(p: EventTables.Plan) {
    p.lease.nextAttemptAt.Some? ==> Timestamps.InRange(p.lease.nextAttemptAt.value)
  }

  /** The id of a batch's aggregate: the digest key of its first plan and that plan's next attempt as text. */
  ghost function AggregateId(first: EventTables.Plan): string
    requires Dated(first)
  {
    ("digest:" + first.body.digestKey + ":")
    + if first.lease.nextAttemptAt.Some? then Timestamps.Timestamp(first.lease.nextAttemptAt.value) else ""
  }

  function EvaluationOf(p: EventTables.Plan, key: string): Evaluation {
    Evaluation(p.workspace, p.body.templateKey, p.body.channel, p.body.recipients, p.body.dedupeKey, key)
  }

  /** What the policy is asked about a digest: the first plan's columns under the aggregate's id. */
  ghost function DigestEvaluation(first: EventTables.Plan): (e: Evaluation)
    requires Dated(first)
    ensures e.key != ""
  {
    EvaluationOf(first, AggregateId(first))
  }

  /** What a digest asks for: one reservation for each distinct recipient of its first plan, under an id that its digest key and next attempt name. */
  lemma DigestReserves(first: EventTables.Plan, keyAt: Time -> string, now: Time)
    requires Dated(first)
    ensures var batch, users := ReservationsFor(DigestEvaluation(first), keyAt, now), Users.Unique(first.body.recipients);
      && |batch| == |users|
      && forall i :: 0 <= i < |users| ==>
           && batch[i].recipient == users[i] && batch[i].template == first.body.templateKey && batch[i].channel == first.body.channel
           && batch[i].dedupe == first.body.dedupeKey && batch[i].at == Some(now)
           && batch[i].id == ReservationId(first.workspace, users[i], first.body.templateKey, first.body.channel, first.body.dedupeKey,
                                           "digest:" + first.body.digestKey + ":" + (if first.lease.nextAttemptAt == None then ""
                                                                                     else Timestamps.Timestamp(first.lease.nextAttemptAt.value)))
  {
    hide Timestamps.Timestamp, Timestamps.InRange;
  }

  lemma SamePrefix(x: string, a: string, b: string)
    ensures x + a == x + b <==> a == b
  {
    assert (x + a)[|x|..] == a && (x + b)[|x|..] == b;
  }

  lemma TimestampIsText(t: Time)
    requires Timestamps.InRange(t)
    ensures Timestamps.Timestamp(t) != ""
  {
    hide Timestamps.CivilOf;
  }

  /** A retry renames the aggregate exactly when it moves the next attempt, which a retry of a due plan after a positive delay does. */
  lemma RetryRenamesIff(first: EventTables.Plan, next: Time, code: string, at: Time)
    requires Dated(first) && Timestamps.InRange(next)
    ensures var again := PlanQueue.Ends(first, PlanQueue.RetryAt(next, code), at);
      && Dated(again) && EvaluationOf(again, "") == EvaluationOf(first, "")
      && (AggregateId(again) != AggregateId(first) <==> first.lease.nextAttemptAt != Some(next))
      && (DueBy(first.lease.nextAttemptAt, at) && at < next ==> AggregateId(again) != AggregateId(first))
  {
    hide Timestamps.Timestamp, Timestamps.InRange;
    var again := PlanQueue.Ends(first, PlanQueue.RetryAt(next, code), at);
    var prefix := "digest:" + first.body.digestKey + ":";
    SamePrefix(prefix, Timestamps.Timestamp(next),
               if first.lease.nextAttemptAt.Some? then Timestamps.Timestamp(first.lease.nextAttemptAt.value) else "");
    TimestampIsText(next);
    if first.lease.nextAttemptAt.Some? { Timestamps.TimestampOrder(first.lease.nextAttemptAt.value, next); }
  }

  /** No row has any of these reservations' ids. */
  predicate Unrecorded(rows: seq<Row>, batch: seq<Reservation>) {
    forall i, k :: 0 <= i < |batch| && 0 <= k < |rows| ==> batch[i].id != rows[k].id
  }

  /** The first recipient's row of an accepted, unrecorded batch carries the time of that attempt. */
  lemma FirstRowIsNew(rows: seq<Row>, batch: seq<Reservation>, limit: int, window: int)
    requires TableOk(rows, limit, window) && ReserveAll(rows, batch, limit, window).Ok? && batch != [] && Unrecorded(rows, batch)
    ensures var done := ReserveAll(rows, batch, limit, window).value;
      |done| > |rows| && SameDelivery(done[|rows|], batch[0]) && batch[0].at == Some(done[|rows|].at)
  {
    hide TableOk, CountSince, Repeats;
    assert Lookup(rows, batch[0].id).None?;
    var first := Reserve(rows, batch[0], limit, window).value;
    ReserveKeepsTable(rows, batch[0], limit, window);
    BatchKeepsTable(first, batch[1..], limit, window);
  }

  lemma RepeatIsRefused(rows: seq<Row>, batch: seq<Reservation>, k: nat, limit: int, window: int)
    requires batch != [] && k < |rows| && SameDelivery(rows[k], batch[0]) && batch[0].at.Some? && Unrecorded(rows, batch)
    requires batch[0].dedupe != "" && window > 0 && batch[0].at.value - window * SECOND <= rows[k].at
    ensures ReserveAll(rows, batch, limit, window).Err?
  {
    assert Lookup(rows, batch[0].id).None?;
    assert Repeats(rows, batch[0], batch[0].at.value - window * SECOND);
  }

  /**
   * A digest that was accepted, failed in dispatch and is retried at `next`, now with any plan of its dispatch
   * identity in the lead. The retry is a replay that reserves nothing if the next attempt has not moved and the
   * leader has the dedupe key of the earlier one. Otherwise it is a new delivery to the policy, unless its
   * reservations happen to be on record: under the same dedupe key it is refused within the window, and if it
   * is accepted it uses up one more place of every recipient's quota.
   */
  lemma DigestRetryReservesAgain(rows: seq<Row>, later: seq<Row>, first: EventTables.Plan, leader: EventTables.Plan,
                                 next: Time, code: string, at: Time, policy: Policy,
                                 preferences: map<string, Preference>, keyAt: Time -> string, t: Time, t': Time)
    requires Dated(first) && Timestamps.InRange(next) && TableOk(rows, policy.limit, policy.window) && policy.enabled
    requires DigestBatches.SameDispatch(leader, PlanQueue.Ends(first, PlanQueue.RetryAt(next, code), at))
    requires Unrecorded(rows, ReservationsFor(DigestEvaluation(first), keyAt, t))
    requires var done := Evaluate(rows, DigestEvaluation(first), policy, preferences, keyAt, t); done.1.Ok? && done.0 <= later && UniqueIds(later)
    ensures Dated(leader)
    ensures var e := DigestEvaluation(leader); var again := Evaluate(later, e, policy, preferences, keyAt, t');
      var moved, rekeyed := first.lease.nextAttemptAt != Some(next), leader.body.dedupeKey != first.body.dedupeKey;
      && (e.key != DigestEvaluation(first).key <==> moved)
      && if !moved && !rekeyed then again.0 == later && again.1.Ok?
         else
           && e != DigestEvaluation(first)
           && (Unrecorded(later, ReservationsFor(e, keyAt, t')) ==>
                 && (!rekeyed && e.dedupe != "" && policy.window > 0 && t' - policy.window * SECOND <= t ==> again.1.Err?)
                 && (again.1.Ok? ==> |again.0| == |later| + |Users.Unique(e.recipients)|)
                 && (again.1.Err? ==> again.0 == later))
  {
    hide Timestamps.Timestamp, Timestamps.InRange, TableOk;
    RetryRenamesIff(first, next, code, at);
    var retried := PlanQueue.Ends(first, PlanQueue.RetryAt(next, code), at);
    var e, e' := DigestEvaluation(first), DigestEvaluation(leader);
    assert AggregateId(leader) == AggregateId(retried);
    assert e' == e.(dedupe := e'.dedupe, key := e'.key);
    hide AggregateId, PlanQueue.Ends, DigestBatches.SameDispatch;
    if first.lease.nextAttemptAt == Some(next) && e'.dedupe == e.dedupe {
      ImmediateRetryIsFree(rows, later, e, policy, policy, preferences, preferences, keyAt, t, t');
    } else if Unrecorded(later, ReservationsFor(e', keyAt, t')) {
      RenamedRetry(rows, later, e, e', policy, preferences, keyAt, t, t');
    }
  }

  lemma RenamedRetry(rows: seq<Row>, later: seq<Row>, e: Evaluation, e': Evaluation, policy: Policy,
                     preferences: map<string, Preference>, keyAt: Time -> string, t: Time, t': Time)
    requires TableOk(rows, policy.limit, policy.window) && policy.enabled && e' == e.(dedupe := e'.dedupe, key := e'.key)
    requires Unrecorded(rows, ReservationsFor(e, keyAt, t)) && Unrecorded(later, ReservationsFor(e', keyAt, t'))
    requires var done := Evaluate(rows, e, policy, preferences, keyAt, t); done.1.Ok? && done.0 <= later
    ensures var again := Evaluate(later, e', policy, preferences, keyAt, t');
      && (e'.dedupe == e.dedupe && e.dedupe != "" && policy.window > 0 && t' - policy.window * SECOND <= t ==> again.1.Err?)
      && (again.1.Ok? ==> |again.0| == |later| + |Users.Unique(e.recipients)|)
      && (again.1.Err? ==> again.0 == later)
  {
    hide TableOk, Reserve, Unrecorded;
    var batch, repeat := ReservationsFor(e, keyAt, t), ReservationsFor(e', keyAt, t');
    FirstRowIsNew(rows, batch, policy.limit, policy.window);
    if e'.dedupe == e.dedupe && e.dedupe != "" && policy.window > 0 && t' - policy.window * SECOND <= t {
      RepeatIsRefused(later, repeat, |rows|, policy.limit, policy.window);
    }
    if Evaluate(later, e', policy, preferences, keyAt, t').1.Ok? {
      AllInserted(later, repeat, policy.limit, policy.window);
    }
  }

  lemma AllInserted(rows: seq<Row>, batch: seq<Reservation>, limit: int, window: int)
    requires ReserveAll(rows, batch, limit, window).Ok? && Unrecorded(rows, batch)
    requires forall i, j :: 0 <= i < j < |batch| ==> batch[i].id != batch[j].id
    ensures |ReserveAll(rows, batch, limit, window).value| == |rows| + |batch|
  {
    NewIdsInsert(rows, batch, limit, window);
  }

  /**
   * A pass with more due plans of one digest than a batch holds sends several messages under one aggregate
   * id. To the policy they are one delivery exactly when their first plans share the dedupe key: then every
   * further batch passes and reserves nothing.
   */
  lemma FurtherBatchIsAReplayIff(first: EventTables.Plan, other: EventTables.Plan, rows: seq<Row>, later: seq<Row>, policy: Policy,
                                 preferences: map<string, Preference>, keyAt: Time -> string, t: Time, t': Time)
    requires Dated(first) && DigestBatches.SameDispatch(other, first) && TableOk(rows, policy.limit, policy.window) && policy.enabled
    requires var done := Evaluate(rows, DigestEvaluation(first), policy, preferences, keyAt, t); done.1.Ok? && done.0 <= later && UniqueIds(later)
    ensures Dated(other) && AggregateId(other) == AggregateId(first)
    ensures DigestEvaluation(other) == DigestEvaluation(first) <==> other.body.dedupeKey == first.body.dedupeKey
    ensures other.body.dedupeKey == first.body.dedupeKey ==>
              var again := Evaluate(later, DigestEvaluation(other), policy, preferences, keyAt, t'); again.0 == later && again.1.Ok?
  {
    hide Timestamps.Timestamp, Timestamps.InRange, TableOk;
    if other.body.dedupeKey == first.body.dedupeKey {
      ImmediateRetryIsFree(rows, later, DigestEvaluation(first), policy, policy, preferences, preferences, keyAt, t, t');
    }
  }
}
