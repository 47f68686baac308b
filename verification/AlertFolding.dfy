/**
 * One recipient's alert group and its inbox item: two rows in two tables that every event and
 * acknowledgement of the group advances separately, and that have to stay each other's mirror.
 */
module AlertFolding {
  import opened Prelude

  datatype AlertState = NoAlert | Firing | Acknowledged | Resolved

  datatype GroupRow = GroupRow(
    state: AlertState, count: nat, first: Time, last: Time, acknowledgedAt: Option<Time>, acknowledgedBy: string,
    resolvedAt: Option<Time>, lastEvent: string, updatedAt: Time)

  /** `body` stands for the columns an event overwrites together with its id. */
  datatype ItemRow = ItemRow(
    recipient: string, groupKey: string, eventId: string, body: string, actionState: string, alertState: AlertState,
    count: nat, first: Time, last: Time, readAt: Option<Time>, archivedAt: Option<Time>, createdAt: Time, updatedAt: Time)

  /** What an event brings to one recipient. */
  datatype Arrival = Arrival(
    recipient: string, groupKey: string, eventId: string, body: string, actionState: string, alertState: AlertState,
    at: Time, createdAt: Time, updatedAt: Time)

  /** A conditional UPDATE, then a lookup, then an INSERT; events without an alert state are skipped. */
  function TransitionGroup(row: Option<GroupRow>, e: Arrival): Option<GroupRow> {
    if e.alertState.NoAlert? then row
    else
      var increment := if e.alertState.Firing? then 1 else 0;
      var resolvedAt := if e.alertState.Resolved? then Some(e.at) else None;
      match row
      case Some(g) =>
        if g.last <= e.at then
          Some(g.(state := e.alertState, count := g.count + increment, last := e.at, acknowledgedAt := None, acknowledgedBy := "",
                  resolvedAt := resolvedAt, lastEvent := e.eventId, updatedAt := e.updatedAt))
        else row
      case None => Some(GroupRow(e.alertState, increment, e.at, e.at, None, "", resolvedAt, e.eventId, e.updatedAt))
  }

  function UpsertItem(row: Option<ItemRow>, e: Arrival): Option<ItemRow> {
    match row
    case Some(i) =>
      if i.last <= e.at then
        Some(i.(eventId := e.eventId, body := e.body, actionState := e.actionState, alertState := e.alertState,
                count := i.count + (if e.alertState.Resolved? then 0 else 1), last := e.at, updatedAt := e.updatedAt))
      else row
    case None =>
      Some(ItemRow(e.recipient, e.groupKey, e.eventId, e.body, e.actionState, e.alertState, 1, e.at, e.at, None, None,
                   e.createdAt, e.updatedAt))
  }

  /** The guarded update of a firing group, then of its item; otherwise nothing changes. */
  function Acknowledge(group: Option<GroupRow>, item: Option<ItemRow>, actor: string, at: Time):
    (Option<GroupRow>, Option<ItemRow>, Result<()>)
  {
    match item
    case None => (group, item, Err(NotFound))
    case Some(i) =>
      if i.groupKey == "" || i.alertState.NoAlert? || i.alertState.Resolved? then (group, item, Err(Invalid))
      else if i.alertState.Acknowledged? then (group, item, Ok(()))
      else if group.Some? && group.value.state.Firing? then
        (Some(group.value.(state := Acknowledged, acknowledgedAt := Some(at), acknowledgedBy := actor, updatedAt := at)),
         Some(i.(alertState := Acknowledged, updatedAt := at)), Ok(()))
      else (group, item, Err(Conflict))
  }

  // ----- the same statements, column by column -----

  /** What an arrival may make of a group row: nothing without an alert state or when it is older, else its columns. */
  predicate GroupMoves(row: Option<GroupRow>, e: Arrival, row': Option<GroupRow>) {
    if e.alertState == NoAlert || (row.Some? && e.at < row.value.last) then row' == row
    else
      && row'.Some?
      && var g := row'.value;
         && g.state == e.alertState && g.last == e.at && g.lastEvent == e.eventId && g.updatedAt == e.updatedAt
         && g.acknowledgedAt == None && g.acknowledgedBy == ""
         && (if e.alertState == Resolved then g.resolvedAt == Some(e.at) else g.resolvedAt == None)
         && g.first == (if row.Some? then row.value.first else e.at)
         && g.count - (if row.Some? then row.value.count else 0) == (if e.alertState == Firing then 1 else 0)
  }

  /** What an arrival may make of an item row: nothing when it is older, else its columns; what the user marked stays. */
  predicate ItemMoves(row: Option<ItemRow>, e: Arrival, row': Option<ItemRow>) {
    if row.Some? && e.at < row.value.last then row' == row
    else
      && row'.Some?
      && var i := row'.value;
         && i.eventId == e.eventId && i.body == e.body && i.actionState == e.actionState && i.alertState == e.alertState
         && i.last == e.at && i.updatedAt == e.updatedAt
         && (if row.Some? then
               && i.recipient == row.value.recipient && i.groupKey == row.value.groupKey && i.first == row.value.first
               && i.readAt == row.value.readAt && i.archivedAt == row.value.archivedAt && i.createdAt == row.value.createdAt
               && i.count == row.value.count + (if e.alertState == Resolved then 0 else 1)
             else
               && i.recipient == e.recipient && i.groupKey == e.groupKey && i.first == e.at
               && i.readAt == None && i.archivedAt == None && i.createdAt == e.createdAt && i.count == 1)
  }

  lemma ArrivalMoves(group: Option<GroupRow>, item: Option<ItemRow>, e: Arrival)
    ensures GroupMoves(group, e, TransitionGroup(group, e)) && ItemMoves(item, e, UpsertItem(item, e))
  {
  }

  // ----- one group over a whole history -----

  /** Retention may take either row away while the other stays. */
  datatype Op = Event(arrival: Arrival) | Ack(actor: string, at: Time) | DropItem | DropGroup

  datatype Rows = Rows(group: Option<GroupRow>, item: Option<ItemRow>)

  const NO_ROWS := Rows(None, None)

  function Next(r: Rows, op: Op): Rows {
    match op
    case Event(e) => Rows(TransitionGroup(r.group, e), UpsertItem(r.item, e))
    case Ack(actor, at) => var done := Acknowledge(r.group, r.item, actor, at); Rows(done.0, done.1)
    case DropItem => r.(item := None)
    case DropGroup => r.(group := None)
  }

  function Fold(r: Rows, ops: seq<Op>): Rows
    decreases |ops|
  {
    if ops == [] then r else Next(Fold(r, ops[..|ops| - 1]), ops[|ops| - 1])
  }

  /** Every event of the group is an alert, firing or resolved, under one group key. */
  predicate AlertHistory(ops: seq<Op>) {
    forall i :: 0 <= i < |ops| && ops[i].Event? ==>
      (ops[i].arrival.alertState.Firing? || ops[i].arrival.alertState.Resolved?) && ops[i].arrival.groupKey != ""
  }

  /** Neither row was ever taken away. */
  predicate Whole(ops: seq<Op>) {
    forall i :: 0 <= i < |ops| ==> !ops[i].DropItem? && !ops[i].DropGroup?
  }

  predicate Mirror(r: Rows) {
    && (r.group.None? <==> r.item.None?)
    && (r.group.Some? ==>
          && r.item.value.groupKey != ""
          && r.group.value.state == r.item.value.alertState != NoAlert
          && r.group.value.first == r.item.value.first
          && r.group.value.last == r.item.value.last
          && r.group.value.lastEvent == r.item.value.eventId
          && 0 <= r.item.value.count - r.group.value.count <= 1)
  }

  lemma NextKeepsMirror(r: Rows, op: Op)
    requires Mirror(r) && AlertHistory([op]) && Whole([op])
    ensures Mirror(Next(r, op))
    ensures op.Ack? ==> Acknowledge(r.group, r.item, op.actor, op.at).2 != Err(Conflict)
    ensures r.group.Some? ==>
              Next(r, op).item.value.count - Next(r, op).group.value.count == r.item.value.count - r.group.value.count
  {
    assert op == [op][0];
  }

  function FirstArrival(ops: seq<Op>): Option<Arrival>
    decreases |ops|
  {
    if ops == [] then None else if ops[0].Event? then Some(ops[0].arrival) else FirstArrival(ops[1..])
  }

  lemma {:induction false} FirstArrivalStays(ops: seq<Op>, op: Op)
    ensures FirstArrival(ops + [op]) ==
              if FirstArrival(ops).Some? then FirstArrival(ops) else if op.Event? then Some(op.arrival) else None
    decreases |ops|
  {
    if ops == [] {
      assert ([op])[1..] == [];
    } else {
      assert (ops + [op])[1..] == ops[1..] + [op];
      FirstArrivalStays(ops[1..], op);
    }
  }

  /**
   * Over every history of alerts and acknowledgements, in any arrival order, the two rows agree on state,
   * last event and both times, and their counts differ by a constant: one if the first alert to arrive
   * was a resolution, zero otherwise.
   */
  lemma {:induction false} GroupAndItemMirror(ops: seq<Op>)
    requires AlertHistory(ops) && Whole(ops)
    ensures var r := Fold(NO_ROWS, ops); var f := FirstArrival(ops);
      && Mirror(r)
      && (r.group.Some? <==> f.Some?)
      && (f.Some? ==> r.group.value.first == f.value.at
                      && r.item.value.count - r.group.value.count == (if f.value.alertState.Resolved? then 1 else 0))
    decreases |ops|
  {
    if ops != [] {
      var rest, op := ops[..|ops| - 1], ops[|ops| - 1];
      GroupAndItemMirror(rest);
      assert rest + [op] == ops;
      FirstArrivalStays(rest, op);
      assert op == ops[|ops| - 1] && [op][0] == op;
      NextKeepsMirror(Fold(NO_ROWS, rest), op);
    }
  }

  /** While neither row has been taken away, an acknowledgement never meets the lost-update branch. */
  lemma AcknowledgeNeverConflicts(ops: seq<Op>, actor: string, at: Time)
    requires AlertHistory(ops) && Whole(ops)
    ensures var r := Fold(NO_ROWS, ops); Acknowledge(r.group, r.item, actor, at).2 != Err(Conflict)
  {
    GroupAndItemMirror(ops);
    NextKeepsMirror(Fold(NO_ROWS, ops), Ack(actor, at));
  }

  /** The newest alert time seen so far is what both rows carry. */
  lemma {:induction false} LastIsNewest(ops: seq<Op>)
    requires AlertHistory(ops) && Whole(ops)
    ensures var r := Fold(NO_ROWS, ops);
      && (forall i :: 0 <= i < |ops| && ops[i].Event? ==> r.group.Some? && ops[i].arrival.at <= r.group.value.last)
      && (r.group.Some? ==> exists i :: 0 <= i < |ops| && ops[i].Event? && ops[i].arrival.at == r.group.value.last
                                        && ops[i].arrival.eventId == r.group.value.lastEvent)
    decreases |ops|
  {
    if ops != [] {
      var rest, op := ops[..|ops| - 1], ops[|ops| - 1];
      LastIsNewest(rest);
      var before, after := Fold(NO_ROWS, rest), Fold(NO_ROWS, ops);
      forall i | 0 <= i < |ops| && ops[i].Event? ensures after.group.Some? && ops[i].arrival.at <= after.group.value.last {
        if i < |rest| { assert ops[i] == rest[i]; }
      }
      if after.group.Some? {
        if op.Event? && (before.group.None? || before.group.value.last <= op.arrival.at) {
          assert ops[|ops| - 1].arrival.at == after.group.value.last;
        } else {
          var i :| 0 <= i < |rest| && rest[i].Event? && rest[i].arrival.at == before.group.value.last && rest[i].arrival.eventId == before.group.value.lastEvent;
          assert ops[i] == rest[i];
        }
      }
    }
  }

  // ----- order independence, without acknowledgements -----

  predicate EventsOnly(ops: seq<Op>) {
    forall i :: 0 <= i < |ops| ==> ops[i].Event?
  }

  predicate DistinctTimes(ops: seq<Op>) {
    forall i, j :: 0 <= i < j < |ops| && ops[i].Event? && ops[j].Event? ==> ops[i].arrival.at != ops[j].arrival.at
  }

  /** What the newest alert decides: everything but the first time and the counts. */
  predicate DecidedBy(r: Rows, e: Arrival) {
    && r.group.Some? && r.item.Some?
    && r.group.value.state == e.alertState && r.group.value.last == e.at && r.group.value.lastEvent == e.eventId
    && r.group.value.acknowledgedAt.None? && r.group.value.acknowledgedBy == ""
    && r.group.value.resolvedAt == (if e.alertState.Resolved? then Some(e.at) else None)
    && r.group.value.updatedAt == e.updatedAt
    && r.item.value.eventId == e.eventId && r.item.value.body == e.body && r.item.value.actionState == e.actionState
    && r.item.value.alertState == e.alertState && r.item.value.last == e.at && r.item.value.updatedAt == e.updatedAt
  }

  lemma {:induction false} NewestDecides(ops: seq<Op>) returns (w: nat)
    requires ops != [] && AlertHistory(ops) && EventsOnly(ops)
    ensures w < |ops| && DecidedBy(Fold(NO_ROWS, ops), ops[w].arrival)
    ensures forall i :: 0 <= i < |ops| ==> ops[i].arrival.at <= ops[w].arrival.at
    decreases |ops|
  {
    var rest, op := ops[..|ops| - 1], ops[|ops| - 1];
    if rest == [] {
      assert Fold(NO_ROWS, rest) == NO_ROWS;
      return 0;
    }
    var v := NewestDecides(rest);
    var before := Fold(NO_ROWS, rest);
    forall i | 0 <= i < |rest| ensures ops[i].arrival.at <= ops[v].arrival.at {
      assert ops[i] == rest[i] && ops[v] == rest[v] && rest[i].arrival.at <= rest[v].arrival.at;
    }
    w := if before.group.value.last <= op.arrival.at then |ops| - 1 else v;
  }

  /** Any two arrival orders of the same alerts with distinct times end in the same decided columns. */
  lemma ArrivalOrderIrrelevant(a: seq<Op>, b: seq<Op>)
    requires a != [] && multiset(a) == multiset(b) && DistinctTimes(a)
    requires AlertHistory(a) && EventsOnly(a)
    ensures exists e :: DecidedBy(Fold(NO_ROWS, a), e) && DecidedBy(Fold(NO_ROWS, b), e)
  {
    assert |multiset(a)| == |a| && |multiset(b)| == |b|;
    forall i | 0 <= i < |b| ensures b[i] in a {
      assert b[i] in multiset(b) && b[i] in multiset(a);
    }
    var w := NewestDecides(a);
    var v := NewestDecides(b);
    assert a[w] in multiset(a) && a[w] in multiset(b) && a[w] in b;
    var j :| 0 <= j < |b| && b[j] == a[w];
    var i :| 0 <= i < |a| && a[i] == b[v];
    assert a[i].arrival.at <= a[w].arrival.at && b[j].arrival.at <= b[v].arrival.at;
    assert a[i] == a[w] && b[v] == a[w];
  }

  // ----- the group count is the number of firing alerts that were newest on arrival -----

  function FiringHighs(ops: seq<Op>): nat
    decreases |ops|
  {
    if ops == [] then 0
    else
      var rest, op := ops[..|ops| - 1], ops[|ops| - 1];
      FiringHighs(rest) +
      (if op.Event? && op.arrival.alertState.Firing? && (forall i :: 0 <= i < |rest| && rest[i].Event? ==> rest[i].arrival.at <= op.arrival.at)
       then 1 else 0)
  }

  lemma {:induction false} GroupCountsFiringHighs(ops: seq<Op>)
    requires AlertHistory(ops) && Whole(ops)
    ensures Fold(NO_ROWS, ops).group.Some? ==> Fold(NO_ROWS, ops).group.value.count == FiringHighs(ops)
    ensures Fold(NO_ROWS, ops).group.None? ==> FiringHighs(ops) == 0
    decreases |ops|
  {
    if ops != [] {
      var rest, op := ops[..|ops| - 1], ops[|ops| - 1];
      GroupCountsFiringHighs(rest);
      LastIsNewest(rest);
    }
  }

  // ----- rows that retention has taken away -----

  /** What is left of the mirror in every history: rows last moved by the same instant still agree. */
  predicate WeakMirror(r: Rows) {
    && (r.item.Some? ==> r.item.value.groupKey != "" && r.item.value.alertState != NoAlert)
    && (r.group.Some? ==> r.group.value.state != NoAlert)
    && (r.group.Some? && r.item.Some? && r.group.value.last == r.item.value.last ==>
          r.group.value.state == r.item.value.alertState && r.group.value.lastEvent == r.item.value.eventId)
  }

  lemma NextKeepsWeakMirror(r: Rows, op: Op)
    requires WeakMirror(r) && AlertHistory([op])
    ensures WeakMirror(Next(r, op))
  {
    assert op == [op][0];
  }

  lemma {:induction false} FoldIsWeakMirror(ops: seq<Op>)
    requires AlertHistory(ops)
    ensures WeakMirror(Fold(NO_ROWS, ops))
    decreases |ops|
  {
    if ops != [] {
      var rest, op := ops[..|ops| - 1], ops[|ops| - 1];
      FoldIsWeakMirror(rest);
      assert [op][0] == op;
      NextKeepsWeakMirror(Fold(NO_ROWS, rest), op);
    }
  }

  /** The item fires while its group does not. */
  predicate Torn(r: Rows) {
    r.item.Some? && r.item.value.alertState.Firing? && !(r.group.Some? && r.group.value.state.Firing?)
  }

  /**
   * Over every history, purges included: an acknowledgement conflicts exactly when the item fires and its
   * group does not. That takes a purge, and rows that different instants moved last.
   */
  lemma AcknowledgeConflictsIff(ops: seq<Op>, actor: string, at: Time)
    requires AlertHistory(ops)
    ensures var r := Fold(NO_ROWS, ops);
      && (Acknowledge(r.group, r.item, actor, at).2 == Err(Conflict) <==> Torn(r))
      && (Torn(r) ==> !Whole(ops) && (r.group.Some? ==> r.group.value.last != r.item.value.last))
  {
    FoldIsWeakMirror(ops);
    if Whole(ops) {
      GroupAndItemMirror(ops);
    }
  }

  /** The next alert that is at least as new as both rows makes them agree again. */
  lemma NewAlertHeals(r: Rows, e: Arrival)
    requires WeakMirror(r) && AlertHistory([Event(e)])
    requires r.group.Some? ==> r.group.value.last <= e.at
    requires r.item.Some? ==> r.item.value.last <= e.at
    ensures var r' := Next(r, Event(e));
      && r'.group.Some? && r'.item.Some? && r'.group.value.state == r'.item.value.alertState == e.alertState
      && r'.group.value.last == r'.item.value.last == e.at && r'.group.value.lastEvent == r'.item.value.eventId == e.eventId
      && !Torn(r')
  {
    assert [Event(e)][0].arrival == e;
  }

  /** An acknowledged alert's item is purged, its group is not yet due, and an older alert arrives late. */
  lemma LateAlertAfterPurgeConflicts() returns (ops: seq<Op>)
    ensures AlertHistory(ops) && Acknowledge(Fold(NO_ROWS, ops).group, Fold(NO_ROWS, ops).item, "u", 9).2 == Err(Conflict)
    ensures exists k :: 0 <= k < |ops| && ops[k].DropItem? && var r := Fold(NO_ROWS, ops[..k]);
              r.item.Some? && r.item.value.actionState != "open" && !r.item.value.alertState.Firing?
              && r.group.Some? && r.group.value.state != Resolved
  {
    var first, late := Arrival("u", "g", "new", "", "none", Firing, 5, 5, 5), Arrival("u", "g", "late", "", "none", Firing, 3, 6, 6);
    var a, b, c, d := [Event(first)], [Event(first), Ack("u", 6)], [Event(first), Ack("u", 6), DropItem], [Event(first), Ack("u", 6), DropItem, Event(late)];
    assert d[..3] == c && c[..2] == b && b[..1] == a && a[..0] == [];
    var r1 := Next(NO_ROWS, Event(first));
    assert Fold(NO_ROWS, a) == Next(Fold(NO_ROWS, []), Event(first)) == r1;
    var r2 := Next(r1, Ack("u", 6));
    assert Fold(NO_ROWS, b) == r2;
    assert Fold(NO_ROWS, c) == Next(r2, DropItem);
    assert Fold(NO_ROWS, d) == Next(Next(r2, DropItem), Event(late));
    ops := d;
    assert ops[2].DropItem? && ops[..2] == b;
  }

  // ----- events that share a group key but carry no alert state -----

  /** A plain event under a group key keeps the mirror exactly when it is too old to touch the item. */
  lemma PlainEventKeepsMirrorIff(r: Rows, e: Arrival)
    requires Mirror(r) && e.alertState.NoAlert? && e.groupKey != ""
    ensures Mirror(Next(r, Event(e))) <==> r.item.Some? && e.at < r.item.value.last
  {
  }
}
