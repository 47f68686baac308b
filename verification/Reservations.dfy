/** Delivery reservations: a sliding one-hour quota and a dedupe window, checked and inserted batch by batch. */
module Reservations {
  import opened Prelude

  const HOUR := 3_600_000_000_000
  const SECOND := 1_000_000_000

  /** A hash over its own preimage. */
  datatype ReservationId = ReservationId(
    workspace: string, recipient: string, template: string, channel: string, dedupe: string, key: string) | NoId

  /** `at` is absent when the timestamp text does not parse. */
  datatype Reservation = Reservation(
    id: ReservationId, recipient: string, template: string, channel: string, dedupe: string, at: Option<Time>)

  /** A stored row; the table keeps rows in the order they were inserted. */
  datatype Row = Row(id: ReservationId, recipient: string, template: string, channel: string, dedupe: string, at: Time)

  predicate SameDelivery(row: Row, r: Reservation) {
    row.recipient == r.recipient && row.template == r.template && row.channel == r.channel && row.dedupe == r.dedupe
  }

  /** The row stored under an id. */
  function Lookup(rows: seq<Row>, id: ReservationId): (r: Option<Row>)
    ensures r.Some? ==> r.value in rows && r.value.id == id
    ensures r.None? ==> forall i :: 0 <= i < |rows| ==> rows[i].id != id
    decreases |rows|
  {
    if rows == [] then None
    else if rows[|rows| - 1].id == id then Some(rows[|rows| - 1])
    else Lookup(rows[..|rows| - 1], id)
  }

  predicate Matches(row: Row, recipient: string, channel: string, since: Time) {
    row.recipient == recipient && row.channel == channel && since <= row.at
  }

  function CountSince(rows: seq<Row>, recipient: string, channel: string, since: Time): nat
    decreases |rows|
  {
    if rows == [] then 0
    else CountSince(rows[..|rows| - 1], recipient, channel, since) + (if Matches(rows[|rows| - 1], recipient, channel, since) then 1 else 0)
  }

  predicate Repeats(rows: seq<Row>, r: Reservation, since: Time) {
    exists i :: 0 <= i < |rows| && SameDelivery(rows[i], r) && since <= rows[i].at
  }

  /** One reservation: already recorded, refused, or inserted. */
  function Reserve(rows: seq<Row>, r: Reservation, limit: int, window: int): Result<seq<Row>> {
    if r.id == NoId || r.recipient == "" then Err(Invalid)
    else
      match Lookup(rows, r.id)
      case Some(row) => if SameDelivery(row, r) then Ok(rows) else Err(Conflict)
      case None =>
        if r.at.None? then Err(Invalid)
        else if CountSince(rows, r.recipient, r.channel, r.at.value - HOUR) >= limit then Err(FrequencyExceeded)
        else if r.dedupe != "" && window > 0 && Repeats(rows, r, r.at.value - window * SECOND) then Err(DuplicateDelivery)
        else Ok(rows + [Row(r.id, r.recipient, r.template, r.channel, r.dedupe, r.at.value)])
  }

  function ReserveAll(rows: seq<Row>, batch: seq<Reservation>, limit: int, window: int): Result<seq<Row>>
    decreases |batch|
  {
    if batch == [] then Ok(rows)
    else
      match Reserve(rows, batch[0], limit, window)
      case Err(e) => Err(e)
      case Ok(more) => ReserveAll(more, batch[1..], limit, window)
  }

  class ReservationStore {
    var rows: seq<Row>

    /** One transaction: the whole batch, or nothing. */
    method ReserveBatch(batch: seq<Reservation>, limit: int, window: int) returns (result: Result<()>)
      modifies this
      ensures |batch| == 0 || limit < 1 ==> result == Err(Invalid)
      ensures |batch| > 0 && limit >= 1 ==>
                match ReserveAll(old(rows), batch, limit, window)
                case Ok(more) => result == Ok(()) && rows == more
                case Err(e) => result == Err(e)
      ensures result.Err? ==> rows == old(rows)
    {
      if |batch| == 0 || limit < 1 {
        return Err(Invalid);
      }
      var before := rows;
      for i := 0 to |batch|
        invariant ReserveAll(before, batch, limit, window) == ReserveAll(rows, batch[i..], limit, window)
      {
        assert batch[i..][1..] == batch[i + 1..];
        var done := ReserveOne(batch[i], limit, window);
        if done.Err? {
          rows := before;
          return done;
        }
      }
      return Ok(());
    }

    method ReserveOne(r: Reservation, limit: int, window: int) returns (result: Result<()>)
      modifies this
      ensures match Reserve(old(rows), r, limit, window)
              case Ok(more) => result == Ok(()) && rows == more
              case Err(e) => result == Err(e) && rows == old(rows)
    {
      if r.id == NoId || r.recipient == "" {
        return Err(Invalid);
      }
      var recorded := AlreadyRecorded(r);
      if recorded.Err? {
        return Err(recorded.error);
      }
      if recorded.value {
        return Ok(());
      }
      if r.at.None? {
        return Err(Invalid);
      }
      var count := 0;
      for i := 0 to |rows|
        invariant count == CountSince(rows[..i], r.recipient, r.channel, r.at.value - HOUR)
      {
        assert rows[..i + 1][..i] == rows[..i];
        if rows[i].recipient == r.recipient && rows[i].channel == r.channel && rows[i].at >= r.at.value - HOUR {
          count := count + 1;
        }
      }
      assert rows[..|rows|] == rows;
      if count >= limit {
        return Err(FrequencyExceeded);
      }
      if r.dedupe != "" && window > 0 {
        var repeated := false;
        for i := 0 to |rows|
          invariant repeated <==> Repeats(rows[..i], r, r.at.value - window * SECOND)
        {
          assert forall j :: 0 <= j < i ==> rows[..i + 1][j] == rows[..i][j];
          repeated := repeated || (SameDelivery(rows[i], r) && rows[i].at >= r.at.value - window * SECOND);
          assert rows[..i + 1][i] == rows[i];
        }
        if repeated {
          return Err(DuplicateDelivery);
        }
      }
      rows := rows + [Row(r.id, r.recipient, r.template, r.channel, r.dedupe, r.at.value)];
      return Ok(());
    }

    method AlreadyRecorded(r: Reservation) returns (result: Result<bool>)
      ensures match Lookup(rows, r.id)
              case None => result == Ok(false)
              case Some(row) => result == if SameDelivery(row, r) then Ok(true) else Err(Conflict)
    {
      var i := |rows|;
      assert rows[..i] == rows;
      while i > 0
        invariant 0 <= i <= |rows| && Lookup(rows, r.id) == Lookup(rows[..i], r.id)
      {
        i := i - 1;
        assert rows[..i + 1][..i] == rows[..i];
        if rows[i].id == r.id {
          return if SameDelivery(rows[i], r) then Ok(true) else Err(Conflict);
        }
      }
      return Ok(false);
    }
  }

  // ----- what is refused, and what is not -----

  /** The stored rows of a reservation's recipient and channel that are not older than one hour before it. */
  function LastHour(rows: seq<Row>, recipient: string, channel: string, at: Time): set<int> {
    set k | 0 <= k < |rows| && rows[k].recipient == recipient && rows[k].channel == channel && rows[k].at >= at - 3_600_000_000_000
  }

  lemma {:induction false} CountIsLastHour(rows: seq<Row>, recipient: string, channel: string, at: Time)
    ensures CountSince(rows, recipient, channel, at - HOUR) == |LastHour(rows, recipient, channel, at)|
    decreases |rows|
  {
    if rows != [] {
      CountIsLastHour(rows[..|rows| - 1], recipient, channel, at);
      LastHourGrows(rows, recipient, channel, at);
    } else {
      assert LastHour(rows, recipient, channel, at) == {};
    }
  }

  lemma LastHourGrows(rows: seq<Row>, recipient: string, channel: string, at: Time)
    requires rows != []
    ensures var n := |rows| - 1;
      |LastHour(rows, recipient, channel, at)|
      == |LastHour(rows[..n], recipient, channel, at)| + (if Matches(rows[n], recipient, channel, at - HOUR) then 1 else 0)
  {
    var n := |rows| - 1;
    var rest, all := LastHour(rows[..n], recipient, channel, at), LastHour(rows, recipient, channel, at);
    forall k ensures k in all <==> k in rest || (k == n && Matches(rows[n], recipient, channel, at - HOUR)) {
    }
    assert n !in rest;
    assert all == if Matches(rows[n], recipient, channel, at - HOUR) then rest + {n} else rest;
  }

  /** The same message to the same recipient within so many seconds before `at`. */
  predicate DeliveredWithin(rows: seq<Row>, r: Reservation, at: Time, window: int) {
    exists k :: 0 <= k < |rows| && rows[k].recipient == r.recipient && rows[k].template == r.template && rows[k].channel == r.channel
                && rows[k].dedupe == r.dedupe && rows[k].at >= at - window * 1_000_000_000
  }

  /**
   * A well-formed reservation whose id is not on record is refused for frequency exactly when the last hour
   * holds the limit; otherwise as a duplicate exactly when an equal delivery under a dedupe key lies in the
   * window; otherwise exactly its row is appended.
   */
  lemma NewIsRefusedIff(rows: seq<Row>, r: Reservation, limit: int, window: int)
    requires r.id != NoId && r.recipient != "" && r.at.Some? && forall k :: 0 <= k < |rows| ==> rows[k].id != r.id
    ensures var done, at := Reserve(rows, r, limit, window), r.at.value;
      && (done == Err(FrequencyExceeded) <==> |LastHour(rows, r.recipient, r.channel, at)| >= limit)
      && (done == Err(DuplicateDelivery) <==>
            |LastHour(rows, r.recipient, r.channel, at)| < limit && r.dedupe != "" && window > 0 && DeliveredWithin(rows, r, at, window))
      && (|LastHour(rows, r.recipient, r.channel, at)| < limit && !(r.dedupe != "" && window > 0 && DeliveredWithin(rows, r, at, window)) ==>
            done == Ok(rows + [Row(r.id, r.recipient, r.template, r.channel, r.dedupe, at)]))
  {
    CountIsLastHour(rows, r.recipient, r.channel, r.at.value);
    assert Lookup(rows, r.id).None?;
    assert Repeats(rows, r, r.at.value - window * SECOND) <==> DeliveredWithin(rows, r, r.at.value, window) by {
      if Repeats(rows, r, r.at.value - window * SECOND) {
        var k :| 0 <= k < |rows| && SameDelivery(rows[k], r) && r.at.value - window * SECOND <= rows[k].at;
        assert DeliveredWithin(rows, r, r.at.value, window);
      }
      if DeliveredWithin(rows, r, r.at.value, window) {
        var k :| 0 <= k < |rows| && rows[k].recipient == r.recipient && rows[k].template == r.template && rows[k].channel == r.channel
                 && rows[k].dedupe == r.dedupe && rows[k].at >= r.at.value - window * 1_000_000_000;
        assert SameDelivery(rows[k], r) && r.at.value - window * SECOND <= rows[k].at;
      }
    }
  }

  /** A reservation on record is replayed under its own identity and refused under another; a malformed one is never stored. */
  lemma OldOrMalformed(rows: seq<Row>, r: Reservation, limit: int, window: int)
    requires UniqueIds(rows)
    ensures r.id == NoId || r.recipient == "" ==> Reserve(rows, r, limit, window) == Err(Invalid)
    ensures forall k :: 0 <= k < |rows| && rows[k].id == r.id != NoId && r.recipient != "" ==>
              Reserve(rows, r, limit, window)
              == if rows[k].recipient == r.recipient && rows[k].template == r.template && rows[k].channel == r.channel && rows[k].dedupe == r.dedupe
                 then Ok(rows) else Err(Conflict)
    ensures r.at.None? && (forall k :: 0 <= k < |rows| ==> rows[k].id != r.id) ==> Reserve(rows, r, limit, window) == Err(Invalid)
  {
    forall k | 0 <= k < |rows| && rows[k].id == r.id != NoId && r.recipient != ""
      ensures Reserve(rows, r, limit, window) == if SameDelivery(rows[k], r) then Ok(rows) else Err(Conflict)
    {
      LookupUnique(rows, k);
    }
  }

  function RowsOf(rows: seq<Row>, recipient: string, channel: string): set<int> {
    set k | 0 <= k < |rows| && rows[k].recipient == recipient && rows[k].channel == channel
  }

  /** No delivery of the batch repeats another one of it, or a stored one. */
  predicate AllDifferent(rows: seq<Row>, batch: seq<Reservation>) {
    && (forall i, j :: 0 <= i < j < |batch| ==> batch[i].id != batch[j].id)
    && (forall i, k :: 0 <= i < |batch| && 0 <= k < |rows| ==>
          batch[i].id != rows[k].id && (batch[i].dedupe == "" || !SameDelivery(rows[k], batch[i])))
    && (forall i, j :: 0 <= i < j < |batch| && batch[j].dedupe != "" ==>
          !(batch[j].recipient == batch[i].recipient && batch[j].template == batch[i].template
            && batch[j].channel == batch[i].channel && batch[j].dedupe == batch[i].dedupe))
  }

  predicate WellFormed(batch: seq<Reservation>) {
    forall i :: 0 <= i < |batch| ==> batch[i].id != NoId && batch[i].recipient != "" && batch[i].at.Some?
  }

  /** How many of a batch are for one recipient and channel. */
  function Wanted(batch: seq<Reservation>, recipient: string, channel: string): nat {
    if batch == [] then 0
    else (if batch[0].recipient == recipient && batch[0].channel == channel then 1 else 0) + Wanted(batch[1..], recipient, channel)
  }

  /** Each recipient's rows in a channel and the batch together stay within the limit. */
  predicate HasRoom(rows: seq<Row>, batch: seq<Reservation>, limit: int) {
    forall i :: 0 <= i < |batch| ==>
      |RowsOf(rows, batch[i].recipient, batch[i].channel)| + Wanted(batch, batch[i].recipient, batch[i].channel) <= limit
  }

  /** The rows of a batch, one for each reservation. */
  function Stored(batch: seq<Reservation>): (rows: seq<Row>)
    requires WellFormed(batch)
    ensures |rows| == |batch|
    ensures forall i :: 0 <= i < |batch| ==>
              var b := batch[i]; rows[i] == Row(b.id, b.recipient, b.template, b.channel, b.dedupe, b.at.value)
  {
    seq(|batch|, i requires 0 <= i < |batch| =>
      var b := batch[i]; Row(b.id, b.recipient, b.template, b.channel, b.dedupe, b.at.value))
  }

  /** Nobody is refused while there is room: a batch of different, well-formed deliveries is then accepted in full, row for row. */
  lemma {:induction false} PlacesAreGiven(rows: seq<Row>, batch: seq<Reservation>, limit: int, window: int)
    requires AllDifferent(rows, batch) && WellFormed(batch) && HasRoom(rows, batch, limit)
    ensures ReserveAll(rows, batch, limit, window) == Ok(rows + Stored(batch))
    decreases |batch|
  {
    hide AllDifferent, Reserve, HasRoom, WellFormed;
    if batch != [] {
      var more := rows + [Stored(batch)[0]];
      FirstPlace(rows, batch, limit, window);
      StillDifferent(rows, batch);
      StillRoom(rows, batch, limit);
      PlacesAreGiven(more, batch[1..], limit, window);
      StoredParts(rows, batch);
    } else {
      assert rows + Stored(batch) == rows;
    }
  }

  lemma StoredParts(rows: seq<Row>, batch: seq<Reservation>)
    requires batch != [] && WellFormed(batch)
    ensures WellFormed(batch[1..]) && rows + [Stored(batch)[0]] + Stored(batch[1..]) == rows + Stored(batch)
  {
    assert Stored(batch) == [Stored(batch)[0]] + Stored(batch[1..]);
  }

  lemma StillRoom(rows: seq<Row>, batch: seq<Reservation>, limit: int)
    requires batch != [] && WellFormed(batch) && HasRoom(rows, batch, limit)
    ensures WellFormed(batch[1..]) && HasRoom(rows + [Stored(batch)[0]], batch[1..], limit)
  {
    hide RowsOf;
    var rest, row := batch[1..], Stored(batch)[0];
    forall i | 0 <= i < |rest|
      ensures |RowsOf(rows + [row], rest[i].recipient, rest[i].channel)| + Wanted(rest, rest[i].recipient, rest[i].channel) <= limit
    {
      OneMoreRow(rows, row, rest[i].recipient, rest[i].channel);
      assert rest[i] == batch[i + 1];
    }
  }

  lemma FirstPlace(rows: seq<Row>, batch: seq<Reservation>, limit: int, window: int)
    requires batch != [] && WellFormed(batch) && AllDifferent(rows, batch) && HasRoom(rows, batch, limit)
    ensures Reserve(rows, batch[0], limit, window) == Ok(rows + [Stored(batch)[0]])
  {
    hide Reserve;
    var r := batch[0];
    SubsetSize(LastHour(rows, r.recipient, r.channel, r.at.value), RowsOf(rows, r.recipient, r.channel));
    NewIsRefusedIff(rows, r, limit, window);
    forall k | 0 <= k < |rows| && r.dedupe != "" ensures !SameDelivery(rows[k], r) {
    }
  }

  lemma StillDifferent(rows: seq<Row>, batch: seq<Reservation>)
    requires AllDifferent(rows, batch) && batch != [] && WellFormed(batch)
    ensures AllDifferent(rows + [Stored(batch)[0]], batch[1..])
  {
  }

  lemma OneMoreRow(rows: seq<Row>, row: Row, recipient: string, channel: string)
    ensures |RowsOf(rows + [row], recipient, channel)|
         == |RowsOf(rows, recipient, channel)| + (if row.recipient == recipient && row.channel == channel then 1 else 0)
  {
    var more := rows + [row];
    assert forall k :: 0 <= k < |rows| ==> more[k] == rows[k];
    assert |rows| !in RowsOf(rows, recipient, channel);
    assert RowsOf(more, recipient, channel)
        == if row.recipient == recipient && row.channel == channel then RowsOf(rows, recipient, channel) + {|rows|} else RowsOf(rows, recipient, channel);
  }

  lemma SubsetSize(a: set<int>, b: set<int>)
    requires a <= b
    ensures |a| <= |b|
  {
    assert b == a + (b - a);
  }

  // ----- quota and dedupe over every history -----

  /** Reservations of one recipient and channel in the closed window that starts at `from`. */
  function CountWithin(rows: seq<Row>, recipient: string, channel: string, from: Time): nat
    decreases |rows|
  {
    if rows == [] then 0
    else
      var last := rows[|rows| - 1];
      CountWithin(rows[..|rows| - 1], recipient, channel, from)
      + (if Matches(last, recipient, channel, from) && last.at <= from + HOUR then 1 else 0)
  }

  predicate UniqueIds(rows: seq<Row>) {
    forall i, j :: 0 <= i < j < |rows| ==> rows[i].id != rows[j].id
  }

  ghost predicate QuotaOk(rows: seq<Row>, limit: int) {
    forall recipient, channel, from :: CountWithin(rows, recipient, channel, from) <= limit
  }

  predicate SpacedOut(rows: seq<Row>, window: int) {
    forall i, j :: 0 <= i < j < |rows| && rows[i].dedupe != "" && rows[i].recipient == rows[j].recipient
                   && rows[i].template == rows[j].template && rows[i].channel == rows[j].channel && rows[i].dedupe == rows[j].dedupe
                   ==> rows[j].at - rows[i].at > window * SECOND
  }

  ghost predicate TableOk(rows: seq<Row>, limit: int, window: int) {
    UniqueIds(rows) && QuotaOk(rows, limit) && (window > 0 ==> SpacedOut(rows, window))
  }

  lemma {:induction false} WindowWithinSince(rows: seq<Row>, recipient: string, channel: string, from: Time, since: Time)
    requires since <= from
    ensures CountWithin(rows, recipient, channel, from) <= CountSince(rows, recipient, channel, since)
    decreases |rows|
  {
    if rows != [] {
      WindowWithinSince(rows[..|rows| - 1], recipient, channel, from, since);
    }
  }

  lemma ReserveKeepsTable(rows: seq<Row>, r: Reservation, limit: int, window: int)
    requires TableOk(rows, limit, window) && Reserve(rows, r, limit, window).Ok?
    ensures TableOk(Reserve(rows, r, limit, window).value, limit, window) && rows <= Reserve(rows, r, limit, window).value
  {
    var more := Reserve(rows, r, limit, window).value;
    if more != rows {
      var last := more[|rows|];
      assert more[..|rows|] == rows;
      forall recipient, channel, from ensures CountWithin(more, recipient, channel, from) <= limit {
        assert CountWithin(rows, recipient, channel, from) <= limit;
        if Matches(last, recipient, channel, from) && last.at <= from + HOUR {
          WindowWithinSince(rows, recipient, channel, from, last.at - HOUR);
        }
      }
      if window > 0 && last.dedupe != "" {
        forall i | 0 <= i < |rows| && SameDelivery(rows[i], r) ensures last.at - rows[i].at > window * SECOND {
        }
      }
    }
  }

  lemma {:induction false} BatchKeepsTable(rows: seq<Row>, batch: seq<Reservation>, limit: int, window: int)
    requires TableOk(rows, limit, window) && ReserveAll(rows, batch, limit, window).Ok?
    ensures var more := ReserveAll(rows, batch, limit, window).value; TableOk(more, limit, window) && rows <= more
    decreases |batch|
  {
    hide TableOk, Reserve;
    if batch != [] {
      ReserveKeepsTable(rows, batch[0], limit, window);
      BatchKeepsTable(Reserve(rows, batch[0], limit, window).value, batch[1..], limit, window);
    }
  }

  /** Every call of a history, refused ones included, in whatever order their clocks put them. */
  function History(batches: seq<seq<Reservation>>, limit: int, window: int): seq<Row>
    decreases |batches|
  {
    if batches == [] then []
    else
      var rows := History(batches[..|batches| - 1], limit, window);
      match ReserveAll(rows, batches[|batches| - 1], limit, window)
      case Ok(more) => more
      case Err(_) => rows
  }

  /**
   * Under a fixed policy, no closed one-hour window ever holds more than the limit for a recipient and
   * channel, and equal deliveries under a dedupe key are more than the window apart. The clocks of the
   * calls need not be monotone.
   */
  lemma {:induction false} QuotaAndDedupeHold(batches: seq<seq<Reservation>>, limit: int, window: int)
    requires limit >= 1
    ensures TableOk(History(batches, limit, window), limit, window)
    decreases |batches|
  {
    if batches == [] {
      assert forall recipient, channel, from :: CountWithin([], recipient, channel, from) == 0;
    } else {
      var rows := History(batches[..|batches| - 1], limit, window);
      QuotaAndDedupeHold(batches[..|batches| - 1], limit, window);
      if ReserveAll(rows, batches[|batches| - 1], limit, window).Ok? {
        BatchKeepsTable(rows, batches[|batches| - 1], limit, window);
      }
    }
  }

  // ----- the first places of every quota -----

  /** The deliveries that a history asks for, in order. */
  function Asked(batches: seq<seq<Reservation>>): seq<Reservation>
    decreases |batches|
  {
    if batches == [] then [] else Asked(batches[..|batches| - 1]) + batches[|batches| - 1]
  }

  /**
   * Over any number of calls, the first `limit` deliveries of every recipient and channel are all accepted:
   * while nobody has asked for more, the table holds one row for each of the history's different, well-formed
   * deliveries, in order.
   */
  lemma {:induction false} FirstPlacesAreGiven(batches: seq<seq<Reservation>>, limit: int, window: int)
    requires AllDifferent([], Asked(batches)) && WellFormed(Asked(batches)) && HasRoom([], Asked(batches), limit)
    ensures History(batches, limit, window) == Stored(Asked(batches))
    decreases |batches|
  {
    hide AllDifferent, WellFormed, HasRoom, ReserveAll;
    if batches == [] {
      assert Stored(Asked(batches)) == [];
    } else {
      var before, batch := Asked(batches[..|batches| - 1]), batches[|batches| - 1];
      SplitStored(before, batch);
      SplitDifferent(before, batch);
      SplitRoom(before, batch, limit);
      FirstPlacesAreGiven(batches[..|batches| - 1], limit, window);
      PlacesAreGiven(Stored(before), batch, limit, window);
    }
  }

  /** Room for two batches at once is room for the first, and then for the second. */
  lemma SplitRoom(before: seq<Reservation>, batch: seq<Reservation>, limit: int)
    requires WellFormed(before) && HasRoom([], before + batch, limit)
    ensures HasRoom([], before, limit) && HasRoom(Stored(before), batch, limit)
  {
    hide WellFormed;
    var all := before + batch;
    forall recipient, channel
      ensures |RowsOf([], recipient, channel)| == 0
      ensures Wanted(all, recipient, channel) == Wanted(before, recipient, channel) + Wanted(batch, recipient, channel)
      ensures |RowsOf(Stored(before), recipient, channel)| == Wanted(before, recipient, channel)
    {
      assert RowsOf([], recipient, channel) == {};
      WantedAdds(before, batch, recipient, channel);
      StoredRows(before, recipient, channel);
    }
    hide RowsOf, Wanted;
    forall i | 0 <= i < |before| ensures |RowsOf([], before[i].recipient, before[i].channel)| + Wanted(before, before[i].recipient, before[i].channel) <= limit {
      assert before[i] == all[i];
    }
    forall i | 0 <= i < |batch|
      ensures |RowsOf(Stored(before), batch[i].recipient, batch[i].channel)| + Wanted(batch, batch[i].recipient, batch[i].channel) <= limit
    {
      assert batch[i] == all[|before| + i];
    }
  }

  lemma {:induction false} WantedAdds(a: seq<Reservation>, b: seq<Reservation>, recipient: string, channel: string)
    ensures Wanted(a + b, recipient, channel) == Wanted(a, recipient, channel) + Wanted(b, recipient, channel)
  {
    if a == [] {
      assert a + b == b;
    } else {
      assert (a + b)[1..] == a[1..] + b;
      WantedAdds(a[1..], b, recipient, channel);
    }
  }

  lemma SplitStored(before: seq<Reservation>, batch: seq<Reservation>)
    requires WellFormed(before + batch)
    ensures WellFormed(before) && WellFormed(batch) && Stored(before) + Stored(batch) == Stored(before + batch)
  {
    var all := before + batch;
    assert forall i :: 0 <= i < |before| ==> all[i] == before[i];
    assert forall i :: 0 <= i < |batch| ==> all[|before| + i] == batch[i];
  }

  lemma SplitDifferent(before: seq<Reservation>, batch: seq<Reservation>)
    requires AllDifferent([], before + batch) && WellFormed(before)
    ensures AllDifferent([], before) && AllDifferent(Stored(before), batch)
  {
    hide WellFormed;
    var all, rows := before + batch, Stored(before);
    assert forall i :: 0 <= i < |before| ==> all[i] == before[i];
    forall i, k | 0 <= i < |batch| && 0 <= k < |rows|
      ensures batch[i].id != rows[k].id && (batch[i].dedupe == "" || !SameDelivery(rows[k], batch[i]))
    {
      assert batch[i] == all[|before| + i] && before[k] == all[k];
    }
    forall i, j | 0 <= i < j < |batch| ensures batch[i] == all[|before| + i] && batch[j] == all[|before| + j] {
    }
  }

  lemma {:induction false} StoredRows(batch: seq<Reservation>, recipient: string, channel: string)
    requires WellFormed(batch)
    ensures |RowsOf(Stored(batch), recipient, channel)| == Wanted(batch, recipient, channel)
    decreases |batch|
  {
    if batch == [] {
      assert RowsOf(Stored(batch), recipient, channel) == {};
    } else {
      var n := |batch| - 1;
      StoredRows(batch[..n], recipient, channel);
      assert Stored(batch) == Stored(batch[..n]) + [Stored(batch)[n]];
      OneMoreRow(Stored(batch[..n]), Stored(batch)[n], recipient, channel);
      assert batch == batch[..n] + [batch[n]];
      WantedAdds(batch[..n], [batch[n]], recipient, channel);
    }
  }

  // ----- replay -----

  predicate Recorded(rows: seq<Row>, batch: seq<Reservation>) {
    forall i :: 0 <= i < |batch| ==>
      batch[i].id != NoId && batch[i].recipient != "" && exists k :: 0 <= k < |rows| && rows[k].id == batch[i].id && SameDelivery(rows[k], batch[i])
  }

  lemma {:induction false} LookupUnique(rows: seq<Row>, k: nat)
    requires k < |rows| && UniqueIds(rows)
    ensures Lookup(rows, rows[k].id) == Some(rows[k])
    decreases |rows|
  {
    if k < |rows| - 1 {
      LookupUnique(rows[..|rows| - 1], k);
    }
  }

  /** A batch whose reservations are all recorded succeeds and changes nothing, whatever the quota and whatever its timestamps. */
  lemma {:induction false} RecordedReplays(rows: seq<Row>, batch: seq<Reservation>, limit: int, window: int)
    requires UniqueIds(rows) && Recorded(rows, batch)
    ensures ReserveAll(rows, batch, limit, window) == Ok(rows)
    decreases |batch|
  {
    if batch != [] {
      var k :| 0 <= k < |rows| && rows[k].id == batch[0].id && SameDelivery(rows[k], batch[0]);
      LookupUnique(rows, k);
      assert Recorded(rows, batch[1..]);
      RecordedReplays(rows, batch[1..], limit, window);
    }
  }

  lemma {:induction false} AcceptedIsRecorded(rows: seq<Row>, batch: seq<Reservation>, limit: int, window: int)
    requires TableOk(rows, limit, window) && ReserveAll(rows, batch, limit, window).Ok?
    ensures Recorded(ReserveAll(rows, batch, limit, window).value, batch)
    decreases |batch|
  {
    if batch != [] {
      var more := Reserve(rows, batch[0], limit, window).value;
      ReserveKeepsTable(rows, batch[0], limit, window);
      AcceptedIsRecorded(more, batch[1..], limit, window);
      BatchKeepsTable(more, batch[1..], limit, window);
      var all := ReserveAll(rows, batch, limit, window).value;
      var row := if more == rows then Lookup(rows, batch[0].id).value else more[|rows|];
      assert row in more && row.id == batch[0].id && SameDelivery(row, batch[0]);
      var k :| 0 <= k < |more| && more[k] == row;
      assert all[k] == row;
      forall i | 0 < i < |batch|
        ensures batch[i].id != NoId && batch[i].recipient != "" && exists k :: 0 <= k < |all| && all[k].id == batch[i].id && SameDelivery(all[k], batch[i])
      {
        assert batch[1..][i - 1] == batch[i];
      }
    }
  }

  /** The same reservations at another time. */
  predicate Again(batch: seq<Reservation>, again: seq<Reservation>) {
    |again| == |batch| && forall i :: 0 <= i < |batch| ==> again[i] == batch[i].(at := again[i].at)
  }

  /**
   * A retry that repeats an accepted batch under the same ids, however much later and even under another
   * policy, succeeds and changes nothing, although by then the quota may be full.
   */
  lemma ReplaySucceeds(before: seq<Row>, batch: seq<Reservation>, later: seq<Row>, again: seq<Reservation>,
                       limit: int, window: int, limit': int, window': int)
    requires TableOk(before, limit, window) && ReserveAll(before, batch, limit, window).Ok?
    requires ReserveAll(before, batch, limit, window).value <= later && UniqueIds(later) && Again(batch, again)
    ensures ReserveAll(later, again, limit', window') == Ok(later)
  {
    AcceptedIsRecorded(before, batch, limit, window);
    var done := ReserveAll(before, batch, limit, window).value;
    forall i | 0 <= i < |again|
      ensures again[i].id != NoId && again[i].recipient != ""
      ensures exists k :: 0 <= k < |later| && later[k].id == again[i].id && SameDelivery(later[k], again[i])
    {
      var k :| 0 <= k < |done| && done[k].id == batch[i].id && SameDelivery(done[k], batch[i]);
      assert later[k] == done[k];
    }
    RecordedReplays(later, again, limit', window');
  }
}
