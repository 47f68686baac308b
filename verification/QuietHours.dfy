/** Quiet hours in a zone with a fixed offset from UTC. */
module QuietHours {
  import opened Prelude

  const MINUTE := 60_000_000_000
  const DAY := 1440 * MINUTE

  datatype Clock = Clock(hour: nat, minute: nat)

  /** `offset` is absent when the zone name cannot be loaded. */
  datatype Policy = Policy(start: string, end: string, offset: Option<int>)

  predicate Digit(c: char) {
    '0' <= c <= '9'
  }

  function Value(c: char): int
    requires Digit(c)
  {
    c as int - '0' as int
  }

  /** One or two hour digits, a colon, exactly two minute digits. */
  function ParseClock(s: string): (r: Option<Clock>)
    ensures r.Some? ==> r.value.hour < 24 && r.value.minute < 60
  {
    if |s| == 4 && Digit(s[0]) && s[1] == ':' && Digit(s[2]) && Digit(s[3]) && Value(s[2]) < 6 then
      Some(Clock(Value(s[0]), 10 * Value(s[2]) + Value(s[3])))
    else if |s| == 5 && Digit(s[0]) && Digit(s[1]) && s[2] == ':' && Digit(s[3]) && Digit(s[4])
            && 10 * Value(s[0]) + Value(s[1]) < 24 && Value(s[3]) < 6 then
      Some(Clock(10 * Value(s[0]) + Value(s[1]), 10 * Value(s[3]) + Value(s[4])))
    else None
  }

  function Minutes(c: Clock): nat {
    c.hour * 60 + c.minute
  }

  function InQuiet(minute: int, start: int, end: int): bool {
    (start < end && start <= minute < end) || (start >= end && (minute >= start || minute < end))
  }

  function NextQuietHoursEnd(now: Time, policy: Policy): Option<Time> {
    if policy.offset.None? then None
    else
      var start, end := ParseClock(policy.start), ParseClock(policy.end);
      if start.None? || end.None? then None
      else
        var local := now + policy.offset.value;
        var midnight := local - local % DAY;
        if !InQuiet((local % DAY) / MINUTE, Minutes(start.value), Minutes(end.value)) then None
        else
          var endAt := midnight + Minutes(end.value) * MINUTE;
          Some((if endAt <= local then endAt + DAY else endAt) - policy.offset.value)
  }

  // ----- the windows themselves -----

  predicate Valid(policy: Policy) {
    policy.offset.Some? && ParseClock(policy.start).Some? && ParseClock(policy.end).Some?
  }

  /** From the start clock to the next end clock: the whole day when they are equal. */
  function Length(policy: Policy): int
    requires Valid(policy)
  {
    var gap := (Minutes(ParseClock(policy.end).value) - Minutes(ParseClock(policy.start).value)) * MINUTE;
    if gap <= 0 then gap + DAY else gap
  }

  /** The quiet window that opens on the local day `day`. */
  function Opens(policy: Policy, day: int): Time
    requires Valid(policy)
  {
    day * DAY + Minutes(ParseClock(policy.start).value) * MINUTE - policy.offset.value
  }

  predicate InWindow(policy: Policy, day: int, t: Time)
    requires Valid(policy)
  {
    Opens(policy, day) <= t < Opens(policy, day) + Length(policy)
  }

  ghost predicate Quiet(policy: Policy, t: Time)
    requires Valid(policy)
  {
    exists day :: InWindow(policy, day, t)
  }

  lemma MinuteOf(r: int, m: int)
    ensures r / MINUTE >= m <==> r >= m * MINUTE
  {
  }

  /** Windows open once a day and last at most a day, so only two could hold an instant. */
  lemma OnlyTwoCandidates(now: Time, policy: Policy, day: int)
    requires Valid(policy) && InWindow(policy, day, now)
    ensures var today := (now + policy.offset.value) / DAY; day == today || day == today - 1
  {
    hide ParseClock;
    EqualClocks(policy);
    OpensWithinDay(policy, day);
    hide Length, Opens, Minutes;
    DayOf(now + policy.offset.value, day, Opens(policy, day) + policy.offset.value);
  }

  lemma OpensWithinDay(policy: Policy, day: int)
    requires Valid(policy)
    ensures day * DAY <= Opens(policy, day) + policy.offset.value < day * DAY + DAY
  {
    hide ParseClock;
  }

  lemma DayOf(x: int, day: int, opens: int)
    requires day * DAY <= opens < day * DAY + DAY && opens <= x < opens + DAY
    ensures day == x / DAY || day == x / DAY - 1
  {
  }

  /** Where in its local day an instant lies, against a window of whole minutes that opens on that day or the day before. */
  lemma MinuteWindow(r: int, start: int, end: int)
    requires 0 <= r < DAY && 0 <= start < 1440 && 0 <= end < 1440
    ensures var length := if end > start then end - start else end - start + 1440;
      && (InQuiet(r / MINUTE, start, end) <==>
            start * MINUTE <= r < (start + length) * MINUTE || start * MINUTE <= r + DAY < (start + length) * MINUTE)
      && (start * MINUTE <= r < (start + length) * MINUTE ==>
            (start + length) * MINUTE == (if end * MINUTE <= r then end * MINUTE + DAY else end * MINUTE))
      && (!(start * MINUTE <= r < (start + length) * MINUTE) && start * MINUTE <= r + DAY < (start + length) * MINUTE ==>
            (start + length) * MINUTE - DAY == (if end * MINUTE <= r then end * MINUTE + DAY else end * MINUTE))
  {
    MinuteOf(r, start);
    MinuteOf(r, end);
  }

  lemma CandidateHolds(now: Time, policy: Policy)
    requires Valid(policy)
    ensures var today := (now + policy.offset.value) / DAY; var next := NextQuietHoursEnd(now, policy);
      if InWindow(policy, today, now) then next == Some(Opens(policy, today) + Length(policy))
      else if InWindow(policy, today - 1, now) then next == Some(Opens(policy, today - 1) + Length(policy))
      else next == None
  {
    hide ParseClock, InQuiet, Minutes;
    var local := now + policy.offset.value;
    assert local == local / DAY * DAY + local % DAY;
    var start, end := ParseClock(policy.start).value, ParseClock(policy.end).value;
    MinutesBound(start);
    MinutesBound(end);
    MinuteWindow(local % DAY, Minutes(start), Minutes(end));
  }

  lemma MinutesBound(c: Clock)
    requires c.hour < 24 && c.minute < 60
    ensures Minutes(c) < 1440
  {
  }

  lemma WindowsDisjoint(policy: Policy, a: int, b: int, t: Time)
    requires Valid(policy) && InWindow(policy, a, t) && InWindow(policy, b, t)
    ensures a == b
  {
    hide ParseClock, Length, Valid, Minutes;
    EqualClocks(policy);
  }

  /** Delivery is deferred exactly when some quiet window holds the instant, and then to that window's end. */
  lemma DeferredToWindowEnd(now: Time, policy: Policy)
    requires Valid(policy)
    ensures NextQuietHoursEnd(now, policy).Some? <==> Quiet(policy, now)
    ensures forall day :: InWindow(policy, day, now) ==> NextQuietHoursEnd(now, policy) == Some(Opens(policy, day) + Length(policy))
  {
    CandidateHolds(now, policy);
    hide NextQuietHoursEnd, InWindow, Opens, ParseClock, Valid, Length;
    var today := (now + policy.offset.value) / DAY;
    forall day | InWindow(policy, day, now)
      ensures NextQuietHoursEnd(now, policy) == Some(Opens(policy, day) + Length(policy))
    {
      OnlyTwoCandidates(now, policy, day);
      if InWindow(policy, today, now) { WindowsDisjoint(policy, today, day, now); }
    }
    if NextQuietHoursEnd(now, policy).Some? {
      assert InWindow(policy, today, now) || InWindow(policy, today - 1, now);
    }
  }

  /**
   * The deferred instant is later than now but within a day, everything until it is quiet, and it is
   * itself quiet exactly when the two clocks are equal, that is, when the quiet hours never end.
   */
  lemma DeferralIsTight(now: Time, policy: Policy)
    requires Valid(policy) && NextQuietHoursEnd(now, policy).Some?
    ensures var end := NextQuietHoursEnd(now, policy).value;
      && now < end <= now + DAY
      && (forall t :: now <= t < end ==> Quiet(policy, t))
      && (Quiet(policy, end) <==> ParseClock(policy.start) == ParseClock(policy.end))
  {
    hide NextQuietHoursEnd, ParseClock, Valid, Length;
    DeferredToWindowEnd(now, policy);
    var day :| InWindow(policy, day, now);
    var end := NextQuietHoursEnd(now, policy).value;
    forall t | now <= t < end ensures Quiet(policy, t) {
      assert InWindow(policy, day, t);
    }
    EqualClocks(policy);
    if ParseClock(policy.start) == ParseClock(policy.end) {
      assert InWindow(policy, day + 1, end);
    } else {
      forall other ensures !InWindow(policy, other, end) {
      }
    }
  }

  lemma EqualClocks(policy: Policy)
    requires Valid(policy)
    ensures Length(policy) == DAY <==> ParseClock(policy.start) == ParseClock(policy.end)
    ensures 0 < Length(policy) <= DAY
  {
    hide ParseClock;
  }

  // ----- clock texts -----

  function DigitText(d: int): string
    requires 0 <= d < 10
  {
    [('0' as int + d) as char]
  }

  function TwoDigits(n: int): string
    requires 0 <= n < 100
  {
    DigitText(n / 10) + DigitText(n % 10)
  }

  /** A clock's texts: two digits each, or one for an hour below ten. */
  predicate Writes(s: string, hour: int, minute: int) {
    && 0 <= hour < 24 && 0 <= minute < 60
    && (s == TwoDigits(hour) + ":" + TwoDigits(minute) || (hour < 10 && s == DigitText(hour) + ":" + TwoDigits(minute)))
  }

  lemma DigitValue(d: int)
    requires 0 <= d < 10
    ensures Digit(DigitText(d)[0]) && Value(DigitText(d)[0]) == d && |DigitText(d)| == 1
  {
  }

  lemma ValueDigit(c: char)
    requires Digit(c)
    ensures 0 <= Value(c) < 10 && DigitText(Value(c)) == [c]
  {
  }

  lemma DigitsOf(tens: int, ones: int)
    requires 0 <= tens < 10 && 0 <= ones < 10
    ensures (10 * tens + ones) / 10 == tens && (10 * tens + ones) % 10 == ones
    ensures 0 <= 10 * tens + ones < 100 && TwoDigits(10 * tens + ones) == DigitText(tens) + DigitText(ones)
  {
  }

  /** Exactly the texts of a clock parse, and to that clock. */
  lemma ParsesIff(s: string, hour: nat, minute: nat)
    ensures ParseClock(s) == Some(Clock(hour, minute)) <==> Writes(s, hour, minute)
  {
    if ParseClock(s) == Some(Clock(hour, minute)) {
      ParsedIsWritten(s);
    }
    if Writes(s, hour, minute) {
      WrittenParses(s, hour, minute);
    }
  }

  lemma ParsedIsWritten(s: string)
    requires ParseClock(s).Some?
    ensures Writes(s, ParseClock(s).value.hour, ParseClock(s).value.minute)
  {
    if |s| == 4 {
      ValueDigit(s[0]);
      ValueDigit(s[2]);
      ValueDigit(s[3]);
      DigitsOf(Value(s[2]), Value(s[3]));
      hide DigitText;
      assert s == [s[0]] + ":" + ([s[2]] + [s[3]]);
    } else {
      ValueDigit(s[0]);
      ValueDigit(s[1]);
      ValueDigit(s[3]);
      ValueDigit(s[4]);
      DigitsOf(Value(s[0]), Value(s[1]));
      DigitsOf(Value(s[3]), Value(s[4]));
      hide DigitText;
      assert s == ([s[0]] + [s[1]]) + ":" + ([s[3]] + [s[4]]);
    }
  }

  lemma WrittenParses(s: string, hour: int, minute: int)
    requires Writes(s, hour, minute)
    ensures ParseClock(s) == Some(Clock(hour, minute))
  {
    DigitValue(minute / 10);
    DigitValue(minute % 10);
    DigitValue(hour / 10);
    DigitValue(hour % 10);
    if hour < 10 { DigitValue(hour); }
    hide DigitText, Value, Digit;
    assert hour == 10 * (hour / 10) + hour % 10 && minute == 10 * (minute / 10) + minute % 10;
  }

  /** A policy whose zone or one of whose clocks cannot be read defers nothing. */
  lemma UnreadableDefersNothing(now: Time, policy: Policy)
    requires policy.offset.None? || ParseClock(policy.start).None? || ParseClock(policy.end).None?
    ensures NextQuietHoursEnd(now, policy) == None
  {
    hide ParseClock;
  }

  /** On the local clock a window opens at the start text's time and closes at the end text's, the next day if that is not later. */
  lemma WindowClock(policy: Policy, day: int, hour: nat, minute: nat, endHour: nat, endMinute: nat)
    requires policy.offset.Some? && Writes(policy.start, hour, minute) && Writes(policy.end, endHour, endMinute)
    ensures Valid(policy)
    ensures var opens := Opens(policy, day) + policy.offset.value; var closes := opens + Length(policy);
      && opens == (day * 24 + hour) * 3_600_000_000_000 + minute * 60_000_000_000
      && closes == ((if hour * 60 + minute < endHour * 60 + endMinute then day else day + 1) * 24 + endHour) * 3_600_000_000_000 + endMinute * 60_000_000_000
  {
    ParsesIff(policy.start, hour, minute);
    ParsesIff(policy.end, endHour, endMinute);
    hide ParseClock, Writes;
  }
}
