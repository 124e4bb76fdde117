/**
 * The slice of Python's `datetime` the core uses: `datetime.fromisoformat`
 * (in its Python 3.7-3.10 form), `datetime.isoformat`, adding `timedelta(days=n)`,
 * and the two `str.replace` calls the core wraps around them to map the `Z`
 * designator to `+00:00` and back.
 */
module IsoTime {
  import opened Wrappers
  import opened Text

  /**
   * A `datetime`: wall-clock fields and a UTC offset in minutes (aware), or
   * no offset at all (naive, as `utcnow()` returns).
   */
  datatype DateTime = DateTime(
    year: nat, month: nat, day: nat,
    hour: nat, minute: nat, second: nat, micro: nat,
    offset: Option<int>)

  /** A calendar date with an unbounded year, for stepping across the range limits. */
  datatype Date = Date(year: int, month: int, day: int)

  const MinYear := 1
  const MaxYear := 9999
  /** `timedelta` refuses more days than this with OverflowError. */
  const MaxDeltaDays := 999999999
  /** A fixed offset must be strictly inside one day. */
  const MinutesPerDay := 1440

  // ---------------------------------------------------------------------------
  // The proleptic Gregorian calendar

  predicate IsLeap(y: int) {
    y % 4 == 0 && (y % 100 != 0 || y % 400 == 0)
  }

  function DaysInMonth(y: int, m: int): int {
    if m == 2 then (if IsLeap(y) then 29 else 28)
    else if m == 4 || m == 6 || m == 9 || m == 11 then 30
    else 31
  }

  predicate ValidDate(d: Date) {
    1 <= d.month <= 12 && 1 <= d.day <= DaysInMonth(d.year, d.month)
  }

  function NextDay(d: Date): Date {
    if d.day < DaysInMonth(d.year, d.month) then d.(day := d.day + 1)
    else if d.month < 12 then Date(d.year, d.month + 1, 1)
    else Date(d.year + 1, 1, 1)
  }

  function PrevDay(d: Date): Date {
    if d.day > 1 then d.(day := d.day - 1)
    else if d.month > 1 then Date(d.year, d.month - 1, DaysInMonth(d.year, d.month - 1))
    else Date(d.year - 1, 12, 31)
  }

  /** The date n days after d (before it when n is negative). */
  function Shift(d: Date, n: int): Date
    decreases if n < 0 then -n else n
  {
    if n == 0 then d
    else if n > 0 then Shift(NextDay(d), n - 1)
    else Shift(PrevDay(d), n + 1)
  }

  /** Stepping a day forward and back are inverse and keep dates valid. */
  lemma StepInverse(d: Date)
    requires ValidDate(d)
    ensures ValidDate(NextDay(d)) && PrevDay(NextDay(d)) == d
    ensures ValidDate(PrevDay(d)) && NextDay(PrevDay(d)) == d
  {
  }

  lemma {:induction false} ShiftValid(d: Date, n: int)
    requires ValidDate(d)
    ensures ValidDate(Shift(d, n))
    decreases if n < 0 then -n else n
  {
    if n > 0 {
      StepInverse(d);
      ShiftValid(NextDay(d), n - 1);
    } else if n < 0 {
      StepInverse(d);
      ShiftValid(PrevDay(d), n + 1);
    }
  }

  lemma ShiftFromNext(d: Date, n: int)
    requires ValidDate(d)
    ensures Shift(NextDay(d), n) == Shift(d, n + 1)
  {
    if n < 0 {
      StepInverse(d);
    }
  }

  lemma ShiftFromPrev(d: Date, n: int)
    requires ValidDate(d)
    ensures Shift(PrevDay(d), n) == Shift(d, n - 1)
  {
    if n > 0 {
      StepInverse(d);
    }
  }

  /** Shifting by a and then by b is shifting by a + b. */
  lemma {:induction false} ShiftAdd(d: Date, a: int, b: int)
    requires ValidDate(d)
    ensures Shift(Shift(d, a), b) == Shift(d, a + b)
    decreases if a < 0 then -a else a
  {
    if a > 0 {
      StepInverse(d);
      ShiftAdd(NextDay(d), a - 1, b);
      ShiftFromNext(d, a - 1 + b);
    } else if a < 0 {
      StepInverse(d);
      ShiftAdd(PrevDay(d), a + 1, b);
      ShiftFromPrev(d, a + 1 + b);
    }
  }

  // ---------------------------------------------------------------------------
  // datetime values and `datetime + timedelta(days=n)`

  function DateOf(t: DateTime): Date {
    Date(t.year, t.month, t.day)
  }

  /** What the `datetime` constructor and `timezone` accept. */
  predicate Valid(t: DateTime) {
    && MinYear <= t.year <= MaxYear
    && ValidDate(DateOf(t))
    && t.hour < 24 && t.minute < 60 && t.second < 60 && t.micro < 1000000
    && (t.offset.Some? ==> -MinutesPerDay < t.offset.value < MinutesPerDay)
  }

  /**
   * `t + timedelta(days=n)`; None where Python raises OverflowError, either
   * building the timedelta or because the result leaves years 1..9999.
   * The time of day and the offset are kept.
   */
  function AddDays(t: DateTime, n: int): (r: Option<DateTime>)
    requires Valid(t)
    ensures r.Some? ==> Valid(r.value)
    ensures r.Some? ==> -MaxDeltaDays <= n <= MaxDeltaDays
    ensures r.Some? ==> DateOf(r.value) == Shift(DateOf(t), n)
    ensures r.Some? ==> r.value.(year := t.year, month := t.month, day := t.day) == t
    ensures r.None? <==>
      n < -MaxDeltaDays || n > MaxDeltaDays || !(MinYear <= Shift(DateOf(t), n).year <= MaxYear)
  {
    if n < -MaxDeltaDays || n > MaxDeltaDays then None
    else
      var d := Shift(DateOf(t), n);
      ShiftValid(DateOf(t), n);
      if MinYear <= d.year <= MaxYear then Some(t.(year := d.year, month := d.month, day := d.day))
      else None
  }

  lemma AddDaysZero(t: DateTime)
    requires Valid(t)
    ensures AddDays(t, 0) == Some(t)
  {
    var d := Shift(DateOf(t), 0);
    assert d == DateOf(t);
    assert t.(year := d.year, month := d.month, day := d.day) == t;
  }

  /** Adding a then b days is adding a + b days, whenever the first step and the sum are in range. */
  lemma AddDaysCompose(t: DateTime, a: int, b: int)
    requires Valid(t) && AddDays(t, a).Some?
    requires -MaxDeltaDays <= b <= MaxDeltaDays && -MaxDeltaDays <= a + b <= MaxDeltaDays
    ensures AddDays(AddDays(t, a).value, b) == AddDays(t, a + b)
  {
    ShiftAdd(DateOf(t), a, b);
  }

  /** Subtracting what was added restores the original value. */
  lemma AddDaysInverse(t: DateTime, n: int)
    requires Valid(t) && AddDays(t, n).Some?
    ensures AddDays(AddDays(t, n).value, -n) == Some(t)
  {
    AddDaysCompose(t, n, -n);
  }

  // ---------------------------------------------------------------------------
  // datetime.isoformat

  function DateText(y: nat, m: nat, d: nat): string {
    Pad(y, 4) + ("-" + (Pad(m, 2) + ("-" + Pad(d, 2))))
  }

  function FractionText(micro: nat): string {
    if micro == 0 then "" else "." + Pad(micro, 6)
  }

  function ClockText(h: nat, m: nat, s: nat, micro: nat): string {
    Pad(h, 2) + (":" + (Pad(m, 2) + (":" + (Pad(s, 2) + FractionText(micro)))))
  }

  /** `+HH:MM` / `-HH:MM` for an aware value, nothing for a naive one. */
  function OffsetText(offset: Option<int>): string {
    match offset
    case None => ""
    case Some(m) =>
      var a := if m < 0 then -m else m;
      [if m < 0 then '-' else '+'] + (Pad(a / 60, 2) + (":" + Pad(a % 60, 2)))
  }

  /** Everything `isoformat` prints before the offset. */
  function LocalText(t: DateTime): string {
    DateText(t.year, t.month, t.day) + ("T" + ClockText(t.hour, t.minute, t.second, t.micro))
  }

  /** `t.isoformat()`. */
  function IsoFormat(t: DateTime): string {
    LocalText(t) + OffsetText(t.offset)
  }

  // ---------------------------------------------------------------------------
  // datetime.fromisoformat

  /** w decimal digits at the front of s, and what follows them. */
  function Take(s: string, w: nat): Option<(nat, string)> {
    if w == 0 then Some((0, s))
    else match Take(s, w - 1)
      case None => None
      case Some((v, rest)) =>
        if |rest| > 0 && IsDigit(rest[0]) then Some((10 * v + DigitValue(rest[0]), rest[1..])) else None
  }

  /** The character c at the front of s, and what follows it. */
  function Skip(s: string, c: char): Option<string> {
    if |s| > 0 && s[0] == c then Some(s[1..]) else None
  }

  /** Where the time of day may stop: at the end, or where the offset begins. */
  predicate AtEnd(s: string) {
    s == [] || s[0] == '+' || s[0] == '-'
  }

  /** `YYYY-MM-DD` at the front of s. */
  function ParseDate(s: string): Option<(nat, nat, nat, string)> {
    var y :- Take(s, 4);
    var s1 :- Skip(y.1, '-');
    var m :- Take(s1, 2);
    var s2 :- Skip(m.1, '-');
    var d :- Take(s2, 2);
    Some((y.0, m.0, d.0, d.1))
  }

  /** `.fff` (milliseconds) or `.ffffff` (microseconds) digits, after the dot. */
  function ParseFraction(s: string): Option<(nat, string)> {
    var six := Take(s, 6);
    var three := Take(s, 3);
    if six.Some? && AtEnd(six.value.1) then six
    else if three.Some? && AtEnd(three.value.1) then Some((1000 * three.value.0, three.value.1))
    else None
  }

  /** `SS[.fff[fff]]` at the front of s: second, microsecond, rest. */
  function ParseSeconds(s: string): Option<(nat, nat, string)> {
    var sec :- Take(s, 2);
    if AtEnd(sec.1) then Some((sec.0, 0, sec.1)) else
    var s1 :- Skip(sec.1, '.');
    var f :- ParseFraction(s1);
    Some((sec.0, f.0, f.1))
  }

  /** `MM[:SS[.fff[fff]]]` at the front of s: minute, second, microsecond, rest. */
  function ParseMinutes(s: string): Option<(nat, nat, nat, string)> {
    var m :- Take(s, 2);
    if AtEnd(m.1) then Some((m.0, 0, 0, m.1)) else
    var s1 :- Skip(m.1, ':');
    var r :- ParseSeconds(s1);
    Some((m.0, r.0, r.1, r.2))
  }

  /** `HH[:MM[:SS[.fff[fff]]]]` at the front of s: hour, minute, second, microsecond, rest. */
  function ParseClock(s: string): Option<(nat, nat, nat, nat, string)> {
    var h :- Take(s, 2);
    if AtEnd(h.1) then Some((h.0, 0, 0, 0, h.1)) else
    var s1 :- Skip(h.1, ':');
    var r :- ParseMinutes(s1);
    Some((h.0, r.0, r.1, r.2, r.3))
  }

  /** Nothing (naive), or exactly `+HH:MM` / `-HH:MM` (aware, in minutes). */
  function ParseOffset(s: string): Option<Option<int>> {
    if s == [] then Some(None)
    else if s[0] != '+' && s[0] != '-' then None
    else
      var h :- Take(s[1..], 2);
      var s1 :- Skip(h.1, ':');
      var m :- Take(s1, 2);
      if m.1 != [] then None
      else Some(Some((if s[0] == '-' then -1 else 1) * (60 * h.0 + m.0)))
  }

  /**
   * `datetime.fromisoformat(s)`; None where it raises ValueError. The date is
   * `YYYY-MM-DD`; any one character separates it from an optional time of day.
   */
  function ParseIso(s: string): (r: Option<DateTime>)
    ensures r.Some? ==> Valid(r.value)
  {
    var date :- ParseDate(s);
    var clock :- if date.3 == [] then Some((0, 0, 0, 0, [])) else ParseClock(date.3[1..]);
    var offset :- ParseOffset(clock.4);
    var t := DateTime(date.0, date.1, date.2, clock.0, clock.1, clock.2, clock.3, offset);
    if Valid(t) then Some(t) else None
  }

  // ---------------------------------------------------------------------------
  // The core's two wrappers

  /** `datetime.fromisoformat(s.replace("Z", "+00:00"))`. */
  function ReadIso(s: string): Option<DateTime> {
    ParseIso(Replace(s, "Z", "+00:00"))
  }

  /** `t.isoformat().replace("+00:00", "Z")`. */
  function Serialize(t: DateTime): string {
    Replace(IsoFormat(t), "+00:00", "Z")
  }

  /** `t.strftime("%Y%m%d_%H%M%S")`. */
  function Stamp(t: DateTime): string {
    Pad(t.year, 4) + Pad(t.month, 2) + Pad(t.day, 2) + "_" + Pad(t.hour, 2) + Pad(t.minute, 2) + Pad(t.second, 2)
  }

  // ---------------------------------------------------------------------------
  // Round trips

  lemma {:induction false} TakePad(v: nat, w: nat, rest: string)
    requires v < Pow10(w)
    ensures Take(Pad(v, w) + rest, w) == Some((v, rest))
  {
    if w == 0 {
      assert Pad(v, w) + rest == rest;
    } else {
      var c := DigitChar(v % 10);
      assert v / 10 < Pow10(w - 1);
      assert Pad(v, w) + rest == Pad(v / 10, w - 1) + ([c] + rest);
      TakePad(v / 10, w - 1, [c] + rest);
      assert ([c] + rest)[1..] == rest;
      assert DigitValue(c) == v % 10;
    }
  }

  lemma SkipChar(c: char, rest: string)
    ensures Skip([c] + rest, c) == Some(rest)
  {
    assert ([c] + rest)[1..] == rest;
  }

  lemma ParseDateText(y: nat, m: nat, d: nat, rest: string)
    requires y < 10000 && m < 100 && d < 100
    ensures ParseDate(DateText(y, m, d) + rest) == Some((y, m, d, rest))
  {
    var r3 := Pad(d, 2) + rest;
    var r2 := "-" + r3;
    var r1 := Pad(m, 2) + r2;
    var r0 := "-" + r1;
    assert DateText(y, m, d) + rest == Pad(y, 4) + r0;
    TakePad(y, 4, r0);
    SkipChar('-', r1);
    TakePad(m, 2, r2);
    SkipChar('-', r3);
    TakePad(d, 2, rest);
  }

  lemma ParseFractionText(micro: nat, rest: string)
    requires 0 < micro < 1000000 && AtEnd(rest)
    ensures ParseFraction(Pad(micro, 6) + rest) == Some((micro, rest))
  {
    TakePad(micro, 6, rest);
  }

  lemma FractionTextReads(micro: nat, rest: string)
    requires 0 < micro < 1000000 && AtEnd(rest)
    ensures var f := FractionText(micro) + rest;
      !AtEnd(f) && Skip(f, '.') == Some(Pad(micro, 6) + rest) && ParseFraction(Pad(micro, 6) + rest) == Some((micro, rest))
  {
    var digits := Pad(micro, 6) + rest;
    assert FractionText(micro) + rest == "." + digits;
    SkipChar('.', digits);
    ParseFractionText(micro, rest);
  }

  lemma ParseSecondsText(sec: nat, micro: nat, rest: string)
    requires sec < 100 && micro < 1000000 && AtEnd(rest)
    ensures ParseSeconds(Pad(sec, 2) + (FractionText(micro) + rest)) == Some((sec, micro, rest))
  {
    var f := FractionText(micro) + rest;
    TakePad(sec, 2, f);
    if micro != 0 {
      FractionTextReads(micro, rest);
    } else {
      assert f == rest;
    }
  }

  lemma ParseMinutesText(m: nat, sec: nat, micro: nat, rest: string)
    requires m < 100 && sec < 100 && micro < 1000000 && AtEnd(rest)
    ensures ParseMinutes(Pad(m, 2) + (":" + (Pad(sec, 2) + (FractionText(micro) + rest))))
         == Some((m, sec, micro, rest))
  {
    var r1 := Pad(sec, 2) + (FractionText(micro) + rest);
    TakePad(m, 2, ":" + r1);
    SkipChar(':', r1);
    ParseSecondsText(sec, micro, rest);
  }

  lemma ParseClockText(h: nat, m: nat, s: nat, micro: nat, rest: string)
    requires h < 100 && m < 100 && s < 100 && micro < 1000000 && AtEnd(rest)
    ensures ParseClock(ClockText(h, m, s, micro) + rest) == Some((h, m, s, micro, rest))
  {
    var r3 := Pad(s, 2) + (FractionText(micro) + rest);
    var r1 := Pad(m, 2) + (":" + r3);
    calc {
      ClockText(h, m, s, micro) + rest;
      Pad(h, 2) + (":" + (Pad(m, 2) + (":" + (Pad(s, 2) + FractionText(micro))))) + rest;
      { assert (Pad(s, 2) + FractionText(micro)) + rest == r3; }
      Pad(h, 2) + (":" + r1);
    }
    TakePad(h, 2, ":" + r1);
    SkipChar(':', r1);
    ParseMinutesText(m, s, micro, rest);
  }

  lemma ParseOffsetText(offset: Option<int>)
    requires offset.Some? ==> -MinutesPerDay < offset.value < MinutesPerDay
    ensures AtEnd(OffsetText(offset))
    ensures ParseOffset(OffsetText(offset)) == Some(offset)
  {
    if offset.Some? {
      var m := offset.value;
      var a := if m < 0 then -m else m;
      var s := OffsetText(offset);
      var r1 := Pad(a % 60, 2);
      var r0 := ":" + r1;
      assert s[1..] == Pad(a / 60, 2) + r0;
      TakePad(a / 60, 2, r0);
      SkipChar(':', r1);
      assert r1 == r1 + [];
      TakePad(a % 60, 2, []);
      assert 60 * (a / 60) + a % 60 == a;
    }
  }

  /** `datetime.fromisoformat(t.isoformat()) == t` for every valid t. */
  lemma IsoRoundTrip(t: DateTime)
    requires Valid(t)
    ensures ParseIso(IsoFormat(t)) == Some(t)
  {
    var off := OffsetText(t.offset);
    ParseOffsetText(t.offset);
    var clockRest := ClockText(t.hour, t.minute, t.second, t.micro) + off;
    var dateRest := "T" + clockRest;
    assert IsoFormat(t) == DateText(t.year, t.month, t.day) + dateRest;
    ParseDateText(t.year, t.month, t.day, dateRest);
    assert dateRest[1..] == clockRest;
    ParseClockText(t.hour, t.minute, t.second, t.micro, off);
  }

  // ---------------------------------------------------------------------------
  // What the replace calls do to isoformat's output

  lemma NoCharAppend(a: string, b: string, c: char)
    requires NoChar(a, c) && NoChar(b, c)
    ensures NoChar(a + b, c)
  {
  }

  lemma DigitsNoChar(s: string, c: char)
    requires AllDigits(s) && !IsDigit(c)
    ensures NoChar(s, c)
  {
  }

  /** Before the offset, isoformat prints only digits and `-`, `T`, `:`, `.`. */
  lemma LocalTextChars(t: DateTime, c: char)
    requires !IsDigit(c) && c != '-' && c != 'T' && c != ':' && c != '.'
    ensures NoChar(LocalText(t), c)
  {
    forall w: nat, v: nat ensures NoChar(Pad(v, w), c) {
      DigitsNoChar(Pad(v, w), c);
    }
    assert NoChar(FractionText(t.micro), c);
  }

  lemma OffsetTextNoZ(offset: Option<int>)
    ensures NoChar(OffsetText(offset), 'Z')
  {
    if offset.Some? {
      var m := offset.value;
      var a := if m < 0 then -m else m;
      DigitsNoChar(Pad(a / 60, 2), 'Z');
      DigitsNoChar(Pad(a % 60, 2), 'Z');
    }
  }

  /** A two-digit field of a non-zero value below 100 is not `00`. */
  lemma PadNotZeros(v: nat)
    requires 0 < v < 100
    ensures Pad(v, 2) != "00"
  {
    PadValue(v, 2);
    assert Value("00") == 0;
  }

  /** Only the zero offset is printed as `+00:00`. */
  lemma PositiveOffsetNotUtc(m: int)
    requires 0 < m < MinutesPerDay
    ensures OffsetText(Some(m)) != "+00:00"
  {
    var hh := Pad(m / 60, 2);
    var mm := Pad(m % 60, 2);
    if m / 60 != 0 {
      PadNotZeros(m / 60);
    } else {
      PadNotZeros(m % 60);
    }
    var off := OffsetText(Some(m));
    assert off[1..3] == hh && off[4..6] == mm;
    assert "+00:00"[1..3] == "00" && "+00:00"[4..6] == "00";
  }

  /** `+HH:MM` for a positive offset is not `+00:00`, so the replace leaves it alone. */
  lemma ReplacePositiveOffset(m: int)
    requires 0 < m < MinutesPerDay
    ensures Replace(OffsetText(Some(m)), "+00:00", "Z") == OffsetText(Some(m))
  {
    var off := OffsetText(Some(m));
    var hh := Pad(m / 60, 2);
    var mm := Pad(m % 60, 2);
    var tail := hh + (":" + mm);
    assert off == ['+'] + tail;
    DigitsNoChar(hh, '+');
    DigitsNoChar(mm, '+');
    PositiveOffsetNotUtc(m);
    assert off[..6] == off;
    ReplaceAbsent(tail, "+00:00", "Z");
    assert off[1..] == tail;
  }

  /** `-HH:MM` has no `+`, so the replace leaves it alone. */
  lemma ReplaceNegativeOffset(m: int)
    requires m < 0
    ensures Replace(OffsetText(Some(m)), "+00:00", "Z") == OffsetText(Some(m))
  {
    var a := -m;
    DigitsNoChar(Pad(a / 60, 2), '+');
    DigitsNoChar(Pad(a % 60, 2), '+');
    assert OffsetText(Some(m)) == ['-'] + (Pad(a / 60, 2) + (":" + Pad(a % 60, 2)));
    ReplaceAbsent(OffsetText(Some(m)), "+00:00", "Z");
  }

  /** The zero offset is the one the replace turns into `Z`. */
  lemma ReplaceZeroOffset()
    ensures Replace(OffsetText(Some(0)), "+00:00", "Z") == "Z"
  {
    assert OffsetText(Some(0)) == "+00:00";
    assert Replace("+00:00", "+00:00", "Z") == "Z" + Replace([], "+00:00", "Z");
  }

  /** The offset text survives `.replace("+00:00", "Z")` unless it is exactly `+00:00`. */
  lemma ReplaceOffset(offset: Option<int>)
    requires offset.Some? ==> -MinutesPerDay < offset.value < MinutesPerDay
    ensures Replace(OffsetText(offset), "+00:00", "Z")
         == if offset == Some(0) then "Z" else OffsetText(offset)
  {
    match offset
    case None =>
    case Some(m) =>
      if m < 0 {
        ReplaceNegativeOffset(m);
      } else if m == 0 {
        ReplaceZeroOffset();
      } else {
        ReplacePositiveOffset(m);
      }
  }

  /**
   * What the core sends after `.replace("+00:00", "Z")`: a UTC value ends in `Z`,
   * any other value, aware or naive, is printed as `isoformat` prints it.
   */
  lemma SerializeShape(t: DateTime)
    requires Valid(t)
    ensures t.offset == Some(0) ==> Serialize(t) == LocalText(t) + "Z"
    ensures t.offset != Some(0) ==> Serialize(t) == IsoFormat(t)
  {
    LocalTextChars(t, '+');
    ReplaceAppend(LocalText(t), OffsetText(t.offset), "+00:00", "Z");
    ReplaceOffset(t.offset);
  }

  /** The `Z` designator appears in what the core sends exactly when the value is aware and at UTC. */
  lemma SerializeZ(t: DateTime)
    requires Valid(t)
    ensures NoChar(Serialize(t), 'Z') <==> t.offset != Some(0)
  {
    SerializeShape(t);
    LocalTextChars(t, 'Z');
    OffsetTextNoZ(t.offset);
    if t.offset == Some(0) {
      assert Serialize(t)[|Serialize(t)| - 1] == 'Z';
    } else {
      NoCharAppend(LocalText(t), OffsetText(t.offset), 'Z');
    }
  }

  /**
   * What the core writes, the core reads back: reading a serialized valid value
   * (with `Z` turned back into `+00:00`) gives that same value.
   */
  lemma ReadSerialized(t: DateTime)
    requires Valid(t)
    ensures ReadIso(Serialize(t)) == Some(t)
  {
    if t.offset == Some(0) {
      UnreplaceUtc(t);
    } else {
      UnreplaceOther(t);
    }
    IsoRoundTrip(t);
  }

  /** Turning the `Z` of a UTC value back into `+00:00` gives `isoformat`'s text. */
  lemma UnreplaceUtc(t: DateTime)
    requires Valid(t) && t.offset == Some(0)
    ensures Replace(Serialize(t), "Z", "+00:00") == IsoFormat(t)
  {
    SerializeShape(t);
    var local := LocalText(t);
    LocalTextChars(t, 'Z');
    ReplaceAppend(local, "Z", "Z", "+00:00");
    assert Replace("Z", "Z", "+00:00") == "+00:00" + Replace([], "Z", "+00:00");
    assert OffsetText(t.offset) == "+00:00";
  }

  /** Any other value has no `Z` to turn back. */
  lemma UnreplaceOther(t: DateTime)
    requires Valid(t) && t.offset != Some(0)
    ensures Replace(Serialize(t), "Z", "+00:00") == IsoFormat(t)
  {
    SerializeShape(t);
    LocalTextChars(t, 'Z');
    OffsetTextNoZ(t.offset);
    NoCharAppend(LocalText(t), OffsetText(t.offset), 'Z');
    ReplaceAbsent(IsoFormat(t), "Z", "+00:00");
  }
}
