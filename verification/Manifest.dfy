/** Backup ids: a prefix and a UTC timestamp whose text sorts like time. */
module Manifest {
  import opened Wrappers
  import opened Order
  import opened Retention
  import opened Layout
  import opened Placement
  import opened Paths
  import opened Text
  import opened Pipeline

  // ----- The calendar

  predicate IsLeap(y: int) { y % 4 == 0 && (y % 100 != 0 || y % 400 == 0) }

  function DaysInMonth(y: int, m: int): int {
    if m == 2 then (if IsLeap(y) then 29 else 28)
    else if m == 4 || m == 6 || m == 9 || m == 11 then 30
    else 31
  }

  function DaysInYear(y: int): int { if IsLeap(y) then 366 else 365 }

  function DaysBeforeYear(y: nat): (n: nat) {
    if y <= 1 then 0 else DaysBeforeYear(y - 1) + DaysInYear(y - 1)
  }

  function DaysBeforeMonth(y: int, m: nat): (n: nat) {
    if m <= 1 then 0 else DaysBeforeMonth(y, m - 1) + DaysInMonth(y, m - 1)
  }

  datatype Civil = Civil(year: nat, month: nat, day: nat, hour: nat, minute: nat, second: nat, micro: nat)

  predicate ValidCivil(c: Civil) {
    && 1 <= c.year && 1 <= c.month <= 12 && 1 <= c.day <= DaysInMonth(c.year, c.month)
    && c.hour < 24 && c.minute < 60 && c.second < 60 && c.micro < 1_000_000
  }

  const DAY := 86_400

  function DayNumber(c: Civil): nat
    requires ValidCivil(c)
  {
    DaysBeforeYear(c.year) + DaysBeforeMonth(c.year, c.month) + c.day - 1
  }

  /** Seconds and microseconds since the start of year 1. */
  function Seconds(c: Civil): nat
    requires ValidCivil(c)
  {
    DayNumber(c) * DAY + c.hour * 3600 + c.minute * 60 + c.second
  }

  function Micros(c: Civil): nat
    requires ValidCivil(c)
  {
    Seconds(c) * SECOND + c.micro
  }

  /** The year, counted up from `y`, that day `d` after the start of year `y` falls into. */
  function YearFrom(y: nat, d: nat): (r: (nat, nat))
    requires y >= 1
    ensures r.0 >= y && r.1 < DaysInYear(r.0)
    ensures DaysBeforeYear(y) + d == DaysBeforeYear(r.0) + r.1
    decreases d
  {
    if d < DaysInYear(y) then (y, d) else YearFrom(y + 1, d - DaysInYear(y))
  }

  function MonthFrom(y: nat, m: nat, d: nat): (r: (nat, nat))
    requires 1 <= m <= 12 && DaysBeforeMonth(y, m) + d < DaysInYear(y)
    ensures 1 <= r.0 <= 12 && r.1 < DaysInMonth(y, r.0)
    ensures DaysBeforeMonth(y, m) + d == DaysBeforeMonth(y, r.0) + r.1
    decreases 12 - m
  {
    if d < DaysInMonth(y, m) then (m, d)
    else
      YearLength(y);
      MonthFrom(y, m + 1, d - DaysInMonth(y, m))
  }

  lemma YearLength(y: nat)
    ensures DaysBeforeMonth(y, 12) + DaysInMonth(y, 12) == DaysInYear(y)
  {
    assert DaysBeforeMonth(y, 3) == DaysBeforeMonth(y, 2) + DaysInMonth(y, 2);
    assert DaysBeforeMonth(y, 5) == DaysBeforeMonth(y, 4) + 30 == DaysBeforeMonth(y, 3) + 61;
    assert DaysBeforeMonth(y, 7) == DaysBeforeMonth(y, 6) + 30 == DaysBeforeMonth(y, 5) + 61;
    assert DaysBeforeMonth(y, 9) == DaysBeforeMonth(y, 8) + 31 == DaysBeforeMonth(y, 7) + 62;
    assert DaysBeforeMonth(y, 11) == DaysBeforeMonth(y, 10) + 31 == DaysBeforeMonth(y, 9) + 61;
  }

  lemma FoursAndHundreds(y: nat)
    requires y >= 1
    ensures y / 4 == (y - 1) / 4 + (if y % 4 == 0 then 1 else 0)
    ensures y / 100 == (y - 1) / 100 + (if y % 100 == 0 then 1 else 0)
    ensures y / 400 == (y - 1) / 400 + (if y % 400 == 0 then 1 else 0)
    ensures (y % 400 == 0 ==> y % 100 == 0) && (y % 100 == 0 ==> y % 4 == 0)
  {}

  /** Every fourth year has a day more, but of the full hundreds only every fourth one. */
  lemma {:induction false} YearsInDays(y: nat)
    requires y >= 1
    ensures var k := y - 1; DaysBeforeYear(y) == 365 * k + k / 4 - k / 100 + k / 400
  {
    if y > 1 {
      YearsInDays(y - 1);
      FoursAndHundreds(y - 1);
    }
  }

  const MONTH_STARTS := [0, 31, 59, 90, 120, 151, 181, 212, 243, 273, 304, 334, 365]

  /** The calendar's table; from March on a day later in years of 366 days. */
  lemma {:induction false} MonthsInDays(y: nat, m: nat)
    requires y >= 1 && 1 <= m <= 13
    ensures var k := y - 1;
            var extra := (365 * y + y / 4 - y / 100 + y / 400) - (365 * k + k / 4 - k / 100 + k / 400) - 365;
            DaysBeforeMonth(y, m) == MONTH_STARTS[m - 1] + (if m > 2 then extra else 0)
  {
    YearsInDays(y);
    YearsInDays(y + 1);
    if m > 1 { MonthsInDays(y, m - 1); }
  }

  /** An instant in the numbers of its fields: days of 24 hours, hours of 60 minutes, minutes of 60 seconds. */
  lemma MicrosMeans(c: Civil)
    requires ValidCivil(c)
    ensures var k := c.year - 1;
            var days := 365 * k + k / 4 - k / 100 + k / 400 + DaysBeforeMonth(c.year, c.month) + c.day - 1;
            Micros(c) == (((days * 24 + c.hour) * 60 + c.minute) * 60 + c.second) * 1_000_000 + c.micro
  {
    YearsInDays(c.year);
  }

  lemma ClockParts(secs: nat)
    ensures var rest := secs % DAY;
            && secs == secs / DAY * DAY + rest / 3600 * 3600 + rest / 60 % 60 * 60 + rest % 60
            && rest / 3600 < 24
  {}

  /** The civil reading of an instant. */
  function CivilOf(t: nat): (c: Civil)
    ensures ValidCivil(c) && Micros(c) == t
  {
    var secs, days := t / SECOND, t / SECOND / DAY;
    var (y, dayOfYear) := YearFrom(1, days);
    var (m, dayOfMonth) := MonthFrom(y, 1, dayOfYear);
    var rest := secs % DAY;
    ClockParts(secs);
    Civil(y, m, dayOfMonth + 1, rest / 3600, rest / 60 % 60, rest % 60, t % SECOND)
  }

  lemma {:induction false} YearsGrow(y: nat, y': nat)
    requires 1 <= y < y'
    ensures DaysBeforeYear(y) + DaysInYear(y) <= DaysBeforeYear(y')
  {
    if y + 1 < y' { YearsGrow(y, y' - 1); }
  }

  lemma {:induction false} MonthsGrow(y: nat, m: nat, m': nat)
    requires 1 <= m < m' <= 12
    ensures DaysBeforeMonth(y, m) + DaysInMonth(y, m) <= DaysBeforeMonth(y, m')
  {
    if m + 1 < m' { MonthsGrow(y, m, m' - 1); }
  }

  predicate DateBefore(a: Civil, b: Civil) {
    a.year < b.year || (a.year == b.year && (a.month < b.month || (a.month == b.month && a.day < b.day)))
  }

  predicate TimeBefore(a: Civil, b: Civil) {
    a.hour < b.hour || (a.hour == b.hour && (a.minute < b.minute || (a.minute == b.minute && a.second < b.second)))
  }

  predicate SameDate(a: Civil, b: Civil) {
    a.year == b.year && a.month == b.month && a.day == b.day
  }

  lemma DatesGrow(a: Civil, b: Civil)
    requires ValidCivil(a) && ValidCivil(b) && DateBefore(a, b)
    ensures DayNumber(a) < DayNumber(b)
  {
    if a.year < b.year {
      YearsGrow(a.year, b.year);
      YearLength(a.year);
      if a.month < 12 { MonthsGrow(a.year, a.month, 12); }
    } else if a.month < b.month {
      MonthsGrow(a.year, a.month, b.month);
    }
  }

  /** Whole seconds order like the fields from the year down to the second. */
  lemma SecondsOrder(a: Civil, b: Civil)
    requires ValidCivil(a) && ValidCivil(b)
    ensures Seconds(a) < Seconds(b) <==> DateBefore(a, b) || (SameDate(a, b) && TimeBefore(a, b))
  {
    if DateBefore(a, b) {
      DatesGrow(a, b);
    } else if !SameDate(a, b) {
      DatesGrow(b, a);
    }
  }

  // ----- Fixed-width text

  function Pow10(w: nat): nat { if w == 0 then 1 else 10 * Pow10(w - 1) }

  function Digits(n: nat, w: nat): (s: string)
    ensures |s| == w
  {
    if w == 0 then "" else Digits(n / 10, w - 1) + [('0' as int + n % 10) as char]
  }

  /** Zero-padded numbers of one width compare as text the way they compare as numbers. */
  lemma {:induction false} DigitsOrder(a: nat, b: nat, w: nat, x: string, y: string)
    requires a < Pow10(w) && b < Pow10(w)
    ensures Less(Digits(a, w) + x, Digits(b, w) + y) <==> a < b || (a == b && Less(x, y))
  {
    if w == 0 {
      assert Digits(a, 0) + x == x && Digits(b, 0) + y == y;
    } else {
      var x' := [('0' as int + a % 10) as char] + x;
      var y' := [('0' as int + b % 10) as char] + y;
      assert Digits(a, w) + x == Digits(a / 10, w - 1) + x';
      assert Digits(b, w) + y == Digits(b / 10, w - 1) + y';
      assert x'[1..] == x && y'[1..] == y;
      DigitsOrder(a / 10, b / 10, w - 1, x', y');
    }
  }

  lemma {:induction false} DigitsRead(n: nat, w: nat)
    requires n < Pow10(w)
    ensures AllDigits(Digits(n, w)) && NumberOf(Digits(n, w)) == n
  {
    if w > 0 {
      DigitsRead(n / 10, w - 1);
      var s := Digits(n, w);
      assert s[..w - 1] == Digits(n / 10, w - 1) && s[w - 1] == ('0' as int + n % 10) as char;
    }
  }

  function ClockText(c: Civil): string {
    Digits(c.hour, 2) + (Digits(c.minute, 2) + (Digits(c.second, 2) + "Z"))
  }

  /** strftime("%Y%m%dT%H%M%SZ") for four-digit years. */
  function Stamp(c: Civil): string {
    Digits(c.year, 4) + (Digits(c.month, 2) + (Digits(c.day, 2) + ("T" + ClockText(c))))
  }

  /** The text says year, month, day, hour, minute and second in digits, with a T between and a Z at the end. */
  ghost predicate Says(text: string, c: Civil) {
    && |text| == 16 && text[8] == 'T' && text[15] == 'Z'
    && AllDigits(text[..8]) && AllDigits(text[9..15])
    && NumberOf(text[..4]) == c.year && NumberOf(text[4..6]) == c.month && NumberOf(text[6..8]) == c.day
    && NumberOf(text[9..11]) == c.hour && NumberOf(text[11..13]) == c.minute && NumberOf(text[13..15]) == c.second
  }

  lemma StampSays(c: Civil)
    requires ValidCivil(c) && c.year <= 9999
    ensures Says(Stamp(c), c)
  {
    StampParts(c);
    assert Pow10(1) == 10 && Pow10(2) == 100 && Pow10(3) == 1000 && Pow10(4) == 10000;
    DigitsRead(c.year, 4);
    DigitsRead(c.month, 2);
    DigitsRead(c.day, 2);
    DigitsRead(c.hour, 2);
    DigitsRead(c.minute, 2);
    DigitsRead(c.second, 2);
    DigitsTogether(Digits(c.year, 4), Digits(c.month, 2), Digits(c.day, 2));
    DigitsTogether(Digits(c.hour, 2), Digits(c.minute, 2), Digits(c.second, 2));
  }

  lemma DigitsTogether(a: string, b: string, c: string)
    requires AllDigits(a) && AllDigits(b) && AllDigits(c)
    ensures AllDigits(a + b + c)
  {}

  lemma StampParts(c: Civil)
    ensures var text := Stamp(c);
            && |text| == 16 && text[8] == 'T' && text[15] == 'Z'
            && text[..4] == Digits(c.year, 4) && text[4..6] == Digits(c.month, 2) && text[6..8] == Digits(c.day, 2)
            && text[9..11] == Digits(c.hour, 2) && text[11..13] == Digits(c.minute, 2)
            && text[13..15] == Digits(c.second, 2)
            && text[..8] == text[..4] + text[4..6] + text[6..8]
            && text[9..15] == text[9..11] + text[11..13] + text[13..15]
  {
  }

  lemma StampOrder(a: Civil, b: Civil)
    requires ValidCivil(a) && ValidCivil(b) && a.year <= 9999 && b.year <= 9999
    ensures Less(Stamp(a), Stamp(b)) <==> Seconds(a) < Seconds(b)
  {
    SecondsOrder(a, b);
    assert Pow10(1) == 10 && Pow10(2) == 100 && Pow10(3) == 1000 && Pow10(4) == 10000;
    LessIrreflexive("Z");
    DigitsOrder(a.second, b.second, 2, "Z", "Z");
    DigitsOrder(a.minute, b.minute, 2, Digits(a.second, 2) + "Z", Digits(b.second, 2) + "Z");
    DigitsOrder(a.hour, b.hour, 2, Digits(a.minute, 2) + (Digits(a.second, 2) + "Z"),
                Digits(b.minute, 2) + (Digits(b.second, 2) + "Z"));
    LessCommonPrefix("T", ClockText(a), ClockText(b));
    DigitsOrder(a.day, b.day, 2, "T" + ClockText(a), "T" + ClockText(b));
    DigitsOrder(a.month, b.month, 2, Digits(a.day, 2) + ("T" + ClockText(a)), Digits(b.day, 2) + ("T" + ClockText(b)));
    DigitsOrder(a.year, b.year, 4, Digits(a.month, 2) + (Digits(a.day, 2) + ("T" + ClockText(a))),
                Digits(b.month, 2) + (Digits(b.day, 2) + ("T" + ClockText(b))));
  }

  // ----- Backup ids

  /** A Python datetime: local fields, and for aware ones the UTC offset in microseconds. */
  datatype DateTime = Naive(local: Civil) | Aware(local: Civil, offset: int)

  datatype IdError = NotAware

  /** Microseconds since the start of year 1, in UTC. */
  function Instant(now: DateTime): int
    requires now.Aware? && ValidCivil(now.local)
  {
    Micros(now.local) - now.offset
  }

  /** The UTC reading has a four-digit year. */
  predicate InRange(now: DateTime) {
    && now.Aware? && ValidCivil(now.local) && Instant(now) >= 0
    && 1000 <= CivilOf(Instant(now)).year <= 9999
  }

  function GenerateBackupId(prefix: string, now: DateTime): Result<string, IdError>
    requires now.Aware? ==> InRange(now)
  {
    if now.Naive? then Failure(NotAware)
    else Result.Success(prefix + "-" + Stamp(CivilOf(Instant(now))))
  }

  /** The id is the prefix, a dash and the UTC reading of the instant. */
  lemma IdSaysWhen(prefix: string, now: DateTime)
    requires InRange(now)
    ensures var id := GenerateBackupId(prefix, now).value;
            && |id| == |prefix| + 17 && id[..|prefix|] == prefix && id[|prefix|] == '-'
            && Says(id[|prefix| + 1..], CivilOf(Instant(now)))
  {
    StampSays(CivilOf(Instant(now)));
    assert GenerateBackupId(prefix, now).value[|prefix| + 1..] == Stamp(CivilOf(Instant(now)));
  }

  /** The local reading is ahead of UTC by the offset: any zone gives the id that UTC gives. */
  lemma ZonesGiveOneId(prefix: string, u: nat, offset: int)
    requires u + offset >= 0 && 1000 <= CivilOf(u).year <= 9999
    ensures var here, utc := Aware(CivilOf(u + offset), offset), Aware(CivilOf(u), 0);
            && InRange(here) && InRange(utc) && Instant(here) == u
            && GenerateBackupId(prefix, here) == GenerateBackupId(prefix, utc)
            && Says(GenerateBackupId(prefix, here).value[|prefix| + 1..], CivilOf(u))
  {
    ZoneInstant(u, offset);
    ZoneInstant(u, 0);
    IdSaysWhen(prefix, Aware(CivilOf(u + offset), offset));
  }

  lemma ZoneInstant(u: nat, offset: int)
    requires u + offset >= 0
    ensures Instant(Aware(CivilOf(u + offset), offset)) == u
  {}

  /** The instant truncated to the second. */
  function Second(now: DateTime): int
    requires InRange(now)
  {
    Instant(now) / SECOND
  }

  /** Ids with one prefix compare exactly as their UTC instants truncated to the second. */
  lemma IdsOrderAsTime(prefix: string, a: DateTime, b: DateTime)
    requires InRange(a) && InRange(b)
    ensures var x, y := GenerateBackupId(prefix, a).value, GenerateBackupId(prefix, b).value;
            && (Less(x, y) <==> Second(a) < Second(b))
            && (x == y <==> Second(a) == Second(b))
  {
    var c, d := CivilOf(Instant(a)), CivilOf(Instant(b));
    StampOrder(c, d);
    StampOrder(d, c);
    LessCommonPrefix(prefix + "-", Stamp(c), Stamp(d));
    LessCommonPrefix(prefix + "-", Stamp(d), Stamp(c));
    var x, y := prefix + "-" + Stamp(c), prefix + "-" + Stamp(d);
    if x == y { LessIrreflexive(x); } else { LessTotal(x, y); }
  }

  /**
   Whatever the prefix, the last component of an id is an ordinary name made of the tail of the prefix and the
   timestamp; the root and the components before it are those of the prefix. So the id leads to an entry of the
   directory it is joined to exactly when the prefix is relative and has nothing but dots before its last slash.
   */
  lemma IdsLeadBelowPrefix(prefix: string, now: DateTime)
    requires InRange(now)
    ensures var id := GenerateBackupId(prefix, now).value;
            && Root(id) == Root(prefix) && Front(id) == Front(prefix)
            && Tail(id) == GenerateBackupId(Tail(prefix), now).value && PlainId(Tail(id))
            && (EntryId(id) <==> Root(prefix) == "" && Front(prefix) == [])
  {
    var stamp := Stamp(CivilOf(Instant(now)));
    StampHasNoSlash(CivilOf(Instant(now)));
    AppendedWord(prefix, "-" + stamp);
    AppendedRoot(prefix, "-" + stamp);
    assert prefix + "-" + stamp == prefix + ("-" + stamp) && Tail(prefix) + "-" + stamp == Tail(prefix) + ("-" + stamp);
    TailHasNoSlash(prefix);
    StampedIsPlain(Tail(prefix), now);
  }

  lemma StampedIsPlain(word: string, now: DateTime)
    requires InRange(now) && '/' !in word
    ensures PlainId(GenerateBackupId(word, now).value)
  {
    var id := GenerateBackupId(word, now).value;
    var stamp := Stamp(CivilOf(Instant(now)));
    StampHasNoSlash(CivilOf(Instant(now)));
    assert id == word + "-" + stamp;
    assert |id| > |PARTIAL| && id[|id| - 1] == 'Z';
    assert id[|id| - |PARTIAL|..][|PARTIAL| - 1] == 'Z' && PARTIAL[|PARTIAL| - 1] == 'l';
  }

  lemma {:induction false} DigitsHaveNoSlash(n: nat, w: nat)
    ensures '/' !in Digits(n, w)
  {
    if w > 0 { DigitsHaveNoSlash(n / 10, w - 1); }
  }

  lemma StampHasNoSlash(c: Civil)
    ensures '/' !in Stamp(c)
  {
    DigitsHaveNoSlash(c.year, 4);
    DigitsHaveNoSlash(c.month, 2);
    DigitsHaveNoSlash(c.day, 2);
    DigitsHaveNoSlash(c.hour, 2);
    DigitsHaveNoSlash(c.minute, 2);
    DigitsHaveNoSlash(c.second, 2);
  }

  /** `n` is the entry that the id of a run at `t`, at least a second before `now`, leads to. */
  ghost predicate EntryOfEarlier(prefix: string, n: string, t: DateTime, now: DateTime)
    requires InRange(now)
  {
    InRange(t) && Second(t) < Second(now) && n == Tail(GenerateBackupId(prefix, t).value)
  }

  ghost predicate IsEarlierEntry(prefix: string, n: string, now: DateTime)
    requires InRange(now)
  {
    exists t :: EntryOfEarlier(prefix, n, t, now)
  }

  /** A run at least a second after every earlier one brings an entry newer than everything stored. */
  lemma LaterRunIsFresh(prefix: string, now: DateTime, dests: seq<Dest>)
    requires InRange(now)
    requires forall d, n :: 0 <= d < |dests| && n in CompleteNames(dests[d].entries) ==> IsEarlierEntry(prefix, n, now)
    ensures Fresh(dests, Tail(GenerateBackupId(prefix, now).value))
  {
    IdsLeadBelowPrefix(prefix, now);
    forall d, n | 0 <= d < |dests| && n in CompleteNames(dests[d].entries)
      ensures Less(n, Tail(GenerateBackupId(prefix, now).value))
    {
      assert IsEarlierEntry(prefix, n, now);
      var t :| EntryOfEarlier(prefix, n, t, now);
      IdsLeadBelowPrefix(prefix, t);
      IdsOrderAsTime(Tail(prefix), t, now);
    }
  }
}
