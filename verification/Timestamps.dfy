/** Timestamps: the text the canonical record holds against the instant the table compares. */
module Timestamps {
  import opened Text

  datatype Moment = Moment(year: nat, month: nat, day: nat, hour: nat, minute: nat, second: nat, micro: nat)

  predicate IsLeap(year: nat) {
    year % 4 == 0 && (year % 100 != 0 || year % 400 == 0)
  }

  function MonthLength(year: nat, month: nat): nat {
    if month == 2 then if IsLeap(year) then 29 else 28
    else if month in {4, 6, 9, 11} then 30
    else 31
  }

  function YearLength(year: nat): nat {
    if IsLeap(year) then 366 else 365
  }

  /** A date of the calendar and a time of day, as `datetime` accepts them. */
  predicate Exists(m: Moment) {
    && 1 <= m.year <= 9999 && 1 <= m.month <= 12 && 1 <= m.day <= MonthLength(m.year, m.month)
    && m.hour < 24 && m.minute < 60 && m.second < 60 && m.micro < 1000000
  }

  // ---------- text

  /** Zero-padded fields, each followed by its separator. */
  function Render(fields: seq<nat>, widths: seq<nat>, separators: seq<string>): string
    requires |fields| == |widths| == |separators|
  {
    if fields == [] then ""
    else Printed(fields[0], widths[0]) + (separators[0] + Render(fields[1..], widths[1..], separators[1..]))
  }

  function Fields(m: Moment): seq<nat> {
    [m.year, m.month, m.day, m.hour, m.minute, m.second]
  }

  const WIDTHS: seq<nat> := [4, 2, 2, 2, 2, 2]
  const SEPARATORS: seq<string> := ["-", "-", "T", ":", ":", ""]

  /** Absent altogether at a whole second. */
  function Fraction(m: Moment): string {
    if m.micro == 0 then "" else "." + Printed(m.micro, 6)
  }

  /** `datetime.isoformat()` with the text of its UTC offset. */
  function Isoformat(m: Moment, offset: string): string {
    Render(Fields(m), WIDTHS, SEPARATORS) + (Fraction(m) + offset)
  }

  /** Naive, or `+HH:MM` or `-HH:MM`. */
  predicate IsOffset(offset: string) {
    offset == "" || offset[0] == '+' || offset[0] == '-'
  }

  // ---------- instants

  function DaysBeforeYear(year: nat): nat {
    if year <= 1 then 0 else DaysBeforeYear(year - 1) + YearLength(year - 1)
  }

  function DaysBeforeMonth(year: nat, month: nat): nat {
    if month <= 1 then 0 else DaysBeforeMonth(year, month - 1) + MonthLength(year, month - 1)
  }

  function Days(m: Moment): nat {
    DaysBeforeYear(m.year) + DaysBeforeMonth(m.year, m.month) + m.day
  }

  function Seconds(m: Moment): nat {
    ((Days(m) * 24 + m.hour) * 60 + m.minute) * 60 + m.second
  }

  /** Microseconds on a clock of the moment's own offset. */
  function Micros(m: Moment): nat {
    Seconds(m) * 1000000 + m.micro
  }

  /** What `from_iso8601_timestamp` keeps: whole milliseconds. */
  function Millis(m: Moment): nat {
    Micros(m) / 1000
  }

  // ---------- the two orders agree

  predicate FieldsLess(f: seq<nat>, g: seq<nat>)
    requires |f| == |g|
  {
    f != [] && (f[0] < g[0] || (f[0] == g[0] && FieldsLess(f[1..], g[1..])))
  }

  predicate Fits(fields: seq<nat>, widths: seq<nat>)
    requires |fields| == |widths|
  {
    forall i | 0 <= i < |fields| :: widths[i] >= 1 && fields[i] < Pow10(widths[i])
  }

  lemma {:induction false} RenderOrder(
    f: seq<nat>, g: seq<nat>, widths: seq<nat>, separators: seq<string>, x: string, y: string)
    requires |f| == |g| == |widths| == |separators| && Fits(f, widths) && Fits(g, widths)
    ensures LexLess(Render(f, widths, separators) + x, Render(g, widths, separators) + y) <==>
              FieldsLess(f, g) || (f == g && LexLess(x, y))
  {
    if f == [] {
      assert Render(f, widths, separators) + x == x && Render(g, widths, separators) + y == y;
    } else {
      var p, q, sep := Printed(f[0], widths[0]), Printed(g[0], widths[0]), separators[0];
      var rest, rest' := Render(f[1..], widths[1..], separators[1..]) + x, Render(g[1..], widths[1..], separators[1..]) + y;
      assert Render(f, widths, separators) + x == p + (sep + rest);
      assert Render(g, widths, separators) + y == q + (sep + rest');
      PrintedOrder(f[0], g[0], widths[0]);
      LexAfterPrefix(p, q, sep + rest, sep + rest');
      LexAfterPrefix(sep, sep, rest, rest');
      LexIrreflexive(sep);
      RenderOrder(f[1..], g[1..], widths[1..], separators[1..], x, y);
      if p == q {
        PrintedIsInjective(f[0], g[0], widths[0]);
      }
      assert f == g <==> f[0] == g[0] && f[1..] == g[1..];
    }
  }

  /** A missing fraction sorts before any fraction, since no offset starts past a full stop. */
  lemma FractionOrder(m: Moment, n: Moment, offset: string)
    requires m.micro < 1000000 && n.micro < 1000000 && IsOffset(offset)
    ensures LexLess(Fraction(m) + offset, Fraction(n) + offset) <==> m.micro < n.micro
  {
    LexIrreflexive(offset);
    if m.micro > 0 && n.micro > 0 {
      assert Pow10(6) == 1000000;
      PrintedOrder(m.micro, n.micro, 6);
      var p, q := "." + Printed(m.micro, 6), "." + Printed(n.micro, 6);
      LexAfterPrefix(p, q, offset, offset);
      LexAfterPrefix(".", ".", Printed(m.micro, 6), Printed(n.micro, 6));
      LexIrreflexive(".");
      if p == q {
        assert p[1..] == q[1..];
        LexIrreflexive(Printed(m.micro, 6));
      }
    } else if n.micro > 0 {
      assert Fraction(m) + offset == offset && (Fraction(n) + offset)[0] == '.';
    } else if m.micro > 0 {
      assert Fraction(n) + offset == offset && (Fraction(m) + offset)[0] == '.';
    } else {
      LexIrreflexive(Fraction(m) + offset);
    }
  }

  lemma FieldsFit(m: Moment)
    requires Exists(m)
    ensures Fits(Fields(m), WIDTHS)
  {
    assert Pow10(4) == 10000 && Pow10(2) == 100;
  }

  lemma {:induction false} YearsAccumulate(y: nat, z: nat)
    requires 1 <= y < z
    ensures DaysBeforeYear(y) + YearLength(y) <= DaysBeforeYear(z)
  {
    if y < z - 1 {
      YearsAccumulate(y, z - 1);
    }
  }

  lemma {:induction false} MonthsAccumulate(year: nat, m: nat, n: nat)
    requires 1 <= m < n
    ensures DaysBeforeMonth(year, m) + MonthLength(year, m) <= DaysBeforeMonth(year, n)
  {
    if m < n - 1 {
      MonthsAccumulate(year, m, n - 1);
    }
  }

  lemma YearIsItsMonths(year: nat)
    ensures DaysBeforeMonth(year, 13) == YearLength(year)
  {
    var d := seq(14, i requires 0 <= i => DaysBeforeMonth(year, i));
    assert forall i | 2 <= i < 14 :: d[i] == d[i - 1] + MonthLength(year, i - 1);
    assert d[13] == d[12] + 31 == d[11] + 61 == d[10] + 92 == d[9] + 122 == d[8] + 153;
    assert d[8] == d[7] + 31 == d[6] + 61 == d[5] + 92 == d[4] + 122 == d[3] + 153;
    assert d[3] == d[2] + MonthLength(year, 2) && d[2] == d[1] + 31 && d[1] == 0;
  }

  predicate DateLess(m: Moment, n: Moment) {
    m.year < n.year || (m.year == n.year && (m.month < n.month || (m.month == n.month && m.day < n.day)))
  }

  lemma DatesInOrder(m: Moment, n: Moment)
    requires Exists(m) && Exists(n) && DateLess(m, n)
    ensures Days(m) < Days(n)
  {
    if m.year < n.year {
      YearsAccumulate(m.year, n.year);
      YearIsItsMonths(m.year);
      MonthsAccumulate(m.year, m.month, 13);
    } else if m.month < n.month {
      MonthsAccumulate(m.year, m.month, n.month);
    }
  }

  lemma SixFields(m: Moment, n: Moment)
    requires FieldsLess(Fields(m), Fields(n))
    ensures DateLess(m, n)
         || (m.year == n.year && m.month == n.month && m.day == n.day
             && (m.hour < n.hour || (m.hour == n.hour && (m.minute < n.minute || (m.minute == n.minute && m.second < n.second)))))
  {
    var f, g := Fields(m), Fields(n);
    var f3, g3 := [m.hour, m.minute, m.second], [n.hour, n.minute, n.second];
    assert f[1..] == [m.month, m.day] + f3 && g[1..] == [n.month, n.day] + g3;
    assert f[1..][1..] == [m.day] + f3 && g[1..][1..] == [n.day] + g3;
    assert ([m.day] + f3)[1..] == f3 && ([n.day] + g3)[1..] == g3;
    if !DateLess(m, n) {
      assert FieldsLess([m.month, m.day] + f3, [n.month, n.day] + g3);
      assert FieldsLess([m.day] + f3, [n.day] + g3);
      assert FieldsLess(f3, g3);
      assert f3[1..] == [m.minute, m.second] && g3[1..] == [n.minute, n.second];
      assert [m.minute, m.second][1..] == [m.second] && [n.minute, n.second][1..] == [n.second];
      if m.hour == n.hour {
        assert FieldsLess([m.minute, m.second], [n.minute, n.second]);
        assert !FieldsLess([m.second][1..], [n.second][1..]);
        assert m.minute == n.minute ==> FieldsLess([m.second], [n.second]);
      }
    }
  }

  /** Later fields, later second. */
  lemma FieldsInOrder(m: Moment, n: Moment)
    requires Exists(m) && Exists(n) && FieldsLess(Fields(m), Fields(n))
    ensures Seconds(m) < Seconds(n)
  {
    SixFields(m, n);
    if DateLess(m, n) {
      DatesInOrder(m, n);
    }
  }

  lemma FieldsAreTotal(f: seq<nat>, g: seq<nat>)
    requires |f| == |g|
    ensures f == g || FieldsLess(f, g) || FieldsLess(g, f)
  {
    if f != [] && f[0] == g[0] {
      FieldsAreTotal(f[1..], g[1..]);
      assert f == [f[0]] + f[1..] && g == [g[0]] + g[1..];
    }
  }

  /** Text order is chronological order between timestamps of one offset, whether or not
      either shows a fraction. */
  lemma TextOrderIsTimeOrder(m: Moment, n: Moment, offset: string)
    requires Exists(m) && Exists(n) && IsOffset(offset)
    ensures LexLess(Isoformat(m, offset), Isoformat(n, offset)) <==> Micros(m) < Micros(n)
    ensures Isoformat(m, offset) == Isoformat(n, offset) <==> m == n
    ensures m == n <==> Micros(m) == Micros(n)
  {
    FieldsFit(m);
    FieldsFit(n);
    RenderOrder(Fields(m), Fields(n), WIDTHS, SEPARATORS, Fraction(m) + offset, Fraction(n) + offset);
    RenderOrder(Fields(n), Fields(m), WIDTHS, SEPARATORS, Fraction(n) + offset, Fraction(m) + offset);
    FractionOrder(m, n, offset);
    FractionOrder(n, m, offset);
    FieldsAreTotal(Fields(m), Fields(n));
    LexIrreflexive(Isoformat(m, offset));
    if FieldsLess(Fields(m), Fields(n)) {
      FieldsInOrder(m, n);
    } else if FieldsLess(Fields(n), Fields(m)) {
      FieldsInOrder(n, m);
    } else {
      assert Fields(m)[0] == Fields(n)[0] && Fields(m)[1] == Fields(n)[1] && Fields(m)[2] == Fields(n)[2]
          && Fields(m)[3] == Fields(n)[3] && Fields(m)[4] == Fields(n)[4] && Fields(m)[5] == Fields(n)[5];
    }
  }

  // ---------- the calendar in closed form

  lemma OneMultipleMore(k: nat, n: nat)
    requires k >= 1 && n in {4, 100, 400}
    ensures k / n == (k - 1) / n + (if k % n == 0 then 1 else 0)
  {
    if n == 4 {
    } else if n == 100 {
    } else {
    }
  }

  lemma {:induction false} YearsInClosedForm(year: nat)
    requires year >= 1
    ensures DaysBeforeYear(year) == 365 * (year - 1) + (year - 1) / 4 - (year - 1) / 100 + (year - 1) / 400
  {
    if year > 1 {
      YearsInClosedForm(year - 1);
      OneMultipleMore(year - 1, 4);
      OneMultipleMore(year - 1, 100);
      OneMultipleMore(year - 1, 400);
      LeapYearsByCentury(year - 1);
    }
  }

  lemma LeapYearsByCentury(year: nat)
    ensures YearLength(year)
         == 365 + (if year % 4 == 0 then 1 else 0) - (if year % 100 == 0 then 1 else 0) + (if year % 400 == 0 then 1 else 0)
  {
    assert year % 400 == 0 ==> year % 100 == 0;
    assert year % 100 == 0 ==> year % 4 == 0;
  }

  lemma {:induction false} MonthsInClosedForm(year: nat, month: nat)
    requires 1 <= month <= 12
    ensures DaysBeforeMonth(year, month)
         == if month <= 2 then 31 * (month - 1) else 59 + (if IsLeap(year) then 1 else 0) + (153 * (month - 3) + 2) / 5
  {
    if month > 1 {
      MonthsInClosedForm(year, month - 1);
      var before, after := (153 * (month - 4) + 2) / 5, (153 * (month - 3) + 2) / 5;
      assert month > 3 ==> after - before == (if month in {5, 7, 10, 12} then 30 else 31);
    }
  }

  /** The count of a moment by the rule of the Gregorian calendar: microseconds since the start of year 1. */
  lemma MicrosInClosedForm(m: Moment)
    requires Exists(m)
    ensures var y := m.year - 1;
            var days := 365 * y + y / 4 - y / 100 + y / 400
                        + (if m.month <= 2 then 31 * (m.month - 1)
                           else 59 + (if IsLeap(m.year) then 1 else 0) + (153 * (m.month - 3) + 2) / 5) + m.day;
            Micros(m) == days * 86400000000 + m.hour * 3600000000 + m.minute * 60000000 + m.second * 1000000 + m.micro
    ensures 1000 * Millis(m) <= Micros(m) < 1000 * Millis(m) + 1000
  {
    YearsInClosedForm(m.year);
    MonthsInClosedForm(m.year, m.month);
  }

  // ---------- the text read back by position

  /** Where the i-th field starts. */
  function Position(widths: seq<nat>, separators: seq<string>, i: nat): nat
    requires |widths| == |separators| && i <= |widths|
  {
    if i == 0 then 0 else Position(widths, separators, i - 1) + widths[i - 1] + |separators[i - 1]|
  }

  lemma {:induction false} PositionPastTheFirst(widths: seq<nat>, separators: seq<string>, i: nat)
    requires |widths| == |separators| && 1 <= i <= |widths|
    ensures Position(widths, separators, i) == widths[0] + |separators[0]| + Position(widths[1..], separators[1..], i - 1)
  {
    if i > 1 {
      PositionPastTheFirst(widths, separators, i - 1);
    }
  }

  lemma SliceAfter(before: string, rest: string, p: nat, q: nat)
    requires p <= q <= |rest|
    ensures (before + rest)[|before| + p..|before| + q] == rest[p..q]
  {
  }

  /** A field and the separator after it, where they should be. */
  ghost predicate Holds(s: string, p: nat, field: nat, width: nat, separator: string) {
    && p + width + |separator| <= |s|
    && AllDigits(s[p..p + width]) && Value(s[p..p + width]) == field
    && s[p + width..p + width + |separator|] == separator
  }

  lemma HoldsAfter(before: string, rest: string, p: nat, field: nat, width: nat, separator: string)
    requires Holds(rest, p, field, width, separator)
    ensures Holds(before + rest, |before| + p, field, width, separator)
  {
    hide Value;
    SliceAfter(before, rest, p, p + width);
    SliceAfter(before, rest, p + width, p + width + |separator|);
  }

  lemma HoldsFirst(field: nat, width: nat, separator: string, rest: string)
    requires width >= 1 && field < Pow10(width)
    ensures Holds(Printed(field, width) + (separator + rest), 0, field, width, separator)
  {
    PrintedWidth(field, width);
    PrintedReadsBack(field, width);
    var s := Printed(field, width) + (separator + rest);
    assert s[0..width] == Printed(field, width) && s[width..width + |separator|] == separator;
  }

  lemma {:induction false} RenderedAt(f: seq<nat>, widths: seq<nat>, separators: seq<string>, tail: string, i: nat)
    requires |f| == |widths| == |separators| && Fits(f, widths) && i < |f|
    ensures Holds(Render(f, widths, separators) + tail, Position(widths, separators, i), f[i], widths[i], separators[i])
  {
    hide Value, Printed, Holds;
    var first, sep, rest := Printed(f[0], widths[0]), separators[0], Render(f[1..], widths[1..], separators[1..]) + tail;
    assert Render(f, widths, separators) + tail == first + (sep + rest);
    if i == 0 {
      HoldsFirst(f[0], widths[0], sep, rest);
    } else {
      PrintedWidth(f[0], widths[0]);
      RenderedAt(f[1..], widths[1..], separators[1..], tail, i - 1);
      PositionPastTheFirst(widths, separators, i);
      HoldsAfter(first + sep, rest, Position(widths[1..], separators[1..], i - 1), f[i], widths[i], separators[i]);
      assert first + (sep + rest) == first + sep + rest;
    }
  }

  lemma {:induction false} RenderedLength(f: seq<nat>, widths: seq<nat>, separators: seq<string>)
    requires |f| == |widths| == |separators| && Fits(f, widths)
    ensures |Render(f, widths, separators)| == Position(widths, separators, |f|)
  {
    if f != [] {
      PrintedWidth(f[0], widths[0]);
      RenderedLength(f[1..], widths[1..], separators[1..]);
      PositionPastTheFirst(widths, separators, |f|);
    }
  }

  lemma Positions()
    ensures forall i | 0 <= i <= 6 :: Position(WIDTHS, SEPARATORS, i) == [0, 5, 8, 11, 14, 17, 19][i]
  {
    var p := seq(7, i requires 0 <= i <= 6 => Position(WIDTHS, SEPARATORS, i));
    assert forall i | 1 <= i <= 6 :: p[i] == p[i - 1] + WIDTHS[i - 1] + |SEPARATORS[i - 1]|;
    assert p[0] == 0 && p[1] == 5 && p[2] == 8 && p[3] == 11 && p[4] == 14 && p[5] == 17 && p[6] == 19;
  }

  /** ISO 8601 text: each field at its place, the separators between them, a fraction only if there is one,
      then the offset. */
  ghost predicate IsIsoText(s: string, m: Moment, offset: string) {
    && |s| >= 19 && s[4] == '-' && s[7] == '-' && s[10] == 'T' && s[13] == ':' && s[16] == ':'
    && AllDigits(s[..4]) && Value(s[..4]) == m.year && AllDigits(s[5..7]) && Value(s[5..7]) == m.month
    && AllDigits(s[8..10]) && Value(s[8..10]) == m.day && AllDigits(s[11..13]) && Value(s[11..13]) == m.hour
    && AllDigits(s[14..16]) && Value(s[14..16]) == m.minute && AllDigits(s[17..19]) && Value(s[17..19]) == m.second
    && (if m.micro == 0 then s[19..] == offset
        else && |s| >= 26 && s[19] == '.' && AllDigits(s[20..26]) && Value(s[20..26]) == m.micro && s[26..] == offset)
  }

  lemma FieldReadsBack(m: Moment, offset: string, i: nat)
    requires Exists(m) && i < 6
    ensures Holds(Isoformat(m, offset), [0, 5, 8, 11, 14, 17][i], Fields(m)[i], WIDTHS[i], SEPARATORS[i])
  {
    hide Render, Position, Value, Holds;
    FieldsFit(m);
    Positions();
    RenderedAt(Fields(m), WIDTHS, SEPARATORS, Fraction(m) + offset, i);
  }

  lemma TailReadsBack(m: Moment, offset: string)
    requires Exists(m)
    ensures var s := Isoformat(m, offset);
            && |s| >= 19 && s[19..] == Fraction(m) + offset
            && (m.micro > 0 ==>
                  && |s| >= 26 && s[19] == '.' && AllDigits(s[20..26]) && Value(s[20..26]) == m.micro && s[26..] == offset)
  {
    hide Render, Position, Value;
    var s := Isoformat(m, offset);
    FieldsFit(m);
    Positions();
    RenderedLength(Fields(m), WIDTHS, SEPARATORS);
    if m.micro > 0 {
      assert Pow10(6) == 1000000;
      PrintedWidth(m.micro, 6);
      PrintedReadsBack(m.micro, 6);
      assert s[19..] == "." + Printed(m.micro, 6) + offset;
      assert s[20..26] == s[19..][1..7] == Printed(m.micro, 6);
      assert s[26..] == s[19..][7..] == offset;
    }
  }

  lemma IsoformatIsIsoText(m: Moment, offset: string)
    requires Exists(m)
    ensures IsIsoText(Isoformat(m, offset), m, offset)
  {
    hide Isoformat, Value, Render;
    var s := Isoformat(m, offset);
    TailReadsBack(m, offset);
    assert m.micro == 0 ==> Fraction(m) + offset == offset;
    FieldReadsBack(m, offset, 0);
    FieldReadsBack(m, offset, 1);
    FieldReadsBack(m, offset, 2);
    FieldReadsBack(m, offset, 3);
    FieldReadsBack(m, offset, 4);
    FieldReadsBack(m, offset, 5);
    assert s[4] == s[4..5][0] && s[7] == s[7..8][0] && s[10] == s[10..11][0] && s[13] == s[13..14][0] && s[16] == s[16..17][0];
    assert s[..4] == s[0..4];
  }

  // ---------- timestamps as the monitor writes them

  /** EventBridge gives event times in UTC. */
  const UTC := "+00:00"

  ghost predicate IsTimestamp(s: string) {
    exists m :: Exists(m) && s == Isoformat(m, UTC)
  }

  type Timestamp = s: string | IsTimestamp(s)
    ghost witness Isoformat(EPOCH, UTC)

  const EPOCH := Moment(1970, 1, 1, 0, 0, 0, 0)

  ghost function MomentOf(s: Timestamp): (m: Moment)
    ensures Exists(m) && s == Isoformat(m, UTC)
  {
    var m :| Exists(m) && s == Isoformat(m, UTC);
    m
  }

  /** The instant MERGE reads from a timestamp. */
  ghost function Instant(s: Timestamp): nat {
    Millis(MomentOf(s))
  }

  /** What dedupe takes for newer is not older to MERGE, and the same text is the same instant. */
  lemma NewerTextIsNotEarlier(s: Timestamp, t: Timestamp)
    ensures LexLess(s, t) ==> Instant(s) <= Instant(t)
    ensures !LexLess(s, t) ==> Instant(t) <= Instant(s)
  {
    TextOrderIsTimeOrder(MomentOf(s), MomentOf(t), UTC);
  }
  lemma InstantOfText(m: Moment)
    requires Exists(m)
    ensures IsTimestamp(Isoformat(m, UTC)) && Instant(Isoformat(m, UTC)) == Millis(m)
  {
    TextOrderIsTimeOrder(m, MomentOf(Isoformat(m, UTC)), UTC);
  }
}
