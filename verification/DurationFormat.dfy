/** Format, and when Parse reads back what it prints. */
module DurationFormat {
  import opened Text
  import opened Decimal
  import opened Int64
  import opened Duration

  datatype Unit = Days | Hours | Minutes | Seconds

  function UnitText(u: Unit): string {
    match u
    case Days => "d"
    case Hours => "h"
    case Minutes => "m"
    case Seconds => "s"
  }

  function UnitValue(u: Unit): int {
    match u
    case Days => DAY
    case Hours => HOUR
    case Minutes => MINUTE
    case Seconds => SECOND
  }

  datatype Part = Part(count: int, unit: Unit)

  function PartText(p: Part): string {
    Print(p.count) + UnitText(p.unit)
  }

  function PartsText(ps: seq<Part>): string {
    if ps == [] then "" else PartText(ps[0]) + PartsText(ps[1..])
  }

  // ---- Format ----

  function Magnitude(d: int): int {
    if d < 0 then Wrap(-d) else d
  }

  function NonZero(count: int, u: Unit): seq<Part> {
    if count != 0 then [Part(count, u)] else []
  }

  datatype Clock = Clock(days: int, hours: int, minutes: int, seconds: int)

  function ClockOf(m: int): Clock {
    var days := TruncDiv(m, DAY);
    var m1 := m - days * DAY;
    var hours := TruncDiv(m1, HOUR);
    var m2 := m1 - hours * HOUR;
    var minutes := TruncDiv(m2, MINUTE);
    var m3 := m2 - minutes * MINUTE;
    Clock(days, hours, minutes, TruncDiv(m3, SECOND))
  }

  /** The parts printed: the non-zero ones, or zero seconds. */
  function Parts(c: Clock): (ps: seq<Part>)
    ensures ps != []
  {
    var ps := NonZero(c.days, Days) + NonZero(c.hours, Hours) + NonZero(c.minutes, Minutes);
    if c.seconds != 0 || ps == [] then ps + [Part(c.seconds, Seconds)] else ps
  }

  function Formatted(d: int): string {
    if d == 0 then "0s" else (if d < 0 then "-" else "") + PartsText(Parts(ClockOf(Magnitude(d))))
  }

  /** strings.Join with an empty separator. */
  function Concat(parts: seq<string>): string {
    if parts == [] then "" else parts[0] + Concat(parts[1..])
  }

  function Texts(ps: seq<Part>): (r: seq<string>)
    ensures |r| == |ps| && forall i :: 0 <= i < |ps| ==> r[i] == PartText(ps[i])
  {
    seq(|ps|, i requires 0 <= i < |ps| => PartText(ps[i]))
  }

  lemma {:induction false} ConcatOfTexts(ps: seq<Part>)
    ensures Concat(Texts(ps)) == PartsText(ps)
  {
    if ps != [] {
      assert Texts(ps)[1..] == Texts(ps[1..]);
      ConcatOfTexts(ps[1..]);
    }
  }

  method AppendNonZero(parts: seq<string>, count: int, u: Unit, ghost ps: seq<Part>) returns (r: seq<string>)
    requires parts == Texts(ps)
    ensures r == Texts(ps + NonZero(count, u))
  {
    r := parts;
    if count != 0 {
      r := r + [Print(count) + UnitText(u)];
      assert Texts(ps + [Part(count, u)]) == Texts(ps) + [PartText(Part(count, u))];
    } else {
      assert ps + [] == ps;
    }
  }

  method PrintParts(c: Clock) returns (parts: seq<string>)
    ensures parts == Texts(Parts(c))
  {
    parts := AppendNonZero([], c.days, Days, []);
    assert [] + NonZero(c.days, Days) == NonZero(c.days, Days);
    parts := AppendNonZero(parts, c.hours, Hours, NonZero(c.days, Days));
    parts := AppendNonZero(parts, c.minutes, Minutes, NonZero(c.days, Days) + NonZero(c.hours, Hours));
    ghost var ps := NonZero(c.days, Days) + NonZero(c.hours, Hours) + NonZero(c.minutes, Minutes);
    if c.seconds != 0 || |parts| == 0 {
      parts := parts + [Print(c.seconds) + UnitText(Seconds)];
      assert Texts(ps + [Part(c.seconds, Seconds)]) == Texts(ps) + [PartText(Part(c.seconds, Seconds))];
    }
  }

  /** Days, hours, minutes and seconds, each in its range and none against the sign, that add up
      to the whole seconds of `m`. There is only one such clock. */
  predicate ShowsMagnitude(c: Clock, m: int) {
    && (m >= 0 ==> c.days >= 0 && 0 <= c.hours < 24 && 0 <= c.minutes < 60 && 0 <= c.seconds < 60)
    && (m < 0 ==> c.days <= 0 && -24 < c.hours <= 0 && -60 < c.minutes <= 0 && -60 < c.seconds <= 0)
    && c.days * DAY + c.hours * HOUR + c.minutes * MINUTE + c.seconds * SECOND == WholeSeconds(m)
  }

  /** The magnitude of the smallest duration wraps around to a negative number. */
  method Breakdown(magnitude: int) returns (c: Clock)
    ensures ShowsMagnitude(c, magnitude)
  {
    ClockAddsUp(magnitude);
    var d := magnitude;
    var days := TruncDiv(d, DAY);
    d := d - days * DAY;
    var hours := TruncDiv(d, HOUR);
    d := d - hours * HOUR;
    var minutes := TruncDiv(d, MINUTE);
    d := d - minutes * MINUTE;
    var seconds := TruncDiv(d, SECOND);
    return Clock(days, hours, minutes, seconds);
  }

  method Format(duration: int) returns (out: string)
    requires InRange(duration)
    ensures out == Formatted(duration)
  {
    if duration == 0 {
      return "0s";
    }
    var d := duration;
    var negative := d < 0;
    if negative {
      d := Wrap(-d);
    }
    var clock := Breakdown(d);
    ClockAddsUp(d);
    ClockIsUnique(clock, ClockOf(d), d);
    var parts := PrintParts(clock);
    ConcatOfTexts(Parts(clock));
    out := Concat(parts);
    if negative {
      out := "-" + out;
    } else {
      assert "" + out == out;
    }
  }

  // ---- reading parts back ----

  function FrontOfPart(p: Part): Front {
    Front(Print(p.count), UnitText(p.unit))
  }

  function FrontsOfParts(ps: seq<Part>): (fs: seq<Front>)
    ensures |fs| == |ps| && forall i :: 0 <= i < |ps| ==> fs[i] == FrontOfPart(ps[i])
  {
    seq(|ps|, i requires 0 <= i < |ps| => FrontOfPart(ps[i]))
  }

  /** A number text followed by letters is read as one front. */
  ghost predicate WellFormed(f: Front) {
    && f.number != "" && (forall i :: 0 <= i < |f.number| ==> IsNumberChar(f.number[i]))
    && f.unit != "" && (forall i :: 0 <= i < |f.unit| ==> IsLetter(f.unit[i]))
  }

  lemma {:induction false} ReadWellFormed(f: Front, num: nat, unit: nat)
    requires WellFormed(f) && num <= unit <= Length(f)
    requires if unit > num then num == |f.number| else num <= |f.number|
    ensures ReadFront(f.number + f.unit, num, unit) == Some(f)
    decreases Length(f) - num, Length(f) - unit
  {
    var s := f.number + f.unit;
    if num < |f.number| {
      assert s[num] == f.number[num];
      ReadWellFormed(f, num + 1, num + 1);
    } else if unit < |s| {
      assert s[unit] == f.unit[unit - num];
      ReadWellFormed(f, num, unit + 1);
    } else {
      assert s[..num] == f.number && s[num..unit] == f.unit;
    }
  }

  lemma CutOne(f: Front)
    requires WellFormed(f)
    ensures Fronts(f.number + f.unit) == Some([f])
  {
    ReadWellFormed(f, 0, 0);
    assert (f.number + f.unit)[Length(f)..] == "";
    assert [f] + [] == [f];
  }

  function FrontText(f: Front): string {
    f.number + f.unit
  }

  function FrontsText(fs: seq<Front>): string {
    if fs == [] then "" else FrontText(fs[0]) + FrontsText(fs[1..])
  }

  /** A text made of well-formed fronts is cut into them. */
  lemma {:induction false} CutWellFormed(fs: seq<Front>)
    requires forall i :: 0 <= i < |fs| ==> WellFormed(fs[i])
    ensures Fronts(FrontsText(fs)) == Some(fs)
  {
    if fs != [] {
      CutOne(fs[0]);
      CutWellFormed(fs[1..]);
      CutTextsBeginSegments(FrontsText(fs[1..]));
      FrontsOfConcat(FrontText(fs[0]), FrontsText(fs[1..]));
      assert [fs[0]] + fs[1..] == fs;
    }
  }

  // ---- the values of parts ----

  function PartValue(p: Part): int {
    p.count * UnitValue(p.unit)
  }

  lemma UnitIsRead(number: string, u: Unit)
    requires IsInteger(number) && InRange(IntegerValue(number)) && InRange(IntegerValue(number) * UnitValue(u))
    ensures SegmentValue(Front(number, UnitText(u))) == Ok(IntegerValue(number) * UnitValue(u))
  {
    var text := UnitText(u);
    assert text[1..] == "";
    assert Lower(text) == text;
  }

  function MinusFront(p: Part): Front {
    Front("-" + Print(p.count), UnitText(p.unit))
  }

  lemma PartIsWellFormed(p: Part)
    requires p.count >= 0
    ensures WellFormed(FrontOfPart(p)) && WellFormed(MinusFront(p))
  {
    var n := Print(p.count);
    assert forall i :: 0 <= i < |n| ==> IsDigit(n[i]);
  }

  lemma PlainPartIsRead(p: Part)
    requires p.count >= 0 && PartValue(p) <= MAX
    ensures SegmentValue(FrontOfPart(p)) == Ok(PartValue(p))
  {
    var n := Print(p.count);
    assert IsDigit(n[0]);
    assert Unsigned(n) == n;
    CountIsSmall(p);
    UnitIsRead(n, p.unit);
  }

  lemma MinusPartIsRead(p: Part)
    requires p.count >= 0 && PartValue(p) <= MAX
    ensures SegmentValue(MinusFront(p)) == Ok(-PartValue(p))
  {
    var n := Print(p.count);
    assert Unsigned("-" + n) == n;
    CountIsSmall(p);
    UnitIsRead("-" + n, p.unit);
  }

  /** A part is printed so that it can be read, also with a minus sign in front. */
  ghost predicate IsRead(p: Part, eval: Front -> Result<int>) {
    eval(FrontOfPart(p)) == Ok(PartValue(p)) && eval(MinusFront(p)) == Ok(-PartValue(p))
  }

  ghost predicate AllRead(ps: seq<Part>, eval: Front -> Result<int>) {
    forall i :: 0 <= i < |ps| ==> IsRead(ps[i], eval)
  }

  lemma PartsAreRead(ps: seq<Part>)
    requires Printable(ps)
    ensures AllRead(ps, SegmentValue)
  {
    forall i | 0 <= i < |ps| ensures IsRead(ps[i], SegmentValue) {
      PlainPartIsRead(ps[i]);
      MinusPartIsRead(ps[i]);
    }
  }

  lemma CountIsSmall(p: Part)
    requires p.count >= 0 && PartValue(p) <= MAX
    ensures p.count <= MAX && -p.count * UnitValue(p.unit) == -PartValue(p)
  {
    assert UnitValue(p.unit) >= 1;
  }

  function SumOf(vs: seq<int>): int {
    if vs == [] then 0 else vs[0] + SumOf(vs[1..])
  }

  function PartValues(ps: seq<Part>): (vs: seq<int>)
    ensures |vs| == |ps| && forall i :: 0 <= i < |ps| ==> vs[i] == PartValue(ps[i])
  {
    seq(|ps|, i requires 0 <= i < |ps| => PartValue(ps[i]))
  }

  /** The value of each front is known. */
  ghost predicate Evaluates(fs: seq<Front>, vs: seq<int>, eval: Front -> Result<int>) {
    |fs| == |vs| && forall i :: 0 <= i < |fs| ==> eval(fs[i]) == Ok(vs[i])
  }

  lemma {:induction false} TotalOfValues(start: int, fs: seq<Front>, vs: seq<int>, eval: Front -> Result<int>)
    requires Evaluates(fs, vs, eval) && InRange(start)
    ensures Total(start, fs, eval) == Ok(Wrap(start + SumOf(vs)))
    decreases fs
  {
    if fs != [] {
      TotalOfValues(Wrap(start + vs[0]), fs[1..], vs[1..], eval);
      WrapAdd(start + vs[0], SumOf(vs[1..]));
    }
  }

  /** A text made of well-formed fronts parses to the sum of their values. */
  lemma ParsedFronts(fs: seq<Front>, vs: seq<int>, eval: Front -> Result<int>)
    requires fs != [] && Evaluates(fs, vs, eval)
    requires forall i :: 0 <= i < |fs| ==> WellFormed(fs[i])
    ensures ParsedBy(FrontsText(fs), eval) == Ok(Wrap(SumOf(vs)))
  {
    CutWellFormed(fs);
    TotalOfValues(0, fs, vs, eval);
  }

  lemma {:induction false} TextOfFronts(ps: seq<Part>)
    ensures FrontsText(FrontsOfParts(ps)) == PartsText(ps)
  {
    if ps != [] {
      assert FrontsOfParts(ps)[1..] == FrontsOfParts(ps[1..]);
      TextOfFronts(ps[1..]);
    }
  }

  ghost predicate Printable(ps: seq<Part>) {
    ps != [] && forall i :: 0 <= i < |ps| ==> ps[i].count >= 0 && PartValue(ps[i]) <= MAX
  }

  lemma PartsEvaluate(ps: seq<Part>, eval: Front -> Result<int>)
    requires AllRead(ps, eval)
    ensures Evaluates(FrontsOfParts(ps), PartValues(ps), eval)
  {
    assert forall i :: 0 <= i < |ps| ==> IsRead(ps[i], eval);
  }

  lemma PartsAreWellFormed(ps: seq<Part>)
    requires forall i :: 0 <= i < |ps| ==> ps[i].count >= 0
    ensures forall i :: 0 <= i < |ps| ==> WellFormed(FrontsOfParts(ps)[i])
  {
    forall i | 0 <= i < |ps| ensures WellFormed(FrontsOfParts(ps)[i]) {
      PartIsWellFormed(ps[i]);
    }
  }

  lemma PrintedIsParsed(ps: seq<Part>, eval: Front -> Result<int>)
    requires Printable(ps) && AllRead(ps, eval)
    ensures ParsedBy(PartsText(ps), eval) == Ok(Wrap(SumOf(PartValues(ps))))
  {
    PartsEvaluate(ps, eval);
    PartsAreWellFormed(ps);
    TextOfFronts(ps);
    ParsedFronts(FrontsOfParts(ps), PartValues(ps), eval);
  }

  /** The fronts of a text with a minus sign before it. */
  function MinusFronts(ps: seq<Part>): (fs: seq<Front>)
    requires ps != []
    ensures |fs| == |ps|
  {
    [MinusFront(ps[0])] + FrontsOfParts(ps[1..])
  }

  lemma EvaluatesMore(f: Front, v: int, fs: seq<Front>, vs: seq<int>, eval: Front -> Result<int>)
    requires eval(f) == Ok(v) && Evaluates(fs, vs, eval)
    ensures Evaluates([f] + fs, [v] + vs, eval)
  {
  }

  lemma MinusEvaluates(ps: seq<Part>, eval: Front -> Result<int>)
    requires ps != [] && AllRead(ps, eval)
    ensures Evaluates(MinusFronts(ps), [-PartValue(ps[0])] + PartValues(ps[1..]), eval)
  {
    assert IsRead(ps[0], eval);
    assert forall i :: 0 <= i < |ps[1..]| ==> ps[1..][i] == ps[i + 1];
    PartsEvaluate(ps[1..], eval);
    EvaluatesMore(MinusFront(ps[0]), -PartValue(ps[0]), FrontsOfParts(ps[1..]), PartValues(ps[1..]), eval);
  }

  lemma MinusWellFormed(ps: seq<Part>)
    requires Printable(ps)
    ensures forall i :: 0 <= i < |ps| ==> WellFormed(MinusFronts(ps)[i])
  {
    PartIsWellFormed(ps[0]);
    PartsAreWellFormed(ps[1..]);
    assert forall i :: 0 < i < |ps| ==> MinusFronts(ps)[i] == FrontsOfParts(ps[1..])[i - 1];
  }

  lemma MinusText(ps: seq<Part>)
    requires ps != []
    ensures FrontsText(MinusFronts(ps)) == "-" + PartsText(ps)
  {
    var fs := MinusFronts(ps);
    assert fs[1..] == FrontsOfParts(ps[1..]);
    TextOfFronts(ps[1..]);
    Regroup(Print(ps[0].count), UnitText(ps[0].unit), PartsText(ps[1..]));
  }

  lemma Regroup(n: string, u: string, rest: string)
    ensures ("-" + n) + u + rest == "-" + ((n + u) + rest)
  {}

  /** A minus sign in front negates the first part only. */
  lemma MinusIsParsed(ps: seq<Part>, eval: Front -> Result<int>)
    requires Printable(ps) && AllRead(ps, eval)
    ensures ParsedBy("-" + PartsText(ps), eval) == Ok(Wrap(SumOf([-PartValue(ps[0])] + PartValues(ps[1..]))))
  {
    MinusEvaluates(ps, eval);
    MinusWellFormed(ps);
    MinusText(ps);
    ParsedFronts(MinusFronts(ps), [-PartValue(ps[0])] + PartValues(ps[1..]), eval);
  }

  // ---- what a duration is printed as ----

  lemma {:induction false} SumOfConcat(vs: seq<int>, ws: seq<int>)
    ensures SumOf(vs + ws) == SumOf(vs) + SumOf(ws)
  {
    if vs == [] {
      assert vs + ws == ws;
    } else {
      assert (vs + ws)[1..] == vs[1..] + ws;
      SumOfConcat(vs[1..], ws);
    }
  }

  lemma ValuesOfConcat(ps: seq<Part>, qs: seq<Part>)
    ensures SumOf(PartValues(ps + qs)) == SumOf(PartValues(ps)) + SumOf(PartValues(qs))
  {
    assert PartValues(ps + qs) == PartValues(ps) + PartValues(qs);
    SumOfConcat(PartValues(ps), PartValues(qs));
  }

  lemma ValueOfOne(p: Part)
    ensures SumOf(PartValues([p])) == PartValue(p)
  {
    assert PartValues([p])[1..] == [];
  }

  lemma ValueOfNonZero(n: int, u: Unit)
    ensures SumOf(PartValues(NonZero(n, u))) == n * UnitValue(u)
  {
    if n != 0 {
      ValueOfOne(Part(n, u));
    }
  }

  /** The parts are worth what the clock shows. */
  lemma WorthOfParts(c: Clock)
    ensures SumOf(PartValues(Parts(c))) == c.days * DAY + c.hours * HOUR + c.minutes * MINUTE + c.seconds * SECOND
  {
    var d, h, m := NonZero(c.days, Days), NonZero(c.hours, Hours), NonZero(c.minutes, Minutes);
    ValueOfNonZero(c.days, Days);
    ValueOfNonZero(c.hours, Hours);
    ValueOfNonZero(c.minutes, Minutes);
    ValuesOfConcat(d, h);
    ValuesOfConcat(d + h, m);
    ValueOfOne(Part(c.seconds, Seconds));
    ValuesOfConcat(d + h + m, [Part(c.seconds, Seconds)]);
  }

  /** Rounded toward zero to a whole second. */
  function WholeSeconds(d: int): int {
    TruncDiv(d, SECOND) * SECOND
  }

  lemma ClockAddsUp(m: int)
    ensures ShowsMagnitude(ClockOf(m), m)
  {
    if m >= 0 {
      PositiveClock(m);
    } else {
      PositiveClock(-m);
      NegatedClock(-m);
      NegatedShows(ClockOf(-m), ClockOf(m), -m);
    }
  }

  lemma NegatedShows(c: Clock, d: Clock, m: int)
    requires m > 0 && ShowsMagnitude(c, m) && d == Clock(-c.days, -c.hours, -c.minutes, -c.seconds)
    ensures ShowsMagnitude(d, -m)
  {
    WholeSecondsOfNegative(m);
  }

  lemma NegatedProduct(q: int, b: int)
    ensures (-q) * b == -(q * b)
  {
  }

  lemma NegatedQuotient(a: int, b: int, n: int, q: int, rest: int)
    requires a >= 0 && b > 0 && n == -a && q == TruncDiv(a, b) && rest == a - q * b
    ensures TruncDiv(n, b) == -q && n - TruncDiv(n, b) * b == -rest && rest >= 0
  {
    Quotient(a, b);
    assert TruncDiv(n, b) == -q;
    NegatedProduct(q, b);
  }

  lemma NegatedClock(m: int)
    requires m > 0
    ensures var c := ClockOf(m); ClockOf(-m) == Clock(-c.days, -c.hours, -c.minutes, -c.seconds)
  {
    var c := ClockOf(m);
    var m1 := m - c.days * DAY;
    var m2 := m1 - c.hours * HOUR;
    var m3 := m2 - c.minutes * MINUTE;
    NegatedQuotient(m, DAY, -m, c.days, m1);
    NegatedQuotient(m1, HOUR, -m1, c.hours, m2);
    NegatedQuotient(m2, MINUTE, -m2, c.minutes, m3);
    NegatedQuotient(m3, SECOND, -m3, c.seconds, m3 - c.seconds * SECOND);
  }

  lemma ClockIsUnique(c: Clock, d: Clock, m: int)
    requires ShowsMagnitude(c, m) && ShowsMagnitude(d, m)
    ensures c == d
  {
    var x2, y2 := c.minutes * 60 + c.seconds, d.minutes * 60 + d.seconds;
    var x1, y1 := c.hours * 3_600 + x2, d.hours * 3_600 + y2;
    assert c.days * 86_400 + x1 == d.days * 86_400 + y1;
    SameDays(c.days, x1, d.days, y1);
    SameHours(c.hours, x2, d.hours, y2);
  }

  lemma SameDays(a: int, x: int, b: int, y: int)
    requires a * 86_400 + x == b * 86_400 + y && -86_400 < x - y < 86_400
    ensures a == b && x == y
  {
  }

  lemma SameHours(a: int, x: int, b: int, y: int)
    requires a * 3_600 + x == b * 3_600 + y && -3_600 < x - y < 3_600
    ensures a == b && x == y
  {
  }

  lemma PositiveClock(m: int)
    requires 0 <= m
    ensures ShowsMagnitude(ClockOf(m), m)
  {
    var c := ClockOf(m);
    var m1 := m - c.days * DAY;
    var m2 := m1 - c.hours * HOUR;
    var m3 := m2 - c.minutes * MINUTE;
    Quotient(m, DAY);
    Quotient(m1, HOUR);
    Quotient(m2, MINUTE);
    Quotient(m3, SECOND);
    DigitsAddUp(m, c);
  }

  lemma DigitsAddUp(m: int, c: Clock)
    requires 0 <= m - c.days * DAY - c.hours * HOUR - c.minutes * MINUTE - c.seconds * SECOND < SECOND && m >= 0
    ensures c.days * DAY + c.hours * HOUR + c.minutes * MINUTE + c.seconds * SECOND == WholeSeconds(m)
  {
    Rounded(m, c.days * 86_400 + c.hours * 3_600 + c.minutes * 60 + c.seconds);
  }

  lemma Quotient(a: int, b: int)
    requires a >= 0 && b > 0
    ensures var q := TruncDiv(a, b); q >= 0 && 0 <= a - q * b < b
  {}

  lemma Rounded(m: int, seconds: int)
    requires m >= 0 && 0 <= m - seconds * SECOND < SECOND
    ensures WholeSeconds(m) == seconds * SECOND
  {
    assert m / SECOND == seconds;
  }

  // ---- the round trip ----

  ghost predicate ReadsAs(s: string, v: int) {
    Parsed(s) == Ok(v)
  }

  /** The parts of a magnitude: all can be printed, those after the first are positive, and they
      add up to the whole seconds. */
  lemma PartsOfMagnitude(m: int)
    requires 0 <= m <= MAX
    ensures var ps := Parts(ClockOf(m));
      && Printable(ps) && SumOf(PartValues(ps)) == WholeSeconds(m) <= m
      && forall i :: 0 < i < |ps| ==> PartValue(ps[i]) > 0
  {
    var c := ClockOf(m);
    ClockAddsUp(m);
    WorthOfParts(c);
    Quotient(m, SECOND);
    PartsAreBounded(c, WholeSeconds(m));
  }

  lemma PartsAreBounded(c: Clock, total: int)
    requires c.days >= 0 && c.hours >= 0 && c.minutes >= 0 && c.seconds >= 0
    requires c.days * DAY + c.hours * HOUR + c.minutes * MINUTE + c.seconds * SECOND == total <= MAX
    ensures Printable(Parts(c)) && forall i :: 0 < i < |Parts(c)| ==> PartValue(Parts(c)[i]) > 0
  {
    var ps := Parts(c);
    forall i | 0 <= i < |ps|
      ensures ps[i].count >= 0 && PartValue(ps[i]) <= MAX && (i > 0 ==> PartValue(ps[i]) > 0)
    {
      assert ps[i] == Part(c.days, Days) || ps[i] == Part(c.hours, Hours) ||
             ps[i] == Part(c.minutes, Minutes) || ps[i] == Part(c.seconds, Seconds);
      assert i > 0 ==> ps[i].count != 0;
    }
  }

  lemma FormattedText(d: int)
    requires 0 <= d
    ensures Formatted(d) == PartsText(Parts(ClockOf(d)))
  {
    var ps := Parts(ClockOf(d));
    if d == 0 {
      assert ps == [Part(0, Seconds)];
      assert ps[1..] == [];
      assert Print(0) == "0";
      assert PartsText(ps) == "0" + "s" + "";
    } else {
      assert "" + PartsText(ps) == PartsText(ps);
    }
  }

  /** A duration that is not negative comes back rounded down to a whole second. */
  lemma NonNegativeComesBack(d: int)
    requires 0 <= d <= MAX
    ensures ReadsAs(Formatted(d), WholeSeconds(d))
  {
    PartsOfMagnitude(d);
    FormattedText(d);
    PartsAreRead(Parts(ClockOf(d)));
    PrintedIsParsed(Parts(ClockOf(d)), SegmentValue);
  }

  lemma {:induction false} PositiveSum(ps: seq<Part>)
    requires forall i :: 0 <= i < |ps| ==> PartValue(ps[i]) > 0
    ensures SumOf(PartValues(ps)) >= 0 && (SumOf(PartValues(ps)) == 0 <==> ps == [])
  {
    if ps != [] {
      assert PartValues(ps)[1..] == PartValues(ps[1..]);
      PositiveSum(ps[1..]);
    }
  }

  lemma FirstAndRest(ps: seq<Part>)
    requires ps != []
    ensures SumOf(PartValues(ps)) == PartValue(ps[0]) + SumOf(PartValues(ps[1..]))
    ensures SumOf([-PartValue(ps[0])] + PartValues(ps[1..])) == -PartValue(ps[0]) + SumOf(PartValues(ps[1..]))
  {
    assert PartValues(ps)[1..] == PartValues(ps[1..]);
    var vs := [-PartValue(ps[0])] + PartValues(ps[1..]);
    assert vs[1..] == PartValues(ps[1..]);
  }

  /** A negative duration comes back exactly when a single part is printed, because the minus
      sign counts for the first part only. */
  lemma NegativeComesBack(d: int)
    requires MIN < d < 0
    ensures ReadsAs(Formatted(d), WholeSeconds(d)) <==> |Parts(ClockOf(-d))| == 1
  {
    FormattedNegative(d);
    NegatedMagnitude(d, Formatted(d), Parts(ClockOf(-d)));
  }

  lemma NegatedMagnitude(d: int, text: string, ps: seq<Part>)
    requires MIN < d < 0 && ps == Parts(ClockOf(-d)) && text == "-" + PartsText(ps)
    ensures ReadsAs(text, WholeSeconds(d)) <==> |ps| == 1
  {
    PartsOfMagnitude(-d);
    WholeSecondsOfNegative(-d);
    PartsAreRead(ps);
    MinusIsParsed(ps, SegmentValue);
    MinusSum(ps, WholeSeconds(-d));
  }

  lemma WholeSecondsOfNegative(m: int)
    requires m > 0
    ensures WholeSeconds(-m) == -WholeSeconds(m)
  {}

  lemma FormattedNegative(d: int)
    requires MIN < d < 0
    ensures Formatted(d) == "-" + PartsText(Parts(ClockOf(-d)))
  {
    assert Wrap(-d) == -d;
  }

  lemma MinusSum(ps: seq<Part>, total: int)
    requires Printable(ps) && SumOf(PartValues(ps)) == total <= MAX
    requires forall i :: 0 < i < |ps| ==> PartValue(ps[i]) > 0
    ensures Wrap(SumOf([-PartValue(ps[0])] + PartValues(ps[1..]))) == -total <==> |ps| == 1
  {
    FirstAndRest(ps);
    PositiveSum(ps[1..]);
    FirstIsNotNegative(ps);
    NegatedFirst(PartValue(ps[0]), SumOf(PartValues(ps[1..])), total);
  }

  lemma NegatedFirst(first: int, rest: int, total: int)
    requires first >= 0 && rest >= 0 && first + rest == total <= MAX
    ensures Wrap(-first + rest) == -total <==> rest == 0
  {
  }

  lemma FirstIsNotNegative(ps: seq<Part>)
    requires Printable(ps)
    ensures PartValue(ps[0]) >= 0
  {
    assert UnitValue(ps[0].unit) > 0;
  }

  // ---- the smallest duration ----

  lemma {:induction false} NumberGrows(s: string, num: nat, unit: nat)
    requires num <= unit <= |s| && ReadFront(s, num, unit).Some?
    ensures var n := ReadFront(s, num, unit).value.number; num <= |n| <= |s| && n == s[..|n|]
    decreases |s| - num, |s| - unit
  {
    if num == unit < |s| && IsNumberChar(s[num]) {
      NumberGrows(s, num + 1, num + 1);
    } else if 0 < num && unit < |s| && IsLetter(s[unit]) {
      NumberGrows(s, num, unit + 1);
    }
  }

  /** A number has one sign only. */
  lemma DoubleMinusFails(s: string)
    requires |s| >= 2 && s[0] == '-' && s[1] == '-'
    ensures Parsed(s) == Err
  {
    if FrontOf(s).Some? {
      var f := FrontOf(s).value;
      assert ReadFront(s, 0, 0) == ReadFront(s, 1, 1) == ReadFront(s, 2, 2);
      NumberGrows(s, 2, 2);
      assert f.number[0] == '-' && f.number[1] == '-';
      assert Unsigned(f.number)[0] == '-';
      assert SegmentValue(f) == Err;
      ParseStep(0, s, SegmentValue);
    }
  }

  lemma SmallestFails()
    ensures Parsed(Formatted(MIN)) == Err
  {
    var ps := Parts(ClockOf(MIN));
    assert Wrap(-MIN) == MIN;
    assert ps[0] == Part(-106_751, Days);
    var text := PartsText(ps);
    assert Print(-106_751)[0] == '-';
    assert text[0] == '-';
    DoubleMinusFails("-" + text);
  }

  /** The second main result, for every 64-bit duration: Parse reads back what Format prints, up
      to whole seconds, exactly when the duration is not negative, or is printed as a single part
      and is not the smallest one. */
  lemma FormatThenParse(d: int)
    requires InRange(d)
    ensures ReadsAs(Formatted(d), WholeSeconds(d)) <==>
      d >= 0 || (d != MIN && |Parts(ClockOf(-d))| == 1)
  {
    if d >= 0 {
      NonNegativeComesBack(d);
    } else if d == MIN {
      SmallestFails();
    } else {
      NegativeComesBack(d);
    }
  }

  lemma NinetyMinutes(m: int)
    requires m == 90 * MINUTE
    ensures Parts(ClockOf(m)) == [Part(1, Hours), Part(30, Minutes)]
  {
    var c := Clock(0, 1, 30, 0);
    assert m / SECOND == 5_400;
    ClockAddsUp(m);
    ClockIsUnique(c, ClockOf(m), m);
    assert Parts(c) == [Part(1, Hours), Part(30, Minutes)];
  }

  /** Minus ninety minutes is printed as two parts and does not come back. */
  lemma NinetyMinutesFail(d: int)
    requires d == -90 * MINUTE
    ensures !ReadsAs(Formatted(d), WholeSeconds(d))
  {
    NinetyMinutes(-d);
    FormatThenParse(d);
  }
}
