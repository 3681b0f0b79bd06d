/** internal/duration: durations with days, weeks and months, over Go's 64-bit nanoseconds. */
module Duration {
  import opened Text
  import opened Decimal
  import opened Int64

  const SECOND: int := 1_000_000_000
  const MINUTE: int := 60 * SECOND
  const HOUR: int := 60 * MINUTE
  const DAY: int := 24 * HOUR
  const WEEK: int := 7 * DAY
  const MONTH: int := 30 * DAY

  predicate IsLetter(c: char) { 'a' <= c <= 'z' || 'A' <= c <= 'Z' }

  predicate IsNumberChar(c: char) { IsDigit(c) || c == '-' || c == '+' }

  function Lower(s: string): string {
    if s == "" then ""
    else [if 'A' <= s[0] <= 'Z' then (s[0] as int + 32) as char else s[0]] + Lower(s[1..])
  }

  // ---- one segment ----

  /** A whole number with an optional sign. */
  predicate IsInteger(s: string) {
    Unsigned(s) != "" && AllDigits(Unsigned(s))
  }

  function IntegerValue(s: string): int
    requires IsInteger(s)
  {
    Signed(s, Value(Unsigned(s)))
  }

  /** scanInt: overflow wraps around. */
  function Scanned(s: string): Result<int> {
    if IsInteger(s) then Ok(Wrap(IntegerValue(s))) else Err
  }

  method ScanDigits(s: string) returns (r: Result<int>)
    ensures r == if AllDigits(s) then Ok(Wrap(Value(s))) else Err
  {
    var n := 0;
    for i := 0 to |s|
      invariant AllDigits(s[..i]) && n == Wrap(Value(s[..i]))
    {
      var c := s[i];
      if c < '0' || c > '9' {
        return Err;
      }
      assert s[..i + 1][..i] == s[..i];
      WrapDigit(Value(s[..i]), DigitValue(c));
      n := Wrap(n * 10 + DigitValue(c));
    }
    assert s[..|s|] == s;
    return Ok(n);
  }

  method ScanInt(text: string) returns (r: Result<int>)
    ensures r == Scanned(text)
  {
    var sign := 1;
    var s := text;
    if |s| > 0 && (s[0] == '+' || s[0] == '-') {
      if s[0] == '-' {
        sign := -1;
      }
      s := s[1..];
    }
    if s == "" {
      return Err;
    }
    var n := ScanDigits(s);
    if n.Err? {
      return Err;
    }
    WrapSigned(Value(s), sign);
    return Ok(Wrap(n.value * sign));
  }

  lemma WrapNegated(v: int)
    ensures Wrap(-Wrap(v)) == Wrap(-v)
  {
    WrapMul(v, -1);
  }

  lemma WrapSigned(v: int, sign: int)
    requires sign == 1 || sign == -1
    ensures Wrap(Wrap(v) * sign) == Wrap(if sign < 0 then -v else v)
  {
    WrapNegated(v);
  }

  lemma WrapDigit(v: int, d: int)
    ensures Wrap(Wrap(v) * 10 + d) == Wrap(v * 10 + d)
  {
    WrapMul(v, 10);
    WrapAdd(Wrap(v) * 10, d);
    WrapAdd(v * 10, d);
  }

  predicate One(s: string, c: char) { |s| == 1 && s[0] == c }

  predicate Two(s: string, c: char, d: char) { |s| == 2 && s[0] == c && s[1] == d }

  /** The units that the package adds (d, w, mo); the key is in lower case. */
  function ExtendedUnit(key: string): Option<int> {
    if One(key, 'd') then Some(DAY) else if One(key, 'w') then Some(WEEK) else if Two(key, 'm', 'o') then Some(MONTH)
    else None
  }

  /** The units of time.ParseDuration that are made of letters: ns, us, ms, s, m, h. */
  function StandardUnit(unit: string): Option<int> {
    if Two(unit, 'n', 's') then Some(1)
    else if Two(unit, 'u', 's') then Some(1_000)
    else if Two(unit, 'm', 's') then Some(1_000_000)
    else if One(unit, 's') then Some(SECOND)
    else if One(unit, 'm') then Some(MINUTE)
    else if One(unit, 'h') then Some(HOUR)
    else None
  }

  /** time.ParseDuration on a number text followed by a unit of letters: an integer times a
      unit, and an error on overflow. */
  function StandardSegment(number: string, unit: string): Result<int> {
    var u := StandardUnit(unit);
    if u.None? || !IsInteger(number) then Err
    else
      var v := IntegerValue(number) * u.value;
      if InRange(v) then Ok(v) else Err
  }

  /** The number and the unit at the front of a text. */
  datatype Front = Front(number: string, unit: string)

  /** The value of a segment. */
  function SegmentValue(f: Front): Result<int> {
    var mult := ExtendedUnit(Lower(f.unit));
    if mult.None? then StandardSegment(f.number, f.unit)
    else
      var n := Scanned(f.number);
      if n.Err? then Err else Ok(Wrap(n.value * mult.value))
  }

  /** The scan for a number of length `num` and a unit that ends at `unit`. */
  function ReadFront(rest: string, num: nat, unit: nat): (r: Option<Front>)
    requires num <= unit <= |rest|
    ensures r.Some? ==> 0 < Length(r.value) <= |rest|
    decreases |rest| - num, |rest| - unit
  {
    if num == unit < |rest| && IsNumberChar(rest[num]) then ReadFront(rest, num + 1, num + 1)
    else if 0 < num && unit < |rest| && IsLetter(rest[unit]) then ReadFront(rest, num, unit + 1)
    else if num == 0 || unit == num then None
    else Some(Front(rest[..num], rest[num..unit]))
  }

  function FrontOf(rest: string): (r: Option<Front>)
    ensures r.Some? ==> 0 < Length(r.value) <= |rest|
  {
    ReadFront(rest, 0, 0)
  }

  function Length(f: Front): nat {
    |f.number| + |f.unit|
  }

  method CutFront(rest: string) returns (r: Option<Front>)
    ensures r == FrontOf(rest)
  {
    var num := 0;
    while num < |rest| && IsNumberChar(rest[num])
      invariant 0 <= num <= |rest| && ReadFront(rest, num, num) == FrontOf(rest)
    {
      num := num + 1;
    }
    if num == 0 {
      return None;
    }
    var unit := num;
    while unit < |rest| && IsLetter(rest[unit])
      invariant num <= unit <= |rest| && ReadFront(rest, num, unit) == FrontOf(rest)
    {
      unit := unit + 1;
    }
    if unit == num {
      return None;
    }
    return Some(Front(rest[..num], rest[num..unit]));
  }

  /** parseSegment: the value of the first segment and the length it takes. */
  method ParseSegment(rest: string) returns (value: Result<int>, consumed: nat)
    ensures FrontOf(rest).None? ==> value.Err?
    ensures FrontOf(rest).Some? ==> value == SegmentValue(FrontOf(rest).value) && consumed == Length(FrontOf(rest).value)
  {
    var front := CutFront(rest);
    if front.None? {
      return Err, 0;
    }
    consumed := Length(front.value);
    var mult := ExtendedUnit(Lower(front.value.unit));
    if mult.Some? {
      var n := ScanInt(front.value.number);
      if n.Err? {
        return Err, consumed;
      }
      return Ok(Wrap(n.value * mult.value)), consumed;
    }
    value := StandardSegment(front.value.number, front.value.unit);
  }

  // ---- Parse ----

  /** The text cut into numbers with units; None when some part of it does not fit. */
  function Fronts(s: string): Option<seq<Front>>
    decreases |s|
  {
    if s == "" then Some([])
    else
      var f := FrontOf(s);
      if f.None? then None else FrontFirst(f.value, Fronts(s[Length(f.value)..]))
  }

  function FrontFirst(f: Front, r: Option<seq<Front>>): Option<seq<Front>> {
    if r.None? then None else Some([f] + r.value)
  }

  /** The sum of the values in 64-bit arithmetic, from the left; one bad segment spoils it. */
  function Total(start: int, fs: seq<Front>, eval: Front -> Result<int>): Result<int>
    decreases fs
  {
    if fs == [] then Ok(start)
    else if eval(fs[0]).Err? then Err
    else Total(Wrap(start + eval(fs[0]).value), fs[1..], eval)
  }

  function TotalOf(start: int, r: Option<seq<Front>>, eval: Front -> Result<int>): Result<int> {
    if r.None? then Err else Total(start, r.value, eval)
  }

  function ParsedBy(s: string, eval: Front -> Result<int>): Result<int> {
    if s == "" then Err else TotalOf(0, Fronts(s), eval)
  }

  function Parsed(s: string): Result<int> {
    ParsedBy(s, SegmentValue)
  }

  lemma TotalOfFirst(start: int, f: Front, r: Option<seq<Front>>, eval: Front -> Result<int>)
    ensures TotalOf(start, FrontFirst(f, r), eval) ==
      if r.None? || eval(f).Err? then Err else TotalOf(Wrap(start + eval(f).value), r, eval)
  {
    if r.Some? {
      assert ([f] + r.value)[1..] == r.value;
    }
  }

  /** One round of Parse. */
  lemma ParseStep(total: int, rest: string, eval: Front -> Result<int>)
    requires rest != ""
    ensures var f := FrontOf(rest);
      TotalOf(total, Fronts(rest), eval) ==
        if f.None? || eval(f.value).Err? then Err
        else TotalOf(Wrap(total + eval(f.value).value), Fronts(rest[Length(f.value)..]), eval)
  {
    var f := FrontOf(rest);
    if f.Some? {
      TotalOfFirst(total, f.value, Fronts(rest[Length(f.value)..]), eval);
    }
  }

  method Parse(s: string) returns (r: Result<int>)
    ensures r == Parsed(s)
  {
    if s == "" {
      return Err;
    }
    var total := 0;
    var rest := s;
    while |rest| > 0
      invariant Parsed(s) == TotalOf(total, Fronts(rest), SegmentValue)
      decreases |rest|
    {
      ParseStep(total, rest, SegmentValue);
      var value, consumed := ParseSegment(rest);
      if value.Err? {
        return Err;
      }
      total := Wrap(total + value.value);
      rest := rest[consumed..];
    }
    return Ok(total);
  }

  // ---- additivity ----

  /** A text that does not continue the unit in front of it. */
  predicate BeginsSegment(b: string) {
    b == "" || !IsLetter(b[0])
  }

  lemma {:induction false} FrontOfConcat(a: string, b: string, num: nat, unit: nat)
    requires num <= unit <= |a| && ReadFront(a, num, unit).Some? && BeginsSegment(b)
    ensures ReadFront(a + b, num, unit) == ReadFront(a, num, unit)
    decreases |a| - num, |a| - unit
  {
    var ab := a + b;
    assert forall i :: 0 <= i < |a| ==> ab[i] == a[i];
    if num == unit < |a| && IsNumberChar(a[num]) {
      FrontOfConcat(a, b, num + 1, num + 1);
    } else if 0 < num && unit < |a| && IsLetter(a[unit]) {
      FrontOfConcat(a, b, num, unit + 1);
    } else {
      assert ab[..num] == a[..num] && ab[num..unit] == a[num..unit];
      assert b == "" || ab[|a|] == b[0];
    }
  }

  function BothFronts(r: Option<seq<Front>>, q: Option<seq<Front>>): Option<seq<Front>> {
    if r.None? || q.None? then None else Some(r.value + q.value)
  }

  lemma FrontFirstOfBoth(f: Front, r: Option<seq<Front>>, q: Option<seq<Front>>)
    ensures BothFronts(FrontFirst(f, r), q) == FrontFirst(f, BothFronts(r, q))
  {
    if r.Some? && q.Some? {
      assert [f] + r.value + q.value == [f] + (r.value + q.value);
    }
  }

  /** A concatenation is cut like its parts. */
  lemma {:induction false} FrontsOfConcat(a: string, b: string)
    requires Fronts(a).Some? && BeginsSegment(b)
    ensures Fronts(a + b) == BothFronts(Fronts(a), Fronts(b))
    decreases |a|
  {
    if a == "" {
      assert a + b == b;
      assert Fronts(b).Some? ==> [] + Fronts(b).value == Fronts(b).value;
    } else {
      var f := FrontOf(a).value;
      FrontOfConcat(a, b, 0, 0);
      assert (a + b)[Length(f)..] == a[Length(f)..] + b;
      FrontsOfConcat(a[Length(f)..], b);
      FrontFirstOfBoth(f, Fronts(a[Length(f)..]), Fronts(b));
    }
  }

  lemma {:induction false} TotalOfConcat(start: int, fs: seq<Front>, gs: seq<Front>, eval: Front -> Result<int>)
    requires Total(start, fs, eval).Ok?
    ensures Total(start, fs + gs, eval) == Total(Total(start, fs, eval).value, gs, eval)
    decreases fs
  {
    if fs == [] {
      assert fs + gs == gs;
    } else {
      assert (fs + gs)[1..] == fs[1..] + gs;
      TotalOfConcat(Wrap(start + eval(fs[0]).value), fs[1..], gs, eval);
    }
  }

  /** The starting value may as well be added in the end. */
  lemma {:induction false} TotalFrom(start: int, fs: seq<Front>, eval: Front -> Result<int>)
    requires InRange(start)
    ensures Total(start, fs, eval).Err? <==> Total(0, fs, eval).Err?
    ensures Total(0, fs, eval).Ok? ==> Total(start, fs, eval).value == Wrap(start + Total(0, fs, eval).value)
    ensures Total(0, fs, eval).Ok? ==> InRange(Total(0, fs, eval).value)
    decreases fs
  {
    if fs != [] && eval(fs[0]).Ok? {
      var v := eval(fs[0]).value;
      TotalFrom(Wrap(start + v), fs[1..], eval);
      TotalFrom(Wrap(v), fs[1..], eval);
      if Total(0, fs[1..], eval).Ok? {
        WrapThree(start, v, Total(0, fs[1..], eval).value);
      }
    }
  }

  lemma WrapInner(x: int, y: int, z: int)
    ensures Wrap(x + Wrap(Wrap(y) + z)) == Wrap(x + y + z)
  {
    WrapAdd(y, z);
    WrapAdd(y + z, x);
  }

  lemma WrapThree(x: int, y: int, z: int)
    ensures Wrap(Wrap(x + y) + z) == Wrap(x + Wrap(Wrap(y) + z))
  {
    WrapAdd(x + y, z);
    WrapInner(x, y, z);
  }

  lemma AdditiveTotals(fs: seq<Front>, gs: seq<Front>, eval: Front -> Result<int>)
    requires Total(0, fs, eval).Ok? && Total(0, gs, eval).Ok?
    ensures Total(0, fs + gs, eval) == Ok(Wrap(Total(0, fs, eval).value + Total(0, gs, eval).value))
  {
    TotalOfConcat(0, fs, gs, eval);
    TotalFrom(0, fs, eval);
    TotalFrom(Total(0, fs, eval).value, gs, eval);
  }

  lemma CutTextsBeginSegments(b: string)
    requires Fronts(b).Some?
    ensures BeginsSegment(b)
  {}

  lemma AdditiveFor(a: string, b: string, eval: Front -> Result<int>)
    requires ParsedBy(a, eval).Ok? && ParsedBy(b, eval).Ok?
    ensures ParsedBy(a + b, eval) == Ok(Wrap(ParsedBy(a, eval).value + ParsedBy(b, eval).value))
  {
    CutTextsBeginSegments(b);
    FrontsOfConcat(a, b);
    AdditiveTotals(Fronts(a).value, Fronts(b).value, eval);
  }

  /** The first main result: whenever both texts parse, so does their concatenation, and its
      value is the sum in 64-bit arithmetic. */
  lemma ParseIsAdditive(a: string, b: string)
    requires Parsed(a).Ok? && Parsed(b).Ok?
    ensures Parsed(a + b) == Ok(Wrap(Parsed(a).value + Parsed(b).value))
  {
    AdditiveFor(a, b, SegmentValue);
  }
}
