/** What a number with a unit behind it means to Parse, in plain nanoseconds. */
module DurationUnits {
  import opened Text
  import opened Decimal
  import opened Int64
  import opened Duration
  import F = DurationFormat

  /** The letter, small or capital. */
  predicate Either(c: char, small: char, capital: char) {
    c == small || c == capital
  }

  /** The units that the package adds; they may be written in capitals. */
  predicate Extended(unit: string, worth: int) {
    || (|unit| == 1 && Either(unit[0], 'd', 'D') && worth == 86_400_000_000_000)
    || (|unit| == 1 && Either(unit[0], 'w', 'W') && worth == 604_800_000_000_000)
    || (|unit| == 2 && Either(unit[0], 'm', 'M') && Either(unit[1], 'o', 'O') && worth == 2_592_000_000_000_000)
  }

  /** The units of time.ParseDuration. */
  predicate Standard(unit: string, worth: int) {
    || (Two(unit, 'n', 's') && worth == 1)
    || (Two(unit, 'u', 's') && worth == 1_000)
    || (Two(unit, 'm', 's') && worth == 1_000_000)
    || (One(unit, 's') && worth == 1_000_000_000)
    || (One(unit, 'm') && worth == 60_000_000_000)
    || (One(unit, 'h') && worth == 3_600_000_000_000)
  }

  predicate Letters(unit: string) {
    unit != "" && forall i :: 0 <= i < |unit| ==> IsLetter(unit[i])
  }

  lemma IntegersAreNumberChars(number: string)
    requires IsInteger(number)
    ensures number != "" && forall i :: 0 <= i < |number| ==> IsNumberChar(number[i])
  {
    var u := Unsigned(number);
    forall i | 0 <= i < |number| ensures IsNumberChar(number[i]) {
      if u != number {
        assert i > 0 ==> number[i] == u[i - 1];
      }
    }
  }

  lemma TotalOfOne(f: Front, eval: Front -> Result<int>)
    ensures Total(0, [f], eval) == if eval(f).Err? then Err else Ok(Wrap(eval(f).value))
  {
    assert [f][1..] == [];
  }

  lemma OneFront(text: string, f: Front, eval: Front -> Result<int>)
    requires text != "" && Fronts(text) == Some([f])
    ensures ParsedBy(text, eval) == if eval(f).Err? then Err else Ok(Wrap(eval(f).value))
  {
    TotalOfOne(f, eval);
  }

  lemma OneSegment(number: string, unit: string, f: Front)
    requires IsInteger(number) && Letters(unit) && f == Front(number, unit)
    ensures Parsed(number + unit) == if SegmentValue(f).Err? then Err else Ok(Wrap(SegmentValue(f).value))
  {
    IntegersAreNumberChars(number);
    F.CutOne(f);
    OneFront(number + unit, f, SegmentValue);
  }

  lemma {:induction false} LowerSays(s: string)
    ensures |Lower(s)| == |s|
    ensures forall i :: 0 <= i < |s| ==>
      Lower(s)[i] == if 'A' <= s[i] <= 'Z' then (s[i] as int + 32) as char else s[i]
  {
    if s != "" {
      LowerSays(s[1..]);
    }
  }

  lemma ExtendedUnits(unit: string, worth: int)
    ensures ExtendedUnit(Lower(unit)) == Some(worth) <==> Extended(unit, worth)
  {
    LowerSays(unit);
  }

  /** A number of days, weeks or months, with or without a sign, in 64-bit arithmetic. */
  lemma ExtendedMeans(number: string, unit: string, worth: int)
    requires IsInteger(number) && Extended(unit, worth)
    ensures Parsed(number + unit) == Ok(Wrap(IntegerValue(number) * worth))
  {
    ExtendedUnits(unit, worth);
    OneSegment(number, unit, Front(number, unit));
    WrapMul(IntegerValue(number), worth);
  }

  lemma StandardIsNotExtended(unit: string, worth: int)
    requires Standard(unit, worth)
    ensures Letters(unit) && StandardUnit(unit) == Some(worth) && ExtendedUnit(Lower(unit)) == None
  {
    LowerSays(unit);
  }

  /** A number of one of the other units; too large a product is an error. */
  lemma StandardMeans(number: string, unit: string, worth: int)
    requires IsInteger(number) && Standard(unit, worth)
    ensures var v := IntegerValue(number) * worth;
      Parsed(number + unit) == if InRange(v) then Ok(v) else Err
  {
    StandardIsNotExtended(unit, worth);
    OneSegment(number, unit, Front(number, unit));
  }

  lemma StandardUnits(unit: string)
    ensures StandardUnit(unit).Some? ==> Standard(unit, StandardUnit(unit).value)
  {
  }

  /** There are no other units. */
  lemma OtherUnitsFail(number: string, unit: string)
    requires IsInteger(number) && Letters(unit)
    requires forall worth :: !Extended(unit, worth) && !Standard(unit, worth)
    ensures Parsed(number + unit) == Err
  {
    OneSegment(number, unit, Front(number, unit));
    if ExtendedUnit(Lower(unit)).Some? {
      ExtendedUnits(unit, ExtendedUnit(Lower(unit)).value);
    }
    StandardUnits(unit);
  }

  // ---- exactly the texts that parse ----

  lemma {:induction false} FrontIsWellFormed(s: string, num: nat, unit: nat)
    requires num <= unit <= |s| && ReadFront(s, num, unit).Some?
    requires forall i :: 0 <= i < num ==> IsNumberChar(s[i])
    requires forall i :: num <= i < unit ==> IsLetter(s[i])
    ensures var f := ReadFront(s, num, unit).value;
      F.WellFormed(f) && f.number + f.unit == s[..Length(f)]
    decreases |s| - num, |s| - unit
  {
    if num == unit < |s| && IsNumberChar(s[num]) {
      FrontIsWellFormed(s, num + 1, num + 1);
    } else if 0 < num && unit < |s| && IsLetter(s[unit]) {
      FrontIsWellFormed(s, num, unit + 1);
    } else {
      assert s[..num] + s[num..unit] == s[..unit];
    }
  }

  ghost predicate AllWellFormed(fs: seq<Front>) {
    forall i :: 0 <= i < |fs| ==> F.WellFormed(fs[i])
  }

  lemma {:induction false} CutsAreTheText(s: string)
    requires Fronts(s).Some?
    ensures F.FrontsText(Fronts(s).value) == s && AllWellFormed(Fronts(s).value)
    decreases |s|
  {
    if s != "" {
      var f := FrontOf(s).value;
      FrontIsWellFormed(s, 0, 0);
      CutsAreTheText(s[Length(f)..]);
      assert Fronts(s).value[1..] == Fronts(s[Length(f)..]).value;
      assert s == s[..Length(f)] + s[Length(f)..];
    }
  }

  /** A text is cut exactly when it is made of numbers with units behind them, and in one way only. */
  lemma CutsExactly(s: string, fs: seq<Front>)
    ensures Fronts(s) == Some(fs) <==> AllWellFormed(fs) && s == F.FrontsText(fs)
  {
    if AllWellFormed(fs) && s == F.FrontsText(fs) {
      F.CutWellFormed(fs);
    }
    if Fronts(s) == Some(fs) {
      CutsAreTheText(s);
    }
  }

  /** Parse accepts a text exactly when it is one or more numbers with units, each with a value. */
  lemma ParsesExactly(s: string)
    ensures Parsed(s).Ok? <==>
      exists fs :: fs != [] && AllWellFormed(fs) && s == F.FrontsText(fs) && AllValued(fs, SegmentValue)
  {
    if Fronts(s).Some? {
      CutsExactly(s, Fronts(s).value);
      TotalNeedsAll(0, Fronts(s).value, SegmentValue);
    }
    forall fs | fs != [] && AllWellFormed(fs) && s == F.FrontsText(fs) && AllValued(fs, SegmentValue)
      ensures Parsed(s).Ok?
    {
      CutsExactly(s, fs);
    }
  }

  ghost predicate AllValued(fs: seq<Front>, eval: Front -> Result<int>) {
    forall i :: 0 <= i < |fs| ==> eval(fs[i]).Ok?
  }

  lemma {:induction false} TotalNeedsAll(start: int, fs: seq<Front>, eval: Front -> Result<int>)
    ensures Total(start, fs, eval).Ok? <==> AllValued(fs, eval)
    decreases fs
  {
    if fs != [] && eval(fs[0]).Ok? {
      TotalNeedsAll(Wrap(start + eval(fs[0]).value), fs[1..], eval);
      if AllValued(fs[1..], eval) {
        forall i | 0 <= i < |fs| ensures eval(fs[i]).Ok? {
          assert i > 0 ==> fs[i] == fs[1..][i - 1];
        }
      }
    }
  }
}
