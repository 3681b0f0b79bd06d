/** internal/cronexpr: which five-field schedules the operator accepts, and what they denote. */
module CronExpr {
  import opened Text
  import opened Decimal
  import opened Words

  datatype Range = Range(min: int, max: int)

  /** Minute, hour, day of month, month, and day of week with Sunday as 0 and 7. */
  const RANGES: seq<Range> := [Range(0, 59), Range(0, 23), Range(1, 31), Range(1, 12), Range(0, 7)]

  /** The fields an alias stands for; its expansion has one blank between them. */
  function Alias(s: string): Option<seq<string>> {
    if s == "@yearly" || s == "@annually" then Some(["0", "0", "1", "1", "*"])
    else if s == "@monthly" then Some(["0", "0", "1", "*", "*"])
    else if s == "@weekly" then Some(["0", "0", "*", "*", "0"])
    else if s == "@daily" || s == "@midnight" then Some(["0", "0", "*", "*", "*"])
    else if s == "@hourly" then Some(["0", "*", "*", "*", "*"])
    else None
  }

  function Expand(s: string): Result<string> {
    var t := TrimSpace(s);
    if t == "" then Err
    else match Alias(t)
      case Some(fields) => Ok(Join(fields, ' '))
      case None => Ok(t)
  }

  predicate ValidSingleValue(p: string, r: Range) {
    match Atoi(p) case None => false case Some(n) => r.min <= n <= r.max
  }

  predicate ValidRangeAtom(p: string, r: Range)
    requires '-' in p
  {
    var i := IndexOf(p, '-');
    match (Atoi(p[..i]), Atoi(p[i + 1..]))
    case (Some(a), Some(b)) => !(a < r.min || b > r.max || a > b)
    case (_, _) => false
  }

  predicate ValidStepAtom(p: string, r: Range)
    requires '/' in p
    decreases |p|, 0
  {
    var i := IndexOf(p, '/');
    var left, right := p[..i], p[i + 1..];
    && left != "" && right != ""
    && (left != "*" ==> ValidAtom(left, r))
    && match Atoi(right) case None => false case Some(n) => n > 0
  }

  predicate ValidAtom(p: string, r: Range)
    decreases |p|, 1
  {
    if p == "*" then true
    else if '/' in p then ValidStepAtom(p, r)
    else if '-' in p then ValidRangeAtom(p, r)
    else ValidSingleValue(p, r)
  }

  predicate ValidField(f: string, r: Range) {
    f == "*" || forall i :: 0 <= i < |Split(f, ',')| ==> ValidAtom(Split(f, ',')[i], r)
  }

  predicate ValidFields(fields: seq<string>) {
    |fields| == 5 && forall i :: 0 <= i < 5 ==> ValidField(fields[i], RANGES[i])
  }

  predicate Validate(s: string) {
    match Expand(s) case Err => false case Ok(expr) => ValidFields(Fields(expr))
  }

  // ---- what an expression denotes ----

  /** Every `step`-th value from `lo` to `hi`. */
  datatype Steps = Steps(lo: int, hi: int, step: int)

  ghost predicate Holds(s: Steps, v: int) {
    s.lo <= v <= s.hi && s.step > 0 && (v - s.lo) % s.step == 0
  }

  /** A star, one number, or two numbers with a dash between them. */
  function Span(p: string, r: Range): Option<Steps> {
    if p == "*" then Some(Steps(r.min, r.max, 1))
    else if '-' in p then
      var i := IndexOf(p, '-');
      match (Atoi(p[..i]), Atoi(p[i + 1..]))
      case (Some(a), Some(b)) => Some(Steps(a, b, 1))
      case (_, _) => None
    else match Atoi(p) case None => None case Some(n) => Some(Steps(n, n, 1))
  }

  /** A span, or a span with a slash and a step after it. */
  function Meaning(p: string, r: Range): Option<Steps> {
    if '/' !in p then Span(p, r)
    else
      var i := IndexOf(p, '/');
      match (Span(p[..i], r), Atoi(p[i + 1..]))
      case (Some(s), Some(n)) => Some(s.(step := n))
      case (_, _) => None
  }

  ghost predicate Denotes(f: string, r: Range, v: int) {
    exists i :: 0 <= i < |Split(f, ',')| && Includes(Split(f, ',')[i], r, v)
  }

  ghost predicate Includes(p: string, r: Range, v: int) {
    Meaning(p, r).Some? && Holds(Meaning(p, r).value, v)
  }

  ghost predicate Within(m: Option<Steps>, r: Range) {
    m.Some? && m.value.step > 0 && r.min <= m.value.lo <= m.value.hi <= r.max
  }

  /** An atom is accepted exactly when it has a meaning, with a positive step, and the span of
      that meaning is not empty and stays inside the range. */
  lemma AtomAccepted(p: string, r: Range)
    requires r.min <= r.max
    ensures ValidAtom(p, r) <==> Within(Meaning(p, r), r)
  {
    if '/' in p {
      var i := IndexOf(p, '/');
      AtomAcceptedPlain(p[..i], r);
      EmptyIsNoNumber();
    } else {
      AtomAcceptedPlain(p, r);
    }
  }

  lemma AtomAcceptedPlain(p: string, r: Range)
    requires '/' !in p && r.min <= r.max
    ensures ValidAtom(p, r) <==> Within(Span(p, r), r)
  {
  }

  lemma EmptyIsNoNumber()
    ensures Atoi("") == None
  {
  }

  lemma FirstIsHeld(s: Steps)
    requires s.step > 0 && s.lo <= s.hi
    ensures Holds(s, s.lo)
  {
  }

  lemma SplitOfStar()
    ensures Split("*", ',') == ["*"]
  {
  }

  /** The field denotes at least one value, and only values of its range. */
  ghost predicate DenotesPart(f: string, r: Range) {
    && (exists v :: Denotes(f, r, v))
    && (forall v :: Denotes(f, r, v) ==> r.min <= v <= r.max)
  }

  lemma FieldDenotes(f: string, r: Range)
    requires r.min <= r.max && ValidField(f, r)
    ensures DenotesPart(f, r)
  {
    var parts := Split(f, ',');
    if f == "*" {
      SplitOfStar();
    }
    forall i | 0 <= i < |parts| ensures Within(Meaning(parts[i], r), r) {
      AtomAccepted(parts[i], r);
    }
    var m := Meaning(parts[0], r).value;
    FirstIsHeld(m);
    assert Includes(parts[0], r, m.lo);
    assert Denotes(f, r, m.lo);
  }

  lemma FieldsDenote(fields: seq<string>)
    requires ValidFields(fields)
    ensures forall i :: 0 <= i < 5 ==> DenotesPart(fields[i], RANGES[i])
  {
    forall i | 0 <= i < 5 ensures DenotesPart(fields[i], RANGES[i]) {
      FieldDenotes(fields[i], RANGES[i]);
    }
  }

  /** Every accepted expression has five fields, and each denotes a non-empty part of its range. */
  lemma AcceptedDenotes(s: string)
    requires Validate(s)
    ensures var fields := Fields(Expand(s).value);
      |fields| == 5 && forall i :: 0 <= i < 5 ==> DenotesPart(fields[i], RANGES[i])
  {
    FieldsDenote(Fields(Expand(s).value));
  }

  lemma DigitField(c: char, r: Range)
    requires IsDigit(c) && r.min <= DigitValue(c) <= r.max
    ensures ValidField([c], r)
  {
    assert [c][..0] == "";
    assert Value([c]) == DigitValue(c);
    assert Unsigned([c]) == [c];
    assert Split([c], ',') == [[c]];
  }

  /** A star, or the least value of the range. */
  predicate AtRest(f: string, r: Range) {
    f == "*" || (r.min == 0 && f == "0") || (r.min == 1 && f == "1")
  }

  lemma AliasFields(t: string)
    requires Alias(t).Some?
    ensures |Alias(t).value| == 5 && forall i :: 0 <= i < 5 ==> AtRest(Alias(t).value[i], RANGES[i])
  {
  }

  lemma AtRestAccepted(f: string, i: nat)
    requires i < 5 && AtRest(f, RANGES[i])
    ensures f != "" && NoSpace(f) && ValidField(f, RANGES[i])
  {
    if f != "*" {
      DigitField(f[0], RANGES[i]);
      assert f == [f[0]];
    }
  }

  lemma AtRestAllAccepted(fields: seq<string>)
    requires |fields| == 5 && forall i :: 0 <= i < 5 ==> AtRest(fields[i], RANGES[i])
    ensures ValidFields(Fields(Join(fields, ' ')))
  {
    forall i | 0 <= i < 5 ensures fields[i] != "" && NoSpace(fields[i]) && ValidField(fields[i], RANGES[i]) {
      AtRestAccepted(fields[i], i);
    }
    FieldsOfJoin(fields);
  }

  lemma AliasExpands(s: string, t: string, fields: seq<string>)
    requires t == TrimSpace(s) && t != "" && Alias(t) == Some(fields)
    ensures Expand(s) == Ok(Join(fields, ' '))
  {
  }

  /** Every alias is accepted. */
  lemma AliasesAreAccepted(s: string)
    requires Alias(TrimSpace(s)).Some?
    ensures Validate(s)
  {
    var t := TrimSpace(s);
    AliasFields(t);
    AliasExpands(s, t, Alias(t).value);
    AtRestAllAccepted(Alias(t).value);
  }

  lemma OnlyAtom(f: string, r: Range)
    requires ',' !in f && f != "" && f[0] != '*'
    ensures ValidField(f, r) <==> ValidAtom(f, r)
  {
    var parts := Split(f, ',');
    assert parts == [f];
    assert parts[0] == f;
  }

  lemma NumberField(n: nat, r: Range)
    requires r.max <= 99
    ensures ValidField(Print(n), r) <==> r.min <= n <= r.max
  {
    var f := Print(n);
    assert forall i :: 0 <= i < |f| ==> IsDigit(f[i]);
    assert f[0] != '-' && f[0] != '+';
    assert Unsigned(f) == f && Value(f) == n;
    assert f[0] != '*' && '/' !in f && '-' !in f && ',' !in f;
    assert ValidAtom(f, r) <==> r.min <= n <= r.max;
    OnlyAtom(f, r);
  }

  /** A plain number is a minute up to 59, an hour up to 23, a day from 1 to 31, a month from 1 to 12
      or a weekday up to 7. */
  lemma NumbersInRange(n: nat)
    ensures ValidField(Print(n), RANGES[0]) <==> n <= 59
    ensures ValidField(Print(n), RANGES[1]) <==> n <= 23
    ensures ValidField(Print(n), RANGES[2]) <==> 1 <= n <= 31
    ensures ValidField(Print(n), RANGES[3]) <==> 1 <= n <= 12
    ensures ValidField(Print(n), RANGES[4]) <==> n <= 7
  {
    NumberField(n, RANGES[0]);
    NumberField(n, RANGES[1]);
    NumberField(n, RANGES[2]);
    NumberField(n, RANGES[3]);
    NumberField(n, RANGES[4]);
  }

  // ---- when an alias is due ----

  /** A moment in UTC, with Sunday as weekday 0. */
  datatype Moment = Moment(minute: int, hour: int, day: int, month: int, weekday: int)

  predicate InCalendar(m: Moment) {
    0 <= m.minute <= 59 && 0 <= m.hour <= 23 && 1 <= m.day <= 31 && 1 <= m.month <= 12 && 0 <= m.weekday <= 6
  }

  /** Each of the five fields denotes its value of the moment. */
  ghost predicate DenotesMoment(fields: seq<string>, m: Moment) {
    && |fields| == 5
    && Denotes(fields[0], RANGES[0], m.minute) && Denotes(fields[1], RANGES[1], m.hour)
    && Denotes(fields[2], RANGES[2], m.day) && Denotes(fields[3], RANGES[3], m.month)
    && Denotes(fields[4], RANGES[4], m.weekday)
  }

  lemma StarDenotes(r: Range, v: int)
    ensures Denotes("*", r, v) <==> r.min <= v <= r.max
  {
    SplitOfStar();
    assert Meaning("*", r) == Some(Steps(r.min, r.max, 1));
    if r.min <= v <= r.max {
      assert Includes(Split("*", ',')[0], r, v);
    }
  }

  lemma DigitDenotes(c: char, r: Range, v: int)
    requires IsDigit(c)
    ensures Denotes([c], r, v) <==> v == DigitValue(c)
  {
    assert [c][..0] == "" && Unsigned([c]) == [c] && Value([c]) == DigitValue(c);
    assert Split([c], ',') == [[c]];
    assert Meaning([c], r) == Some(Steps(DigitValue(c), DigitValue(c), 1));
    if v == DigitValue(c) {
      assert Includes(Split([c], ',')[0], r, v);
    }
  }

  lemma FieldIsDue(f: string, r: Range, v: int)
    requires r.min <= v <= r.max && AtRest(f, r)
    ensures Denotes(f, r, v) <==> f == "*" || v == r.min
  {
    if f == "*" {
      StarDenotes(r, v);
    } else {
      DigitDenotes(f[0], r, v);
      assert f == [f[0]];
    }
  }

  /** The moments of each alias: the first minute of every hour, day, Sunday, month or year. */
  predicate AliasMoment(s: string, m: Moment) {
    && m.minute == 0
    && (s == "@hourly" || m.hour == 0)
    && (s == "@weekly" ==> m.weekday == 0)
    && (s == "@monthly" || s == "@yearly" || s == "@annually" ==> m.day == 1)
    && (s == "@yearly" || s == "@annually" ==> m.month == 1)
  }

  /** The alias stands for five fields that denote exactly its moments. */
  lemma AliasesAreDue(s: string, m: Moment)
    requires Alias(TrimSpace(s)).Some? && InCalendar(m)
    ensures Expand(s).Ok?
    ensures DenotesMoment(Fields(Expand(s).value), m) <==> AliasMoment(TrimSpace(s), m)
  {
    var t := TrimSpace(s);
    var fields := Alias(t).value;
    AliasFields(t);
    AliasExpands(s, t, fields);
    AliasComesApart(fields);
    FieldIsDue(fields[0], RANGES[0], m.minute);
    FieldIsDue(fields[1], RANGES[1], m.hour);
    FieldIsDue(fields[2], RANGES[2], m.day);
    FieldIsDue(fields[3], RANGES[3], m.month);
    FieldIsDue(fields[4], RANGES[4], m.weekday);
    AliasStars(t, fields);
  }

  lemma AliasComesApart(fields: seq<string>)
    requires |fields| == 5 && forall i :: 0 <= i < 5 ==> AtRest(fields[i], RANGES[i])
    ensures Fields(Join(fields, ' ')) == fields
  {
    forall i | 0 <= i < 5 ensures fields[i] != "" && NoSpace(fields[i]) {
      AtRestAccepted(fields[i], i);
    }
    FieldsOfJoin(fields);
  }

  lemma AliasStars(t: string, fields: seq<string>)
    requires Alias(t) == Some(fields)
    ensures |fields| == 5 && fields[0] != "*" && (fields[1] == "*" <==> t == "@hourly")
    ensures fields[2] != "*" <==> t == "@monthly" || t == "@yearly" || t == "@annually"
    ensures fields[3] != "*" <==> t == "@yearly" || t == "@annually"
    ensures fields[4] != "*" <==> t == "@weekly"
  {
  }
}
