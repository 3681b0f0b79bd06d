/** internal/scheduler: the schedules that run, when they are due, and how they relate to the
    expressions that internal/cronexpr accepts. */
module Scheduler {
  import opened Text
  import opened Decimal
  import opened Words
  import opened CronExpr

  datatype Schedule = Schedule(raw: string, minute: string, hour: string, dom: string, month: string, dow: string)

  /** The number a part of a field stands for. */
  function PartValue(part: string): Option<int> {
    Atoi(TrimSpace(part))
  }

  predicate PartOk(part: string, r: Range) {
    match PartValue(part) case None => false case Some(v) => r.min <= v <= r.max
  }

  predicate RunnableField(field: string, r: Range) {
    field == "*" || forall i :: 0 <= i < |Split(field, ',')| ==> PartOk(Split(field, ',')[i], r)
  }

  predicate RunnableFields(fields: seq<string>) {
    |fields| == 5 && forall i :: 0 <= i < 5 ==> RunnableField(fields[i], RANGES[i])
  }

  function Parse(expr: string): Result<Schedule> {
    var fields := Fields(expr);
    if RunnableFields(fields)
    then Ok(Schedule(expr, fields[0], fields[1], fields[2], fields[3], fields[4]))
    else Err
  }

  predicate MatchPart(parts: seq<string>, value: int) {
    exists i :: 0 <= i < |parts| && PartValue(parts[i]) == Some(value)
  }

  predicate MatchField(field: string, value: int) {
    field == "*" || MatchPart(Split(field, ','), value)
  }

  predicate DueAt(s: Schedule, t: Moment) {
    if !MatchField(s.minute, t.minute) then false
    else if !MatchField(s.hour, t.hour) then false
    else if !MatchField(s.dom, t.day) then false
    else if !MatchField(s.month, t.month) then false
    else if !MatchField(s.dow, t.weekday) then s.dow == "7" && t.weekday == 0
    else true
  }

  // ---- the characters of a number ----

  lemma NumberChars(p: string, c: char)
    requires Atoi(p).Some? && c in p && !IsDigit(c)
    ensures (c == '-' || c == '+') && p[0] == c
  {
    var u := Unsigned(p);
    assert c !in u;
    assert u != p ==> p == [p[0]] + u;
  }

  lemma PartsAreWords(f: string, i: nat)
    requires NoSpace(f) && i < |Split(f, ',')|
    ensures NoSpace(Split(f, ',')[i])
  {
    var p := Split(f, ',')[i];
    forall k | 0 <= k < |p| ensures !IsSpace(p[k]) {
      assert p in Split(f, ',') && p[k] != ',';
      assert Occurs(p[k], Split(f, ','));
      OccursInSplit(f, ',', p[k]);
    }
  }

  lemma WordIsTrimmed(p: string)
    requires NoSpace(p)
    ensures PartValue(p) == Atoi(p)
  {
    TrimSpaceFixes(p);
  }

  lemma WordParts(f: string, i: nat)
    requires NoSpace(f) && i < |Split(f, ',')|
    ensures PartValue(Split(f, ',')[i]) == Atoi(Split(f, ',')[i])
  {
    PartsAreWords(f, i);
    WordIsTrimmed(Split(f, ',')[i]);
  }

  // ---- one field, under both grammars ----

  lemma NumberAtom(p: string, r: Range)
    requires Atoi(p).Some? && r.min <= Atoi(p).value <= r.max
    ensures ValidAtom(p, r) <==> '-' !in p
  {
    if '/' in p {
      NumberChars(p, '/');
    }
    if '*' in p {
      NumberChars(p, '*');
    }
    if '-' in p {
      NumberChars(p, '-');
      assert IndexOf(p, '-') == 0;
      EmptyIsNoNumber();
    }
  }

  lemma FieldContained(f: string, r: Range)
    requires NoSpace(f) && RunnableField(f, r)
    ensures ValidField(f, r) <==> '-' !in f
  {
    if f != "*" {
      var parts := Split(f, ',');
      forall i | 0 <= i < |parts| ensures ValidAtom(parts[i], r) <==> '-' !in parts[i] {
        WordParts(f, i);
        NumberAtom(parts[i], r);
      }
      OccursInSplit(f, ',', '-');
    }
  }

  predicate NumbersOnly(f: string) {
    '*' !in f && '/' !in f && '-' !in f
  }

  lemma PlainAtom(p: string, r: Range)
    requires ValidAtom(p, r) && NumbersOnly(p)
    ensures Atoi(p).Some? && r.min <= Atoi(p).value <= r.max
  {
  }

  lemma PartHasOnly(f: string, i: nat)
    requires i < |Split(f, ',')| && NumbersOnly(f)
    ensures NumbersOnly(Split(f, ',')[i])
  {
    OccursInSplit(f, ',', '*');
    OccursInSplit(f, ',', '/');
    OccursInSplit(f, ',', '-');
  }

  lemma NumbersRun(f: string, r: Range)
    requires NoSpace(f) && ValidField(f, r) && NumbersOnly(f)
    ensures RunnableField(f, r)
  {
    var parts := Split(f, ',');
    forall i | 0 <= i < |parts| ensures PartOk(parts[i], r) {
      WordParts(f, i);
      PartHasOnly(f, i);
      PlainAtom(parts[i], r);
    }
  }

  lemma RunnableChars(f: string, r: Range, c: char)
    requires NoSpace(f) && RunnableField(f, r) && f != "*"
    requires c == '*' || c == '/'
    ensures c !in f
  {
    var parts := Split(f, ',');
    OccursInSplit(f, ',', c);
    forall i | 0 <= i < |parts| ensures c !in parts[i] {
      WordParts(f, i);
      assert PartOk(parts[i], r);
      if c in parts[i] {
        NumberChars(parts[i], c);
      }
    }
  }

  lemma FieldBack(f: string, r: Range)
    requires NoSpace(f) && ValidField(f, r)
    ensures RunnableField(f, r) <==> f == "*" || NumbersOnly(f)
  {
    if NumbersOnly(f) {
      NumbersRun(f, r);
    } else if f != "*" && RunnableField(f, r) {
      FieldContained(f, r);
      RunnableChars(f, r, '*');
      RunnableChars(f, r, '/');
    }
  }

  // ---- whole expressions ----

  lemma AliasIsOneField(s: string)
    requires Alias(TrimSpace(s)).Some?
    ensures Fields(s) == [TrimSpace(s)]
  {
    var t := TrimSpace(s);
    AliasIsWord(t);
    FieldsOfTrimSpace(s);
    FieldsOfWord(t, "");
    assert t + "" == t;
  }

  lemma AliasIsWord(t: string)
    requires Alias(t).Some?
    ensures t != "" && NoSpace(t)
  {
  }

  /** An expression that is no alias is validated field by field. */
  lemma ValidateReads(s: string)
    requires Alias(TrimSpace(s)).None?
    ensures Validate(s) <==> ValidFields(Fields(s))
  {
    FieldsOfTrimSpace(s);
  }

  lemma NotAnAlias(s: string)
    requires |Fields(s)| == 5
    ensures Alias(TrimSpace(s)).None?
  {
    if Alias(TrimSpace(s)).Some? {
      AliasIsOneField(s);
    }
  }

  lemma FieldsContained(fields: seq<string>)
    requires RunnableFields(fields) && forall i :: 0 <= i < 5 ==> NoSpace(fields[i])
    ensures ValidFields(fields) <==> !Occurs('-', fields)
  {
    forall i | 0 <= i < 5 ensures ValidField(fields[i], RANGES[i]) <==> '-' !in fields[i] {
      FieldContained(fields[i], RANGES[i]);
    }
  }

  /** Of the expressions that can run, the validator accepts exactly those without a dash. */
  lemma RunnableIsValid(expr: string)
    requires Parse(expr).Ok?
    ensures Validate(expr) <==> '-' !in expr
  {
    NotAnAlias(expr);
    ValidateReads(expr);
    FieldsAreWords(expr);
    FieldsContained(Fields(expr));
    OccursInFields(expr, '-');
  }

  /** Of the expressions the validator accepts, exactly those run whose fields are stars or lists
      of plain numbers; no alias runs. */
  lemma ValidIsRunnable(expr: string)
    requires Validate(expr)
    ensures Parse(expr).Ok? <==>
      && Alias(TrimSpace(expr)).None?
      && forall i :: 0 <= i < |Fields(expr)| ==> Fields(expr)[i] == "*" || NumbersOnly(Fields(expr)[i])
  {
    if Alias(TrimSpace(expr)).Some? {
      AliasIsOneField(expr);
    } else {
      ValidateReads(expr);
      FieldsAreWords(expr);
      var fields := Fields(expr);
      forall i | 0 <= i < 5 ensures RunnableField(fields[i], RANGES[i]) <==> fields[i] == "*" || NumbersOnly(fields[i]) {
        FieldBack(fields[i], RANGES[i]);
      }
    }
  }

  lemma NegativeZero(f: string)
    requires f == ['-', '0']
    ensures Atoi(f) == Some(0)
  {
    var u := f[1..];
    assert |u| == 1 && u[0] == '0' && u[..|u| - 1] == "";
    assert Unsigned(f) == u && Value(u) == 0;
  }

  /** An expression with minus zero in it can run, and the validator refuses it. */
  lemma NegativeZeroRuns(zero: string, expr: string)
    requires zero == ['-', '0'] && expr == Join([zero, "*", "*", "*", "*"], ' ')
    ensures Parse(expr).Ok? && !Validate(expr)
  {
    var fields := [zero, "*", "*", "*", "*"];
    FieldsOfJoin(fields);
    NegativeZero(zero);
    OnePart(zero);
    WordIsTrimmed(zero);
    assert RunnableField(zero, RANGES[0]);
    assert '-' in fields[0];
    OccursInFields(expr, '-');
    RunnableIsValid(expr);
  }

  // ---- when a schedule is due ----

  /** A value of its range that the field matches. */
  lemma SomeValue(f: string, r: Range) returns (v: int)
    requires RunnableField(f, r) && r.min <= r.max
    ensures r.min <= v <= r.max && MatchField(f, v)
  {
    if f == "*" {
      v := r.min;
    } else {
      var parts := Split(f, ',');
      assert PartOk(parts[0], r);
      v := PartValue(parts[0]).value;
    }
  }

  /** One of the parts is a weekday from 0 to 6. */
  ghost predicate ListsWeekday(parts: seq<string>) {
    exists i :: 0 <= i < |parts| && PartOk(parts[i], Range(0, 6))
  }

  lemma ListedWeekday(parts: seq<string>) returns (v: int)
    requires ListsWeekday(parts)
    ensures 0 <= v <= 6 && MatchPart(parts, v)
  {
    var i :| 0 <= i < |parts| && PartOk(parts[i], Range(0, 6));
    v := PartValue(parts[i]).value;
  }

  lemma MatchedWeekday(parts: seq<string>, v: int)
    requires 0 <= v <= 6 && MatchPart(parts, v)
    ensures ListsWeekday(parts)
  {
    var i :| 0 <= i < |parts| && PartValue(parts[i]) == Some(v);
    assert PartOk(parts[i], Range(0, 6));
  }

  /** The weekday field is a star, is 7 itself, or lists a weekday from 0 to 6. */
  ghost predicate HasWeekday(s: Schedule) {
    s.dow == "*" || s.dow == "7" || ListsWeekday(Split(s.dow, ','))
  }

  lemma DueNeedsWeekday(s: Schedule, t: Moment)
    requires InCalendar(t) && DueAt(s, t)
    ensures HasWeekday(s)
  {
    if s.dow != "*" && s.dow != "7" {
      MatchedWeekday(Split(s.dow, ','), t.weekday);
    }
  }

  lemma WeekdayMakesDue(s: Schedule, t: Moment) returns (due: Moment)
    requires HasWeekday(s) && InCalendar(t)
    requires MatchField(s.minute, t.minute) && MatchField(s.hour, t.hour)
    requires MatchField(s.dom, t.day) && MatchField(s.month, t.month)
    ensures InCalendar(due) && DueAt(s, due)
  {
    if s.dow == "*" || s.dow == "7" {
      due := t.(weekday := 0);
    } else {
      var weekday := ListedWeekday(Split(s.dow, ','));
      due := t.(weekday := weekday);
    }
  }

  /** A schedule is due at some moment of the calendar exactly when it has a weekday. */
  lemma EventuallyDue(expr: string)
    requires Parse(expr).Ok?
    ensures (exists t :: InCalendar(t) && DueAt(Parse(expr).value, t)) <==> HasWeekday(Parse(expr).value)
  {
    var s := Parse(expr).value;
    if HasWeekday(s) {
      var minute := SomeValue(s.minute, RANGES[0]);
      var hour := SomeValue(s.hour, RANGES[1]);
      var day := SomeValue(s.dom, RANGES[2]);
      var month := SomeValue(s.month, RANGES[3]);
      var due := WeekdayMakesDue(s, Moment(minute, hour, day, month, 0));
      assert InCalendar(due) && DueAt(s, due);
    } else {
      forall t | InCalendar(t) ensures !DueAt(s, t) {
        if DueAt(s, t) {
          DueNeedsWeekday(s, t);
        }
      }
    }
  }

  lemma LongSeven(f: string)
    requires f == ['0', '7']
    ensures Atoi(f) == Some(7)
  {
    var zero := f[..|f| - 1];
    assert |zero| == 1 && zero[0] == '0' && zero[..|zero| - 1] == "";
    assert Value(zero) == 0;
    assert Value(f) == Value(zero) * 10 + DigitValue(f[|f| - 1]) == 7;
  }

  lemma OnePart(f: string)
    requires ',' !in f
    ensures Split(f, ',') == [f]
  {
  }

  /** A weekday field that spells Sunday 07 passes, and the schedule never comes due. */
  lemma LongSevenIsNeverDue(s: Schedule, t: Moment)
    requires s.dow == ['0', '7'] && InCalendar(t)
    ensures RunnableField(s.dow, RANGES[4]) && !DueAt(s, t)
  {
    LongSeven(s.dow);
    OnePart(s.dow);
    WordIsTrimmed(s.dow);
  }

  // ---- due means denoted ----

  lemma NumberIncludes(p: string, r: Range, v: int)
    requires Atoi(p).Some? && '-' !in p
    ensures Includes(p, r, v) <==> Atoi(p) == Some(v)
  {
    if '/' in p {
      NumberChars(p, '/');
    }
    if '*' in p {
      NumberChars(p, '*');
    }
  }

  /** A field that both grammars accept matches the values of its range that it denotes. */
  lemma MatchIsDenotation(f: string, r: Range, v: int)
    requires NoSpace(f) && RunnableField(f, r) && '-' !in f && r.min <= v <= r.max
    ensures MatchField(f, v) <==> Denotes(f, r, v)
  {
    var parts := Split(f, ',');
    if f == "*" {
      SplitOfStar();
      assert Includes(parts[0], r, v);
    } else {
      OccursInSplit(f, ',', '-');
      forall i | 0 <= i < |parts| ensures Includes(parts[i], r, v) <==> PartValue(parts[i]) == Some(v) {
        WordParts(f, i);
        assert PartOk(parts[i], r);
        NumberIncludes(parts[i], r, v);
      }
    }
  }

  /** A schedule that the validator accepts too is due exactly when every field denotes the
      moment's value, except that a weekday field that is 7 itself also means Sunday. */
  lemma DueMeansDenoted(expr: string, t: Moment)
    requires Parse(expr).Ok? && Validate(expr) && InCalendar(t)
    ensures var s := Parse(expr).value;
      DueAt(s, t) <==>
        && Denotes(s.minute, RANGES[0], t.minute) && Denotes(s.hour, RANGES[1], t.hour)
        && Denotes(s.dom, RANGES[2], t.day) && Denotes(s.month, RANGES[3], t.month)
        && (Denotes(s.dow, RANGES[4], t.weekday) || (s.dow == "7" && t.weekday == 0))
  {
    var fields := Fields(expr);
    RunnableIsValid(expr);
    FieldsAreWords(expr);
    OccursInFields(expr, '-');
    MatchIsDenotation(fields[0], RANGES[0], t.minute);
    MatchIsDenotation(fields[1], RANGES[1], t.hour);
    MatchIsDenotation(fields[2], RANGES[2], t.day);
    MatchIsDenotation(fields[3], RANGES[3], t.month);
    MatchIsDenotation(fields[4], RANGES[4], t.weekday);
  }
}
