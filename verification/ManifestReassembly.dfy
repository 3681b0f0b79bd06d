/** internal/manifest: which texts Split and JoinDocuments re-assemble faithfully, said about the
    lines of the text alone. */
module ManifestReassembly {
  import opened Text
  import opened Manifest
  import L = ManifestLaws
  import R = ManifestRoundTrip

  // ---- lines that go into a document ----

  /** What matters about a line: a separator, white space or content, and whether it ends in a
      carriage return. */
  datatype Sort = Separator | White | Solid
  datatype Line = Line(sort: Sort, clean: bool)

  function LineOf(l: string): Line {
    Line(if IsSeparator(l) then Separator else if Blank(l) then White else Solid, DropCR(l) == l)
  }

  function LinesOf(ls: seq<string>): (ts: seq<Line>)
    ensures |ts| == |ls| && forall i :: 0 <= i < |ls| ==> ts[i] == LineOf(ls[i])
  {
    seq(|ls|, i requires 0 <= i < |ls| => LineOf(ls[i]))
  }

  ghost predicate NoSeparatorBetween(ts: seq<Line>, lo: int, hi: int)
    requires 0 <= lo && hi <= |ts|
  {
    forall k :: lo < k < hi ==> !ts[k].sort.Separator?
  }

  /** Line `j` has content, and line `i` stands before it or behind it in the same section. */
  ghost predicate Carries(ts: seq<Line>, i: int, j: int)
    requires 0 <= i < |ts|
  {
    0 <= j < |ts| && ts[j].sort.Solid? && (i <= j || NoSeparatorBetween(ts, j, i))
  }

  /** Line `i` goes into a document: it is no separator, and it does not belong to the white space
      behind the last section with content. */
  ghost predicate InDocument(ts: seq<Line>, i: int)
    requires 0 <= i < |ts|
  {
    !ts[i].sort.Separator? && exists j :: Carries(ts, i, j)
  }

  ghost predicate DocumentsClean(ts: seq<Line>) {
    forall i :: 0 <= i < |ts| && InDocument(ts, i) ==> ts[i].clean
  }

  // ---- the same, collected as Split does ----

  ghost predicate AllWhite(ts: seq<Line>) {
    forall i :: 0 <= i < |ts| ==> ts[i].sort.White?
  }

  ghost predicate AllClean(ts: seq<Line>) {
    forall i :: 0 <= i < |ts| ==> ts[i].clean
  }

  ghost predicate Unseparated(ts: seq<Line>) {
    forall i :: 0 <= i < |ts| ==> !ts[i].sort.Separator?
  }

  ghost predicate CollectedClean(ts: seq<Line>, current: seq<Line>)
    decreases ts
  {
    if ts == [] then AllWhite(current) || AllClean(current)
    else if !ts[0].sort.Separator? then CollectedClean(ts[1..], current + [ts[0]])
    else if AllWhite(current) then CollectedClean(ts[1..], current)
    else AllClean(current) && CollectedClean(ts[1..], [])
  }

  lemma LastSection(ts: seq<Line>)
    requires Unseparated(ts)
    ensures DocumentsClean(ts) <==> AllWhite(ts) || AllClean(ts)
  {
    if !AllWhite(ts) {
      var j :| 0 <= j < |ts| && !ts[j].sort.White?;
      forall i | 0 <= i < |ts| ensures InDocument(ts, i) {
        assert Carries(ts, i, j);
      }
    }
  }

  /** A separator behind white space carries nothing away. */
  lemma WhiteThenSeparator(current: seq<Line>, rest: seq<Line>, all: seq<Line>, joined: seq<Line>, i: nat)
    requires AllWhite(current) && i < |joined| && joined == current + rest
    requires |all| == |joined| + 1 && all[|current|].sort.Separator?
    requires all[..|current|] == current && all[|current| + 1..] == rest
    ensures var i' := if i < |current| then i else i + 1;
      all[i'] == joined[i] && (InDocument(all, i') <==> InDocument(joined, i))
  {
    var n := |current|;
    var i' := if i < n then i else i + 1;
    assert forall k :: 0 <= k < n ==> all[k] == current[k];
    assert forall k :: n <= k < |joined| ==> all[k + 1] == all[n + 1..][k - n] == joined[k];
    if InDocument(joined, i) {
      var j :| Carries(joined, i, j);
      assert j >= n;
      assert Carries(all, i', j + 1) by { SameGap(all, joined, n, i, j); }
    }
    if InDocument(all, i') {
      var j' :| Carries(all, i', j');
      assert j' > n;
      assert Carries(joined, i, j' - 1) by { SameGap(all, joined, n, i, j' - 1); }
    }
  }

  lemma SameGap(all: seq<Line>, joined: seq<Line>, n: nat, i: nat, j: nat)
    requires n <= j < |joined| && i < |joined| && |all| == |joined| + 1
    requires forall k :: n <= k < |joined| ==> all[k + 1] == joined[k]
    ensures i > j ==> (NoSeparatorBetween(all, j + 1, i + 1) <==> NoSeparatorBetween(joined, j, i))
  {
    if i > j {
      if NoSeparatorBetween(all, j + 1, i + 1) {
        forall k | j < k < i ensures !joined[k].sort.Separator? {
          assert all[k + 1] == joined[k];
        }
      }
      if NoSeparatorBetween(joined, j, i) {
        forall k' | j + 1 < k' < i + 1 ensures !all[k'].sort.Separator? {
          assert all[(k' - 1) + 1] == joined[k' - 1];
        }
      }
    }
  }

  lemma CleanBehindWhite(current: seq<Line>, rest: seq<Line>, all: seq<Line>, joined: seq<Line>)
    requires AllWhite(current) && joined == current + rest
    requires |all| == |joined| + 1 && all[|current|].sort.Separator?
    requires all[..|current|] == current && all[|current| + 1..] == rest
    ensures DocumentsClean(all) <==> DocumentsClean(joined)
  {
    var n := |current|;
    forall i | 0 <= i < |joined|
      ensures var i' := if i < n then i else i + 1;
        all[i'] == joined[i] && (InDocument(all, i') <==> InDocument(joined, i))
    {
      WhiteThenSeparator(current, rest, all, joined, i);
    }
    if DocumentsClean(joined) {
      forall i' | 0 <= i' < |all| && InDocument(all, i') ensures all[i'].clean {
        var i := if i' < n then i' else i' - 1;
        assert joined[i] == all[i'] && InDocument(joined, i);
      }
    }
  }

  /** A section with content is a document of its own. */
  lemma SolidThenSeparator(current: seq<Line>, rest: seq<Line>, all: seq<Line>, i: nat)
    requires Unseparated(current) && !AllWhite(current) && i < |all| && i != |current|
    requires |all| == |current| + 1 + |rest| && all[|current|].sort.Separator?
    requires all[..|current|] == current && all[|current| + 1..] == rest
    ensures i < |current| ==> all[i] == current[i] && InDocument(all, i)
    ensures i > |current| ==>
      var i' := i - |current| - 1; all[i] == rest[i'] && (InDocument(all, i) <==> InDocument(rest, i'))
  {
    var n := |current|;
    assert forall k :: 0 <= k < n ==> all[k] == current[k];
    if i < n {
      var j :| 0 <= j < n && !current[j].sort.White?;
      assert Carries(all, i, j);
    } else {
      var m := n + 1;
      assert forall k :: 0 <= k < |rest| ==> all[k + m] == all[m..][k] == rest[k];
      if InDocument(all, i) {
        var j :| Carries(all, i, j);
        assert j > n;
        RestGap(all, rest, m, i - m, j - m);
        assert Carries(rest, i - m, j - m);
      }
      if InDocument(rest, i - m) {
        var j :| Carries(rest, i - m, j);
        RestGap(all, rest, m, i - m, j);
        assert Carries(all, i, j + m);
      }
    }
  }

  lemma RestGap(all: seq<Line>, rest: seq<Line>, m: nat, i: nat, j: nat)
    requires i < |rest| && j < |rest| && |all| == |rest| + m
    requires forall k :: 0 <= k < |rest| ==> all[k + m] == rest[k]
    ensures i > j ==> (NoSeparatorBetween(all, j + m, i + m) <==> NoSeparatorBetween(rest, j, i))
  {
    if i > j {
      if NoSeparatorBetween(all, j + m, i + m) {
        forall k | j < k < i ensures !rest[k].sort.Separator? {
          assert all[k + m] == rest[k];
        }
      }
      if NoSeparatorBetween(rest, j, i) {
        forall k' | j + m < k' < i + m ensures !all[k'].sort.Separator? {
          assert all[(k' - m) + m] == rest[k' - m];
        }
      }
    }
  }

  lemma CleanBehindSolid(current: seq<Line>, rest: seq<Line>, all: seq<Line>)
    requires Unseparated(current) && !AllWhite(current)
    requires |all| == |current| + 1 + |rest| && all[|current|].sort.Separator?
    requires all[..|current|] == current && all[|current| + 1..] == rest
    ensures DocumentsClean(all) <==> AllClean(current) && DocumentsClean(rest)
  {
    var m := |current| + 1;
    if DocumentsClean(all) {
      forall i | 0 <= i < |current| ensures current[i].clean {
        SolidThenSeparator(current, rest, all, i);
      }
      forall i | 0 <= i < |rest| && InDocument(rest, i) ensures rest[i].clean {
        SolidThenSeparator(current, rest, all, i + m);
      }
    }
    if AllClean(current) && DocumentsClean(rest) {
      forall i | 0 <= i < |all| && InDocument(all, i) ensures all[i].clean {
        SolidThenSeparator(current, rest, all, i);
      }
    }
  }

  lemma {:induction false} CollectingIsPositional(ts: seq<Line>, current: seq<Line>)
    requires Unseparated(current)
    ensures CollectedClean(ts, current) <==> DocumentsClean(current + ts)
    decreases ts
  {
    var all := current + ts;
    if ts == [] {
      assert all == current;
      LastSection(current);
    } else {
      var rest := ts[1..];
      if !ts[0].sort.Separator? {
        CollectingIsPositional(rest, current + [ts[0]]);
        assert current + [ts[0]] + rest == all;
      } else if AllWhite(current) {
        CollectingIsPositional(rest, current);
        CleanBehindWhite(current, rest, all, current + rest);
      } else {
        CollectingIsPositional(rest, []);
        assert [] + rest == rest;
        CleanBehindSolid(current, rest, all);
      }
    }
  }

  // ---- the documents of a text ----

  /** No line of the collected text is a separator. */
  ghost predicate Section(current: string) {
    R.Ended(current) && R.NoSeparator(RawLines(current))
  }

  lemma BlankIsWhite(current: string)
    requires Section(current)
    ensures Blank(current) <==> AllWhite(LinesOf(RawLines(current)))
    ensures Unseparated(LinesOf(RawLines(current)))
    ensures R.NoCR(RawLines(current)) <==> AllClean(LinesOf(RawLines(current)))
  {
    var ls := RawLines(current);
    var ts := LinesOf(ls);
    BlankByLines(current);
    assert forall i :: 0 <= i < |ls| ==> (ts[i].sort.White? <==> Blank(ls[i])) && (ts[i].clean <==> DropCR(ls[i]) == ls[i]);
  }

  ghost predicate AllBlank(ls: seq<string>) {
    forall i :: 0 <= i < |ls| ==> Blank(ls[i])
  }

  lemma BlankLineFirst(line: string, rest: string, text: string)
    requires text == line + ("\n" + rest)
    ensures Blank(text) <==> Blank(line) && Blank(rest)
  {
    L.BlankConcat(line, "\n" + rest);
    L.BlankConcat("\n", rest);
  }

  lemma FirstLine(text: string, line: string, rest: string)
    requires LineLength(text) < |text| && line == text[..LineLength(text)] && rest == text[LineLength(text) + 1..]
    ensures text == line + ("\n" + rest)
    ensures AllBlank(RawLines(text)) <==> Blank(line) && AllBlank(RawLines(rest))
  {
    LineEndsAtNewline(text);
    AllBlankOfCons(line, RawLines(rest));
  }

  lemma {:induction false} BlankByLines(text: string)
    ensures Blank(text) <==> AllBlank(RawLines(text))
    decreases |text|
  {
    if text != "" {
      var n := LineLength(text);
      var line := text[..n];
      if n < |text| {
        var rest := text[n + 1..];
        BlankByLines(rest);
        FirstLine(text, line, rest);
        BlankLineFirst(line, rest, text);
      } else {
        AllBlankOfCons(line, []);
        assert line == text;
      }
    }
  }

  lemma AllBlankOfCons(l: string, ls: seq<string>)
    ensures AllBlank([l] + ls) <==> Blank(l) && AllBlank(ls)
  {
    var both := [l] + ls;
    if AllBlank(both) {
      assert Blank(both[0]);
      forall i | 0 <= i < |ls| ensures Blank(ls[i]) {
        assert both[i + 1] == ls[i];
      }
    }
  }

  lemma {:induction false} LineEndsAtNewline(text: string)
    requires LineLength(text) < |text|
    ensures text[LineLength(text)] == '\n'
  {
    if text[0] != '\n' {
      LineEndsAtNewline(text[1..]);
    }
  }

  lemma SectionOneMore(current: string, line: string)
    requires Section(current) && '\n' !in line && !IsSeparator(line)
    ensures Section(current + line + "\n")
    ensures LinesOf(RawLines(current + line + "\n")) == LinesOf(RawLines(current)) + [LineOf(line)]
  {
    R.LinesOfOneMore(current, line);
    assert R.NoSeparator([line]);
    R.NoSeparatorInConcat(RawLines(current), [line]);
  }

  ghost predicate BodiesClean(bs: seq<string>) {
    bs == [] || (R.NoCR(RawLines(bs[0])) && BodiesClean(bs[1..]))
  }

  lemma BodiesCleanCons(b: string, bs: seq<string>)
    ensures BodiesClean([b] + bs) <==> R.NoCR(RawLines(b)) && BodiesClean(bs)
  {
    assert ([b] + bs)[1..] == bs;
  }

  lemma {:induction false} BodiesCleanSays(bs: seq<string>)
    ensures BodiesClean(bs) <==> forall b :: b in bs ==> R.NoCR(RawLines(b))
  {
    if bs != [] {
      var rest := bs[1..];
      BodiesCleanSays(rest);
      if BodiesClean(bs) {
        forall b | b in bs ensures R.NoCR(RawLines(b)) {
          assert b == bs[0] || b in rest;
        }
      } else if R.NoCR(RawLines(bs[0])) {
        var b :| b in rest && !R.NoCR(RawLines(b));
        assert b in bs;
      } else {
        assert bs[0] in bs;
      }
    }
  }

  lemma {:induction false} BodiesAreCollected(ls: seq<string>, current: string)
    requires Section(current) && (forall i :: 0 <= i < |ls| ==> '\n' !in ls[i])
    ensures BodiesClean(Bodies(ls, current)) <==> CollectedClean(LinesOf(ls), LinesOf(RawLines(current)))
    decreases ls
  {
    BlankIsWhite(current);
    if ls == [] {
      BodiesCleanCons(current, []);
      assert [current] + [] == [current];
    } else {
      assert LinesOf(ls)[1..] == LinesOf(ls[1..]);
      if !IsSeparator(ls[0]) {
        SectionOneMore(current, ls[0]);
        BodiesAreCollected(ls[1..], current + ls[0] + "\n");
      } else if Blank(current) {
        BodiesAreCollected(ls[1..], current);
      } else {
        BodiesAreCollected(ls[1..], "");
        BodiesCleanCons(current, Bodies(ls[1..], ""));
      }
    }
  }

  // ---- the condition on the text ----

  predicate EndsInTwoReturns(line: string) {
    |line| >= 2 && line[|line| - 1] == '\r' && line[|line| - 2] == '\r'
  }

  /** No line that goes into a document ends in two carriage returns. */
  ghost predicate NoDocumentLineEndsInTwoReturns(text: string) {
    var raw := RawLines(text);
    forall i :: 0 <= i < |raw| && InDocument(LinesOf(Lines(text)), i) ==> !EndsInTwoReturns(raw[i])
  }

  lemma CleanMeansOneReturn(text: string)
    ensures DocumentsClean(LinesOf(Lines(text))) <==> NoDocumentLineEndsInTwoReturns(text)
  {
    var raw := RawLines(text);
    var ts := LinesOf(Lines(text));
    forall i | 0 <= i < |raw| ensures ts[i].clean <==> !EndsInTwoReturns(raw[i]) {
      assert ts[i] == LineOf(DropCR(raw[i]));
    }
  }

  lemma DocumentsOfText(text: string, bs: seq<string>)
    requires bs == Bodies(Lines(text), "")
    ensures BodiesClean(bs) <==> NoDocumentLineEndsInTwoReturns(text)
  {
    var ls := Lines(text);
    R.ScannedLinesHaveNoNewline(text);
    BodiesAreCollected(ls, "");
    CollectingIsPositional(LinesOf(ls), []);
    assert [] + LinesOf(ls) == LinesOf(ls);
    CleanMeansOneReturn(text);
  }

  /** Within the scanner's limit, the documents of a text come back from joining and splitting,
      with normalised ends, exactly when no line that goes into a document ends in two carriage
      returns; white space behind the last section with content is exempt. */
  lemma ReassemblyIsExact(text: string)
    requires !TooLong(text)
    ensures R.ComesBack(Bodies(Lines(text), "")) <==> NoDocumentLineEndsInTwoReturns(text)
  {
    var bs := Bodies(Lines(text), "");
    R.SplitJoinSplit(text);
    BodiesCleanSays(bs);
    DocumentsOfText(text, bs);
  }

  // ---- every line is kept ----

  /** The line stands in one of the texts. */
  predicate StandsIn(line: string, texts: seq<string>) {
    texts != [] && (line in RawLines(texts[0]) || StandsIn(line, texts[1..]))
  }

  lemma StandsInMore(line: string, b: string, texts: seq<string>)
    ensures StandsIn(line, [b] + texts) <==> line in RawLines(b) || StandsIn(line, texts)
  {
    assert ([b] + texts)[1..] == texts;
  }

  lemma {:induction false} LineIsKept(ls: seq<string>, current: string, line: string)
    requires Section(current) && (forall i :: 0 <= i < |ls| ==> '\n' !in ls[i])
    requires line in RawLines(current) || (line in ls && !IsSeparator(line))
    ensures StandsIn(line, Bodies(ls, current)) || line in RawLines(L.Remainder(ls, current))
    decreases ls
  {
    if ls == [] {
      StandsInMore(line, current, []);
      assert [current] + [] == [current];
    } else {
      assert line in ls ==> line == ls[0] || line in ls[1..];
      if !IsSeparator(ls[0]) {
        SectionOneMore(current, ls[0]);
        R.LinesOfOneMore(current, ls[0]);
        LineIsKept(ls[1..], current + ls[0] + "\n", line);
      } else if Blank(current) {
        LineIsKept(ls[1..], current, line);
      } else {
        StandsInMore(line, current, Bodies(ls[1..], ""));
        if line !in RawLines(current) {
          LineIsKept(ls[1..], "", line);
        }
      }
    }
  }

  /** A line that is not three dashes in white space stands in some document or in the blank
      remainder. */
  lemma EveryLineIsKept(text: string, line: string)
    requires line in Lines(text) && !L.ThreeDashes(line)
    ensures StandsIn(line, Bodies(Lines(text), "")) || line in RawLines(L.Remainder(Lines(text), ""))
  {
    L.SeparatorSays(line);
    R.ScannedLinesHaveNoNewline(text);
    LineIsKept(Lines(text), "", line);
  }
}
