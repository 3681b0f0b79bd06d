/** When Split returns the documents that Join wrote. */
module ManifestRoundTrip {
  import opened Text
  import opened Manifest
  import L = ManifestLaws

  // ---- lines of concatenations ----

  /** Empty, or ending in a newline. */
  predicate Ended(x: string) {
    x == "" || x[|x| - 1] == '\n'
  }

  lemma {:induction false} LineOfConcat(x: string, y: string)
    requires LineLength(x) < |x|
    ensures LineLength(x + y) == LineLength(x)
  {
    if x[0] != '\n' {
      assert (x + y)[1..] == x[1..] + y;
      LineOfConcat(x[1..], y);
    }
  }

  lemma {:induction false} LineEnds(x: string)
    requires x != "" && Ended(x)
    ensures LineLength(x) < |x|
  {
    if x[0] != '\n' {
      LineEnds(x[1..]);
    }
  }

  lemma ConcatParts(x: string, y: string, i: nat)
    requires i < |x|
    ensures (x + y)[..i] == x[..i] && (x + y)[i + 1..] == x[i + 1..] + y
  {
  }

  lemma LinesStep(x: string, n: nat, line: string, rest: string)
    requires n == LineLength(x) < |x| && line == x[..n] && rest == x[n + 1..]
    ensures RawLines(x) == [line] + RawLines(rest)
  {
  }

  lemma FirstLine(x: string, y: string, n: nat, line: string, rest: string)
    requires n == LineLength(x) < |x| && line == x[..n] && rest == x[n + 1..]
    ensures RawLines(x) == [line] + RawLines(rest)
    ensures RawLines(x + y) == [line] + RawLines(rest + y)
  {
    LineOfConcat(x, y);
    ConcatParts(x, y, n);
    LinesStep(x, n, line, rest);
    LinesStep(x + y, n, line, rest + y);
  }

  lemma Regrouped(line: string, a: seq<string>, b: seq<string>)
    ensures [line] + (a + b) == ([line] + a) + b
  {
  }

  lemma {:induction false} LinesOfConcat(x: string, y: string)
    requires Ended(x)
    ensures RawLines(x + y) == RawLines(x) + RawLines(y)
    decreases |x|
  {
    if x == "" {
      assert x + y == y;
    } else {
      LineEnds(x);
      var n := LineLength(x);
      var line, rest := x[..n], x[n + 1..];
      FirstLine(x, y, n, line, rest);
      LinesOfConcat(rest, y);
      Regrouped(line, RawLines(rest), RawLines(y));
    }
  }

  lemma {:induction false} LengthOfLine(line: string)
    requires '\n' !in line
    ensures LineLength(line + ['\n']) == |line|
  {
    if line != "" {
      assert (line + ['\n'])[1..] == line[1..] + ['\n'];
      LengthOfLine(line[1..]);
    }
  }

  lemma LinesOfOne(line: string)
    requires '\n' !in line
    ensures RawLines(line + "\n") == [line]
  {
    LengthOfLine(line);
    var x := line + ['\n'];
    assert x[..|line|] == line && x[|line| + 1..] == "";
  }

  lemma {:induction false} LinesOfUnlines(ls: seq<string>)
    requires forall i :: 0 <= i < |ls| ==> '\n' !in ls[i]
    ensures RawLines(Unlines(ls)) == ls
  {
    if ls != [] {
      LinesOfOne(ls[0]);
      LinesOfConcat(ls[0] + "\n", Unlines(ls[1..]));
      LinesOfUnlines(ls[1..]);
    }
  }

  lemma {:induction false} UnlinesOfLines(x: string)
    requires Ended(x)
    ensures Unlines(RawLines(x)) == x
    decreases |x|
  {
    if x != "" {
      var i := LineLength(x);
      LineEnds(x);
      LineHoldsNoNewline(x);
      UnlinesOfLines(x[i + 1..]);
      UnlinesCons(x[..i], RawLines(x[i + 1..]));
      CutAtNewline(x, i);
    }
  }

  lemma UnlinesCons(line: string, ls: seq<string>)
    ensures Unlines([line] + ls) == line + "\n" + Unlines(ls)
  {
    assert ([line] + ls)[1..] == ls;
  }

  lemma CutAtNewline(x: string, i: nat)
    requires i < |x| && x[i] == '\n'
    ensures x[..i] + "\n" + x[i + 1..] == x
  {}

  // ---- lines and blankness ----

  lemma {:induction false} BlankUnlines(ls: seq<string>)
    ensures Blank(Unlines(ls)) <==> forall i :: 0 <= i < |ls| ==> Blank(ls[i])
  {
    if ls != [] {
      var rest := ls[1..];
      BlankUnlines(rest);
      L.BlankConcat(ls[0] + "\n", Unlines(rest));
      L.BlankConcat(ls[0], "\n");
      assert forall i :: 0 < i < |ls| ==> ls[i] == rest[i - 1];
    }
  }

  lemma BlankDropCR(line: string)
    ensures Blank(DropCR(line)) <==> Blank(line)
  {
    if DropCR(line) != line {
      L.BlankConcat(DropCR(line), "\r");
      assert line == DropCR(line) + "\r";
    }
  }

  lemma {:induction false} TrimLeftOfSnoc(x: string, c: char)
    requires IsSpace(c)
    ensures TrimLeft(x + [c]) == if TrimLeft(x) == "" then "" else TrimLeft(x) + [c]
  {
    if x == "" {
      assert [c][1..] == "";
    } else if IsSpace(x[0]) {
      assert (x + [c])[1..] == x[1..] + [c];
      TrimLeftOfSnoc(x[1..], c);
    }
  }

  lemma TrimRightOfSnoc(x: string, c: char)
    requires IsSpace(c)
    ensures TrimRight(x + [c]) == TrimRight(x)
  {
    assert (x + [c])[..|x|] == x;
  }

  lemma TrimBeforeCR(x: string)
    ensures TrimSpace(x + ['\r']) == TrimSpace(x)
  {
    TrimLeftOfSnoc(x, '\r');
    TrimRightOfSnoc(TrimLeft(x), '\r');
  }

  lemma SeparatorBeforeCR(x: string, y: string)
    requires y == x + ['\r']
    ensures IsSeparator(y) <==> IsSeparator(x)
  {
    TrimBeforeCR(x);
  }

  lemma SeparatorDropCR(line: string)
    ensures IsSeparator(DropCR(line)) <==> IsSeparator(line)
  {
    if line != "" && line[|line| - 1] == '\r' {
      SeparatorBeforeCR(line[..|line| - 1], line);
    }
  }

  // ---- the lines of a body ----

  /** The lines of a body as a stream shows them, before and after the scanner. */
  function RawBodyLines(b: string): seq<string> {
    RawLines(Normal(b))
  }

  function BodyLines(b: string): seq<string> {
    DropCRs(RawBodyLines(b))
  }

  /** The body without carriage returns at its line ends. */
  function Clean(b: string): string {
    Unlines(BodyLines(b))
  }

  ghost predicate NoSeparator(ls: seq<string>) {
    forall i :: 0 <= i < |ls| ==> !IsSeparator(ls[i])
  }

  lemma CleanIsBlank(b: string)
    ensures Blank(Clean(b)) <==> Blank(b)
  {
    var raw := RawBodyLines(b);
    UnlinesOfLines(Normal(b));
    BlankUnlines(raw);
    BlankUnlines(BodyLines(b));
    forall i | 0 <= i < |raw| ensures Blank(raw[i]) <==> Blank(BodyLines(b)[i]) {
      BlankDropCR(raw[i]);
    }
    NormalIsBlank(b);
  }

  lemma NormalIsBlank(b: string)
    ensures Blank(Normal(b)) <==> Blank(b)
  {
    var r := TrimNewlines(b);
    L.BlankConcat(r, "\n");
    L.BlankConcat(r, b[|r|..]);
    assert b == r + b[|r|..];
  }

  /** Cleaning changes a body exactly when one of its lines ends in a carriage return. */
  lemma CleanIsNormal(b: string)
    ensures Clean(b) == Normal(b) <==> forall i :: 0 <= i < |RawBodyLines(b)| ==> DropCR(RawBodyLines(b)[i]) == RawBodyLines(b)[i]
  {
    LinesHoldNoNewline(Normal(b));
    UnlinesOfLines(Normal(b));
    DroppedLines(RawBodyLines(b));
  }

  lemma NoNewlineDropCR(line: string)
    requires '\n' !in line
    ensures '\n' !in DropCR(line)
  {
  }

  /** Lines without newlines change as a text exactly when one of them changes. */
  lemma DroppedLines(raw: seq<string>)
    requires forall i :: 0 <= i < |raw| ==> '\n' !in raw[i]
    ensures Unlines(DropCRs(raw)) == Unlines(raw) <==> forall i :: 0 <= i < |raw| ==> DropCR(raw[i]) == raw[i]
  {
    var dropped := DropCRs(raw);
    LinesOfUnlines(raw);
    forall i | 0 <= i < |raw| ensures '\n' !in dropped[i] {
      NoNewlineDropCR(raw[i]);
    }
    LinesOfUnlines(dropped);
    if forall i :: 0 <= i < |raw| ==> DropCR(raw[i]) == raw[i] {
      assert dropped == raw;
    }
  }

  // ---- the stream that Join writes ----

  lemma {:induction false} JoinedHead(bs: seq<string>)
    requires |bs| > 1
    ensures Joined(bs) == Normal(bs[0]) + ("---\n" + Joined(bs[1..]))
    ensures Ended(Joined(bs))
  {
    var init, last := bs[..|bs| - 1], bs[|bs| - 1];
    var tail := "---\n" + Normal(last);
    assert Joined(bs) == Joined(init) + tail;
    if |bs| == 2 {
      assert Joined(init) == Normal(bs[0]) && Joined(bs[1..]) == Normal(last);
    } else {
      JoinedHead(init);
      assert init[1..] == bs[1..][..|bs| - 2];
      assert Joined(bs[1..]) == Joined(init[1..]) + tail;
      Regroup(Normal(bs[0]), Joined(init[1..]), tail);
    }
  }

  lemma Regroup(a: string, b: string, c: string)
    ensures a + ("---\n" + b) + c == a + ("---\n" + (b + c))
  {}

  lemma LinesAroundSeparator(x: string, sep: string, y: string)
    requires Ended(x) && '\n' !in sep
    ensures RawLines(x + ((sep + "\n") + y)) == RawLines(x) + ([sep] + RawLines(y))
  {
    LinesOfConcat(x, (sep + "\n") + y);
    LinesOfConcat(sep + "\n", y);
    LinesOfOne(sep);
  }

  lemma LinesOfStream(bs: seq<string>)
    requires |bs| > 1
    ensures RawLines(Joined(bs)) == RawBodyLines(bs[0]) + (["---"] + RawLines(Joined(bs[1..])))
  {
    JoinedHead(bs);
    LinesAroundSeparator(Normal(bs[0]), "---", Joined(bs[1..]));
    assert "---" + "\n" == "---\n";
  }

  lemma DropAroundSeparator(a: seq<string>, sep: string, b: seq<string>)
    requires DropCR(sep) == sep
    ensures DropCRs(a + ([sep] + b)) == DropCRs(a) + ([sep] + DropCRs(b))
  {}

  lemma ScannedStream(bs: seq<string>)
    requires |bs| > 1
    ensures Lines(Joined(bs)) == BodyLines(bs[0]) + (["---"] + Lines(Joined(bs[1..])))
  {
    LinesOfStream(bs);
    DropAroundSeparator(RawBodyLines(bs[0]), "---", RawLines(Joined(bs[1..])));
  }

  /** Lines without a separator are collected. */
  lemma {:induction false} CollectLines(ls: seq<string>, rest: seq<string>, current: string)
    requires NoSeparator(ls)
    ensures Bodies(ls + rest, current) == Bodies(rest, current + Unlines(ls))
    decreases ls
  {
    if ls == [] {
      assert ls + rest == rest && current + "" == current;
    } else {
      assert (ls + rest)[0] == ls[0] && (ls + rest)[1..] == ls[1..] + rest;
      CollectLines(ls[1..], rest, current + ls[0] + "\n");
      L.Regroup(current, ls[0], Unlines(ls[1..]));
    }
  }

  lemma CollectAll(ls: seq<string>)
    requires NoSeparator(ls) && !Blank(Unlines(ls))
    ensures Bodies(ls, "") == [Unlines(ls)]
  {
    assert ls + [] == ls;
    CollectLines(ls, [], "");
    assert "" + Unlines(ls) == Unlines(ls);
  }

  lemma CollectAndFlush(ls: seq<string>, sep: string, rest: seq<string>)
    requires NoSeparator(ls) && IsSeparator(sep) && !Blank(Unlines(ls))
    ensures Bodies(ls + ([sep] + rest), "") == [Unlines(ls)] + Bodies(rest, "")
  {
    CollectLines(ls, [sep] + rest, "");
    assert "" + Unlines(ls) == Unlines(ls);
    assert ([sep] + rest)[1..] == rest;
  }

  function Cleans(bs: seq<string>): seq<string> {
    if bs == [] then [] else [Clean(bs[0])] + Cleans(bs[1..])
  }

  function Normals(bs: seq<string>): (r: seq<string>)
    ensures |r| == |bs| && forall i :: 0 <= i < |bs| ==> r[i] == Normal(bs[i])
  {
    seq(|bs|, i requires 0 <= i < |bs| => Normal(bs[i]))
  }

  lemma SeparatorLine()
    ensures IsSeparator("---")
  {
    TrimSpaceFixes("---");
  }

  ghost predicate Solid(b: string) {
    !Blank(b) && NoSeparator(BodyLines(b))
  }

  /** The stream of the bodies is split into the cleaned bodies. */
  ghost predicate ComesBackClean(bs: seq<string>) {
    Bodies(Lines(Joined(bs)), "") == Cleans(bs)
  }

  lemma StreamHead(bs: seq<string>)
    requires |bs| > 1 && Solid(bs[0]) && ComesBackClean(bs[1..])
    ensures ComesBackClean(bs)
  {
    ScannedStream(bs);
    CleanIsBlank(bs[0]);
    SeparatorLine();
    CollectAndFlush(BodyLines(bs[0]), "---", Lines(Joined(bs[1..])));
  }

  lemma StreamEnd(bs: seq<string>)
    requires |bs| == 1 && Solid(bs[0])
    ensures ComesBackClean(bs)
  {
    CleanIsBlank(bs[0]);
    CollectAll(BodyLines(bs[0]));
    CleansOfOne(bs);
  }

  lemma CleansOfOne(bs: seq<string>)
    requires |bs| == 1
    ensures Cleans(bs) == [Clean(bs[0])]
  {
    assert bs[1..] == [];
  }

  lemma EmptyStream(bs: seq<string>)
    requires |bs| == 0
    ensures ComesBackClean(bs)
  {
    assert Lines("") == [];
  }

  /** Documents that are neither blank nor hold a separator come back one by one, cleaned. */
  lemma {:induction false} StreamBodies(bs: seq<string>)
    requires forall b :: b in bs ==> Solid(b)
    ensures ComesBackClean(bs)
  {
    if |bs| == 0 {
      EmptyStream(bs);
    } else if |bs| == 1 {
      StreamEnd(bs);
    } else {
      StreamBodies(bs[1..]);
      StreamHead(bs);
    }
  }

  // ---- what a body that comes out of Split looks like ----

  /** Text made of whole lines, none of which is a separator. */
  ghost predicate WholeLines(x: string) {
    Ended(x) && NoSeparator(RawLines(x))
  }

  lemma OneMoreLine(x: string, line: string)
    requires WholeLines(x) && '\n' !in line && !IsSeparator(line)
    ensures WholeLines(x + line + "\n")
  {
    LinesOfOneMore(x, line);
    NoSeparatorInConcat(RawLines(x), [line]);
  }

  lemma LinesOfOneMore(x: string, line: string)
    requires Ended(x) && '\n' !in line
    ensures RawLines(x + line + "\n") == RawLines(x) + [line]
  {
    LinesOfConcat(x, line + "\n");
    LinesOfOne(line);
    assert x + (line + "\n") == x + line + "\n";
  }

  lemma NoSeparatorInConcat(a: seq<string>, b: seq<string>)
    ensures NoSeparator(a + b) <==> NoSeparator(a) && NoSeparator(b)
  {
    var c := a + b;
    if NoSeparator(c) {
      forall i | 0 <= i < |a| ensures !IsSeparator(a[i]) { assert a[i] == c[i]; }
      forall i | 0 <= i < |b| ensures !IsSeparator(b[i]) { assert b[i] == c[|a| + i]; }
    }
  }

  lemma {:induction false} BodiesAreWholeLines(ls: seq<string>, current: string)
    requires WholeLines(current) && forall i :: 0 <= i < |ls| ==> '\n' !in ls[i]
    ensures forall b :: b in Bodies(ls, current) ==> WholeLines(b) && !Blank(b)
    decreases ls
  {
    if ls != [] {
      if !IsSeparator(ls[0]) {
        OneMoreLine(current, ls[0]);
        BodiesAreWholeLines(ls[1..], current + ls[0] + "\n");
      } else if Blank(current) {
        BodiesAreWholeLines(ls[1..], current);
      } else {
        BodiesAreWholeLines(ls[1..], "");
      }
    }
  }

  lemma ScannedLinesHaveNoNewline(text: string)
    ensures forall i :: 0 <= i < |Lines(text)| ==> '\n' !in Lines(text)[i]
  {
    LinesHoldNoNewline(text);
    var raw := RawLines(text);
    forall i | 0 <= i < |raw| ensures '\n' !in DropCRs(raw)[i] {
      NoNewlineDropCR(raw[i]);
    }
  }

  // ---- the scanner's limit ----

  ghost predicate Short(ls: seq<string>) {
    forall i :: 0 <= i < |ls| ==> Utf8Length(ls[i]) < MAX_LINE
  }

  lemma ShortAroundSeparator(a: seq<string>, sep: string, b: seq<string>)
    requires Utf8Length(sep) < MAX_LINE
    ensures Short(a + ([sep] + b)) <==> Short(a) && Short(b)
  {
    var c := a + ([sep] + b);
    if Short(c) {
      forall i | 0 <= i < |a| ensures Utf8Length(a[i]) < MAX_LINE { assert a[i] == c[i]; }
      forall i | 0 <= i < |b| ensures Utf8Length(b[i]) < MAX_LINE { assert b[i] == c[|a| + 1 + i]; }
    }
  }

  lemma SeparatorIsShort()
    ensures Utf8Length("---") < MAX_LINE
  {
    assert "---"[1..] == "--" && "--"[1..] == "-" && "-"[1..] == "";
    assert Utf8Length("-") == 1 && Utf8Length("--") == 2;
  }

  ghost predicate ShortBodies(bs: seq<string>) {
    forall b :: b in bs ==> Short(RawBodyLines(b))
  }

  ghost predicate ShortStream(bs: seq<string>) {
    Short(RawLines(Joined(bs)))
  }

  lemma ShortStreamHead(bs: seq<string>)
    requires |bs| > 1
    ensures ShortStream(bs) <==> Short(RawBodyLines(bs[0])) && ShortStream(bs[1..])
  {
    LinesOfStream(bs);
    SeparatorIsShort();
    ShortAroundSeparator(RawBodyLines(bs[0]), "---", RawLines(Joined(bs[1..])));
  }

  lemma ShortBodiesHead(bs: seq<string>)
    requires bs != []
    ensures ShortBodies(bs) <==> Short(RawBodyLines(bs[0])) && ShortBodies(bs[1..])
  {
    assert forall b :: b in bs <==> b == bs[0] || b in bs[1..];
  }

  lemma {:induction false} StreamIsShort(bs: seq<string>)
    ensures ShortStream(bs) <==> ShortBodies(bs)
  {
    if |bs| > 1 {
      ShortStreamHead(bs);
      ShortBodiesHead(bs);
      StreamIsShort(bs[1..]);
    } else if |bs| == 1 {
      ShortBodiesHead(bs);
    }
  }

  // ---- the round trip ----

  /** The body is not blank; none of its lines is a separator, ends in a carriage return or is
      too long. */
  ghost predicate Survives(b: string) {
    && !Blank(b)
    && forall i :: 0 <= i < |RawBodyLines(b)| ==>
         var line := RawBodyLines(b)[i];
         !IsSeparator(line) && DropCR(line) == line && Utf8Length(line) < MAX_LINE
  }

  lemma SurvivorIsSolid(b: string)
    ensures Survives(b) <==> Solid(b) && Clean(b) == Normal(b) && Short(RawBodyLines(b))
  {
    var raw := RawBodyLines(b);
    CleanIsNormal(b);
    forall i | 0 <= i < |raw| ensures IsSeparator(raw[i]) <==> IsSeparator(BodyLines(b)[i]) {
      SeparatorDropCR(raw[i]);
    }
  }

  lemma {:induction false} CleansAreNormals(bs: seq<string>)
    ensures Cleans(bs) == Normals(bs) <==> forall b :: b in bs ==> Clean(b) == Normal(b)
  {
    if bs != [] {
      CleansAreNormals(bs[1..]);
      assert Normals(bs) == [Normal(bs[0])] + Normals(bs[1..]);
      assert forall b :: b in bs <==> b == bs[0] || b in bs[1..];
      if Cleans(bs) == Normals(bs) {
        assert Cleans(bs)[0] == Clean(bs[0]) && Normals(bs)[0] == Normal(bs[0]);
        assert Cleans(bs)[1..] == Cleans(bs[1..]) && Normals(bs)[1..] == Normals(bs[1..]);
      }
    }
  }

  /** Split returns the bodies that Join wrote, each with one newline at its end. */
  ghost predicate ComesBack(bs: seq<string>) {
    SplitText(Joined(bs)) == Ok(Numbered(Normals(bs), 1))
  }

  lemma ComesBackMeans(bs: seq<string>)
    ensures ComesBack(bs) <==> ShortStream(bs) && Bodies(Lines(Joined(bs)), "") == Normals(bs)
  {
    var found := Bodies(Lines(Joined(bs)), "");
    assert TooLong(Joined(bs)) <==> !Short(RawLines(Joined(bs)));
    if Numbered(found, 1) == Numbered(Normals(bs), 1) {
      L.BodiesOfNumbered(found);
      L.BodiesOfNumbered(Normals(bs));
    }
  }

  lemma ReturnedAreSolid(bs: seq<string>)
    requires Bodies(Lines(Joined(bs)), "") == Normals(bs)
    ensures forall b :: b in bs ==> Solid(b)
  {
    ScannedLinesHaveNoNewline(Joined(bs));
    BodiesAreWholeLines(Lines(Joined(bs)), "");
    forall b | b in bs ensures Solid(b) {
      var i :| 0 <= i < |bs| && bs[i] == b;
      assert Normals(bs)[i] == Normal(b) && Normals(bs)[i] in Normals(bs);
      NormalIsBlank(b);
      forall k | 0 <= k < |BodyLines(b)| ensures !IsSeparator(BodyLines(b)[k]) {
        SeparatorDropCR(RawBodyLines(b)[k]);
      }
    }
  }

  /** The main result about Join: for all documents, splitting the joined stream returns them,
      trailing newlines normalised to one, exactly when every body survives. */
  lemma JoinThenSplit(bs: seq<string>)
    ensures ComesBack(bs) <==> forall b :: b in bs ==> Survives(b)
  {
    ComesBackMeans(bs);
    StreamIsShort(bs);
    CleansAreNormals(bs);
    forall b | b in bs ensures Survives(b) <==> Solid(b) && Clean(b) == Normal(b) && Short(RawBodyLines(b)) {
      SurvivorIsSolid(b);
    }
    if Bodies(Lines(Joined(bs)), "") == Normals(bs) {
      ReturnedAreSolid(bs);
    }
    if forall b :: b in bs ==> Solid(b) {
      StreamBodies(bs);
    }
  }

  // ---- splitting, joining and splitting again ----

  lemma {:induction false} ShorterPrefix(s: string)
    requires s != ""
    ensures Utf8Length(s[..|s| - 1]) <= Utf8Length(s)
  {
    if |s| > 1 {
      ShorterPrefix(s[1..]);
      assert s[..|s| - 1][1..] == s[1..][..|s| - 2];
    }
  }

  lemma ScannedLinesAreShort(text: string)
    requires !TooLong(text)
    ensures Short(Lines(text))
  {
    var raw := RawLines(text);
    forall i | 0 <= i < |raw| ensures Utf8Length(DropCRs(raw)[i]) < MAX_LINE {
      if DropCR(raw[i]) != raw[i] {
        ShorterPrefix(raw[i]);
      }
    }
  }

  /** Every line of `a` is one of `b`. */
  ghost predicate LinesAmong(a: seq<string>, b: seq<string>) {
    forall i :: 0 <= i < |a| ==> a[i] in b
  }

  /** A body is made of lines of the text, and of the text collected before. */
  lemma {:induction false} BodyLinesAreLines(ls: seq<string>, current: string, all: seq<string>)
    requires Ended(current) && (forall i :: 0 <= i < |ls| ==> '\n' !in ls[i])
    requires LinesAmong(RawLines(current), all) && LinesAmong(ls, all)
    ensures forall b :: b in Bodies(ls, current) ==> LinesAmong(RawLines(b), all)
    decreases ls
  {
    if ls != [] {
      if !IsSeparator(ls[0]) {
        LinesOfOneMore(current, ls[0]);
        BodyLinesAreLines(ls[1..], current + ls[0] + "\n", all);
      } else if Blank(current) {
        BodyLinesAreLines(ls[1..], current, all);
      } else {
        BodyLinesAreLines(ls[1..], "", all);
      }
    }
  }

  lemma {:induction false} NewlinesAreEmptyLines(s: string)
    requires forall i :: 0 <= i < |s| ==> s[i] == '\n'
    ensures forall i :: 0 <= i < |RawLines(s)| ==> RawLines(s)[i] == ""
  {
    if s != "" {
      NewlinesAreEmptyLines(s[1..]);
    }
  }

  lemma {:induction false} BehindTrimmed(b: string)
    ensures forall i :: |TrimNewlines(b)| <= i < |b| ==> b[i] == '\n'
  {
    if b != "" && b[|b| - 1] == '\n' {
      BehindTrimmed(b[..|b| - 1]);
    }
  }

  /** Normalising a body that ends in a newline drops empty lines at its end and nothing else. */
  lemma NormalDropsEmptyLines(b: string)
    requires b != "" && Ended(b)
    ensures exists rest :: RawLines(b) == RawBodyLines(b) + rest && forall i :: 0 <= i < |rest| ==> rest[i] == ""
  {
    var r := TrimNewlines(b);
    BehindTrimmed(b);
    assert |r| < |b|;
    var tail := b[|r| + 1..];
    assert b == (r + "\n") + tail;
    LinesOfConcat(Normal(b), tail);
    NewlinesAreEmptyLines(tail);
    assert RawLines(b) == RawBodyLines(b) + RawLines(tail);
  }

  predicate NoCR(ls: seq<string>) {
    forall i :: 0 <= i < |ls| ==> DropCR(ls[i]) == ls[i]
  }

  /** A body of whole, short lines without separators survives exactly when no line of it ends in a
      carriage return. */
  lemma WholeBodySurvives(b: string)
    requires !Blank(b) && WholeLines(b) && Short(RawLines(b))
    ensures Survives(b) <==> NoCR(RawLines(b))
  {
    NormalDropsEmptyLines(b);
    var rest :| RawLines(b) == RawBodyLines(b) + rest && forall i :: 0 <= i < |rest| ==> rest[i] == "";
    var raw, body := RawLines(b), RawBodyLines(b);
    assert forall i :: 0 <= i < |body| ==> body[i] == raw[i];
    assert forall i :: |body| <= i < |raw| ==> raw[i] == "";
  }

  /** Re-assembling is idempotent exactly when no line of a document ends in a carriage return: then
      the documents of every text within the scanner's limit come back from joining and splitting,
      with normalised ends, and otherwise they do not. */
  lemma SplitJoinSplit(text: string)
    requires !TooLong(text)
    ensures var bs := Bodies(Lines(text), "");
      && SplitText(text) == Ok(Numbered(bs, 1))
      && (ComesBack(bs) <==> forall b :: b in bs ==> NoCR(RawLines(b)))
  {
    var ls := Lines(text);
    var bs := Bodies(ls, "");
    ScannedLinesHaveNoNewline(text);
    ScannedLinesAreShort(text);
    BodiesAreWholeLines(ls, "");
    BodyLinesAreLines(ls, "", ls);
    JoinThenSplit(bs);
    forall b | b in bs ensures Survives(b) <==> NoCR(RawLines(b)) {
      WholeBodySurvives(b);
    }
  }

  /** Text in which no line ends in two carriage returns is re-assembled faithfully. */
  lemma OrdinaryTextComesBack(text: string)
    requires !TooLong(text) && NoCR(Lines(text))
    ensures ComesBack(Bodies(Lines(text), ""))
  {
    var ls := Lines(text);
    SplitJoinSplit(text);
    ScannedLinesHaveNoNewline(text);
    BodyLinesAreLines(ls, "", ls);
  }

  lemma LinesOfReturn(y: string, line: string, text: string)
    requires '\n' !in y && line == y + ['\r'] && text == line + "\n"
    ensures Lines(text) == [y]
  {
    LinesOfOne(line);
    assert line[..|line| - 1] == y;
  }

  lemma BodyOfLine(y: string)
    requires !Blank(y) && !IsSeparator(y)
    ensures Bodies([y], "") == [y + "\n"]
  {
    L.BlankConcat(y, "\n");
    assert [y][1..] == [] && "" + y + "\n" == y + "\n";
  }

  /** Every text that is one line with two carriage returns at its end loses the second one when it
      is split, and the first one when it is joined and split again. */
  lemma TwoReturnsShrink(x: string, y: string, text: string)
    requires '\n' !in x && !Blank(x) && !IsSeparator(x) && y == x + ['\r'] && text == y + ['\r'] + "\n" && !TooLong(text)
    ensures Bodies(Lines(text), "") == [y + "\n"] && !ComesBack([y + "\n"])
  {
    LinesOfReturn(y, y + ['\r'], text);
    SeparatorBeforeCR(x, y);
    L.BlankConcat(x, ['\r']);
    BodyOfLine(y);
    SplitJoinSplit(text);
    ReturnIsLeft(y);
    assert y + "\n" in [y + "\n"];
  }

  lemma ReturnIsLeft(y: string)
    requires '\n' !in y && y != "" && y[|y| - 1] == '\r'
    ensures !NoCR(RawLines(y + "\n"))
  {
    LinesOfOne(y);
    assert RawLines(y + "\n")[0] == y && DropCR(y) != y;
  }
}
