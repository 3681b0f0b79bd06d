/** What Split keeps, and when it undoes Join. */
module ManifestLaws {
  import opened Text
  import opened Manifest

  // ---- nothing is lost or reordered ----

  function Flat(bodies: seq<string>): string {
    if bodies == [] then "" else bodies[0] + Flat(bodies[1..])
  }

  /** Three dashes with white space around them at most. */
  ghost predicate ThreeDashes(line: string) {
    exists a, b :: DashesBetween(line, a, b)
  }

  ghost predicate DashesBetween(line: string, a: string, b: string) {
    Blank(a) && Blank(b) && line == a + ['-', '-', '-'] + b
  }

  /** Exactly these lines separate documents. */
  lemma SeparatorSays(line: string)
    ensures IsSeparator(line) <==> ThreeDashes(line)
  {
    if IsSeparator(line) {
      var a, b := TrimSurrounds(line);
      assert TrimSpace(line) == ['-', '-', '-'];
      assert DashesBetween(line, a, b);
    }
    if ThreeDashes(line) {
      var a, b :| DashesBetween(line, a, b);
      TrimOfSurrounded(a, ['-', '-', '-'], b);
    }
  }

  /** The lines that are not separators. */
  function Content(ls: seq<string>): seq<string> {
    if ls == [] then []
    else if IsSeparator(ls[0]) then Content(ls[1..])
    else [ls[0]] + Content(ls[1..])
  }

  lemma {:induction false} ContentSays(ls: seq<string>)
    ensures forall l :: l in Content(ls) <==> l in ls && !ThreeDashes(l)
  {
    if ls != [] {
      ContentSays(ls[1..]);
      SeparatorSays(ls[0]);
      assert forall l :: l in ls <==> l == ls[0] || l in ls[1..];
    }
  }

  /** The blank text left in the buffer at the end. */
  function Remainder(ls: seq<string>, current: string): (r: string)
    ensures Blank(r)
    decreases ls
  {
    if ls == [] then (if Blank(current) then current else "")
    else if !IsSeparator(ls[0]) then Remainder(ls[1..], current + ls[0] + "\n")
    else if Blank(current) then Remainder(ls[1..], current)
    else Remainder(ls[1..], "")
  }

  /** For all lines: the bodies in order, and then the blank remainder, are exactly the lines
      that are not separators. */
  lemma {:induction false} BodiesKeepContent(ls: seq<string>, current: string)
    ensures Flat(Bodies(ls, current)) + Remainder(ls, current) == current + Unlines(Content(ls))
    decreases ls
  {
    if ls == [] {
      assert Flat([current]) == current + Flat([]);
    } else if !IsSeparator(ls[0]) {
      BodiesKeepContent(ls[1..], current + ls[0] + "\n");
      UnlinesHead(current, ls[0], Content(ls[1..]));
    } else if Blank(current) {
      BodiesKeepContent(ls[1..], current);
    } else {
      BodiesKeepContent(ls[1..], "");
      FlatHead(current, Bodies(ls[1..], ""), Remainder(ls[1..], ""));
    }
  }

  lemma UnlinesHead(current: string, line: string, ls: seq<string>)
    ensures current + line + "\n" + Unlines(ls) == current + Unlines([line] + ls)
  {
    assert ([line] + ls)[1..] == ls;
  }

  lemma FlatHead(b: string, bodies: seq<string>, tail: string)
    ensures Flat([b] + bodies) + tail == b + (Flat(bodies) + tail)
  {
    assert ([b] + bodies)[1..] == bodies;
  }

  // ---- one document per non-blank segment ----

  /** The texts between separators. */
  function Segments(ls: seq<string>): (segs: seq<string>)
    ensures |segs| > 0
  {
    if ls == [] then [""]
    else
      var rest := Segments(ls[1..]);
      if IsSeparator(ls[0]) then [""] + rest else [ls[0] + "\n" + rest[0]] + rest[1..]
  }

  /** Blank segments join the next one that is not blank; a blank end is dropped. */
  function Absorbed(segs: seq<string>, carry: string): seq<string>
    decreases segs
  {
    if segs == [] then []
    else if Blank(carry + segs[0]) then Absorbed(segs[1..], carry + segs[0])
    else [carry + segs[0]] + Absorbed(segs[1..], "")
  }

  /** Segments with a text put in front of the first. */
  function Led(current: string, segs: seq<string>): (r: seq<string>)
    requires segs != []
    ensures |r| == |segs|
  {
    [current + segs[0]] + segs[1..]
  }

  lemma LedByLine(current: string, ls: seq<string>)
    requires ls != [] && !IsSeparator(ls[0])
    ensures Led(current, Segments(ls)) == Led(current + ls[0] + "\n", Segments(ls[1..]))
  {
    var rest := Segments(ls[1..]);
    SegmentsByLine(ls);
    Regroup(current, ls[0], rest[0]);
  }

  lemma SegmentsByLine(ls: seq<string>)
    requires ls != [] && !IsSeparator(ls[0])
    ensures var rest := Segments(ls[1..]);
      Segments(ls)[0] == ls[0] + "\n" + rest[0] && Segments(ls)[1..] == rest[1..]
  {}

  lemma Regroup(a: string, b: string, c: string)
    ensures a + (b + "\n" + c) == a + b + "\n" + c
  {}

  lemma LedBySeparator(current: string, ls: seq<string>)
    requires ls != [] && IsSeparator(ls[0])
    ensures Led(current, Segments(ls)) == [current] + Segments(ls[1..])
  {
    assert current + "" == current;
  }

  lemma LedByNothing(segs: seq<string>)
    requires segs != []
    ensures Led("", segs) == segs
  {
    assert "" + segs[0] == segs[0];
  }

  /** The bodies are the segments with every blank one put in front of the next. */
  lemma {:induction false} BodiesAreSegments(ls: seq<string>, current: string)
    ensures Bodies(ls, current) == Absorbed(Led(current, Segments(ls)), "")
    decreases ls
  {
    if ls == [] {
      assert current + "" == current;
      assert Led(current, [""]) == [current];
      AbsorbOne(current);
    } else if !IsSeparator(ls[0]) {
      LedByLine(current, ls);
      BodiesAreSegments(ls[1..], current + ls[0] + "\n");
    } else {
      LedBySeparator(current, ls);
      AbsorbHead(current, Segments(ls[1..]));
      if Blank(current) {
        BodiesAreSegments(ls[1..], current);
        AbsorbCarry(current, Segments(ls[1..]));
      } else {
        BodiesAreSegments(ls[1..], "");
        LedByNothing(Segments(ls[1..]));
      }
    }
  }

  lemma AbsorbOne(current: string)
    ensures Absorbed([current], "") == if Blank(current) then [] else [current]
  {
    assert "" + current == current;
  }

  lemma AbsorbHead(current: string, rest: seq<string>)
    ensures Absorbed([current] + rest, "") ==
      if Blank(current) then Absorbed(rest, current) else [current] + Absorbed(rest, "")
  {
    assert ([current] + rest)[1..] == rest;
    assert "" + current == current;
  }

  lemma AbsorbCarry(carry: string, segs: seq<string>)
    requires segs != []
    ensures Absorbed(segs, carry) == Absorbed(Led(carry, segs), "")
  {
    AbsorbHead(carry + segs[0], segs[1..]);
  }

  function NonBlankCount(segs: seq<string>): nat {
    if segs == [] then 0 else (if Blank(segs[0]) then 0 else 1) + NonBlankCount(segs[1..])
  }

  lemma BlankConcat(a: string, b: string)
    ensures Blank(a + b) <==> Blank(a) && Blank(b)
  {
    if Blank(a + b) {
      assert forall i :: 0 <= i < |a| ==> a[i] == (a + b)[i];
      assert forall i :: 0 <= i < |b| ==> b[i] == (a + b)[|a| + i];
    }
  }

  lemma {:induction false} AbsorbedCount(segs: seq<string>, carry: string)
    requires Blank(carry)
    ensures |Absorbed(segs, carry)| == NonBlankCount(segs)
    ensures forall b :: b in Absorbed(segs, carry) ==> !Blank(b)
    decreases segs
  {
    if segs != [] {
      BlankConcat(carry, segs[0]);
      if Blank(carry + segs[0]) {
        AbsorbedCount(segs[1..], carry + segs[0]);
      } else {
        AbsorbedCount(segs[1..], "");
      }
    }
  }

  /** The main result about Split: on every text within the scanner's limit, the documents are
      numbered from 1, none is blank, there is one for each non-blank segment, and together with
      a blank remainder they are all the lines that are not three dashes in white space, in order. */
  lemma SplitKeepsEverything(text: string)
    requires !TooLong(text)
    ensures SplitText(text).Ok?
    ensures var docs := SplitText(text).value;
      && (forall i :: 0 <= i < |docs| ==> docs[i].index == i + 1 && !Blank(docs[i].body))
      && |docs| == NonBlankCount(Segments(Lines(text)))
      && Flat(BodiesOf(docs)) + Remainder(Lines(text), "") == Unlines(Content(Lines(text)))
      && forall l :: l in Content(Lines(text)) <==> l in Lines(text) && !ThreeDashes(l)
  {
    var ls := Lines(text);
    ContentSays(ls);
    BodiesKeepContent(ls, "");
    assert "" + Unlines(Content(ls)) == Unlines(Content(ls));
    BodiesCount(ls);
    BodiesOfNumbered(Bodies(ls, ""));
  }

  lemma BodiesCount(ls: seq<string>)
    ensures |Bodies(ls, "")| == NonBlankCount(Segments(ls))
    ensures forall b :: b in Bodies(ls, "") ==> !Blank(b)
  {
    BodiesAreSegments(ls, "");
    LedByNothing(Segments(ls));
    AbsorbedCount(Segments(ls), "");
  }

  lemma BodiesOfNumbered(bs: seq<string>)
    ensures BodiesOf(Numbered(bs, 1)) == bs
    ensures forall i :: 0 <= i < |bs| ==> Numbered(bs, 1)[i].body in bs
  {}
}
