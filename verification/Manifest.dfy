/** internal/manifest: splitting a multi-document YAML stream at `---` lines, and joining
    documents into a stream. */
module Manifest {
  import opened Text

  datatype Document = Document(index: int, body: string)

  /** The scanner gives up on a line that fills its largest buffer. */
  const MAX_LINE: nat := 1024 * 1024

  // ---- lines ----

  /** How far the text goes before a newline. */
  function LineLength(text: string): (n: nat)
    ensures n <= |text|
  {
    if text == "" || text[0] == '\n' then 0 else 1 + LineLength(text[1..])
  }

  /** The lines of a text; a last line without a newline counts unless it is empty. */
  function RawLines(text: string): seq<string>
    decreases |text|
  {
    if text == "" then []
    else
      var n := LineLength(text);
      [text[..n]] + if n < |text| then RawLines(text[n + 1..]) else []
  }

  lemma {:induction false} LineHoldsNoNewline(text: string)
    ensures '\n' !in text[..LineLength(text)]
    ensures LineLength(text) < |text| ==> text[LineLength(text)] == '\n'
  {
    if text != "" && text[0] != '\n' {
      LineHoldsNoNewline(text[1..]);
      var n := LineLength(text[1..]);
      assert text[..n + 1] == [text[0]] + text[1..][..n];
    }
  }

  lemma {:induction false} LinesHoldNoNewline(text: string)
    ensures forall i :: 0 <= i < |RawLines(text)| ==> '\n' !in RawLines(text)[i]
    decreases |text|
  {
    if text != "" {
      var n := LineLength(text);
      LineHoldsNoNewline(text);
      if n < |text| {
        LinesHoldNoNewline(text[n + 1..]);
      }
    }
  }

  /** bufio.ScanLines drops one trailing carriage return. */
  function DropCR(line: string): (r: string)
    ensures r <= line
    ensures r == line <==> (line == "" || line[|line| - 1] != '\r')
  {
    if line != "" && line[|line| - 1] == '\r' then line[..|line| - 1] else line
  }

  function DropCRs(ls: seq<string>): (r: seq<string>)
    ensures |r| == |ls| && forall i :: 0 <= i < |ls| ==> r[i] == DropCR(ls[i])
  {
    seq(|ls|, i requires 0 <= i < |ls| => DropCR(ls[i]))
  }

  /** The lines as the scanner returns them. */
  function Lines(text: string): seq<string> {
    DropCRs(RawLines(text))
  }

  function Unlines(ls: seq<string>): string {
    if ls == [] then "" else ls[0] + "\n" + Unlines(ls[1..])
  }

  /** Three dashes, with white space around them at most. */
  predicate IsSeparator(line: string) {
    var t := TrimSpace(line);
    |t| == 3 && t[0] == '-' && t[1] == '-' && t[2] == '-'
  }

  // ---- Split ----

  /** The bodies found in the lines when `current` has been collected already. A blank body is
      not flushed; it stays in front of the next one. */
  function Bodies(ls: seq<string>, current: string): seq<string>
    decreases ls
  {
    if ls == [] then (if Blank(current) then [] else [current])
    else if !IsSeparator(ls[0]) then Bodies(ls[1..], current + ls[0] + "\n")
    else if Blank(current) then Bodies(ls[1..], current)
    else [current] + Bodies(ls[1..], "")
  }

  /** The documents with their positions, counting from `first`. */
  function Numbered(bodies: seq<string>, first: int): (docs: seq<Document>)
    ensures |docs| == |bodies|
    ensures forall i :: 0 <= i < |bodies| ==> docs[i] == Document(first + i, bodies[i])
  {
    seq(|bodies|, i requires 0 <= i < |bodies| => Document(first + i, bodies[i]))
  }

  predicate TooLong(text: string) {
    exists i :: 0 <= i < |RawLines(text)| && Utf8Length(RawLines(text)[i]) >= MAX_LINE
  }

  function SplitText(text: string): Result<seq<Document>> {
    if TooLong(text) then Err else Ok(Numbered(Bodies(Lines(text), ""), 1))
  }

  /** Split fails exactly on texts with a line of a mebibyte or more. */
  lemma SplitFails(text: string)
    ensures var raw := RawLines(text);
      SplitText(text).Err? <==> exists i :: 0 <= i < |raw| && Utf8Length(raw[i]) >= 1_048_576
  {
    var raw := RawLines(text);
    if TooLong(text) {
      var i :| 0 <= i < |raw| && Utf8Length(raw[i]) >= MAX_LINE;
      assert Utf8Length(raw[i]) >= 1_048_576;
    }
    if i :| 0 <= i < |raw| && Utf8Length(raw[i]) >= 1_048_576 {
      assert Utf8Length(raw[i]) >= MAX_LINE;
    }
  }

  /** The documents in the end, from those found so far, the text collected and the lines left. */
  function Outcome(docs: seq<Document>, current: string, idx: int, ls: seq<string>): seq<Document> {
    docs + Numbered(Bodies(ls, current), idx)
  }

  lemma NumberedHead(docs: seq<Document>, b: string, bodies: seq<string>, idx: int)
    ensures docs + Numbered([b] + bodies, idx) == docs + [Document(idx, b)] + Numbered(bodies, idx + 1)
  {
    assert Numbered([b] + bodies, idx) == [Document(idx, b)] + Numbered(bodies, idx + 1);
  }

  lemma SeparatorOutcome(docs: seq<Document>, current: string, idx: int, ls: seq<string>)
    requires ls != [] && IsSeparator(ls[0])
    ensures Outcome(docs, current, idx, ls) ==
      if Blank(current) then Outcome(docs, current, idx, ls[1..])
      else Outcome(docs + [Document(idx, current)], "", idx + 1, ls[1..])
  {
    if !Blank(current) {
      NumberedHead(docs, current, Bodies(ls[1..], ""), idx);
    }
  }

  lemma LineOutcome(docs: seq<Document>, current: string, idx: int, ls: seq<string>)
    requires ls != [] && !IsSeparator(ls[0])
    ensures Outcome(docs, current, idx, ls) == Outcome(docs, current + ls[0] + "\n", idx, ls[1..])
  {}

  lemma TakenOutcome(docs: seq<Document>, current: string, idx: int, ls: seq<string>, separator: bool)
    requires ls != [] && separator == IsSeparator(ls[0])
    ensures Outcome(docs, current, idx, ls) ==
      if !separator then Outcome(docs, current + ls[0] + "\n", idx, ls[1..])
      else if Blank(current) then Outcome(docs, current, idx, ls[1..])
      else Outcome(docs + [Document(idx, current)], "", idx + 1, ls[1..])
  {
    if separator {
      SeparatorOutcome(docs, current, idx, ls);
    } else {
      LineOutcome(docs, current, idx, ls);
    }
  }

  lemma EndOutcome(docs: seq<Document>, current: string, idx: int)
    ensures Outcome(docs, current, idx, []) == if Blank(current) then docs else docs + [Document(idx, current)]
  {
    if !Blank(current) {
      NumberedHead(docs, current, [], idx);
      assert [current] + [] == [current];
    }
  }

  /** The variables that Split shares with its flush closure. */
  class Splitter {
    var docs: seq<Document>
    var current: string
    var idx: int

    constructor ()
      ensures docs == [] && current == "" && idx == 1
    {
      docs := [];
      current := "";
      idx := 1;
    }

    method Flush()
      modifies this
      ensures if Blank(old(current))
        then docs == old(docs) && current == old(current) && idx == old(idx)
        else docs == old(docs) + [Document(old(idx), old(current))] && current == "" && idx == old(idx) + 1
    {
      TrimOfBlank(current);
      if TrimSpace(current) == "" {
        return;
      }
      docs := docs + [Document(idx, current)];
      idx := idx + 1;
      current := "";
    }

    /** The body of Split's loop. */
    method Take(line: string, separator: bool)
      requires separator == IsSeparator(line)
      modifies this
      ensures !separator ==> docs == old(docs) && current == old(current) + line + "\n" && idx == old(idx)
      ensures separator && Blank(old(current)) ==> docs == old(docs) && current == old(current) && idx == old(idx)
      ensures separator && !Blank(old(current)) ==>
        docs == old(docs) + [Document(old(idx), old(current))] && current == "" && idx == old(idx) + 1
    {
      if separator {
        Flush();
        return;
      }
      current := current + line;
      current := current + "\n";
    }
  }

  method SplitLines(ls: seq<string>) returns (docs: seq<Document>)
    ensures docs == Outcome([], "", 1, ls)
  {
    var s := new Splitter();
    ghost var goal := Outcome([], "", 1, ls);
    ghost var rest := ls;
    for n := 0 to |ls|
      invariant rest == ls[n..]
      invariant Outcome(s.docs, s.current, s.idx, rest) == goal
    {
      var separator := IsSeparator(ls[n]);
      TakenOutcome(s.docs, s.current, s.idx, rest, separator);
      s.Take(ls[n], separator);
      rest := rest[1..];
    }
    EndOutcome(s.docs, s.current, s.idx);
    s.Flush();
    docs := s.docs;
  }

  /** Split: reads lines until the text ends or a line is too long. */
  method Split(text: string) returns (r: Result<seq<Document>>)
    ensures r == SplitText(text)
  {
    var raw := RawLines(text);
    for n := 0 to |raw|
      invariant forall i :: 0 <= i < n ==> Utf8Length(raw[i]) < MAX_LINE
    {
      if Utf8Length(raw[n]) >= MAX_LINE {
        return Err;
      }
    }
    var docs := SplitLines(DropCRs(raw));
    assert docs == Numbered(Bodies(Lines(text), ""), 1);
    return Ok(docs);
  }

  // ---- Join ----

  function TrimNewlines(b: string): (r: string)
    ensures r <= b && (r != "" ==> r[|r| - 1] != '\n')
    ensures Blank(b[|r|..])
  {
    if b != "" && b[|b| - 1] == '\n' then
      var r := TrimNewlines(b[..|b| - 1]);
      assert b[|r|..] == b[..|b| - 1][|r|..] + ['\n'];
      r
    else b
  }

  /** A body as it appears in a stream: with exactly one newline at its end. */
  function Normal(b: string): string {
    TrimNewlines(b) + "\n"
  }

  function Joined(bodies: seq<string>): string {
    if bodies == [] then ""
    else if |bodies| == 1 then Normal(bodies[0])
    else Joined(bodies[..|bodies| - 1]) + "---\n" + Normal(bodies[|bodies| - 1])
  }

  function BodiesOf(docs: seq<Document>): (bs: seq<string>)
    ensures |bs| == |docs| && forall i :: 0 <= i < |docs| ==> bs[i] == docs[i].body
  {
    seq(|docs|, i requires 0 <= i < |docs| => docs[i].body)
  }

  method JoinDocuments(docs: seq<Document>) returns (out: string)
    ensures out == Joined(BodiesOf(docs))
  {
    if |docs| == 0 {
      return "";
    }
    var buf := "";
    for i := 0 to |docs|
      invariant buf == Joined(BodiesOf(docs)[..i])
    {
      assert BodiesOf(docs)[..i + 1][..i] == BodiesOf(docs)[..i];
      if i > 0 {
        buf := buf + "---\n";
      }
      buf := buf + TrimNewlines(docs[i].body);
      buf := buf + "\n";
    }
    assert BodiesOf(docs)[..|docs|] == BodiesOf(docs);
    return buf;
  }
}
