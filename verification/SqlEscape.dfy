/** internal/sqlescape: quoted SQL names and literals, and a reader that undoes the quoting. */
module SqlEscape {
  import opened Text

  const NUL: char := '\0'

  // ---- quoting ----

  /** strings.ReplaceAll of a quote by two. */
  function Doubled(s: string, q: char): string {
    if s == "" then "" else (if s[0] == q then [q, q] else [s[0]]) + Doubled(s[1..], q)
  }

  function Quoted(s: string, q: char): string {
    [q] + Doubled(s, q) + [q]
  }

  function Identifier(name: string): string {
    if NUL in name then "\"\\x00\"" else Quoted(name, '"')
  }

  function StringLiteral(s: string): string {
    Quoted(s, '\'')
  }

  function Identifiers(parts: seq<string>): (out: seq<string>)
    ensures |out| == |parts| && forall i :: 0 <= i < |parts| ==> out[i] == Identifier(parts[i])
  {
    seq(|parts|, i requires 0 <= i < |parts| => Identifier(parts[i]))
  }

  function Qualified(parts: seq<string>): string {
    Join(Identifiers(parts), '.')
  }

  method QualifiedIdentifier(parts: seq<string>) returns (text: string)
    ensures text == Qualified(parts)
  {
    if |parts| == 0 {
      return "";
    }
    ghost var ids := Identifiers(parts);
    var out := new string[|parts|];
    for i := 0 to |parts|
      invariant forall k :: 0 <= k < i ==> out[k] == ids[k]
    {
      out[i] := Identifier(parts[i]);
    }
    assert out[..] == ids;
    text := Join(out[..], '.');
  }

  // ---- reading, left to right ----

  /** What stands before the closing quote, and what comes after it. */
  datatype Reading = Reading(name: string, rest: string)

  /** After the opening quote: a doubled quote is a quote, a single one ends the name. */
  function ReadBody(s: string, q: char): Option<Reading> {
    if s == "" then None
    else if s[0] != q then Prefixed(s[0], ReadBody(s[1..], q))
    else if |s| > 1 && s[1] == q then Prefixed(q, ReadBody(s[2..], q))
    else Some(Reading("", s[1..]))
  }

  function Prefixed(c: char, r: Option<Reading>): Option<Reading> {
    match r case None => None case Some(x) => Some(Reading([c] + x.name, x.rest))
  }

  function ReadQuoted(s: string, q: char): Option<Reading> {
    if s == "" || s[0] != q then None else ReadBody(s[1..], q)
  }

  lemma {:induction false} BodyGetsShorter(s: string, q: char)
    ensures ReadBody(s, q).Some? ==> |ReadBody(s, q).value.rest| < |s|
  {
    if s != "" {
      if s[0] != q {
        BodyGetsShorter(s[1..], q);
      } else if |s| > 1 && s[1] == q {
        BodyGetsShorter(s[2..], q);
      }
    }
  }

  /** One or more quoted names with dots between them. */
  function ReadNames(s: string): Option<seq<string>>
    decreases |s|
  {
    match ReadQuoted(s, '"')
    case None => None
    case Some(r) =>
      BodyGetsShorter(s[1..], '"');
      if r.rest == "" then Some([r.name])
      else if r.rest[0] != '.' then None
      else match ReadNames(r.rest[1..])
        case None => None
        case Some(names) => Some([r.name] + names)
  }

  function ReadQualified(s: string): Option<seq<string>> {
    if s == "" then Some([]) else ReadNames(s)
  }

  // ---- reading undoes quoting ----

  lemma ReadPlain(c: char, after: string, q: char)
    requires c != q
    ensures ReadBody([c] + after, q) == Prefixed(c, ReadBody(after, q))
  {
    assert ([c] + after)[1..] == after;
  }

  lemma ReadPair(after: string, q: char)
    ensures ReadBody([q, q] + after, q) == Prefixed(q, ReadBody(after, q))
  {
    assert ([q, q] + after)[2..] == after;
  }

  lemma Regroup(a: string, b: string, c: string)
    ensures a + b + c == a + (b + c)
  {
  }

  lemma {:induction false} ReadDoubled(s: string, q: char, rest: string)
    requires rest == "" || rest[0] != q
    ensures ReadBody(Doubled(s, q) + ([q] + rest), q) == Some(Reading(s, rest))
  {
    var tail := [q] + rest;
    if s == "" {
      assert Doubled(s, q) + tail == tail;
      assert tail[1..] == rest;
    } else {
      ReadDoubled(s[1..], q, rest);
      var after := Doubled(s[1..], q);
      assert s == [s[0]] + s[1..];
      if s[0] == q {
        Regroup([q, q], after, tail);
        ReadPair(after + tail, q);
      } else {
        Regroup([s[0]], after, tail);
        ReadPlain(s[0], after + tail, q);
      }
    }
  }

  lemma ReadsQuoted(s: string, q: char, rest: string)
    requires rest == "" || rest[0] != q
    ensures ReadQuoted(Quoted(s, q) + rest, q) == Some(Reading(s, rest))
  {
    ReadDoubled(s, q, rest);
    var text := Quoted(s, q) + rest;
    assert text[1..] == Doubled(s, q) + ([q] + rest);
  }

  /** Every text comes back from its literal. */
  lemma LiteralComesBack(s: string)
    ensures ReadQuoted(StringLiteral(s), '\'') == Some(Reading(s, ""))
  {
    ReadsQuoted(s, '\'', "");
    assert StringLiteral(s) + "" == StringLiteral(s);
  }

  /** The name that an identifier reads as. */
  function Shown(name: string): string {
    if NUL in name then "\\x00" else name
  }

  lemma {:induction false} UndoubledIsItself(s: string, q: char)
    ensures Doubled(s, q) == s <==> q !in s
    ensures |Doubled(s, q)| >= |s|
  {
    if s != "" {
      UndoubledIsItself(s[1..], q);
      assert s == [s[0]] + s[1..];
      if s[0] == q {
        assert |Doubled(s, q)| > |s|;
      }
    }
  }

  lemma IdentifierQuotes(name: string)
    ensures Identifier(name) == Quoted(Shown(name), '"')
  {
    if NUL in name {
      UndoubledIsItself(Shown(name), '"');
    }
  }

  function ShownAll(parts: seq<string>): (out: seq<string>)
    ensures |out| == |parts| && forall i :: 0 <= i < |parts| ==> out[i] == Shown(parts[i])
  {
    seq(|parts|, i requires 0 <= i < |parts| => Shown(parts[i]))
  }

  lemma ReadStep(name: string, rest: string)
    requires rest == "" || rest[0] == '.'
    ensures ReadNames(Identifier(name) + rest) ==
      if rest == "" then Some([Shown(name)])
      else match ReadNames(rest[1..]) case None => None case Some(names) => Some([Shown(name)] + names)
  {
    IdentifierQuotes(name);
    ReadsQuoted(Shown(name), '"', rest);
  }

  lemma QualifiedStep(parts: seq<string>)
    requires parts != []
    ensures Qualified(parts) == Identifier(parts[0]) + if |parts| == 1 then "" else "." + Qualified(parts[1..])
    ensures ShownAll(parts) == [Shown(parts[0])] + ShownAll(parts[1..])
  {
    var ids := Identifiers(parts);
    assert ids[1..] == Identifiers(parts[1..]);
  }

  lemma {:induction false} ReadsJoined(parts: seq<string>)
    requires parts != []
    ensures ReadNames(Qualified(parts)) == Some(ShownAll(parts))
  {
    QualifiedStep(parts);
    if |parts| == 1 {
      ReadStep(parts[0], "");
      assert ShownAll(parts) == [Shown(parts[0])];
    } else {
      ReadsJoined(parts[1..]);
      var rest := "." + Qualified(parts[1..]);
      ReadStep(parts[0], rest);
      assert rest[1..] == Qualified(parts[1..]);
    }
  }

  lemma QualifiedIsNotEmpty(parts: seq<string>)
    requires parts != []
    ensures Qualified(parts) != ""
  {
    QualifiedStep(parts);
  }

  /** The reader recovers a list of names exactly when no name holds a NUL. */
  lemma QualifiedComesBack(parts: seq<string>)
    ensures ReadQualified(Qualified(parts)) == Some(parts) <==> forall i :: 0 <= i < |parts| ==> NUL !in parts[i]
  {
    if parts != [] {
      QualifiedIsNotEmpty(parts);
      ReadsJoined(parts);
      forall i | 0 <= i < |parts| ensures Shown(parts[i]) == parts[i] <==> NUL !in parts[i] {
        assert NUL !in "\\x00";
      }
      if forall i :: 0 <= i < |parts| ==> NUL !in parts[i] {
        assert ShownAll(parts) == parts;
      } else {
        var i :| 0 <= i < |parts| && NUL in parts[i];
        assert ShownAll(parts)[i] != parts[i];
      }
    }
  }

  /** No two lists of NUL-free names print the same text. */
  lemma QualifiedIsInjective(a: seq<string>, b: seq<string>)
    requires forall i :: 0 <= i < |a| ==> NUL !in a[i]
    requires forall i :: 0 <= i < |b| ==> NUL !in b[i]
    requires Qualified(a) == Qualified(b)
    ensures a == b
  {
    QualifiedComesBack(a);
    QualifiedComesBack(b);
  }

  /** A name with a NUL prints as a readable identifier, the one of another name. */
  lemma NulCollides(name: string)
    requires NUL in name
    ensures Identifier(name) == Identifier("\\x00") && name != "\\x00"
    ensures ReadQualified(Identifier(name)) == Some(["\\x00"])
  {
    IdentifierQuotes(name);
    IdentifierQuotes("\\x00");
    assert NUL !in "\\x00";
    ReadStep(name, "");
    assert Identifier(name) + "" == Identifier(name);
  }

  // ---- names that need no quoting ----

  predicate NameChar(c: char, isLetter: char -> bool, isDigit: char -> bool) {
    && c >= ' ' && c != '"'
    && (isLetter(c) || isDigit(c) || c == '_' || c == '$' || c == '-' || c == '.')
  }

  predicate ValidName(name: string, isLetter: char -> bool, isDigit: char -> bool) {
    && name != "" && Utf8Length(name) <= 63
    && forall i :: 0 <= i < |name| ==> NameChar(name[i], isLetter, isDigit)
  }

  /** The Unicode letter and digit classes are parameters. */
  method IsValidIdentifier(name: string, isLetter: char -> bool, isDigit: char -> bool) returns (ok: bool)
    ensures ok <==> ValidName(name, isLetter, isDigit)
  {
    if name == "" || Utf8Length(name) > 63 {
      return false;
    }
    for i := 0 to |name|
      invariant forall k :: 0 <= k < i ==> NameChar(name[k], isLetter, isDigit)
    {
      var r := name[i];
      if r == NUL || (r < '\U{20}' && r != ' ') || r == '"' {
        return false;
      }
      if isLetter(r) || isDigit(r) {
        continue;
      }
      if r != '_' && r != '$' && r != '-' && r != '.' {
        return false;
      }
    }
    return true;
  }

  /** An accepted name is printed between quotes as it stands, and read back. */
  lemma ValidNamesPrintPlainly(name: string, isLetter: char -> bool, isDigit: char -> bool)
    requires ValidName(name, isLetter, isDigit)
    ensures Identifier(name) == "\"" + name + "\""
    ensures ReadQualified(Identifier(name)) == Some([name])
  {
    assert NUL !in name && '"' !in name;
    UndoubledIsItself(name, '"');
    ReadStep(name, "");
    assert Identifier(name) + "" == Identifier(name);
  }

  lemma {:induction false} AsciiLength(s: string)
    requires forall i :: 0 <= i < |s| ==> s[i] < '\U{80}'
    ensures Utf8Length(s) == |s|
  {
    if s != "" {
      AsciiLength(s[1..]);
    }
  }

  /** Of the names in printable ASCII, those of 1 to 63 letters, digits, underscores, dollar signs,
      dashes and dots are accepted, and no others. */
  lemma AsciiNames(name: string, isLetter: char -> bool, isDigit: char -> bool)
    requires forall i :: 0 <= i < |name| ==> ' ' <= name[i] <= '~' && name[i] != '"'
    ensures ValidName(name, isLetter, isDigit) <==>
      && 1 <= |name| <= 63
      && forall i :: 0 <= i < |name| ==> isLetter(name[i]) || isDigit(name[i]) || name[i] in "_$-."
  {
    AsciiLength(name);
    forall i | 0 <= i < |name|
      ensures NameChar(name[i], isLetter, isDigit) <==> isLetter(name[i]) || isDigit(name[i]) || name[i] in "_$-."
    {
      InPunctuation(name[i]);
    }
  }

  lemma InPunctuation(c: char)
    ensures c in "_$-." <==> c == '_' || c == '$' || c == '-' || c == '.'
  {
    var s := "_$-.";
    assert s[0] == '_' && s[1] == '$' && s[2] == '-' && s[3] == '.';
  }

  /** A blank is not among the control characters, and is refused all the same. */
  lemma BlanksAreRefused(name: string, isLetter: char -> bool, isDigit: char -> bool)
    requires ' ' in name && !isLetter(' ') && !isDigit(' ')
    ensures !ValidName(name, isLetter, isDigit)
  {
    var i :| 0 <= i < |name| && name[i] == ' ';
    assert !NameChar(name[i], isLetter, isDigit);
  }
}
