/** strings.Fields, and which characters the fields hold. */
module Words {
  import opened Text

  /** How far the text goes before white space. */
  function WordLength(s: string): (n: nat)
    ensures n <= |s|
  {
    if s == "" || IsSpace(s[0]) then 0 else 1 + WordLength(s[1..])
  }

  lemma {:induction false} WordHasNoSpace(s: string)
    ensures NoSpace(s[..WordLength(s)])
  {
    if s != "" && !IsSpace(s[0]) {
      WordHasNoSpace(s[1..]);
      var n := WordLength(s[1..]);
      assert s[..n + 1] == [s[0]] + s[1..][..n];
    }
  }

  /** strings.Fields: the maximal runs of characters that are not white space. */
  function Fields(s: string): seq<string>
    decreases |s|
  {
    if s == "" then []
    else if IsSpace(s[0]) then Fields(s[1..])
    else [s[..WordLength(s)]] + Fields(s[WordLength(s)..])
  }

  lemma {:induction false} FieldsAreWords(s: string)
    ensures forall f :: f in Fields(s) ==> f != "" && NoSpace(f)
    decreases |s|
  {
    if s == "" {
    } else if IsSpace(s[0]) {
      FieldsAreWords(s[1..]);
    } else {
      WordHasNoSpace(s);
      FieldsAreWords(s[WordLength(s)..]);
    }
  }

  lemma {:induction false} WordLengthOfSnoc(s: string, c: char)
    requires IsSpace(c)
    ensures WordLength(s + [c]) == WordLength(s)
  {
    if s != "" && !IsSpace(s[0]) {
      assert (s + [c])[1..] == s[1..] + [c];
      WordLengthOfSnoc(s[1..], c);
    }
  }

  lemma SnocParts(s: string, n: nat, c: char)
    requires n <= |s|
    ensures (s + [c])[..n] == s[..n] && (s + [c])[n..] == s[n..] + [c]
  {
  }

  lemma {:induction false} FieldsOfSnoc(s: string, c: char)
    requires IsSpace(c)
    ensures Fields(s + [c]) == Fields(s)
    decreases |s|
  {
    if s == "" {
      assert [c][1..] == "";
    } else if IsSpace(s[0]) {
      SnocParts(s, 1, c);
      FieldsOfSnoc(s[1..], c);
    } else {
      WordLengthOfSnoc(s, c);
      SnocParts(s, WordLength(s), c);
      FieldsOfSnoc(s[WordLength(s)..], c);
    }
  }

  lemma {:induction false} FieldsOfTrimRight(s: string)
    ensures Fields(TrimRight(s)) == Fields(s)
  {
    if s != "" && IsSpace(s[|s| - 1]) {
      var n := |s| - 1;
      FieldsOfTrimRight(s[..n]);
      FieldsOfSnoc(s[..n], s[n]);
      assert s[..n] + [s[n]] == s;
    }
  }

  lemma {:induction false} FieldsOfTrimLeft(s: string)
    ensures Fields(TrimLeft(s)) == Fields(s)
  {
    if s != "" && IsSpace(s[0]) {
      FieldsOfTrimLeft(s[1..]);
    }
  }

  /** Trimming the text first changes no field. */
  lemma FieldsOfTrimSpace(s: string)
    ensures Fields(TrimSpace(s)) == Fields(s)
  {
    FieldsOfTrimLeft(s);
    FieldsOfTrimRight(TrimLeft(s));
  }

  lemma {:induction false} WordLengthOfWord(w: string, rest: string)
    requires NoSpace(w) && (rest == "" || IsSpace(rest[0]))
    ensures WordLength(w + rest) == |w|
  {
    if w == "" {
      assert w + rest == rest;
    } else {
      assert (w + rest)[1..] == w[1..] + rest;
      WordLengthOfWord(w[1..], rest);
    }
  }

  lemma FieldsOfWord(w: string, rest: string)
    requires w != "" && NoSpace(w) && (rest == "" || IsSpace(rest[0]))
    ensures Fields(w + rest) == [w] + Fields(rest)
  {
    WordLengthOfWord(w, rest);
    assert (w + rest)[..|w|] == w && (w + rest)[|w|..] == rest;
  }

  lemma FieldsOfSpaced(w: string, rest: string)
    requires w != "" && NoSpace(w)
    ensures Fields(w + [' '] + rest) == [w] + Fields(rest)
  {
    var s := [' '] + rest;
    FieldsOfWord(w, s);
    assert s[1..] == rest;
    assert w + s == w + [' '] + rest;
  }

  /** Words joined with blanks are the fields of the joined text. */
  lemma {:induction false} FieldsOfJoin(ws: seq<string>)
    requires forall i :: 0 <= i < |ws| ==> ws[i] != "" && NoSpace(ws[i])
    ensures Fields(Join(ws, ' ')) == ws
  {
    if |ws| == 1 {
      FieldsOfWord(ws[0], "");
      assert ws[0] + "" == ws[0];
    } else if |ws| > 1 {
      FieldsOfJoin(ws[1..]);
      FieldsOfSpaced(ws[0], Join(ws[1..], ' '));
    }
  }

  ghost predicate Occurs(c: char, parts: seq<string>) {
    exists i :: 0 <= i < |parts| && c in parts[i]
  }

  lemma OccursInCons(c: char, p: string, rest: seq<string>)
    ensures Occurs(c, [p] + rest) <==> c in p || Occurs(c, rest)
  {
    var parts := [p] + rest;
    if c in p {
      assert c in parts[0];
    }
    if Occurs(c, rest) {
      var i :| 0 <= i < |rest| && c in rest[i];
      assert parts[i + 1] == rest[i];
    }
    if Occurs(c, parts) {
      var i :| 0 <= i < |parts| && c in parts[i];
      assert i > 0 ==> parts[i] == rest[i - 1];
    }
  }

  /** A character that is not white space stands in the text exactly when it stands in a field. */
  lemma {:induction false} OccursInFields(s: string, c: char)
    requires !IsSpace(c)
    ensures c in s <==> Occurs(c, Fields(s))
    decreases |s|
  {
    if s == "" {
    } else if IsSpace(s[0]) {
      OccursInFields(s[1..], c);
      assert s == [s[0]] + s[1..];
    } else {
      var n := WordLength(s);
      OccursInFields(s[n..], c);
      OccursInCons(c, s[..n], Fields(s[n..]));
      assert s == s[..n] + s[n..];
    }
  }

  /** A character other than the separator stands in the text exactly when it stands in a part. */
  lemma {:induction false} OccursInSplit(s: string, sep: char, c: char)
    requires c != sep
    ensures c in s <==> Occurs(c, Split(s, sep))
    decreases |s|
  {
    var i := IndexOf(s, sep);
    if i < 0 {
      assert Split(s, sep)[0] == s;
    } else {
      OccursInSplit(s[i + 1..], sep, c);
      OccursInCons(c, s[..i], Split(s[i + 1..], sep));
      assert s == s[..i] + [sep] + s[i + 1..];
    }
  }
}
