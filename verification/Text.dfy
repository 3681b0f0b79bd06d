/** Strings as the operator's Go code uses them: sequences of Unicode code points, with the
    pieces of package `strings` that several models share. */
module Text {

  datatype Option<+T> = None | Some(value: T)

  /** The outcome of an operation that can fail; error texts are not modelled. */
  datatype Result<+T> = Ok(value: T) | Err

  /** unicode.IsSpace. */
  predicate IsSpace(c: char) {
    || c == ' ' || '\t' <= c <= '\r' || c == '\U{85}' || c == '\U{A0}' || c == '\U{1680}'
    || '\U{2000}' <= c <= '\U{200A}' || c == '\U{2028}' || c == '\U{2029}' || c == '\U{202F}'
    || c == '\U{205F}' || c == '\U{3000}'
  }

  predicate IsDigit(c: char) { '0' <= c <= '9' }

  /** Every character is white space (in particular, the empty string is blank). */
  predicate Blank(s: string) {
    forall i :: 0 <= i < |s| ==> IsSpace(s[i])
  }

  predicate NoSpace(s: string) {
    forall i :: 0 <= i < |s| ==> !IsSpace(s[i])
  }

  /** The number of bytes of the UTF-8 encoding. */
  function Utf8Length(s: string): nat {
    if s == "" then 0
    else (if s[0] < '\U{80}' then 1 else if s[0] < '\U{800}' then 2 else if s[0] < '\U{10000}' then 3 else 4)
         + Utf8Length(s[1..])
  }

  function TrimLeft(s: string): (r: string)
    ensures |r| <= |s|
  {
    if s != "" && IsSpace(s[0]) then TrimLeft(s[1..]) else s
  }

  lemma {:induction false} TrimLeftSays(s: string)
    ensures var r := TrimLeft(s); r == s[|s| - |r|..] && (r != "" ==> !IsSpace(r[0]))
    ensures forall i :: 0 <= i < |s| - |TrimLeft(s)| ==> IsSpace(s[i])
  {
    if s != "" && IsSpace(s[0]) {
      TrimLeftSays(s[1..]);
    }
  }

  function TrimRight(s: string): (r: string)
    ensures |r| <= |s|
  {
    if s != "" && IsSpace(s[|s| - 1]) then TrimRight(s[..|s| - 1]) else s
  }

  lemma {:induction false} TrimRightSays(s: string)
    ensures var r := TrimRight(s); r == s[..|r|] && (r != "" ==> !IsSpace(r[|r| - 1]))
    ensures forall i :: |TrimRight(s)| <= i < |s| ==> IsSpace(s[i])
  {
    if s != "" && IsSpace(s[|s| - 1]) {
      TrimRightSays(s[..|s| - 1]);
    }
  }

  /** strings.TrimSpace. */
  function TrimSpace(s: string): string {
    TrimRight(TrimLeft(s))
  }

  /** A text that neither begins nor ends with white space. */
  predicate Trimmed(s: string) {
    s != "" ==> !IsSpace(s[0]) && !IsSpace(s[|s| - 1])
  }

  lemma TrimOfTrimmed(s: string)
    ensures TrimSpace(s) == s <==> Trimmed(s)
  {
    TrimLeftSays(s);
    TrimRightSays(TrimLeft(s));
  }

  lemma TrimIsTrimmed(s: string)
    ensures Trimmed(TrimSpace(s))
  {
    var l := TrimLeft(s);
    TrimLeftSays(s);
    TrimRightSays(l);
    assert TrimRight(l) != "" ==> TrimRight(l)[0] == l[0];
  }

  lemma TrimOfBlank(s: string)
    ensures TrimSpace(s) == "" <==> Blank(s)
  {
    var l := TrimLeft(s);
    TrimLeftSays(s);
    TrimRightSays(l);
    if l != "" {
      assert l[0] == s[|s| - |l|];
    }
  }

  lemma {:induction false} TrimLeftOfBlank(a: string, t: string)
    requires Blank(a) && (t != "" ==> !IsSpace(t[0]))
    ensures TrimLeft(a + t) == t
  {
    if a == "" {
      assert a + t == t;
    } else {
      assert (a + t)[1..] == a[1..] + t;
      TrimLeftOfBlank(a[1..], t);
    }
  }

  lemma {:induction false} TrimRightOfBlank(t: string, b: string)
    requires Blank(b) && (t != "" ==> !IsSpace(t[|t| - 1]))
    ensures TrimRight(t + b) == t
  {
    if b == "" {
      assert t + b == t;
    } else {
      assert (t + b)[..|t + b| - 1] == t + b[..|b| - 1];
      TrimRightOfBlank(t, b[..|b| - 1]);
    }
  }

  /** A trimmed text is what trimming leaves of it with white space around. */
  lemma TrimOfSurrounded(a: string, t: string, b: string)
    requires Blank(a) && Blank(b) && t != "" && Trimmed(t)
    ensures TrimSpace(a + t + b) == t
  {
    assert a + t + b == a + (t + b);
    TrimLeftOfBlank(a, t + b);
    TrimRightOfBlank(t, b);
  }

  lemma TrimSurrounds(s: string) returns (a: string, b: string)
    ensures Blank(a) && Blank(b) && s == a + TrimSpace(s) + b
  {
    var l := TrimLeft(s);
    var r := TrimRight(l);
    TrimLeftSays(s);
    TrimRightSays(l);
    a, b := s[..|s| - |l|], l[|r|..];
    assert s == a + l && l == r + b;
  }

  lemma TrimSpaceFixes(s: string)
    ensures TrimSpace(s) == s <==> Trimmed(s)
    ensures Trimmed(TrimSpace(s))
    ensures TrimSpace(s) == "" <==> Blank(s)
  {
    TrimOfTrimmed(s);
    TrimIsTrimmed(s);
    TrimOfBlank(s);
  }

  /** strings.IndexByte, or strings.Index with a one-character text. */
  function IndexOf(s: string, c: char): (i: int)
    ensures -1 <= i < |s|
    ensures i < 0 <==> c !in s
    ensures i >= 0 ==> s[i] == c
    ensures forall k :: 0 <= k < i ==> s[k] != c
  {
    if s == "" then -1
    else if s[0] == c then 0
    else
      var i := IndexOf(s[1..], c);
      if i < 0 then -1 else i + 1
  }

  /** strings.LastIndex with a one-character text. */
  function LastIndexOf(s: string, c: char): (i: int)
    ensures -1 <= i < |s|
    ensures i < 0 <==> c !in s
    ensures i >= 0 ==> s[i] == c
    ensures forall k :: i < k < |s| ==> s[k] != c
  {
    if s == "" then -1
    else if s[|s| - 1] == c then |s| - 1
    else LastIndexOf(s[..|s| - 1], c)
  }

  /** strings.IndexAny: the first position holding one of the characters of `cs`. */
  function IndexAny(s: string, cs: string): (i: int)
    ensures -1 <= i < |s|
  {
    if s == "" then -1
    else if s[0] in cs then 0
    else
      var i := IndexAny(s[1..], cs);
      if i < 0 then -1 else i + 1
  }

  lemma {:induction false} IndexAnySays(s: string, cs: string)
    ensures var i := IndexAny(s, cs);
      && (i >= 0 ==> s[i] in cs)
      && forall k :: 0 <= k < (if i < 0 then |s| else i) ==> s[k] !in cs
  {
    if s != "" && s[0] !in cs {
      IndexAnySays(s[1..], cs);
    }
  }

  /** strings.Split with a one-character separator. */
  function Split(s: string, sep: char): (parts: seq<string>)
    ensures |parts| >= 1
    ensures forall p :: p in parts ==> sep !in p
  {
    var i := IndexOf(s, sep);
    if i < 0 then [s] else [s[..i]] + Split(s[i + 1..], sep)
  }

  /** strings.Join with a one-character separator. */
  function Join(parts: seq<string>, sep: char): string {
    if parts == [] then ""
    else if |parts| == 1 then parts[0]
    else parts[0] + [sep] + Join(parts[1..], sep)
  }

  // ---- the order of sort.Strings ----

  predicate Leq(a: string, b: string) {
    a == "" || (b != "" && (a[0] < b[0] || (a[0] == b[0] && Leq(a[1..], b[1..]))))
  }

  lemma {:induction false} LeqAntisymmetric(a: string, b: string)
    requires Leq(a, b) && Leq(b, a)
    ensures a == b
  {
    if a != "" && b != "" {
      LeqAntisymmetric(a[1..], b[1..]);
      assert a == [a[0]] + a[1..] && b == [b[0]] + b[1..];
    }
  }

  lemma {:induction false} LeqTransitive(a: string, b: string, c: string)
    requires Leq(a, b) && Leq(b, c)
    ensures Leq(a, c)
  {
    if a != "" && a[0] == b[0] == c[0] {
      LeqTransitive(a[1..], b[1..], c[1..]);
    }
  }

  lemma {:induction false} LeqTotal(a: string, b: string)
    ensures Leq(a, b) || Leq(b, a)
  {
    if a != "" && b != "" && a[0] == b[0] {
      LeqTotal(a[1..], b[1..]);
    }
  }

  predicate IsLeast(k: string, keys: set<string>) {
    k in keys && forall x :: x in keys ==> Leq(k, x)
  }

  lemma {:induction false} HasLeast(keys: set<string>)
    requires keys != {}
    ensures exists k :: IsLeast(k, keys)
    decreases keys
  {
    var some :| some in keys;
    LeqTotal(some, some);
    if keys == {some} {
      assert IsLeast(some, keys);
    } else {
      HasLeast(keys - {some});
      var k :| IsLeast(k, keys - {some});
      LeqTotal(k, some);
      if Leq(k, some) {
        assert IsLeast(k, keys);
      } else {
        forall x | x in keys ensures Leq(some, x) {
          if x != some { LeqTransitive(some, k, x); }
        }
        assert IsLeast(some, keys);
      }
    }
  }

  function Least(keys: set<string>): (k: string)
    requires keys != {}
    ensures IsLeast(k, keys)
  {
    HasLeast(keys);
    assert forall a, b :: IsLeast(a, keys) && IsLeast(b, keys) ==> a == b by {
      forall a, b | IsLeast(a, keys) && IsLeast(b, keys) ensures a == b {
        LeqAntisymmetric(a, b);
      }
    }
    var k :| IsLeast(k, keys);
    k
  }

  /** The keys of a map as sort.Strings orders them. */
  function SortedKeys(keys: set<string>): (ks: seq<string>)
    ensures |ks| == |keys|
    ensures forall k :: k in ks <==> k in keys
    ensures forall i, j :: 0 <= i < j < |ks| ==> ks[i] != ks[j] && Leq(ks[i], ks[j])
    decreases keys
  {
    if keys == {} then []
    else
      var k := Least(keys);
      [k] + SortedKeys(keys - {k})
  }
}
