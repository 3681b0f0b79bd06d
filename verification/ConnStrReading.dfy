/** Where in a written connection string a token can come from, and what its value then looks
    like, wherever the reader may have got to. */
module ConnStrReading {
  import opened Text
  import opened ConnStr
  import opened ConnStrRoundTrip
  import opened ConnStrDescent

  // ---- tokens of any text ----

  lemma TrimHasNoMore(s: string, c: char)
    requires c !in s
    ensures c !in TrimSpace(s)
  {
    TrimLeftSays(s);
    TrimRightSays(TrimLeft(s));
    assert forall d :: d in TrimLeft(s) ==> d in s;
    assert forall d :: d in TrimSpace(s) ==> d in TrimLeft(s);
  }

  lemma KeyOfToken(t: string, tok: Token)
    requires ReadToken(t) == Some(tok)
    ensures Trimmed(tok.pair.key) && '=' !in tok.pair.key
  {
    KeysAreTrimmed(t);
    TokenParts(t);
    TrimHasNoMore(t[..IndexOf(t, '=')], '=');
  }

  lemma {:induction false} SkipIsSuffix(s: string) returns (d: nat)
    ensures d <= |s| && SkipBlanks(s) == s[d..]
    ensures forall i :: 0 <= i < d ==> s[i] in BLANKS
  {
    d := 0;
    if s != "" && s[0] in BLANKS {
      d := SkipIsSuffix(s[1..]);
      d := d + 1;
    }
  }

  /** The first token of a text, `d` blanks into it, and the others. */
  lemma FirstAndOthers(s: string, ts: seq<Pair>) returns (d: nat, tok: Token, more: seq<Pair>)
    requires Tokens(s) == Ok(ts) && ts != []
    ensures d <= |s| && SkipBlanks(s) == s[d..] && ReadToken(s[d..]) == Some(tok)
    ensures Tokens(tok.rest) == Ok(more) && ts == [tok.pair] + more && |tok.rest| < |s|
  {
    d := SkipIsSuffix(s);
    tok := ReadToken(SkipBlanks(s)).value;
    more := Tokens(tok.rest).value;
  }

  /** Behind the equals sign at `n` the reader reads `v`. */
  ghost predicate ReadsAt(s: string, n: nat, v: string) {
    && n < |s| && s[n] == '='
    && ReadValue(s[n + 1..]).Some? && ReadValue(s[n + 1..]).value.value == v
  }

  lemma ReadsAtSuffix(s: string, d: nat, n: nat, v: string)
    requires d <= |s| && ReadsAt(s[d..], n, v)
    ensures ReadsAt(s, d + n, v)
  {
    assert s[d..][n + 1..] == s[d + n + 1..];
  }

  lemma ValueRestIsSuffix(t: string) returns (d: nat)
    requires ReadValue(t).Some?
    ensures d <= |t| && ReadValue(t).value.rest == t[d..]
  {
    d := |t| - |ReadValue(t).value.rest|;
  }

  lemma TokenRestIsSuffix(t: string, tok: Token) returns (n: nat, d: nat)
    requires ReadToken(t) == Some(tok)
    ensures d <= |t| && tok.rest == t[d..]
    ensures ReadsAt(t, n, tok.pair.value)
  {
    TokenParts(t);
    n := IndexOf(t, '=');
    d := ValueRestIsSuffix(t[n + 1..]);
    assert t[n + 1..][d..] == t[n + 1 + d..];
    d := n + 1 + d;
  }

  /** A token of the text: its key is trimmed and has no equals sign, and its value is read behind
      some equals sign. */
  ghost predicate TokenOf(s: string, p: Pair) {
    Trimmed(p.key) && '=' !in p.key && exists n :: ReadsAt(s, n, p.value)
  }

  lemma TokenOfSuffix(s: string, d: nat, p: Pair)
    requires d <= |s| && TokenOf(s[d..], p)
    ensures TokenOf(s, p)
  {
    var n: nat :| ReadsAt(s[d..], n, p.value);
    ReadsAtSuffix(s, d, n, p.value);
  }

  lemma TokenHere(t: string, tok: Token) returns (e: nat)
    requires ReadToken(t) == Some(tok)
    ensures e <= |t| && tok.rest == t[e..] && TokenOf(t, tok.pair)
  {
    var n;
    n, e := TokenRestIsSuffix(t, tok);
    KeyOfToken(t, tok);
  }

  lemma FirstToken(s: string, ts: seq<Pair>) returns (e: nat, more: seq<Pair>)
    requires Tokens(s) == Ok(ts) && ts != []
    ensures 0 < e <= |s| && Tokens(s[e..]) == Ok(more) && ts == [ts[0]] + more
    ensures TokenOf(s, ts[0])
  {
    var d, tok;
    d, tok, more := FirstAndOthers(s, ts);
    e := TokenHere(s[d..], tok);
    TokenOfSuffix(s, d, tok.pair);
    assert s[d..][e..] == s[d + e..];
    e := d + e;
  }

  /** A text from which the tokens can be taken one after the other. */
  ghost predicate Chain(s: string, ts: seq<Pair>)
    decreases ts
  {
    ts == [] || (TokenOf(s, ts[0]) && exists e: nat :: e <= |s| && Chain(s[e..], ts[1..]))
  }

  lemma {:induction false} TokensChain(s: string, ts: seq<Pair>)
    requires Tokens(s) == Ok(ts)
    ensures Chain(s, ts)
    decreases |s|
  {
    if ts != [] {
      var e, more := FirstToken(s, ts);
      TokensChain(s[e..], more);
      ChainMore(s, e, ts, more);
    }
  }

  lemma ChainMore(s: string, e: nat, ts: seq<Pair>, more: seq<Pair>)
    requires ts != [] && ts == [ts[0]] + more && TokenOf(s, ts[0]) && e <= |s| && Chain(s[e..], more)
    ensures Chain(s, ts)
  {
    assert ts[1..] == more;
  }

  lemma {:induction false} EveryOfChain(s: string, ts: seq<Pair>, i: nat)
    requires Chain(s, ts) && i < |ts|
    ensures TokenOf(s, ts[i])
    decreases i
  {
    if i > 0 {
      var e: nat :| e <= |s| && Chain(s[e..], ts[1..]);
      EveryOfChain(s[e..], ts[1..], i - 1);
      TokenOfSuffix(s, e, ts[i]);
    }
  }

  lemma EveryToken(s: string, ts: seq<Pair>, i: nat)
    requires Tokens(s) == Ok(ts) && i < |ts|
    ensures TokenOf(s, ts[i])
  {
    TokensChain(s, ts);
    EveryOfChain(s, ts, i);
  }

  // ---- equals signs in a written string ----

  ghost predicate PlainKeys(qs: seq<Pair>) {
    forall i :: 0 <= i < |qs| ==> '=' !in qs[i].key
  }

  /** The text begins with the value of entry `j`, or with what follows an equals sign in it. */
  ghost predicate Placed(qs: seq<Pair>, text: string, j: nat, b: string) {
    && j < |qs| && text == b + Tail(qs[j + 1..])
    && (b == Quote(qs[j].value) || exists a :: Quote(qs[j].value) == a + "=" + b)
  }

  lemma FirstParts(key: string, q: string, tail: string, n: nat) returns (b: string)
    requires '=' !in key && n < |key + "=" + q| && (key + "=" + q)[n] == '='
    ensures (key + "=" + q + tail)[n + 1..] == b + tail
    ensures b == q || exists a :: q == a + "=" + b
  {
    var k := |key|;
    assert forall i :: 0 <= i < k ==> (key + "=" + q)[i] == key[i];
    b := q[n - k..];
    if n > k {
      assert (key + "=" + q)[n] == q[n - k - 1];
      assert q == q[..n - k - 1] + "=" + b;
    }
  }

  lemma PlacedInFirst(qs: seq<Pair>, n: nat) returns (b: string)
    requires PlainKeys(qs) && qs != [] && n < |Entry(qs[0])| && Entry(qs[0])[n] == '='
    ensures Placed(qs, Written(qs)[n + 1..], 0, b)
  {
    b := FirstParts(qs[0].key, Quote(qs[0].value), Tail(qs[1..]), n);
  }

  lemma PlacedLater(qs: seq<Pair>, text: string, j: nat, b: string)
    requires qs != [] && Placed(qs[1..], text, j, b)
    ensures Placed(qs, text, j + 1, b)
  {
    assert qs[1..][j + 1..] == qs[j + 2..];
  }

  lemma BehindFirst(e: string, w: string, n: nat)
    requires |e| < n < |e + ([' '] + w)|
    ensures (e + ([' '] + w))[n] == w[n - |e| - 1] && (e + ([' '] + w))[n + 1..] == w[n - |e|..]
  {
  }

  lemma {:induction false} EqualsAreFound(qs: seq<Pair>, n: nat) returns (j: nat, b: string)
    requires PlainKeys(qs) && n < |Written(qs)| && Written(qs)[n] == '='
    ensures Placed(qs, Written(qs)[n + 1..], j, b)
  {
    var e, rest := Entry(qs[0]), qs[1..];
    if n < |e| {
      assert Written(qs)[n] == e[n];
      b := PlacedInFirst(qs, n);
      j := 0;
    } else {
      TailIsWritten(rest);
      assert n != |e|;
      BehindFirst(e, Written(rest), n);
      j, b := EqualsAreFound(rest, n - |e| - 1);
      PlacedLater(qs, Written(rest)[n - |e|..], j, b);
      j := j + 1;
    }
  }
}
