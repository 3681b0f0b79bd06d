/** What the reader can take for a value in a written connection string, and how it falls back into
    step with the entries when quotes stand only at the ends of values. */
module ConnStrAlignment {
  import opened Text
  import opened ConnStr
  import opened ConnStrRoundTrip
  import opened ConnStrDescent
  import opened ConnStrReading

  // ---- reading from anywhere ----

  /** A value that the reader takes from the text of the value `v`: without a quote it is one that
      the writer would write so that it can be read, and with a quote it stands in that text. */
  ghost predicate Fits(r: string, v: string) {
    && ('\'' !in r ==> NeedsQuotes(r) || NoBlankIn(r))
    && ('\'' in r ==> NoBlankIn(r) && StandsIn(r, v))
  }

  lemma ReadUnquoted(b: string, rest: string) returns (r: string)
    requires Separated(rest) && (b != "" ==> b[0] != '\'')
    ensures ReadValue(b + rest).Some? && ReadValue(b + rest).value.value == r
    ensures r <= b && NoBlankIn(r)
  {
    var t := b + rest;
    IndexAnySays(t, BLANKS);
    var end := IndexAny(t, BLANKS);
    assert t != "" ==> t[0] == if b == "" then rest[0] else b[0];
    assert ' ' in BLANKS;
    assert rest != "" ==> t[|b|] == ' ';
    assert rest == "" ==> t == b;
    r := if end < 0 then t else t[..end];
    assert forall i :: 0 <= i < |r| ==> r[i] == t[i];
  }

  lemma FirstQuote(v: string) returns (p: string, q: string)
    requires '\'' in v
    ensures v == p + "'" + q && '\'' !in p
  {
    var i := IndexOf(v, '\'');
    p, q := v[..i], v[i + 1..];
    assert v == v[..i] + [v[i]] + v[i + 1..];
  }

  /** From its beginning a quoted value is read as itself, or up to its first quote and then a
      backslash. */
  lemma ReadFromStart(v: string, rest: string) returns (r: string)
    requires NeedsQuotes(v)
    ensures ReadValue(Quote(v) + rest).Some? && ReadValue(Quote(v) + rest).value.value == r
    ensures '\'' !in r && NeedsQuotes(r)
  {
    if '\'' in v {
      var p, q := FirstQuote(v);
      QuoteCutsValue(p, q, rest);
      r := p + "\\";
      assert r[|p|] == '\\';
    } else {
      EscapeKeeps(v);
      ReadQuoted(v, rest);
      r := v;
    }
  }

  lemma BackslashBefore(v: string, p: nat)
    requires p < |Escape(v)| && Escape(v)[p] == '\''
    ensures p > 0 && Escape(v)[p - 1] == '\\'
  {
    var q := QuoteIsEscaped(v, p);
    assert Escape(v)[..p][p - 1] == (Escape(q.before) + "\\")[p - 1];
  }

  /** Behind an equals sign in a quoted text a quote can only be the closing one. */
  lemma OnlyClosingQuote(v: string, a: string, b: string)
    requires Escape(v) + "'" == a + "=" + b && b != "" && b[0] == '\''
    ensures b == "'"
  {
    var p := |a| + 1;
    var whole := Escape(v) + "'";
    assert whole[p] == b[0] && whole[p - 1] == '=';
    if |b| > 1 {
      BackslashBefore(v, p);
    }
  }

  /** From a closing quote on, the blank before the next entry is read, or nothing at all. */
  lemma ReadFromClosing(rest: string)
    requires Separated(rest) && ReadValue("'" + rest).Some?
    ensures var r := ReadValue("'" + rest).value.value; '\'' !in r && NeedsQuotes(r)
  {
    var t := "'" + rest;
    assert t[1..] == rest;
    var end := IndexOf(rest, '\'');
    assert t[1..end + 1] == rest[..end];
    assert rest[..end][0] == ' ';
  }

  lemma NoQuoteInside(v: string, a: string, b: string)
    requires '\'' !in v && v == a + "=" + b
    ensures '\'' !in b
  {
    assert forall i :: 0 <= i < |b| ==> b[i] == v[|a| + 1 + i];
  }

  lemma PrefixHas(r: string, b: string, c: char)
    requires r <= b && c in r
    ensures c in b
  {
  }

  lemma StandsBehind(v: string, a: string, b: string, r: string)
    requires Escape(v) + "'" == a + "=" + b && r <= b
    ensures StandsIn(r, v)
  {
    assert b == r + b[|r|..];
    assert Escape(v) + "'" == a + "=" + r + b[|r|..];
  }

  lemma ReadInside(v: string, a: string, b: string, rest: string)
    requires NeedsQuotes(v) && Quote(v) == a + "=" + b && Separated(rest) && ReadValue(b + rest).Some?
    ensures Fits(ReadValue(b + rest).value.value, v)
  {
    assert a != "" by {
      assert Quote(v)[0] == '\'';
    }
    assert Quote(v)[1..] == Escape(v) + "'" && (a + "=" + b)[1..] == a[1..] + "=" + b;
    if b != "" && b[0] == '\'' {
      OnlyClosingQuote(v, a[1..], b);
      ReadFromClosing(rest);
    } else {
      var r := ReadUnquoted(b, rest);
      StandsBehind(v, a[1..], b, r);
    }
  }

  lemma ReadPlainValue(b: string, rest: string, v: string)
    requires '\'' !in b && Separated(rest)
    ensures ReadValue(b + rest).Some? && Fits(ReadValue(b + rest).value.value, v)
  {
    var r := ReadUnquoted(b, rest);
    if '\'' in r {
      PrefixHas(r, b, '\'');
    }
  }

  lemma ReadPlaced(qs: seq<Pair>, text: string, j: nat, b: string)
    requires Placed(qs, text, j, b) && ReadValue(text).Some?
    ensures Fits(ReadValue(text).value.value, qs[j].value)
  {
    var v, rest := qs[j].value, Tail(qs[j + 1..]);
    TailIsSeparated(qs[j + 1..]);
    if !NeedsQuotes(v) {
      if b != v {
        var a :| v == a + "=" + b;
        NoQuoteInside(v, a, b);
      }
      ReadPlainValue(b, rest, v);
    } else if b == Quote(v) {
      var r := ReadFromStart(v, rest);
    } else {
      var a :| Quote(v) == a + "=" + b;
      ReadInside(v, a, b, rest);
    }
  }

  /** Every value that is read from a written string fits one of its values. */
  lemma TokenFits(qs: seq<Pair>, ts: seq<Pair>, i: nat) returns (j: nat)
    requires PlainKeys(qs) && Tokens(Written(qs)) == Ok(ts) && i < |ts|
    ensures j < |qs| && Fits(ts[i].value, qs[j].value)
  {
    var s, v := Written(qs), ts[i].value;
    EveryToken(s, ts, i);
    var n: nat :| ReadsAt(s, n, v);
    var b;
    j, b := EqualsAreFound(qs, n);
    ReadPlaced(qs, s[n + 1..], j, b);
  }

  // ---- falling back into step ----

  /** A value whose quotes, if any, have nothing ordinary behind them, and which is in quotes if it
      holds a blank. */
  ghost predicate Calm(v: string) {
    (NeedsQuotes(v) || NoBlankIn(v)) && forall n :: !BadQuote(v, n)
  }

  lemma SkipJunk(g: string, u: string) returns (h: string)
    requires '=' !in g
    ensures SkipBlanks(g + "=" + u) == h + "=" + u && '=' !in h
  {
    var s := g + "=" + u;
    var d := SkipIsSuffix(s);
    assert s[|g|] == '=' && '=' !in BLANKS;
    assert d <= |g|;
    h := g[d..];
    assert s[d..] == h + "=" + u;
  }

  lemma TokenBehindJunk(h: string, u: string, r: string, rest: string)
    requires '=' !in h && ReadValue(u) == Some(Scanned(r, rest))
    ensures ReadToken(h + "=" + u) == Some(Token(Pair(TrimSpace(h), r), rest))
  {
    var s := h + "=" + u;
    assert s[..|h|] == h && s[|h| + 1..] == u;
    IndexAt(s, |h|, '=');
  }

  lemma NoEqualsEscaped(q: string)
    requires !HasOrdinary(q)
    ensures '=' !in Escape(q)
  {
    if '=' in Escape(q) {
      var i :| 0 <= i < |Escape(q)| && Escape(q)[i] == '=';
      OrdinaryInEscape(q, i);
    }
  }

  /** From its beginning the text of a calm value is read without a quote, and what is left of it
      holds no equals sign. */
  lemma ReadCalm(v: string, tail: string) returns (r: string, junk: string)
    requires Calm(v) && Separated(tail)
    ensures ReadValue(Quote(v) + tail) == Some(Scanned(r, junk + tail))
    ensures '\'' !in r && '=' !in junk
  {
    if '\'' in v {
      var p, q := FirstQuote(v);
      QuoteCutsValue(p, q, tail);
      r, junk := p + "\\", Escape(q) + "'";
      assert !HasOrdinary(q) by {
        if HasOrdinary(q) {
          assert BadQuote(v, Backslashes(p));
        }
      }
      NoEqualsEscaped(q);
    } else {
      ReadPrintedValue(v, tail);
      r, junk := v, "";
      assert junk + tail == tail;
    }
  }

  lemma EntryWithJunk(junk: string, key: string, q: string, tail: string)
    ensures junk + (key + "=" + q + tail) == (junk + key) + "=" + (q + tail)
  {
  }

  lemma NextJunk(junk: string, rest: seq<Pair>) returns (more: string)
    requires '=' !in junk
    ensures junk + Tail(rest) == more + Written(rest) && '=' !in more
  {
    if rest == [] {
      more := junk;
    } else {
      TailIsWritten(rest);
      more := junk + [' '];
    }
  }

  /** However the reader comes to an entry, it reads a value without a quote at the place of the
      entry's own value, and goes on to the next entry. */
  lemma AlignedHead(junk: string, qs: seq<Pair>) returns (tok: Token, more: string)
    requires '=' !in junk && qs != [] && '=' !in qs[0].key && Calm(qs[0].value)
    ensures SkipBlanks(junk + Written(qs)) != "" && ReadToken(SkipBlanks(junk + Written(qs))) == Some(tok)
    ensures '\'' !in tok.pair.value && tok.rest == more + Written(qs[1..]) && '=' !in more
  {
    var p, tail := qs[0], Tail(qs[1..]);
    TailIsSeparated(qs[1..]);
    var r, left := ReadCalm(p.value, tail);
    EntryWithJunk(junk, p.key, Quote(p.value), tail);
    var h := SkipJunk(junk + p.key, Quote(p.value) + tail);
    TokenBehindJunk(h, Quote(p.value) + tail, r, left + tail);
    tok := Token(Pair(TrimSpace(h), r), left + tail);
    more := NextJunk(left, qs[1..]);
  }

  lemma NothingInJunk(junk: string, ts: seq<Pair>)
    requires '=' !in junk && Tokens(junk) == Ok(ts)
    ensures ts == []
  {
    var d := SkipIsSuffix(junk);
    assert forall c :: c in junk[d..] ==> c in junk;
  }

  ghost predicate NoQuotes(ts: seq<Pair>) {
    forall i :: 0 <= i < |ts| ==> '\'' !in ts[i].value
  }

  lemma TokensFrom(s: string, tok: Token, ts: seq<Pair>) returns (more: seq<Pair>)
    requires SkipBlanks(s) != "" && ReadToken(SkipBlanks(s)) == Some(tok) && Tokens(s) == Ok(ts)
    ensures Tokens(tok.rest) == Ok(more) && ts == [tok.pair] + more
  {
    TokensUnfold(s, tok);
    more := Tokens(tok.rest).value;
  }

  /** From calm entries no value with a quote is ever read. */
  lemma {:induction false} CalmIsReadWithoutQuotes(junk: string, qs: seq<Pair>, ts: seq<Pair>)
    requires '=' !in junk && PlainKeys(qs) && forall i :: 0 <= i < |qs| ==> Calm(qs[i].value)
    requires Tokens(junk + Written(qs)) == Ok(ts)
    ensures NoQuotes(ts)
    decreases |qs|
  {
    if qs == [] {
      assert junk + Written(qs) == junk;
      NothingInJunk(junk, ts);
    } else {
      var tok, next := AlignedHead(junk, qs);
      var more := TokensFrom(junk + Written(qs), tok, ts);
      CalmIsReadWithoutQuotes(next, qs[1..], more);
    }
  }
}
