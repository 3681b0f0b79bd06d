/** When a connection string is read back as it was written. */
module ConnStrRoundTrip {
  import opened Text
  import opened ConnStr
  import Decimal
  import Int64

  predicate NoBlankIn(v: string) {
    forall i :: 0 <= i < |v| ==> v[i] !in BLANKS
  }

  /** The pairs that survive: the key has no equals sign and no white space at its ends; the
      value has no single quote, and if it has a tab or a line break then also something that
      puts it into quotes. */
  predicate Printable(p: Pair) {
    && '=' !in p.key && Trimmed(p.key)
    && '\'' !in p.value && (NeedsQuotes(p.value) || NoBlankIn(p.value))
  }

  // ---- one entry ----

  lemma {:induction false} EscapeKeeps(v: string)
    ensures '\'' !in v ==> Escape(v) == v
  {
    if v != "" {
      EscapeKeeps(v[1..]);
      assert v == [v[0]] + v[1..];
    }
  }

  lemma IndexAt(s: string, i: nat, c: char)
    requires i < |s| && s[i] == c && c !in s[..i]
    ensures IndexOf(s, c) == i
  {
    var k := IndexOf(s, c);
    assert forall j :: 0 <= j < i ==> s[..i][j] == s[j];
    assert forall j :: 0 <= j < k ==> s[..k][j] == s[j];
  }

  /** A text that can follow an entry. */
  predicate Separated(tail: string) {
    tail == "" || tail[0] == ' '
  }

  lemma ReadQuoted(v: string, tail: string)
    requires '\'' !in v
    ensures ReadValue("'" + v + "'" + tail) == Some(Scanned(v, tail))
  {
    var t := "'" + v + "'" + tail;
    var u := v + "'" + tail;
    assert t[1..] == u && u[..|v|] == v;
    IndexAt(u, |v|, '\'');
    assert t[1..|v| + 1] == v && t[|v| + 2..] == tail;
  }

  lemma ReadPlain(v: string, tail: string)
    requires NoBlankIn(v) && (v != "" ==> v[0] != '\'') && Separated(tail)
    ensures ReadValue(v + tail) == Some(Scanned(v, tail))
  {
    var t := v + tail;
    assert t[..|v|] == v && t[|v|..] == tail;
    assert ' ' in BLANKS;
    var end := IndexAny(t, BLANKS);
    IndexAnySays(t, BLANKS);
    assert forall i :: 0 <= i < |v| ==> t[i] == v[i];
    assert tail != "" ==> t[|v|] == ' ';
    assert t != "" ==> t[0] == if v == "" then ' ' else v[0];
    assert end == if tail == "" then -1 else |v|;
    assert tail == "" ==> t == v;
  }

  lemma ReadPrintedValue(v: string, tail: string)
    requires '\'' !in v && (NeedsQuotes(v) || NoBlankIn(v)) && Separated(tail)
    ensures ReadValue(Quote(v) + tail) == Some(Scanned(v, tail))
  {
    if NeedsQuotes(v) {
      EscapeKeeps(v);
      ReadQuoted(v, tail);
    } else {
      ReadPlain(v, tail);
    }
  }

  lemma ReadAt(s: string, n: nat, p: Pair, tail: string)
    requires n < |s| && s[..n] == p.key && Trimmed(p.key)
    requires ReadValue(s[n + 1..]) == Some(Scanned(p.value, tail))
    ensures TokenAt(s, n) == Some(Token(p, tail))
  {
    TrimOfTrimmed(p.key);
  }

  lemma ReadPrinted(p: Pair, tail: string)
    requires Printable(p) && Separated(tail)
    ensures ReadToken(Entry(p) + tail) == Some(Token(p, tail))
  {
    var s := Entry(p) + tail;
    assert s[..|p.key|] == p.key;
    IndexAt(s, |p.key|, '=');
    AfterKey(p, tail);
    ReadPrintedValue(p.value, tail);
    ReadAt(s, |p.key|, p, tail);
  }

  /** Whatever is read as a value: nothing that ends a value is part of it. */
  lemma ReadValueShape(t: string)
    requires ReadValue(t).Some?
    ensures var v := ReadValue(t).value.value;
      if t != "" && t[0] == '\'' then '\'' !in v else NoBlankIn(v) && v <= t
  {
    IndexAnySays(t, BLANKS);
  }

  /** Only printable entries are read as they were written. */
  lemma OnlyPrintedIsRead(p: Pair, tail: string)
    requires Separated(tail)
    requires var r := ReadToken(SkipBlanks(Entry(p) + tail)); r.Some? && r.value.pair == p
    ensures Printable(p)
  {
    KeysAreTrimmed(SkipBlanks(Entry(p) + tail));
    FirstOfEntry(p, tail);
    OnlyPrintedHeadIsRead(p, tail);
  }

  lemma KeysAreTrimmed(t: string)
    requires ReadToken(t).Some?
    ensures Trimmed(ReadToken(t).value.pair.key)
  {
    TrimIsTrimmed(t[..IndexOf(t, '=')]);
  }

  lemma TokenParts(s: string)
    requires ReadToken(s).Some?
    ensures IndexOf(s, '=') >= 0 && ReadToken(s) == TokenAt(s, IndexOf(s, '='))
  {}

  lemma OnlyPrintedHeadIsRead(p: Pair, tail: string)
    requires var r := ReadToken(Entry(p) + tail); r.Some? && r.value.pair == p
    requires Trimmed(p.key)
    ensures Printable(p)
  {
    var s := Entry(p) + tail;
    TokenParts(s);
    KeyIsRead(p, tail);
    AfterKey(p, tail);
    OnlyPrintedValueIsRead(p.value, tail);
  }

  lemma AfterKey(p: Pair, tail: string)
    ensures (Entry(p) + tail)[|p.key| + 1..] == Quote(p.value) + tail
  {}

  lemma KeyIsRead(p: Pair, tail: string)
    requires var eq := IndexOf(Entry(p) + tail, '='); eq >= 0 && TrimSpace((Entry(p) + tail)[..eq]) == p.key
    ensures IndexOf(Entry(p) + tail, '=') == |p.key| && '=' !in p.key
  {
    var s := Entry(p) + tail;
    var eq := IndexOf(s, '=');
    assert s[|p.key|] == '=';
    assert forall j :: 0 <= j < eq ==> s[..eq][j] == s[j];
    assert s[..|p.key|] == p.key;
  }

  lemma OnlyPrintedValueIsRead(v: string, tail: string)
    requires var r := ReadValue(Quote(v) + tail); r.Some? && r.value.value == v
    ensures '\'' !in v && (NeedsQuotes(v) || NoBlankIn(v))
  {
    ReadValueShape(Quote(v) + tail);
    assert !NeedsQuotes(v) && v != "" ==> (Quote(v) + tail)[0] == v[0];
  }

  lemma FirstOfEntry(p: Pair, tail: string)
    requires Trimmed(p.key)
    ensures Entry(p) + tail != "" && (Entry(p) + tail)[0] !in BLANKS
    ensures SkipBlanks(Entry(p) + tail) == Entry(p) + tail
  {
    var s := Entry(p) + tail;
    assert s[0] == if p.key == "" then '=' else p.key[0];
    assert forall c :: c in BLANKS ==> IsSpace(c);
  }

  // ---- whole strings ----

  ghost predicate AllPrintable(ps: seq<Pair>) {
    forall i :: 0 <= i < |ps| ==> Printable(ps[i])
  }

  lemma TailIsWritten(ps: seq<Pair>)
    requires ps != []
    ensures Tail(ps) == [' '] + Written(ps)
  {
  }

  lemma TokensAfterBlank(w: string)
    ensures Tokens([' '] + w) == Tokens(w)
  {
    assert ([' '] + w)[1..] == w;
    assert ' ' in BLANKS;
    assert SkipBlanks([' '] + w) == SkipBlanks(w);
  }

  lemma TailIsSeparated(ps: seq<Pair>)
    ensures Separated(Tail(ps))
    ensures Tokens(Tail(ps)) == Tokens(Written(ps))
  {
    if ps != [] {
      TailIsWritten(ps);
      TokensAfterBlank(Written(ps));
      assert ' ' in BLANKS;
    }
  }

  /** The list of tokens is the list of pairs exactly when every pair is printable. */
  lemma {:induction false} TokensOfWritten(ps: seq<Pair>)
    ensures Tokens(Written(ps)) == Ok(ps) <==> AllPrintable(ps)
  {
    if ps != [] {
      var p, rest := ps[0], ps[1..];
      TailIsSeparated(rest);
      TokensOfWritten(rest);
      assert ps == [p] + rest;
      HeadDecides(p, rest);
    }
  }

  lemma HeadDecides(p: Pair, rest: seq<Pair>)
    requires Separated(Tail(rest)) && (Tokens(Tail(rest)) == Ok(rest) <==> AllPrintable(rest))
    ensures Tokens(Entry(p) + Tail(rest)) == Ok([p] + rest) <==> AllPrintable([p] + rest)
  {
    var s, ps := Entry(p) + Tail(rest), [p] + rest;
    PrintableHeadAndRest(p, rest);
    if Printable(p) {
      HeadIsRead(p, Tail(rest));
      assert Tokens(Tail(rest)).Ok? ==> ([p] + Tokens(Tail(rest)).value)[1..] == Tokens(Tail(rest)).value;
      assert ps[1..] == rest;
    } else if Tokens(s) == Ok(ps) {
      FirstTokenOf(s, ps);
      OnlyPrintedIsRead(p, Tail(rest));
    }
  }

  lemma FirstTokenOf(s: string, ps: seq<Pair>)
    requires Tokens(s) == Ok(ps) && ps != []
    ensures var r := ReadToken(SkipBlanks(s)); r.Some? && r.value.pair == ps[0]
  {}

  lemma HeadIsRead(p: Pair, tail: string)
    requires Printable(p) && Separated(tail)
    ensures Tokens(Entry(p) + tail) == if Tokens(tail).Err? then Err else Ok([p] + Tokens(tail).value)
  {
    FirstOfEntry(p, tail);
    ReadPrinted(p, tail);
    TokensUnfold(Entry(p) + tail, Token(p, tail));
  }

  lemma PrintableHeadAndRest(p: Pair, rest: seq<Pair>)
    ensures AllPrintable([p] + rest) <==> Printable(p) && AllPrintable(rest)
  {
    var ps := [p] + rest;
    if AllPrintable(ps) {
      assert ps[0] == p;
      forall i | 0 <= i < |rest| ensures Printable(rest[i]) { assert rest[i] == ps[i + 1]; }
    }
  }

  // ---- the white space around the string ----

  /** The last value does not end in white space, unless it is in quotes. */
  predicate EndsWell(ps: seq<Pair>) {
    ps != [] ==>
      var v := ps[|ps| - 1].value;
      NeedsQuotes(v) || v == "" || !IsSpace(v[|v| - 1])
  }

  /** The text up to and including the last value's equals sign. */
  function UpToLastValue(ps: seq<Pair>): (s: string)
    requires ps != []
    ensures s != "" && s[|s| - 1] == '='
  {
    if |ps| == 1 then ps[0].key + "=" else Entry(ps[0]) + " " + UpToLastValue(ps[1..])
  }

  lemma Associative(a: string, b: string, c: string)
    ensures a + (b + c) == (a + b) + c
  {}

  lemma WrittenHead(ps: seq<Pair>)
    requires |ps| > 1
    ensures Written(ps) == (Entry(ps[0]) + " ") + Written(ps[1..])
  {
    var rest := ps[1..];
    Associative(" ", Entry(rest[0]), Tail(rest[1..]));
    Associative(Entry(ps[0]), " ", Written(rest));
  }

  lemma {:induction false} WrittenEnds(ps: seq<Pair>)
    requires ps != []
    ensures Written(ps) == UpToLastValue(ps) + Quote(ps[|ps| - 1].value)
  {
    if |ps| > 1 {
      WrittenHead(ps);
      WrittenEnds(ps[1..]);
      Associative(Entry(ps[0]) + " ", UpToLastValue(ps[1..]), Quote(ps[|ps| - 1].value));
    } else {
      assert Written(ps) == Entry(ps[0]) + "";
    }
  }

  lemma {:induction false} TrimRightOfConcat(a: string, v: string)
    requires a != "" && !IsSpace(a[|a| - 1])
    ensures TrimRight(a + v) == a + TrimRight(v)
  {
    if v == "" {
      assert a + v == a;
    } else if IsSpace(v[|v| - 1]) {
      assert (a + v)[..|a + v| - 1] == a + v[..|v| - 1];
      TrimRightOfConcat(a, v[..|v| - 1]);
    }
  }

  /** The same pairs with another last value. */
  function WithLast(ps: seq<Pair>, v: string): seq<Pair>
    requires ps != []
  {
    ps[..|ps| - 1] + [Pair(ps[|ps| - 1].key, v)]
  }

  lemma {:induction false} UpToLastValueIgnoresIt(ps: seq<Pair>, v: string)
    requires ps != []
    ensures UpToLastValue(WithLast(ps, v)) == UpToLastValue(ps)
  {
    if |ps| > 1 {
      UpToLastValueIgnoresIt(ps[1..], v);
      assert WithLast(ps, v)[1..] == WithLast(ps[1..], v);
    }
  }

  lemma PrefixNeedsNoQuotes(v: string, w: string)
    requires !NeedsQuotes(v) && w <= v
    ensures !NeedsQuotes(w)
  {
    assert forall c :: c in w ==> c in v;
  }

  lemma WrittenBegins(ps: seq<Pair>)
    requires ps != [] && Trimmed(ps[0].key)
    ensures TrimLeft(Written(ps)) == Written(ps)
  {
    var s := Written(ps);
    assert s[0] == if ps[0].key == "" then '=' else ps[0].key[0];
  }

  /** Trimming the written string trims its last value. */
  lemma TrimmedWritten(ps: seq<Pair>)
    requires ps != [] && Trimmed(ps[0].key)
    ensures EndsWell(ps) ==> TrimSpace(Written(ps)) == Written(ps)
    ensures !EndsWell(ps) ==> TrimSpace(Written(ps)) == Written(WithLast(ps, TrimRight(ps[|ps| - 1].value)))
  {
    var v := ps[|ps| - 1].value;
    WrittenBegins(ps);
    WrittenEnds(ps);
    TrimRightOfConcat(UpToLastValue(ps), Quote(v));
    if EndsWell(ps) {
      QuoteEnds(v);
    } else {
      LastValueTrimmed(ps);
    }
  }

  lemma QuoteEnds(v: string)
    requires NeedsQuotes(v) || v == "" || !IsSpace(v[|v| - 1])
    ensures TrimRight(Quote(v)) == Quote(v)
  {
    assert NeedsQuotes(v) ==> Quote(v)[|Quote(v)| - 1] == '\'';
  }

  lemma LastValueTrimmed(ps: seq<Pair>)
    requires ps != [] && !NeedsQuotes(ps[|ps| - 1].value)
    ensures var w := TrimRight(ps[|ps| - 1].value); UpToLastValue(ps) + w == Written(WithLast(ps, w))
  {
    var w := TrimRight(ps[|ps| - 1].value);
    TrimRightSays(ps[|ps| - 1].value);
    PrefixNeedsNoQuotes(ps[|ps| - 1].value, w);
    UpToLastValueIgnoresIt(ps, w);
    WrittenEnds(WithLast(ps, w));
  }

  // ---- the list of tokens ----

  /** A string whose last value was shortened is not read as the original list. */
  lemma {:induction false} ShortenedIsNotRead(ps: seq<Pair>, w: string)
    requires ps != [] && !NeedsQuotes(w) && |w| < |ps[|ps| - 1].value|
    ensures Tokens(Written(WithLast(ps, w))) != Ok(ps)
  {
    if |ps| > 1 {
      ShortenedIsNotRead(ps[1..], w);
      var qs := WithLast(ps, w);
      assert qs[0] == ps[0] && qs[1..] == WithLast(ps[1..], w);
      if Tokens(Written(qs)) == Ok(ps) {
        RestIsRead(qs, ps);
      }
    } else {
      ShortenedOnlyPair(ps, w);
    }
  }

  /** If the first pair is read as written then the others are read from the rest. */
  lemma RestIsRead(qs: seq<Pair>, ps: seq<Pair>)
    requires qs != [] && ps != [] && qs[0] == ps[0] && Tokens(Written(qs)) == Ok(ps)
    ensures Tokens(Written(qs[1..])) == Ok(ps[1..])
  {
    TailIsSeparated(qs[1..]);
    FirstTokenOf(Written(qs), ps);
    OnlyPrintedIsRead(ps[0], Tail(qs[1..]));
    HeadIsRead(ps[0], Tail(qs[1..]));
  }

  lemma ShortenedOnlyPair(ps: seq<Pair>, w: string)
    requires |ps| == 1 && !NeedsQuotes(w) && |w| < |ps[0].value|
    ensures Tokens(Written(WithLast(ps, w))) != Ok(ps)
  {
    var q := Pair(ps[0].key, w);
    assert WithLast(ps, w) == [q];
    assert Written([q]) == Entry(q) + "";
    if Tokens(Entry(q) + "") == Ok(ps) {
      FirstTokenOf(Entry(q) + "", ps);
      ShortValue(q);
    }
  }

  /** An unquoted value is read from the entry's own text. */
  lemma ShortValue(q: Pair)
    requires var r := ReadToken(SkipBlanks(Entry(q) + "")); r.Some? && r.value.pair.key == q.key
    requires !NeedsQuotes(q.value)
    ensures |ReadToken(SkipBlanks(Entry(q) + "")).value.pair.value| <= |q.value|
  {
    KeysAreTrimmed(SkipBlanks(Entry(q) + ""));
    FirstOfEntry(q, "");
    ShortHead(q);
  }

  lemma ShortHead(q: Pair)
    requires var r := ReadToken(Entry(q) + ""); r.Some? && r.value.pair.key == q.key
    requires !NeedsQuotes(q.value)
    ensures |ReadToken(Entry(q) + "").value.pair.value| <= |q.value|
  {
    TokenParts(Entry(q) + "");
    KeyIsRead(q, "");
    AfterKey(q, "");
    assert Quote(q.value) + "" == q.value;
    NoLongerThanText(q.value);
  }

  lemma NoLongerThanText(t: string)
    requires ReadValue(t).Some?
    ensures |ReadValue(t).value.value| <= |t|
  {}

  /** The main result about texts: what the tokenizer reads from a written string, as a list, is
      the list that was written exactly when every pair is printable and the string ends well. */
  lemma WrittenIsReadBack(ps: seq<Pair>)
    ensures Tokens(TrimSpace(Written(ps))) == Ok(ps) <==> AllPrintable(ps) && EndsWell(ps)
  {
    if ps == [] {
      NothingIsReadBack();
    } else if Trimmed(ps[0].key) {
      ReadBackIfTrimmed(ps, TrimSpace(Written(ps)));
    } else {
      NotReadIfUntrimmed(TrimSpace(Written(ps)), ps);
    }
  }

  lemma NothingIsReadBack()
    ensures Tokens(TrimSpace(Written([]))) == Ok([])
  {}

  lemma ReadBackIfEndsWell(ps: seq<Pair>, s: string)
    requires s == Written(ps)
    ensures Tokens(s) == Ok(ps) <==> AllPrintable(ps)
  {
    TokensOfWritten(ps);
  }

  lemma NotReadIfShortened(ps: seq<Pair>, s: string, v: string)
    requires ps != [] && v == ps[|ps| - 1].value && !NeedsQuotes(v) && |TrimRight(v)| < |v|
    requires s == Written(WithLast(ps, TrimRight(v)))
    ensures Tokens(s) != Ok(ps)
  {
    TrimRightSays(v);
    PrefixNeedsNoQuotes(v, TrimRight(v));
    ShortenedIsNotRead(ps, TrimRight(v));
  }

  lemma ReadBackIfTrimmed(ps: seq<Pair>, s: string)
    requires ps != [] && Trimmed(ps[0].key) && s == TrimSpace(Written(ps))
    ensures Tokens(s) == Ok(ps) <==> AllPrintable(ps) && EndsWell(ps)
  {
    TrimmedWritten(ps);
    if EndsWell(ps) {
      ReadBackIfEndsWell(ps, s);
    } else {
      var v := ps[|ps| - 1].value;
      assert |TrimRight(v)| < |v|;
      NotReadIfShortened(ps, s, v);
    }
  }

  lemma NotReadIfUntrimmed(s: string, ps: seq<Pair>)
    requires ps != [] && !Trimmed(ps[0].key)
    ensures Tokens(s) != Ok(ps) && !AllPrintable(ps)
  {
    assert !Printable(ps[0]);
    if Tokens(s) == Ok(ps) {
      FirstTokenOf(s, ps);
      KeysAreTrimmed(SkipBlanks(s));
    }
  }

  // ---- connection parameters ----

  function Picked(kv: map<string, string>, keys: seq<string>): map<string, string>
    requires forall k :: k in keys ==> k in kv
  {
    map k | k in keys :: kv[k]
  }

  lemma PickedHead(m: map<string, string>, kv: map<string, string>, keys: seq<string>)
    requires keys != [] && forall k :: k in keys ==> k in kv
    ensures m[keys[0] := kv[keys[0]]] + Picked(kv, keys[1..]) == m + Picked(kv, keys)
  {
    assert keys == [keys[0]] + keys[1..];
  }

  lemma {:induction false} ExtendedByListing(m: map<string, string>, kv: map<string, string>, keys: seq<string>)
    requires forall k :: k in keys ==> k in kv
    ensures Extended(m, Listed(kv, keys)) == m + Picked(kv, keys)
    decreases keys
  {
    if keys != [] {
      assert Listed(kv, keys)[1..] == Listed(kv, keys[1..]);
      ExtendedByListing(m[keys[0] := kv[keys[0]]], kv, keys[1..]);
      PickedHead(m, kv, keys);
    }
  }

  lemma EntriesGiveMap(kv: map<string, string>)
    ensures Extended(map[], Entries(kv)) == kv
  {
    ExtendedByListing(map[], kv, SortedKeys(kv.Keys));
  }

  lemma ScanTrimmed(s: string, u: string)
    requires s != "" && !IsSpace(s[0]) && Decimal.Unsigned(s) == u && u != "" && Decimal.AllDigits(u)
    requires Int64.InRange(Decimal.Signed(s, Decimal.Value(u)))
    ensures ScanPort(s) == Some(Decimal.Signed(s, Decimal.Value(u)))
  {
    assert TrimLeft(s) == s;
    assert LeadingDigits(u) == u;
  }

  lemma PortIsReadBack(n: int)
    requires Int64.InRange(n)
    ensures ScanPort(Decimal.Print(n)) == Some(n)
  {
    if n < 0 {
      ScanTrimmed("-" + Decimal.Digits(-n), Decimal.Digits(-n));
    } else {
      assert IsDigit(Decimal.Digits(n)[0]);
      ScanTrimmed(Decimal.Digits(n), Decimal.Digits(n));
    }
  }

  /** The pairs of the parameters parse to the parameters, with defaults filled in, exactly when
      no extra parameter has a standard name. */
  lemma PairsParseBack(c: ConnParams)
    requires Int64.InRange(c.port)
    ensures Parsed(BaseKV(c)) == Ok(WithDefaults(c)) <==> c.extra.Keys !! STANDARD
  {
    if c.extra.Keys !! STANDARD {
      DisjointParseBack(c);
    } else {
      var k :| k in c.extra && k in STANDARD;
      assert Parsed(BaseKV(c)).Ok? ==> k !in Parsed(BaseKV(c)).value.extra;
    }
  }

  /** The map holds the parameters `d` under their names, and nothing else but the extra ones. */
  ghost predicate HoldsParameters(kv: map<string, string>, d: ConnParams) {
    && Get(kv, "host") == d.host && Get(kv, "user") == d.user && Get(kv, "dbname") == d.database
    && Get(kv, "sslmode") == d.sslMode && Get(kv, "password") == d.password
    && "port" in kv && kv["port"] == Decimal.Print(d.port)
    && kv - STANDARD == d.extra
  }

  lemma HeldIsParsed(kv: map<string, string>, d: ConnParams)
    requires Int64.InRange(d.port) && HoldsParameters(kv, d)
    ensures Parsed(kv) == Ok(d)
  {
    PortIsReadBack(d.port);
  }

  lemma DisjointParseBack(c: ConnParams)
    requires Int64.InRange(c.port) && c.extra.Keys !! STANDARD
    ensures Parsed(BaseKV(c)) == Ok(WithDefaults(c))
  {
    StandardPairs(c);
    HeldIsParsed(BaseKV(c), WithDefaults(c));
  }

  lemma StandardPairs(c: ConnParams)
    requires c.extra.Keys !! STANDARD
    ensures HoldsParameters(BaseKV(c), WithDefaults(c))
  {
    assert forall k :: k in STANDARD ==> k !in c.extra;
    assert "host" in STANDARD && "port" in STANDARD && "user" in STANDARD;
    assert "dbname" in STANDARD && "sslmode" in STANDARD && "password" in STANDARD;
    assert BaseKV(c) - STANDARD == c.extra;
  }

  /** When the written string is readable as a list, parsing it gives
      the parameters back, with defaults filled in, exactly when no extra parameter has a
      standard name. */
  lemma ReadableRoundTrip(c: ConnParams)
    requires Int64.InRange(c.port)
    requires AllPrintable(Entries(BaseKV(c))) && EndsWell(Entries(BaseKV(c)))
    ensures ParsedDSN(Written(Entries(BaseKV(c)))) == Ok(WithDefaults(c)) <==> c.extra.Keys !! STANDARD
  {
    WrittenIsReadBack(Entries(BaseKV(c)));
    EntriesGiveMap(BaseKV(c));
    PairsParseBack(c);
  }

  /** No single quote, and no white space but the plain space. */
  predicate PlainValue(v: string) {
    forall i :: 0 <= i < |v| ==> v[i] != '\'' && (IsSpace(v[i]) ==> v[i] == ' ')
  }

  predicate PlainKey(k: string) {
    '=' !in k && NoSpace(k)
  }

  lemma PlainIsPrintable(p: Pair)
    requires PlainKey(p.key) && PlainValue(p.value)
    ensures Printable(p) && EndsWell([p])
  {
    var v := p.value;
    assert forall c :: c in BLANKS ==> IsSpace(c);
    if !NeedsQuotes(v) {
      forall i | 0 <= i < |v| ensures v[i] !in BLANKS && !IsSpace(v[i]) {
        assert v[i] in v;
      }
    }
  }

  lemma StandardKeysArePlain()
    ensures forall k :: k in STANDARD ==> PlainKey(k)
  {
    assert PlainKey("host") && PlainKey("port") && PlainKey("user");
    assert PlainKey("password") && PlainKey("dbname") && PlainKey("sslmode");
  }

  /** The parameters `d` are `c` with port 5432, user and database postgres and mode require where
      `c` leaves them open. */
  predicate Arrived(c: ConnParams, d: ConnParams) {
    && d.host == c.host && d.password == c.password && d.extra == c.extra
    && d.port == (if c.port == 0 then 5432 else c.port)
    && (if c.user == "" then d.user == "postgres" else d.user == c.user)
    && (if c.database == "" then d.database == "postgres" else d.database == c.database)
    && (if c.sslMode == "" then d.sslMode == "require" else d.sslMode == c.sslMode)
  }

  lemma DefaultsArrive(c: ConnParams, d: ConnParams)
    ensures Arrived(c, d) <==> d == WithDefaults(c)
  {
  }

  /** Parameters with plain values and plain, non-standard extra keys always arrive: the string
      holds each under its name, and parsing it gives all of them. */
  lemma PlainParametersArrive(c: ConnParams)
    requires Int64.InRange(c.port)
    requires PlainValue(c.host) && PlainValue(c.user) && PlainValue(c.password)
    requires PlainValue(c.database) && PlainValue(c.sslMode)
    requires forall k :: k in c.extra ==> PlainKey(k) && PlainValue(c.extra[k]) && k !in STANDARD
    ensures var r := ParsedDSN(DsnText(c));
      r.Ok? && Arrived(c, r.value) && Tokenized(DsnText(c)).Ok? && HoldsParameters(Tokenized(DsnText(c)).value, r.value)
  {
    PlainParametersRoundTrip(c);
    DefaultsArrive(c, WithDefaults(c));
    PlainTokens(c);
    StandardPairs(c);
  }

  lemma PlainTokens(c: ConnParams)
    requires PlainValue(c.host) && PlainValue(c.user) && PlainValue(c.password)
    requires PlainValue(c.database) && PlainValue(c.sslMode) && PlainMap(c.extra)
    ensures Tokenized(DsnText(c)) == Ok(BaseKV(c))
  {
    PlainAreReadable(c);
    WrittenIsReadBack(Entries(BaseKV(c)));
    EntriesGiveMap(BaseKV(c));
  }

  /** The string has a password in it exactly when there is one. */
  lemma PasswordIsOptional(c: ConnParams)
    requires PlainValue(c.host) && PlainValue(c.user) && PlainValue(c.password)
    requires PlainValue(c.database) && PlainValue(c.sslMode) && PlainMap(c.extra) && "password" !in c.extra
    ensures Tokenized(DsnText(c)).Ok? && ("password" in Tokenized(DsnText(c)).value <==> c.password != "")
  {
    PlainTokens(c);
    PasswordInBase(c);
  }

  lemma PasswordInBase(c: ConnParams)
    requires "password" !in c.extra
    ensures "password" in BaseKV(c) <==> c.password != ""
  {
  }

  lemma PlainAreReadable(c: ConnParams)
    requires PlainValue(c.host) && PlainValue(c.user) && PlainValue(c.password)
    requires PlainValue(c.database) && PlainValue(c.sslMode) && PlainMap(c.extra)
    ensures AllPrintable(Entries(BaseKV(c))) && EndsWell(Entries(BaseKV(c)))
  {
    var kv := BaseKV(c);
    var ps := Entries(kv);
    PlainPairs(c);
    forall i | 0 <= i < |ps| ensures Printable(ps[i]) && EndsWell([ps[i]]) {
      assert ps[i].key in kv && ps[i].value == kv[ps[i].key];
      PlainIsPrintable(ps[i]);
    }
  }

  /** Parameters with plain values and plain, non-standard extra keys always come back. */
  lemma PlainParametersRoundTrip(c: ConnParams)
    requires Int64.InRange(c.port)
    requires PlainValue(c.host) && PlainValue(c.user) && PlainValue(c.password)
    requires PlainValue(c.database) && PlainValue(c.sslMode)
    requires forall k :: k in c.extra ==> PlainKey(k) && PlainValue(c.extra[k]) && k !in STANDARD
    ensures ParsedDSN(Written(Entries(BaseKV(c)))) == Ok(WithDefaults(c))
  {
    PlainAreReadable(c);
    ReadableRoundTrip(c);
  }

  lemma PlainBase(c: ConnParams)
    requires PlainValue(c.host) && PlainValue(c.user) && PlainValue(c.password)
    requires PlainValue(c.database) && PlainValue(c.sslMode) && c.extra == map[]
    ensures forall k :: k in BaseKV(c) ==> k in STANDARD && PlainValue(BaseKV(c)[k])
  {
    assert PlainValue("postgres") && PlainValue("require");
    PrintedIsPlain(WithDefaults(c).port);
  }

  ghost predicate PlainMap(m: map<string, string>) {
    forall k :: k in m ==> PlainKey(k) && PlainValue(m[k])
  }

  lemma PlainBaseKeys(c: ConnParams)
    requires PlainValue(c.host) && PlainValue(c.user) && PlainValue(c.password)
    requires PlainValue(c.database) && PlainValue(c.sslMode) && c.extra == map[]
    ensures PlainMap(BaseKV(c))
  {
    StandardKeysArePlain();
    PlainBase(c);
  }

  lemma PlainOverlay(a: map<string, string>, b: map<string, string>)
    requires PlainMap(a) && PlainMap(b)
    ensures PlainMap(a + b)
  {
  }

  lemma BaseUnderExtra(c: ConnParams)
    ensures BaseKV(c) == BaseKV(c.(extra := map[])) + c.extra
  {
  }

  lemma PlainPairs(c: ConnParams)
    requires PlainValue(c.host) && PlainValue(c.user) && PlainValue(c.password)
    requires PlainValue(c.database) && PlainValue(c.sslMode) && PlainMap(c.extra)
    ensures PlainMap(BaseKV(c))
  {
    var c0 := c.(extra := map[]);
    PlainBaseKeys(c0);
    BaseUnderExtra(c);
    PlainOverlay(BaseKV(c0), c.extra);
  }

  lemma PrintedIsPlain(n: int)
    ensures PlainValue(Decimal.Print(n))
  {
    var u := Decimal.Digits(if n < 0 then -n else n);
    assert Decimal.Print(n) == if n < 0 then "-" + u else u;
  }

  /** A space, tab, newline or carriage return. */
  predicate EndsValue(c: char) {
    c == ' ' || c == '\t' || c == '\n' || c == '\r'
  }

  /** A value without quotes goes up to the next of these four characters, or to the end. */
  lemma BlankEndsValue(v: string, c: char, rest: string)
    requires EndsValue(c) && (v != "" ==> v[0] != '\'') && forall i :: 0 <= i < |v| ==> !EndsValue(v[i])
    ensures ReadValue(v + [c] + rest) == Some(Scanned(v, [c] + rest))
    ensures ReadValue(v) == Some(Scanned(v, ""))
  {
    var t := v + [c] + rest;
    assert t[|v|] == c && forall i :: 0 <= i < |v| ==> t[i] == v[i];
    assert forall d :: d in BLANKS <==> EndsValue(d) by {
      assert BLANKS[0] == ' ' && BLANKS[1] == '\t' && BLANKS[2] == '\n' && BLANKS[3] == '\r';
    }
    IndexAnySays(t, BLANKS);
    IndexAnySays(v, BLANKS);
    assert t[..|v|] == v && t[|v|..] == [c] + rest;
  }

  lemma {:induction false} EscapeOfPlain(v: string)
    requires '\'' !in v
    ensures Escape(v) == v
  {
    if v != "" {
      EscapeOfPlain(v[1..]);
      assert v == [v[0]] + v[1..];
    }
  }

  /** A value without blank, quote and backslash is written as it is, and any other between quotes;
      without a quote in it nothing else is added. */
  lemma QuoteSays(v: string)
    ensures Quote(v) == v <==> ' ' !in v && '\'' !in v && '\\' !in v
    ensures '\'' !in v && (' ' in v || '\\' in v) ==> Quote(v) == ['\''] + v + ['\'']
  {
    if '\'' !in v {
      EscapeOfPlain(v);
    }
    EscapeGrows(v);
  }

  lemma {:induction false} EscapeGrows(v: string)
    ensures |Escape(v)| >= |v|
  {
    if v != "" {
      EscapeGrows(v[1..]);
    }
  }

  // ---- the family of values that is not read back ----

  lemma {:induction false} EscapeOfQuoted(p: string, q: string)
    requires '\'' !in p
    ensures Escape(p + "'" + q) == p + "\\" + "'" + Escape(q)
  {
    var v := p + "'" + q;
    if p == "" {
      assert v[1..] == q;
    } else {
      assert v[1..] == p[1..] + "'" + q;
      EscapeOfQuoted(p[1..], q);
      assert p == [p[0]] + p[1..];
    }
  }

  lemma Regroup(a: string, b: string, tail: string)
    ensures "'" + (a + "'" + b) + "'" + tail == "'" + a + "'" + (b + "'" + tail)
  {}

  /** The reader stops at the first escaped quote: of every value with a single quote it sees the
      part before the quote and the backslash. */
  lemma QuoteCutsValue(p: string, q: string, tail: string)
    requires '\'' !in p
    ensures ReadValue(Quote(p + "'" + q) + tail) == Some(Scanned(p + "\\", Escape(q) + "'" + tail))
  {
    var v := p + "'" + q;
    EscapeOfQuoted(p, q);
    assert v[|p|] == '\'';
    Regroup(p + "\\", Escape(q), tail);
    ReadQuoted(p + "\\", Escape(q) + "'" + tail);
  }
}
