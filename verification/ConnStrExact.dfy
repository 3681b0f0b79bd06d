/** Exactly which connection parameters survive being written and parsed. */
module ConnStrExact {
  import opened Text
  import opened ConnStr
  import opened ConnStrRoundTrip
  import opened ConnStrDescent
  import opened ConnStrReading
  import opened ConnStrAlignment
  import Decimal
  import Int64

  // ---- values that are read again ----

  predicate ReadableValue(v: string) {
    '\'' !in v && (NeedsQuotes(v) || NoBlankIn(v))
  }

  /** Neither a quote nor a blank: such a value takes part in nothing. */
  predicate Harmless(v: string) {
    '\'' !in v && NoBlankIn(v)
  }

  ghost predicate IsTokenValue(ts: seq<Pair>, v: string) {
    exists k :: 0 <= k < |ts| && ts[k].value == v
  }

  lemma TokenValueFits(qs: seq<Pair>, ts: seq<Pair>, v: string) returns (j: nat)
    requires PlainKeys(qs) && Tokens(Written(qs)) == Ok(ts) && IsTokenValue(ts, v)
    ensures j < |qs| && Fits(v, qs[j].value)
  {
    var k :| 0 <= k < |ts| && ts[k].value == v;
    j := TokenFits(qs, ts, k);
  }

  ghost function ValuesOf(qs: seq<Pair>): set<string> {
    set i | 0 <= i < |qs| :: qs[i].value
  }

  lemma ValuesAreCalm(qs: seq<Pair>, ts: seq<Pair>)
    requires PlainKeys(qs) && Tokens(Written(qs)) == Ok(ts)
    requires forall i :: 0 <= i < |qs| ==> Harmless(qs[i].value) || IsTokenValue(ts, qs[i].value)
    ensures forall i :: 0 <= i < |qs| ==> Calm(qs[i].value)
  {
    var vs := ValuesOf(qs);
    forall r | r in vs && '\'' in r ensures exists s :: s in vs && StandsIn(r, s) {
      var j := TokenValueFits(qs, ts, r);
      assert qs[j].value in vs;
    }
    forall i | 0 <= i < |qs| ensures Calm(qs[i].value) {
      var v := qs[i].value;
      if !Harmless(v) {
        var j := TokenValueFits(qs, ts, v);
      }
      forall n: nat ensures !BadQuote(v, n) {
        NoBadQuotes(vs, v, n);
      }
    }
  }

  /** If every value comes back from a written string, then every value is readable: none holds a
      quote. */
  lemma ValuesAreReadable(qs: seq<Pair>, ts: seq<Pair>)
    requires PlainKeys(qs) && Tokens(Written(qs)) == Ok(ts)
    requires forall i :: 0 <= i < |qs| ==> Harmless(qs[i].value) || IsTokenValue(ts, qs[i].value)
    ensures forall i :: 0 <= i < |qs| ==> ReadableValue(qs[i].value)
  {
    ValuesAreCalm(qs, ts);
    assert "" + Written(qs) == Written(qs);
    CalmIsReadWithoutQuotes("", qs, ts);
    forall i | 0 <= i < |qs| ensures ReadableValue(qs[i].value) {
      assert Calm(qs[i].value);
    }
  }

  // ---- with the string trimmed ----

  ghost predicate DistinctKeys(ps: seq<Pair>) {
    forall i, j :: 0 <= i < j < |ps| ==> ps[i].key != ps[j].key
  }

  /** The pair was read as a token, or it is one whose value does not matter. */
  ghost predicate CameBack(ts: seq<Pair>, p: Pair) {
    p in ts || (Harmless(p.value) && EndsWell([p]))
  }

  lemma CameBackValue(ts: seq<Pair>, p: Pair)
    requires CameBack(ts, p)
    ensures Harmless(p.value) || IsTokenValue(ts, p.value)
  {
    if p in ts {
      var k :| 0 <= k < |ts| && ts[k] == p;
    }
  }

  /** The keys are as they must be, and every pair came back. */
  ghost predicate AllBack(ps: seq<Pair>, ts: seq<Pair>) {
    forall i :: 0 <= i < |ps| ==> '=' !in ps[i].key && Trimmed(ps[i].key) && CameBack(ts, ps[i])
  }

  lemma UntrimmedIsPrintable(ps: seq<Pair>, ts: seq<Pair>)
    requires AllBack(ps, ts) && Tokens(Written(ps)) == Ok(ts)
    ensures AllPrintable(ps)
  {
    forall i | 0 <= i < |ps| ensures Harmless(ps[i].value) || IsTokenValue(ts, ps[i].value) {
      CameBackValue(ts, ps[i]);
    }
    ValuesAreReadable(ps, ts);
  }

  /** A value that was trimmed because nothing put it into quotes. */
  lemma TrimmedIsHarmless(qs: seq<Pair>, ts: seq<Pair>, v: string)
    requires PlainKeys(qs) && Tokens(Written(qs)) == Ok(ts)
    requires !NeedsQuotes(v) && (Harmless(v) || IsTokenValue(ts, v))
    ensures Harmless(TrimRight(v))
  {
    if !Harmless(v) {
      var j := TokenValueFits(qs, ts, v);
    }
    TrimRightSays(v);
    assert forall c :: c in TrimRight(v) ==> c in v;
  }

  lemma TrimmedIsPrintable(ps: seq<Pair>, qs: seq<Pair>, ts: seq<Pair>)
    requires ps != [] && AllBack(ps, ts) && !EndsWell(ps)
    requires qs == WithLast(ps, TrimRight(ps[|ps| - 1].value)) && Tokens(Written(qs)) == Ok(ts)
    ensures AllPrintable(qs)
  {
    var last := |ps| - 1;
    assert forall i :: 0 <= i < last ==> qs[i] == ps[i];
    CameBackValue(ts, ps[last]);
    TrimmedIsHarmless(qs, ts, ps[last].value);
    forall i | 0 <= i < |qs| ensures Harmless(qs[i].value) || IsTokenValue(ts, qs[i].value) {
      if i < last {
        CameBackValue(ts, ps[i]);
      }
    }
    ValuesAreReadable(qs, ts);
  }

  lemma ShorterIsNotBack(ps: seq<Pair>, qs: seq<Pair>)
    requires ps != [] && DistinctKeys(ps) && !EndsWell(ps)
    requires qs == WithLast(ps, TrimRight(ps[|ps| - 1].value))
    ensures ps[|ps| - 1] !in qs
  {
    var last := |ps| - 1;
    assert |TrimRight(ps[last].value)| < |ps[last].value|;
    forall i | 0 <= i < |qs| ensures qs[i] != ps[last] {
      assert i < last ==> qs[i] == ps[i] && ps[i].key != ps[last].key;
    }
  }

  lemma ShortenedIsNotBack(ps: seq<Pair>, qs: seq<Pair>, ts: seq<Pair>)
    requires ps != [] && AllBack(ps, ts) && DistinctKeys(ps) && !EndsWell(ps)
    requires qs == WithLast(ps, TrimRight(ps[|ps| - 1].value))
    ensures Tokens(Written(qs)) != Ok(ts)
  {
    LastCameBack(ps, ts);
    ShorterIsNotBack(ps, qs);
    if Tokens(Written(qs)) == Ok(ts) {
      TrimmedIsPrintable(ps, qs, ts);
      PrintableIsRead(qs, ts);
    }
  }

  lemma LastCameBack(ps: seq<Pair>, ts: seq<Pair>)
    requires ps != [] && AllBack(ps, ts) && !EndsWell(ps)
    ensures ps[|ps| - 1] in ts
  {
    assert CameBack(ts, ps[|ps| - 1]);
  }

  lemma PrintableIsRead(qs: seq<Pair>, ts: seq<Pair>)
    requires AllPrintable(qs) && Tokens(Written(qs)) == Ok(ts)
    ensures ts == qs
  {
    TokensOfWritten(qs);
  }

  /** If every pair comes back, then the string ends well: otherwise its last value is read
      shortened. */
  lemma BackMeansEndsWell(ps: seq<Pair>, s: string, ts: seq<Pair>)
    requires ps != [] && AllBack(ps, ts) && DistinctKeys(ps) && s == TrimSpace(Written(ps)) && Tokens(s) == Ok(ts)
    ensures EndsWell(ps)
  {
    TrimmedWritten(ps);
    if !EndsWell(ps) {
      ShortenedIsNotBack(ps, WithLast(ps, TrimRight(ps[|ps| - 1].value)), ts);
    }
  }

  lemma BackMeansReadable(ps: seq<Pair>, ts: seq<Pair>)
    requires ps != [] && AllBack(ps, ts) && DistinctKeys(ps) && Tokens(TrimSpace(Written(ps))) == Ok(ts)
    ensures AllPrintable(ps) && EndsWell(ps)
  {
    BackMeansEndsWell(ps, TrimSpace(Written(ps)), ts);
    TrimmedWritten(ps);
    UntrimmedIsPrintable(ps, ts);
  }

  // ---- from parameters to tokens ----

  lemma {:induction false} FromTokens(m: map<string, string>, ts: seq<Pair>, k: string)
    requires k in Extended(m, ts)
    ensures Pair(k, Extended(m, ts)[k]) in ts || (k in m && m[k] == Extended(m, ts)[k])
    decreases ts
  {
    if ts != [] {
      FromTokens(m[ts[0].key := ts[0].value], ts[1..], k);
    }
  }

  /** The parsed map gives the parameter of a standard key back; only the port may be spelled in
      another way, and an empty value may be missing. */
  lemma StandardValue(kv: map<string, string>, m: map<string, string>, d: ConnParams, k: string)
    requires HoldsParameters(kv, d) && Parsed(m) == Ok(d) && k in kv && k in STANDARD
    ensures k == "port" || kv[k] == "" || (k in m && m[k] == kv[k])
  {
  }

  lemma ExtraValue(kv: map<string, string>, m: map<string, string>, d: ConnParams, k: string)
    requires HoldsParameters(kv, d) && Parsed(m) == Ok(d) && k in kv && k !in STANDARD
    ensures k in m && m[k] == kv[k]
  {
    assert k in kv - STANDARD;
    assert (kv - STANDARD)[k] == kv[k];
  }

  lemma EmptyCameBack(ts: seq<Pair>, k: string)
    ensures CameBack(ts, Pair(k, ""))
  {
  }

  lemma PortCameBack(ts: seq<Pair>, k: string, n: int)
    ensures CameBack(ts, Pair(k, Decimal.Print(n)))
  {
    var v := Decimal.Print(n);
    var u := Decimal.Digits(if n < 0 then -n else n);
    assert v == if n < 0 then "-" + u else u;
    assert forall i :: 0 <= i < |v| ==> IsDigit(v[i]) || v[i] == '-';
    assert forall c :: c in BLANKS ==> IsSpace(c);
  }

  /** The pair of a key came back as a token, or its value does not matter. */
  lemma KeyCameBack(kv: map<string, string>, ts: seq<Pair>, d: ConnParams, k: string)
    requires HoldsParameters(kv, d) && Parsed(Extended(map[], ts)) == Ok(d) && k in kv
    ensures CameBack(ts, Pair(k, kv[k]))
    ensures k !in STANDARD ==> Pair(k, kv[k]) in ts
  {
    var m := Extended(map[], ts);
    if k in STANDARD {
      StandardValue(kv, m, d, k);
    } else {
      ExtraValue(kv, m, d, k);
    }
    if k in m && m[k] == kv[k] {
      FromTokens(map[], ts, k);
    } else if kv[k] == "" {
      EmptyCameBack(ts, k);
    } else {
      PortCameBack(ts, k, d.port);
    }
  }

  lemma KeyIsGood(s: string, ts: seq<Pair>, p: Pair)
    requires Tokens(s) == Ok(ts) && p in ts
    ensures '=' !in p.key && Trimmed(p.key)
  {
    var i :| 0 <= i < |ts| && ts[i] == p;
    EveryToken(s, ts, i);
  }

  lemma StandardKeyIsGood(k: string)
    requires k in STANDARD
    ensures '=' !in k && Trimmed(k)
  {
    StandardKeysArePlain();
    assert PlainKey(k);
  }

  lemma ParsedMeansAllBack(kv: map<string, string>, s: string, ts: seq<Pair>, d: ConnParams)
    requires HoldsParameters(kv, d) && Tokens(s) == Ok(ts) && Parsed(Extended(map[], ts)) == Ok(d)
    ensures AllBack(Entries(kv), ts)
  {
    var ps := Entries(kv);
    forall i | 0 <= i < |ps| ensures '=' !in ps[i].key && Trimmed(ps[i].key) && CameBack(ts, ps[i]) {
      var k := ps[i].key;
      assert k in SortedKeys(kv.Keys) && ps[i] == Pair(k, kv[k]);
      KeyCameBack(kv, ts, d, k);
      if k in STANDARD {
        StandardKeyIsGood(k);
      } else {
        KeyIsGood(s, ts, ps[i]);
      }
    }
  }

  lemma ClashIsNotParsed(m: map<string, string>, d: ConnParams)
    requires Parsed(m) == Ok(d)
    ensures d.extra.Keys !! STANDARD
  {
  }

  lemma ParsedMeansReadable(c: ConnParams)
    requires ParsedDSN(Written(Entries(BaseKV(c)))) == Ok(WithDefaults(c))
    ensures c.extra.Keys !! STANDARD
    ensures AllPrintable(Entries(BaseKV(c))) && EndsWell(Entries(BaseKV(c)))
  {
    var kv, d := BaseKV(c), WithDefaults(c);
    var ps := Entries(kv);
    var s := TrimSpace(Written(ps));
    var ts := Tokens(s).value;
    ClashIsNotParsed(Extended(map[], ts), d);
    StandardPairs(c);
    ParsedMeansAllBack(kv, s, ts, d);
    EntriesAreDistinct(kv);
    BackMeansReadable(ps, ts);
  }

  lemma EntriesAreDistinct(kv: map<string, string>)
    ensures DistinctKeys(Entries(kv)) && (kv != map[] ==> Entries(kv) != [])
  {
    if kv != map[] {
      assert |kv.Keys| > 0;
    }
  }

  /** The main result about parameters, for all of them: parsing the written string gives the
      parameters back, with defaults filled in, exactly when every key is trimmed and has no equals
      sign, every value has no quote and, if it holds a blank, is in quotes, the last one does not
      end in unquoted white space, and no extra parameter has a standard name. */
  lemma RoundTrip(c: ConnParams)
    requires Int64.InRange(c.port)
    ensures var r := ParsedDSN(DsnText(c));
      r.Ok? && Arrived(c, r.value) <==>
        AllPrintable(Entries(BaseKV(c))) && EndsWell(Entries(BaseKV(c))) && c.extra.Keys !! STANDARD
  {
    if ParsedDSN(DsnText(c)).Ok? {
      DefaultsArrive(c, ParsedDSN(DsnText(c)).value);
    }
    DefaultsArrive(c, WithDefaults(c));
    if AllPrintable(Entries(BaseKV(c))) && EndsWell(Entries(BaseKV(c))) {
      ReadableRoundTrip(c);
    }
    if ParsedDSN(Written(Entries(BaseKV(c)))) == Ok(WithDefaults(c)) {
      ParsedMeansReadable(c);
    }
  }
}
