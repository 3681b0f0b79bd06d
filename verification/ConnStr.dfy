/** internal/store/connstr.go: the libpq keyword/value writer and reader. */
module ConnStr {
  import opened Text
  import Decimal
  import Int64

  datatype ConnParams = ConnParams(
    host: string, port: int, user: string, password: string, database: string, sslMode: string,
    extra: map<string, string>)

  datatype Pair = Pair(key: string, value: string)

  const STANDARD: set<string> := {"host", "port", "user", "password", "dbname", "sslmode"}

  // ---- the writer ----

  function WithDefaults(c: ConnParams): ConnParams {
    c.(port := if c.port == 0 then 5432 else c.port,
       user := if c.user == "" then "postgres" else c.user,
       database := if c.database == "" then "postgres" else c.database,
       sslMode := if c.sslMode == "" then "require" else c.sslMode)
  }

  function BaseKV(c: ConnParams): map<string, string> {
    var d := WithDefaults(c);
    var kv := map["host" := d.host, "port" := Decimal.Print(d.port), "user" := d.user,
                  "dbname" := d.database, "sslmode" := d.sslMode];
    (if c.password != "" then kv["password" := c.password] else kv) + c.extra
  }

  predicate NeedsQuotes(v: string) {
    ' ' in v || '\'' in v || '\\' in v
  }

  function Escape(v: string): string {
    if v == "" then "" else (if v[0] == '\'' then "\\'" else [v[0]]) + Escape(v[1..])
  }

  function Quote(v: string): string {
    if NeedsQuotes(v) then "'" + Escape(v) + "'" else v
  }

  function Entry(p: Pair): string {
    p.key + "=" + Quote(p.value)
  }

  /** The entries separated by single spaces. */
  function Written(ps: seq<Pair>): string {
    if ps == [] then "" else Entry(ps[0]) + Tail(ps[1..])
  }

  function Tail(ps: seq<Pair>): string {
    if ps == [] then "" else " " + Entry(ps[0]) + Tail(ps[1..])
  }

  function Listed(kv: map<string, string>, keys: seq<string>): (ps: seq<Pair>)
    requires forall k :: k in keys ==> k in kv
    ensures |ps| == |keys| && forall i :: 0 <= i < |keys| ==> ps[i] == Pair(keys[i], kv[keys[i]])
  {
    seq(|keys|, i requires 0 <= i < |keys| => Pair(keys[i], kv[keys[i]]))
  }

  function Entries(kv: map<string, string>): seq<Pair> {
    Listed(kv, SortedKeys(kv.Keys))
  }

  method FormatPart(k: string, value: string) returns (part: string)
    ensures part == Entry(Pair(k, value))
  {
    var v := value;
    if ' ' in v || '\'' in v || '\\' in v {
      v := "'" + Escape(v) + "'";
    }
    part := k + "=" + v;
  }

  method FormatParts(kv: map<string, string>, keys: seq<string>) returns (parts: seq<string>)
    requires forall k :: k in keys ==> k in kv
    ensures |parts| == |keys| && forall i :: 0 <= i < |keys| ==> parts[i] == Entry(Listed(kv, keys)[i])
  {
    parts := [];
    for i := 0 to |keys|
      invariant |parts| == i && forall j :: 0 <= j < i ==> parts[j] == Entry(Listed(kv, keys)[j])
    {
      var part := FormatPart(keys[i], kv[keys[i]]);
      parts := parts + [part];
    }
  }

  method KvString(kv: map<string, string>) returns (out: string)
    ensures out == Written(Entries(kv))
  {
    var parts := FormatParts(kv, SortedKeys(kv.Keys));
    JoinedIsWritten(parts, Entries(kv));
    out := Join(parts, ' ');
  }

  lemma {:induction false} JoinedIsWritten(parts: seq<string>, ps: seq<Pair>)
    requires |parts| == |ps| && forall i :: 0 <= i < |ps| ==> parts[i] == Entry(ps[i])
    ensures Join(parts, ' ') == Written(ps)
  {
    if |parts| > 1 {
      JoinedIsWritten(parts[1..], ps[1..]);
      assert parts[0] + [' '] + Written(ps[1..]) == Entry(ps[0]) + (" " + Entry(ps[1..][0]) + Tail(ps[1..][1..]));
    }
  }

  /** The connection string of the parameters. */
  function DsnText(c: ConnParams): string {
    Written(Entries(BaseKV(c)))
  }

  method DSN(c: ConnParams) returns (out: string)
    ensures out == DsnText(c)
  {
    out := KvString(BaseKV(c));
  }

  // ---- the reader ----

  const BLANKS := " \t\n\r"

  function SkipBlanks(s: string): (r: string)
    ensures |r| <= |s|
    ensures r != "" ==> r[0] !in BLANKS
    ensures s != "" && s[0] !in BLANKS ==> r == s
  {
    if s != "" && s[0] in BLANKS then SkipBlanks(s[1..]) else s
  }

  /** A value and the text behind it: up to the closing quote, or up to the next blank. */
  datatype Scanned = Scanned(value: string, rest: string)

  function ReadValue(t: string): (r: Option<Scanned>)
    ensures r.Some? ==> |r.value.rest| <= |t|
  {
    if t != "" && t[0] == '\'' then
      var end := IndexOf(t[1..], '\'');
      if end < 0 then None else Some(Scanned(t[1..end + 1], t[end + 2..]))
    else
      var end := IndexAny(t, BLANKS);
      if end < 0 then Some(Scanned(t, "")) else Some(Scanned(t[..end], t[end..]))
  }

  datatype Token = Token(pair: Pair, rest: string)

  /** The token whose equals sign stands at `eq`. */
  function TokenAt(s: string, eq: nat): (r: Option<Token>)
    requires eq < |s|
    ensures r.Some? ==> |r.value.rest| < |s|
  {
    var v := ReadValue(s[eq + 1..]);
    if v.None? then None else Some(Token(Pair(TrimSpace(s[..eq]), v.value.value), v.value.rest))
  }

  /** One round of the tokenizer, on a text that does not begin with a blank. */
  function ReadToken(s: string): (r: Option<Token>)
    ensures r.Some? ==> |r.value.rest| < |s|
  {
    var eq := IndexOf(s, '=');
    if eq < 0 then None else TokenAt(s, eq)
  }

  /** All tokens in order. */
  function Tokens(s: string): Result<seq<Pair>>
    decreases |s|
  {
    var t := SkipBlanks(s);
    if t == "" then Ok([])
    else
      var first := ReadToken(t);
      if first.None? then Err
      else
        var more := Tokens(first.value.rest);
        if more.Err? then Err else Ok([first.value.pair] + more.value)
  }

  /** A map extended by pairs; later pairs replace earlier ones. */
  function Extended(m: map<string, string>, ps: seq<Pair>): map<string, string>
    decreases ps
  {
    if ps == [] then m else Extended(m[ps[0].key := ps[0].value], ps[1..])
  }

  function WithTokens(m: map<string, string>, ts: Result<seq<Pair>>): Result<map<string, string>> {
    if ts.Err? then Err else Ok(Extended(m, ts.value))
  }

  function Tokenized(dsn: string): Result<map<string, string>> {
    WithTokens(map[], Tokens(TrimSpace(dsn)))
  }

  method ScanValue(text: string) returns (r: Option<Scanned>)
    ensures r == ReadValue(text)
  {
    var s := text;
    var value;
    if s != "" && s[0] == '\'' {
      var end := IndexOf(s[1..], '\'');
      if end < 0 {
        return None;
      }
      value := s[1..end + 1];
      s := s[end + 2..];
    } else {
      var end := IndexAny(s, BLANKS);
      if end < 0 {
        value := s;
        s := "";
      } else {
        value := s[..end];
        s := s[end..];
      }
    }
    return Some(Scanned(value, s));
  }

  /** tokenizeDSN; the loop ends on every input because each round consumes an equals sign. */
  method TokenizeDSN(dsn: string) returns (r: Result<map<string, string>>)
    ensures r == Tokenized(dsn)
  {
    var result: map<string, string> := map[];
    var s := TrimSpace(dsn);
    ghost var goal := Tokenized(dsn);
    while s != ""
      invariant goal == WithTokens(result, Tokens(s))
      decreases |s|
    {
      ghost var before := s;
      s := SkipBlanks(s);
      if s == "" {
        break;
      }
      var eq := IndexOf(s, '=');
      if eq < 0 {
        return Err;
      }
      var key := TrimSpace(s[..eq]);
      var scanned := ScanValue(s[eq + 1..]);
      if scanned.None? {
        return Err;
      }
      TokensStep(result, before, Token(Pair(key, scanned.value.value), scanned.value.rest));
      s := scanned.value.rest;
      result := result[key := scanned.value.value];
    }
    return Ok(result);
  }

  lemma TokensUnfold(s: string, t: Token)
    requires SkipBlanks(s) != "" && ReadToken(SkipBlanks(s)) == Some(t)
    ensures Tokens(s) == if Tokens(t.rest).Err? then Err else Ok([t.pair] + Tokens(t.rest).value)
  {}

  lemma ExtendedStep(m: map<string, string>, p: Pair, ps: seq<Pair>)
    ensures Extended(m, [p] + ps) == Extended(m[p.key := p.value], ps)
  {
    assert ([p] + ps)[1..] == ps;
  }

  lemma TokensStep(m: map<string, string>, s: string, t: Token)
    requires SkipBlanks(s) != "" && ReadToken(SkipBlanks(s)) == Some(t)
    ensures WithTokens(m, Tokens(s)) == WithTokens(m[t.pair.key := t.pair.value], Tokens(t.rest))
  {
    TokensUnfold(s, t);
    if Tokens(t.rest).Ok? {
      ExtendedStep(m, t.pair, Tokens(t.rest).value);
    }
  }

  /** fmt.Sscanf with "%d": leading white space (but no newline), an optional sign and as many
      digits as there are; what follows is ignored. */
  function ScanPort(v: string): Option<int> {
    var t := TrimLeft(v);
    var digits := LeadingDigits(Decimal.Unsigned(t));
    var n := Decimal.Signed(t, Decimal.Value(digits));
    if '\n' in v[..|v| - |t|] || digits == "" || !Int64.InRange(n) then None else Some(n)
  }

  function LeadingDigits(s: string): (d: string)
    ensures Decimal.AllDigits(d) && d <= s
    ensures Decimal.AllDigits(s) ==> d == s
  {
    if s != "" && IsDigit(s[0]) then
      assert Decimal.AllDigits(s) ==> Decimal.AllDigits(s[1..]);
      [s[0]] + LeadingDigits(s[1..])
    else ""
  }

  function Get(m: map<string, string>, k: string): string {
    if k in m then m[k] else ""
  }

  function Parsed(m: map<string, string>): Result<ConnParams> {
    if "port" in m && ScanPort(m["port"]).None? then Err
    else Ok(ConnParams(
      Get(m, "host"), if "port" in m then ScanPort(m["port"]).value else 0, Get(m, "user"), Get(m, "password"),
      Get(m, "dbname"), Get(m, "sslmode"), m - STANDARD))
  }

  function ParsedDSN(dsn: string): Result<ConnParams> {
    var m := Tokenized(dsn);
    if m.Err? then Err else Parsed(m.value)
  }

  /** The switch in ParseDSN's loop: one more key goes into the parameters read so far. */
  method AssignKey(p: ConnParams, k: string, v: string, ghost done: map<string, string>)
    returns (r: Result<ConnParams>)
    requires Parsed(done) == Ok(p) && k !in done
    ensures r == Parsed(done[k := v])
  {
    ParsedKey(done, k, v);
    if k == "host" {
      return Ok(p.(host := v));
    } else if k == "port" {
      var n := ScanPort(v);
      if n.None? {
        return Err;
      }
      return Ok(p.(port := n.value));
    } else if k == "user" {
      return Ok(p.(user := v));
    } else if k == "password" {
      return Ok(p.(password := v));
    } else if k == "dbname" {
      return Ok(p.(database := v));
    } else if k == "sslmode" {
      return Ok(p.(sslMode := v));
    } else {
      return Ok(p.(extra := p.extra[k := v]));
    }
  }

  /** ParseDSN's loop; the keys are visited in no particular order. */
  method ParseTokens(tokens: map<string, string>) returns (r: Result<ConnParams>)
    ensures r == Parsed(tokens)
  {
    var p := ConnParams("", 0, "", "", "", "", map[]);
    var todo := tokens.Keys;
    ghost var done: map<string, string> := map[];
    NothingParsed();
    while todo != {}
      invariant todo <= tokens.Keys && done == tokens - todo
      invariant Parsed(done) == Ok(p)
      decreases todo
    {
      var k :| k in todo;
      OneMoreKey(tokens, todo, k);
      todo := todo - {k};
      var next := AssignKey(p, k, tokens[k], done);
      done := done[k := tokens[k]];
      if next.Err? {
        BadPortStays(done, tokens);
        return Err;
      }
      p := next.value;
    }
    assert done == tokens;
    return Ok(p);
  }

  method ParseDSN(dsn: string) returns (r: Result<ConnParams>)
    ensures r == ParsedDSN(dsn)
  {
    var tokenized := TokenizeDSN(dsn);
    if tokenized.Err? {
      return Err;
    }
    r := ParseTokens(tokenized.value);
  }

  lemma NothingParsed()
    ensures Parsed(map[]) == Ok(ConnParams("", 0, "", "", "", "", map[]))
  {
    var none: map<string, string> := map[];
    assert none - STANDARD == none;
  }

  lemma OneMoreKey(m: map<string, string>, todo: set<string>, k: string)
    requires k in todo && k in m
    ensures (m - todo)[k := m[k]] == m - (todo - {k}) && k !in m - todo
  {}

  lemma BadPortStays(m: map<string, string>, all: map<string, string>)
    requires Parsed(m).Err? && forall k :: k in m ==> k in all && all[k] == m[k]
    ensures Parsed(all).Err?
  {}

  lemma ParsedKey(m: map<string, string>, k: string, v: string)
    requires Parsed(m).Ok? && k !in m
    ensures var p := Parsed(m).value;
      Parsed(m[k := v]) ==
        if k == "host" then Ok(p.(host := v))
        else if k == "port" then (if ScanPort(v).None? then Err else Ok(p.(port := ScanPort(v).value)))
        else if k == "user" then Ok(p.(user := v))
        else if k == "password" then Ok(p.(password := v))
        else if k == "dbname" then Ok(p.(database := v))
        else if k == "sslmode" then Ok(p.(sslMode := v))
        else Ok(p.(extra := p.extra[k := v]))
  {
    var m' := m[k := v];
    if k in STANDARD {
      assert m' - STANDARD == m - STANDARD;
    } else {
      assert m' - STANDARD == (m - STANDARD)[k := v];
    }
  }
}
