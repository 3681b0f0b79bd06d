/** Escaped values and the quotes in them: why a value with a quote cannot be found again inside
    the escaped text of another one, unless nothing but quotes and backslashes follows the quote. */
module ConnStrDescent {
  import opened Text
  import opened ConnStr

  /** The number of backslashes at the end. */
  function Backslashes(x: string): nat {
    if x != "" && x[|x| - 1] == '\\' then 1 + Backslashes(x[..|x| - 1]) else 0
  }

  /** Something other than a quote or a backslash. */
  predicate Ordinary(c: char) {
    c != '\'' && c != '\\'
  }

  ghost predicate HasOrdinary(y: string) {
    exists i :: 0 <= i < |y| && Ordinary(y[i])
  }

  lemma {:induction false} EscapeSnoc(x: string, c: char)
    ensures Escape(x + [c]) == Escape(x) + if c == '\'' then "\\'" else [c]
  {
    if x == "" {
      assert [c][1..] == "";
    } else {
      assert (x + [c])[1..] == x[1..] + [c];
      EscapeSnoc(x[1..], c);
    }
  }

  lemma {:induction false} BackslashesOfEscape(x: string)
    ensures Backslashes(Escape(x)) == Backslashes(x)
  {
    if x != "" {
      var n := |x| - 1;
      var e := Escape(x[..n]);
      assert x == x[..n] + [x[n]];
      EscapeSnoc(x[..n], x[n]);
      if x[n] == '\\' {
        assert (e + [x[n]])[..|e|] == e;
        BackslashesOfEscape(x[..n]);
      }
    }
  }

  lemma {:induction false} BackslashesBehind(a: string, x: string)
    requires a == "" || a[|a| - 1] != '\\'
    ensures Backslashes(a + x) == Backslashes(x)
  {
    if x == "" {
      assert a + x == a;
    } else if x[|x| - 1] == '\\' {
      assert (a + x)[..|a + x| - 1] == a + x[..|x| - 1];
      BackslashesBehind(a, x[..|x| - 1]);
    }
  }

  /** The parts of a value around one of its quotes. */
  datatype Around = Around(before: string, after: string)

  /** Every quote in an escaped text stands behind the backslash that escapes it. */
  lemma {:induction false} QuoteIsEscaped(v: string, p: nat) returns (q: Around)
    requires p < |Escape(v)| && Escape(v)[p] == '\''
    ensures v == q.before + "'" + q.after
    ensures Escape(v)[..p] == Escape(q.before) + "\\" && Escape(v)[p + 1..] == Escape(q.after)
  {
    var head := if v[0] == '\'' then "\\'" else [v[0]];
    var tail := Escape(v[1..]);
    assert Escape(v) == head + tail;
    if v[0] == '\'' && p == 1 {
      q := Around("", v[1..]);
      assert Escape(v)[..1] == "\\" && Escape(v)[2..] == tail;
    } else {
      var inner := QuoteIsEscaped(v[1..], p - |head|);
      q := Around([v[0]] + inner.before, inner.after);
      assert q.before[1..] == inner.before;
      assert Escape(v)[..p] == head + tail[..p - |head|];
      assert Escape(v)[p + 1..] == tail[p - |head| + 1..];
    }
  }

  lemma {:induction false} OrdinaryInEscape(y: string, i: nat)
    requires i < |Escape(y)| && Ordinary(Escape(y)[i])
    ensures HasOrdinary(y)
  {
    var head := if y[0] == '\'' then "\\'" else [y[0]];
    if i < |head| {
      assert Ordinary(y[0]);
    } else {
      OrdinaryInEscape(y[1..], i - |head|);
      var k :| 0 <= k < |y[1..]| && Ordinary(y[1..][k]);
      assert Ordinary(y[k + 1]);
    }
  }

  /** The value `r` stands behind an equals sign in the quoted text of `v`. */
  ghost predicate StandsIn(r: string, v: string) {
    exists a, b :: Escape(v) + "'" == a + "=" + r + b
  }

  /** A quote in the value with something ordinary behind it, and `n` backslashes before it. */
  ghost predicate BadQuote(v: string, n: nat) {
    exists x, y :: v == x + "'" + y && HasOrdinary(y) && Backslashes(x) == n
  }

  lemma PositionOfQuote(v: string, a: string, x: string, y: string, b: string)
    requires Escape(v) + "'" == a + "=" + (x + "'" + y) + b && y != ""
    ensures var p := |a + "=" + x|;
      && p < |Escape(v)| && Escape(v)[p] == '\'' && Escape(v)[..p] == a + "=" + x
      && Escape(v)[p + 1..] + "'" == y + b
  {
    var p := |a + "=" + x|;
    var whole := Escape(v) + "'";
    assert whole == (a + "=" + x) + "'" + (y + b);
    assert whole[p] == '\'' && whole[..p] == a + "=" + x && whole[p + 1..] == y + b;
  }

  /** A bad quote of a value that stands in another one's text comes from a bad quote of that
      other value, with one backslash less before it. */
  lemma BadQuoteDescends(r: string, v: string, n: nat)
    requires StandsIn(r, v) && BadQuote(r, n)
    ensures n > 0 && BadQuote(v, n - 1)
  {
    var a, b :| Escape(v) + "'" == a + "=" + r + b;
    var x, y :| r == x + "'" + y && HasOrdinary(y) && Backslashes(x) == n;
    PositionOfQuote(v, a, x, y, b);
    var q := QuoteIsEscaped(v, |a + "=" + x|);
    SameBackslashes(a, x, q.before);
    var i :| 0 <= i < |y| && Ordinary(y[i]);
    assert (y + b)[i] == y[i] && (Escape(q.after) + "'")[i] == y[i];
    OrdinaryInEscape(q.after, i);
  }

  lemma SameBackslashes(a: string, x: string, before: string)
    requires a + "=" + x == Escape(before) + "\\"
    ensures Backslashes(x) == Backslashes(before) + 1
  {
    BackslashesBehind(a + "=", x);
    BackslashesOfEscape(before);
    var e := Escape(before) + "\\";
    assert e[..|e| - 1] == Escape(before);
  }

  /** When every value with a quote stands in the text of another one of them, no quote has
      anything ordinary behind it: the backslashes before it could be counted down for ever. */
  lemma {:induction false} NoBadQuotes(vs: set<string>, v: string, n: nat)
    requires forall r :: r in vs && '\'' in r ==> exists s :: s in vs && StandsIn(r, s)
    requires v in vs
    ensures !BadQuote(v, n)
    decreases n
  {
    if BadQuote(v, n) {
      HasQuote(v, n);
      var s :| s in vs && StandsIn(v, s);
      BadQuoteDescends(v, s, n);
      NoBadQuotes(vs, s, n - 1);
    }
  }

  lemma HasQuote(v: string, n: nat)
    requires BadQuote(v, n)
    ensures '\'' in v
  {
    var x, y :| v == x + "'" + y && HasOrdinary(y) && Backslashes(x) == n;
    assert v[|x|] == '\'';
  }
}
