/** The three parsers of StatefulSet ordinals (internal/ha, internal/statefulset,
    internal/workflows), and the claim cleanup that relies on one of them. A name is a sequence
    of bytes here. */
module Ordinals {
  import opened Text
  import opened Decimal
  import Int64

  // ---- what the parsers compute ----

  /** Where the trailing digits of a name begin. */
  function TailStart(s: string): (i: nat)
    ensures i <= |s|
  {
    if s == "" || !IsDigit(s[|s| - 1]) then |s| else TailStart(s[..|s| - 1])
  }

  lemma {:induction false} TailIsMaximal(s: string)
    ensures AllDigits(s[TailStart(s)..])
    ensures TailStart(s) > 0 ==> !IsDigit(s[TailStart(s) - 1])
  {
    if s != "" && IsDigit(s[|s| - 1]) {
      var front := s[..|s| - 1];
      TailIsMaximal(front);
      assert s[TailStart(s)..] == front[TailStart(s)..] + [s[|s| - 1]];
    }
  }

  lemma {:induction false} TailOfNumbered(prefix: string, digits: string)
    requires AllDigits(digits) && prefix != "" && !IsDigit(prefix[|prefix| - 1])
    ensures TailStart(prefix + digits) == |prefix|
  {
    var s := prefix + digits;
    if digits == "" {
      assert s == prefix;
    } else {
      assert s[..|s| - 1] == prefix + digits[..|digits| - 1];
      TailOfNumbered(prefix, digits[..|digits| - 1]);
    }
  }

  /** The value of the trailing digits, in 64 bits. */
  function TailOrdinal(s: string): int {
    TailIsMaximal(s);
    Int64.Wrap(Value(s[TailStart(s)..]))
  }

  /** PodOrdinal; no value stands for the run-time panic of indexing before the first byte. */
  function PodOrdinalOf(s: string): Option<int> {
    var i := TailStart(s);
    if i == |s| then Some(-1)
    else if i == 0 then None
    else if s[i - 1] != '-' then Some(-1)
    else Some(TailOrdinal(s))
  }

  function PvcOrdinalOf(s: string): int {
    var i := TailStart(s);
    if i == 0 || s[i - 1] != '-' then -1 else TailOrdinal(s)
  }

  function OrdinalFromNameOf(pod: string, sts: string): int {
    if |pod| <= |sts| + 1 || !AllDigits(pod[|sts| + 1..]) then -1
    else Int64.Wrap(Value(pod[|sts| + 1..]))
  }

  // ---- the loops ----

  method ScanTail(s: string) returns (i: int)
    ensures i == TailStart(s) - 1
  {
    i := |s| - 1;
    assert s[..|s|] == s;
    while i >= 0 && IsDigit(s[i])
      invariant -1 <= i < |s|
      invariant TailStart(s) == TailStart(s[..i + 1])
    {
      assert s[..i + 1][..i] == s[..i];
      i := i - 1;
    }
  }

  lemma TailDigit(s: string, j: nat)
    requires j < |s| && AllDigits(s[j..])
    ensures AllDigits(s[j + 1..]) && IsDigit(s[j])
    ensures Value(s[j..]) == DigitValue(s[j]) * Pow10(|s| - j - 1) + Value(s[j + 1..])
  {
    assert s[j..] == [s[j]] + s[j + 1..];
    assert s[j..][0] == s[j];
    assert s[j + 1..] == s[j..][1..];
    ValueOfConcat([s[j]], s[j + 1..]);
    assert [s[j]][..0] == "";
  }

  lemma WrapSum(x: int, y: int)
    ensures Int64.Wrap(Int64.Wrap(x) + Int64.Wrap(y)) == Int64.Wrap(y + x)
  {
    Int64.WrapAdd(y, Int64.Wrap(x));
    Int64.WrapAdd(x, y);
  }

  /** One more digit to the left, with both accumulators in 64 bits. */
  lemma WrapStep(total: int, power: int, d: int)
    ensures Int64.Wrap(Int64.Wrap(total) + Int64.Wrap(d * Int64.Wrap(power))) == Int64.Wrap(d * power + total)
    ensures Int64.Wrap(Int64.Wrap(power) * 10) == Int64.Wrap(10 * power)
  {
    Int64.WrapMul(power, d);
    WrapSum(total, d * power);
    Int64.WrapMul(power, 10);
  }

  method SumTail(s: string, i: int) returns (n: int)
    requires -1 <= i < |s| && AllDigits(s[i + 1..])
    ensures n == Int64.Wrap(Value(s[i + 1..]))
  {
    n := 0;
    var mul := 1;
    var j := |s| - 1;
    assert s[|s|..] == "";
    while j > i
      invariant i <= j < |s|
      invariant AllDigits(s[j + 1..])
      invariant n == Int64.Wrap(Value(s[j + 1..])) && mul == Int64.Wrap(Pow10(|s| - j - 1))
    {
      assert forall k :: 0 <= k < |s| - j ==> s[j..][k] == s[i + 1..][j - i - 1 + k];
      TailDigit(s, j);
      WrapStep(Value(s[j + 1..]), Pow10(|s| - j - 1), DigitValue(s[j]));
      n := Int64.Wrap(n + Int64.Wrap(DigitValue(s[j]) * mul));
      mul := Int64.Wrap(mul * 10);
      j := j - 1;
    }
  }

  method PodOrdinal(podName: string) returns (r: Option<int>)
    ensures r == PodOrdinalOf(podName)
  {
    var n := |podName|;
    if n == 0 {
      return Some(-1);
    }
    var i := ScanTail(podName);
    if i == n - 1 {
      return Some(-1);
    }
    if i < 0 {
      return None;
    }
    if podName[i] != '-' {
      return Some(-1);
    }
    TailIsMaximal(podName);
    var ordinal := SumTail(podName, i);
    return Some(ordinal);
  }

  /** The prefix made of the cluster's name is computed and then not looked at. */
  method PvcOrdinal(pvcName: string, clusterName: string) returns (n: int)
    ensures n == PvcOrdinalOf(pvcName)
  {
    var _ := "-" + clusterName + "-";
    var idx := ScanTail(pvcName);
    if idx < 0 || pvcName[idx] != '-' {
      return -1;
    }
    TailIsMaximal(pvcName);
    n := SumTail(pvcName, idx);
  }

  lemma WrapHorner(total: int, d: int)
    ensures Int64.Wrap(Int64.Wrap(Int64.Wrap(total) * 10) + d) == Int64.Wrap(total * 10 + d)
  {
    Int64.WrapMul(total, 10);
    Int64.WrapAdd(total * 10, d);
  }

  method OrdinalFromName(podName: string, stsName: string) returns (ordinal: int)
    ensures ordinal == OrdinalFromNameOf(podName, stsName)
  {
    var prefix := stsName + "-";
    if |podName| <= |prefix| {
      return -1;
    }
    var suffix := podName[|prefix|..];
    ordinal := 0;
    for k := 0 to |suffix|
      invariant AllDigits(suffix[..k]) && ordinal == Int64.Wrap(Value(suffix[..k]))
    {
      var c := suffix[k];
      if !IsDigit(c) {
        return -1;
      }
      assert suffix[..k + 1] == suffix[..k] + [c];
      assert suffix[..k + 1][..k] == suffix[..k];
      WrapHorner(Value(suffix[..k]), DigitValue(c));
      ordinal := Int64.Wrap(Int64.Wrap(ordinal * 10) + DigitValue(c));
    }
    assert suffix[..|suffix|] == suffix;
  }

  // ---- agreement on generated names ----

  function PodName(cluster: string, n: nat): string {
    cluster + "-" + Digits(n)
  }

  /** The name of the claim of instance `n` for the volume template `volume`. */
  function ClaimName(volume: string, cluster: string, n: nat): string {
    volume + "-" + PodName(cluster, n)
  }

  lemma DashedTail(prefix: string, n: nat)
    ensures var s := prefix + "-" + Digits(n);
      TailStart(s) == |prefix| + 1 && s[|prefix|] == '-' && |s| > |prefix| + 1 && s[|prefix| + 1..] == Digits(n)
  {
    TailOfNumbered(prefix + "-", Digits(n));
  }

  lemma ClaimIsDashed(volume: string, cluster: string, digits: string)
    ensures volume + "-" + (cluster + "-" + digits) == volume + "-" + cluster + "-" + digits
  {
  }

  lemma DashedOrdinal(prefix: string, n: nat, s: string)
    requires s == prefix + "-" + Digits(n)
    ensures PodOrdinalOf(s) == Some(Int64.Wrap(n)) && PvcOrdinalOf(s) == Int64.Wrap(n)
    ensures OrdinalFromNameOf(s, prefix) == Int64.Wrap(n)
  {
    DashedTail(prefix, n);
  }

  /** All three parsers recover the ordinal from every generated name. */
  lemma OrdinalsAgree(volume: string, cluster: string, n: nat)
    ensures PodOrdinalOf(PodName(cluster, n)) == Some(Int64.Wrap(n))
    ensures OrdinalFromNameOf(PodName(cluster, n), cluster) == Int64.Wrap(n)
    ensures PvcOrdinalOf(ClaimName(volume, cluster, n)) == Int64.Wrap(n)
    ensures n <= Int64.MAX ==> Int64.Wrap(n) == n
  {
    DashedOrdinal(cluster, n, PodName(cluster, n));
    ClaimIsDashed(volume, cluster, Digits(n));
    DashedOrdinal(volume + "-" + cluster, n, ClaimName(volume, cluster, n));
  }

  /** The name is the prefix, a dash and digits. */
  ghost predicate Numbered(s: string, prefix: string, digits: string) {
    AllDigits(digits) && s == prefix + ['-'] + digits
  }

  lemma NumberedTail(s: string, prefix: string, digits: string)
    requires Numbered(s, prefix, digits)
    ensures TailStart(s) == |prefix| + 1 && s[|prefix|] == '-' && s[|prefix| + 1..] == digits
  {
    TailOfNumbered(prefix + ['-'], digits);
  }

  lemma DashedIsNumbered(s: string) returns (prefix: string, digits: string)
    requires TailStart(s) > 0 && s[TailStart(s) - 1] == '-'
    ensures Numbered(s, prefix, digits) && (digits == "" <==> TailStart(s) == |s|)
  {
    var i := TailStart(s);
    TailIsMaximal(s);
    prefix, digits := s[..i - 1], s[i..];
    assert s == s[..i - 1] + [s[i - 1]] + s[i..];
  }

  /** For every name: PodOrdinal reads the digits behind a last dash; it panics where there are
      digits only, and answers -1 for all other names. */
  lemma PodOrdinalSays(s: string)
    ensures forall prefix, digits :: Numbered(s, prefix, digits) && digits != "" ==>
      PodOrdinalOf(s) == Some(Int64.Wrap(Value(digits)))
    ensures (forall prefix, digits :: Numbered(s, prefix, digits) ==> digits == "") && (s == "" || !AllDigits(s)) ==>
      PodOrdinalOf(s) == Some(-1)
  {
    forall prefix, digits | Numbered(s, prefix, digits) && digits != ""
      ensures PodOrdinalOf(s) == Some(Int64.Wrap(Value(digits)))
    {
      NumberedTail(s, prefix, digits);
    }
    if TailStart(s) > 0 && s[TailStart(s) - 1] == '-' {
      var prefix, digits := DashedIsNumbered(s);
    } else {
      TailIsMaximal(s);
      assert s[0..] == s;
    }
  }

  /** For every name: pvcOrdinal reads the digits behind a last dash, none of them as 0, and answers
      -1 where there is no such dash. */
  lemma PvcOrdinalSays(s: string)
    ensures forall prefix, digits :: Numbered(s, prefix, digits) ==> PvcOrdinalOf(s) == Int64.Wrap(Value(digits))
    ensures (forall prefix, digits :: !Numbered(s, prefix, digits)) ==> PvcOrdinalOf(s) == -1
  {
    forall prefix, digits | Numbered(s, prefix, digits) ensures PvcOrdinalOf(s) == Int64.Wrap(Value(digits)) {
      NumberedTail(s, prefix, digits);
    }
    if TailStart(s) > 0 && s[TailStart(s) - 1] == '-' {
      var prefix, digits := DashedIsNumbered(s);
    }
  }

  /** PodOrdinal panics exactly on the names that are digits throughout. */
  lemma PanicsOnNumbers(s: string)
    ensures PodOrdinalOf(s) == None <==> s != "" && AllDigits(s)
  {
    TailIsMaximal(s);
    var i := TailStart(s);
    if i == 0 {
      assert s[0..] == s;
    }
  }

  /** On other names PodOrdinal and pvcOrdinal differ exactly where the name ends in a dash: there
      the claim parser answers 0. */
  lemma PodAndClaimDiffer(s: string)
    requires PodOrdinalOf(s).Some?
    ensures PodOrdinalOf(s) == Some(PvcOrdinalOf(s)) <==> s == "" || s[|s| - 1] != '-'
  {
    var i := TailStart(s);
    if i == |s| {
      assert s[i..] == "";
    }
  }

  /** OrdinalFromName looks at the length of the set's name only, never at its letters. */
  lemma PrefixIsIgnored(pod: string, sts: string, other: string)
    requires |sts| == |other|
    ensures OrdinalFromNameOf(pod, sts) == OrdinalFromNameOf(pod, other)
    ensures OrdinalFromNameOf(other + "." + "1", sts) == 1
  {
    var s := other + "." + "1";
    assert s[|sts| + 1..] == "1" && "1"[..0] == "";
    assert Value("1") == 1;
  }

  /** What the comment of OrdinalFromName promises: the ordinal of a name that consists of the set's
      name, a dash and digits, and -1 for every other name. */
  function Promised(pod: string, sts: string): int {
    var n := |sts| + 1;
    if |pod| > n && pod[..n] == sts + "-" && AllDigits(pod[n..]) then Int64.Wrap(Value(pod[n..])) else -1
  }

  /** The promise is kept exactly when the name is too short, does begin with the set's name and a
      dash, has something other than digits behind them, or has digits that wrap around to -1. */
  lemma PromiseKept(pod: string, sts: string)
    ensures var n := |sts| + 1;
      OrdinalFromNameOf(pod, sts) == Promised(pod, sts) <==>
        || |pod| <= n || pod[..n] == sts + "-" || !AllDigits(pod[n..])
        || Int64.Wrap(Value(pod[n..])) == -1
  {
  }

  // ---- cleanup after scaling down ----

  datatype Claim = Claim(name: string, deleting: bool)

  predicate Orphan(c: Claim, instances: int) {
    !c.deleting && PvcOrdinalOf(c.name) >= instances
  }

  function OrphanNames(items: seq<Claim>, instances: int): seq<string> {
    if items == [] then []
    else
      var last := items[|items| - 1];
      OrphanNames(items[..|items| - 1], instances) + if Orphan(last, instances) then [last.name] else []
  }

  lemma {:induction false} OrphanNamesHold(items: seq<Claim>, instances: int, name: string)
    ensures name in OrphanNames(items, instances) <==>
      exists i :: 0 <= i < |items| && Orphan(items[i], instances) && items[i].name == name
  {
    if items != [] {
      var n := |items| - 1;
      OrphanNamesHold(items[..n], instances, name);
      assert forall i :: 0 <= i < n ==> items[..n][i] == items[i];
    }
  }

  /** Deleted; already gone; refused; or carried out with the answer lost. */
  datatype Answer = Deleted | Gone | Refused | Lost

  predicate Accepted(a: Answer) { a.Deleted? || a.Gone? }

  class ClaimServer {
    var claims: set<string>

    method Delete(name: string, answer: Answer) returns (ok: bool)
      modifies this
      ensures ok == Accepted(answer)
      ensures claims == if answer.Refused? then old(claims) else old(claims) - {name}
    {
      ok := Accepted(answer);
      if !answer.Refused? {
        claims := claims - {name};
      }
    }
  }

  /** Asks for the deletion of the orphans, in list order, until one request fails. */
  method CleanupOrphanedPVCs(server: ClaimServer, cluster: string, listed: Result<seq<Claim>>, instances: int,
                             answers: nat -> Answer)
    returns (ok: bool, asked: seq<string>)
    modifies server
    ensures listed.Err? ==> !ok && asked == [] && server.claims == old(server.claims)
    ensures listed.Ok? ==> asked <= OrphanNames(listed.value, instances)
    ensures ok ==> asked == OrphanNames(listed.value, instances) && forall name :: name in asked ==> name !in server.claims
    ensures ok <==> listed.Ok? && forall k :: 0 <= k < |OrphanNames(listed.value, instances)| ==> Accepted(answers(k))
    ensures server.claims <= old(server.claims)
    ensures forall name :: name in old(server.claims) - server.claims ==> name in asked
  {
    asked := [];
    if listed.Err? {
      return false, [];
    }
    var items := listed.value;
    for i := 0 to |items|
      invariant asked == OrphanNames(items[..i], instances)
      invariant forall k :: 0 <= k < |asked| ==> Accepted(answers(k))
      invariant forall name :: name in asked ==> name !in server.claims
      invariant server.claims <= old(server.claims)
      invariant forall name :: name in old(server.claims) - server.claims ==> name in asked
    {
      assert items[..i + 1][..i] == items[..i];
      OrphansGrow(items, i + 1, instances);
      var pvc := items[i];
      if pvc.deleting {
        continue;
      }
      var ordinal := PvcOrdinal(pvc.name, cluster);
      if ordinal >= instances {
        var answer := answers(|asked|);
        asked := asked + [pvc.name];
        var done := server.Delete(pvc.name, answer);
        if !done {
          return false, asked;
        }
      }
    }
    assert items[..|items|] == items;
    ok := true;
  }

  lemma {:induction false} OrphansGrow(items: seq<Claim>, i: nat, instances: int)
    requires i <= |items|
    ensures OrphanNames(items[..i], instances) <= OrphanNames(items, instances)
    decreases |items| - i
  {
    if i < |items| {
      OrphansGrow(items, i + 1, instances);
      assert items[..i + 1][..i] == items[..i];
    } else {
      assert items[..i] == items;
    }
  }

  /** A claim that the StatefulSet named is an orphan exactly when it is not being deleted and
      its instance is at or above the wanted count. */
  lemma GeneratedOrphans(volume: string, cluster: string, n: nat, deleting: bool, instances: int)
    requires n <= Int64.MAX
    ensures Orphan(Claim(ClaimName(volume, cluster, n), deleting), instances) <==> !deleting && n >= instances
  {
    OrdinalsAgree(volume, cluster, n);
  }

  /** The claim of one instance, as the cleanup finds it. */
  datatype Member = Member(ordinal: nat, deleting: bool)

  function Generated(volume: string, cluster: string, members: seq<Member>): seq<Claim> {
    seq(|members|, i requires 0 <= i < |members| =>
      Claim(ClaimName(volume, cluster, members[i].ordinal), members[i].deleting))
  }

  function Surplus(volume: string, cluster: string, members: seq<Member>, instances: int): seq<string> {
    if members == [] then []
    else
      var last := members[|members| - 1];
      Surplus(volume, cluster, members[..|members| - 1], instances)
      + if !last.deleting && last.ordinal >= instances then [ClaimName(volume, cluster, last.ordinal)] else []
  }

  /** Among the claims of a StatefulSet, the cleanup asks for exactly the surplus instances. */
  lemma {:induction false} SurplusIsAsked(volume: string, cluster: string, members: seq<Member>, instances: int)
    requires forall i :: 0 <= i < |members| ==> members[i].ordinal <= Int64.MAX
    ensures OrphanNames(Generated(volume, cluster, members), instances) == Surplus(volume, cluster, members, instances)
  {
    if members != [] {
      var n := |members| - 1;
      SurplusIsAsked(volume, cluster, members[..n], instances);
      assert Generated(volume, cluster, members)[..n] == Generated(volume, cluster, members[..n]);
      GeneratedOrphans(volume, cluster, members[n].ordinal, members[n].deleting, instances);
    }
  }

  // ---- claims of several clusters ----

  /** A claim that the StatefulSet of some cluster named. */
  datatype Listing = Listing(volume: string, cluster: string, ordinal: nat, deleting: bool)

  function ClaimOf(l: Listing): Claim {
    Claim(ClaimName(l.volume, l.cluster, l.ordinal), l.deleting)
  }

  function Claims(ls: seq<Listing>): (cs: seq<Claim>)
    ensures |cs| == |ls| && forall i :: 0 <= i < |ls| ==> cs[i] == ClaimOf(ls[i])
  {
    seq(|ls|, i requires 0 <= i < |ls| => ClaimOf(ls[i]))
  }

  /** The listed claims of one cluster, in order. */
  function Own(ls: seq<Listing>, cluster: string): seq<Listing> {
    if ls == [] then []
    else
      var last := ls[|ls| - 1];
      Own(ls[..|ls| - 1], cluster) + if last.cluster == cluster then [last] else []
  }

  /** A claim of another cluster that looks like a surplus instance. */
  predicate Intruder(l: Listing, cluster: string, instances: int) {
    l.cluster != cluster && !l.deleting && l.ordinal >= instances
  }

  lemma ClaimsSnoc(ls: seq<Listing>, l: Listing)
    ensures Claims(ls + [l])[..|ls|] == Claims(ls)
  {
  }

  lemma OrphansOfSnoc(ls: seq<Listing>, l: Listing, instances: int)
    ensures OrphanNames(Claims(ls + [l]), instances) ==
      OrphanNames(Claims(ls), instances) + if Orphan(ClaimOf(l), instances) then [ClaimOf(l).name] else []
  {
    ClaimsSnoc(ls, l);
  }

  ghost predicate NoIntruder(ls: seq<Listing>, cluster: string, instances: int) {
    forall i :: 0 <= i < |ls| ==> !Intruder(ls[i], cluster, instances)
  }

  lemma OwnSnoc(init: seq<Listing>, l: Listing, cluster: string)
    ensures Own(init + [l], cluster) == Own(init, cluster) + if l.cluster == cluster then [l] else []
  {
    assert (init + [l])[..|init|] == init;
  }

  /** One more listed claim adds the same to both lists, unless it is an intruder. */
  lemma {:induction false} MoreAreAsked(ls: seq<Listing>, cluster: string, instances: int)
    requires forall i :: 0 <= i < |ls| ==> ls[i].ordinal <= Int64.MAX
    ensures var all, own := OrphanNames(Claims(ls), instances), OrphanNames(Claims(Own(ls, cluster)), instances);
      && |all| >= |own|
      && (if NoIntruder(ls, cluster, instances) then all == own else |all| > |own|)
  {
    if ls != [] {
      var init, l := ls[..|ls| - 1], ls[|ls| - 1];
      assert ls == init + [l];
      MoreAreAsked(init, cluster, instances);
      OneMoreAsked(init, Own(init, cluster), l, cluster, instances);
      IntruderInSnoc(init, l, cluster, instances);
      OwnSnoc(init, l, cluster);
    }
  }

  lemma OneMoreAsked(init: seq<Listing>, own: seq<Listing>, l: Listing, cluster: string, instances: int)
    requires l.ordinal <= Int64.MAX
    ensures var more := if Orphan(ClaimOf(l), instances) then [ClaimOf(l).name] else [];
      && OrphanNames(Claims(init + [l]), instances) == OrphanNames(Claims(init), instances) + more
      && OrphanNames(Claims(own + if l.cluster == cluster then [l] else []), instances) ==
         OrphanNames(Claims(own), instances) + (if l.cluster == cluster then more else [])
      && (Intruder(l, cluster, instances) <==> more != [] && l.cluster != cluster)
  {
    OrphansOfSnoc(init, l, instances);
    if l.cluster == cluster {
      OrphansOfSnoc(own, l, instances);
    } else {
      assert own + [] == own;
    }
    GeneratedOrphans(l.volume, l.cluster, l.ordinal, l.deleting, instances);
  }

  lemma IntruderInSnoc(init: seq<Listing>, l: Listing, cluster: string, instances: int)
    ensures NoIntruder(init + [l], cluster, instances) <==>
      NoIntruder(init, cluster, instances) && !Intruder(l, cluster, instances)
  {
    var ls := init + [l];
    if NoIntruder(ls, cluster, instances) {
      assert !Intruder(ls[|init|], cluster, instances);
      forall i | 0 <= i < |init| ensures !Intruder(init[i], cluster, instances) {
        assert ls[i] == init[i];
      }
    }
  }

  /** The cleanup of a cluster asks for its own claims only, whatever else the selector listed,
      exactly when no listed claim of another cluster is undeleted with an ordinal at or above the
      wanted count: the name of the cluster plays no part. */
  lemma OnlyOwnClaimsAsked(ls: seq<Listing>, cluster: string, instances: int)
    requires forall i :: 0 <= i < |ls| ==> ls[i].ordinal <= Int64.MAX
    ensures OrphanNames(Claims(ls), instances) == OrphanNames(Claims(Own(ls, cluster)), instances) <==>
      NoIntruder(ls, cluster, instances)
  {
    MoreAreAsked(ls, cluster, instances);
  }

  /** Where the second claim of another cluster is listed, scaling to one instance asks for it. */
  lemma ForeignClaimIsAsked(volume: string, cluster: string, other: string)
    requires other != cluster
    ensures var ls := [Listing(volume, other, 1, false)];
      OrphanNames(Claims(ls), 1) != OrphanNames(Claims(Own(ls, cluster)), 1)
  {
    var ls := [Listing(volume, other, 1, false)];
    assert Intruder(ls[0], cluster, 1);
    OnlyOwnClaimsAsked(ls, cluster, 1);
  }
}
