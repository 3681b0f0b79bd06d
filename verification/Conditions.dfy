/** internal/postgres/status.go: the condition list that the three Set*Condition functions
    (cluster, backup and user) keep up to date by the same code. */
module Conditions {

  datatype Status = True | False | Unknown

  /** A condition of kind `K` (the Type string); `R` stands for its reason and message texts. */
  datatype Condition<K, R> = Condition(kind: K, status: Status, observedGeneration: int, lastTransition: int, reason: R)

  /** One call of a setter: its arguments, the object's generation and the clock reading. */
  datatype Call<K, R> = Call(kind: K, status: Status, reason: R, generation: int, now: int)

  function Entry<K, R>(c: Call<K, R>, since: int): Condition<K, R> {
    Condition(c.kind, c.status, c.generation, since, c.reason)
  }

  /** The list after one call. */
  function Upsert<K(==), R>(cs: seq<Condition<K, R>>, c: Call<K, R>): seq<Condition<K, R>> {
    if cs == [] then [Entry(c, c.now)]
    else if cs[0].kind == c.kind then
      [Entry(c, if cs[0].status == c.status then cs[0].lastTransition else c.now)] + cs[1..]
    else [cs[0]] + Upsert(cs[1..], c)
  }

  /** An API object with a status: the part of a PostgresCluster, PostgresBackup or PostgresUser
      that the setters touch. */
  class Conditioned<K(==), R> {
    var generation: int
    var conditions: seq<Condition<K, R>>

    constructor (generation: int)
      ensures this.generation == generation && conditions == []
    {
      this.generation := generation;
      conditions := [];
    }

    /** SetClusterCondition, SetBackupCondition, SetUserCondition. */
    method SetCondition(kind: K, status: Status, reason: R, clock: int)
      modifies this`conditions
      ensures conditions == Upsert(old(conditions), Call(kind, status, reason, generation, clock))
    {
      ghost var c := Call(kind, status, reason, generation, clock);
      var now := clock;
      var i := 0;
      while i < |conditions|
        invariant 0 <= i <= |conditions| && conditions == old(conditions)
        invariant forall k :: 0 <= k < i ==> conditions[k].kind != kind
      {
        if conditions[i].kind == kind {
          if conditions[i].status == status {
            now := conditions[i].lastTransition;
          }
          UpsertSkips(conditions, c, i);
          conditions := conditions[i := Condition(kind, status, generation, now, reason)];
          return;
        }
        i := i + 1;
      }
      UpsertSkips(conditions, c, i);
      conditions := conditions + [Condition(kind, status, generation, now, reason)];
    }
  }

  /** The search passes over the entries of other kinds. */
  lemma {:induction false} UpsertSkips<K, R>(cs: seq<Condition<K, R>>, c: Call<K, R>, i: nat)
    requires i <= |cs| && forall k :: 0 <= k < i ==> cs[k].kind != c.kind
    ensures i == |cs| ==> Upsert(cs, c) == cs + [Entry(c, c.now)]
    ensures i < |cs| && cs[i].kind == c.kind ==>
      Upsert(cs, c) == cs[i := Entry(c, if cs[i].status == c.status then cs[i].lastTransition else c.now)]
  {
    if i > 0 {
      UpsertSkips(cs[1..], c, i - 1);
      assert cs == [cs[0]] + cs[1..];
    }
  }

  /** The list after a history of calls, starting from no conditions. */
  function History<K(==), R>(calls: seq<Call<K, R>>): seq<Condition<K, R>> {
    if calls == [] then [] else Upsert(History(calls[..|calls| - 1]), calls[|calls| - 1])
  }

  ghost predicate Unique<K, R>(cs: seq<Condition<K, R>>) {
    forall i, j :: 0 <= i < j < |cs| ==> cs[i].kind != cs[j].kind
  }

  ghost predicate Has<K, R>(cs: seq<Condition<K, R>>, kind: K) {
    exists i :: 0 <= i < |cs| && cs[i].kind == kind
  }

  /** How one call changes the list, position by position. */
  lemma {:induction false} UpsertPoints<K, R>(cs: seq<Condition<K, R>>, c: Call<K, R>)
    requires Unique(cs)
    ensures var r := Upsert(cs, c);
      && Unique(r)
      && |cs| <= |r| <= |cs| + 1
      && (|r| == |cs| <==> Has(cs, c.kind))
      && (|r| > |cs| ==> r[|cs|] == Entry(c, c.now))
      && (forall i :: 0 <= i < |cs| ==>
           r[i] == if cs[i].kind != c.kind then cs[i]
                   else Entry(c, if cs[i].status == c.status then cs[i].lastTransition else c.now))
  {
    if cs != [] && cs[0].kind != c.kind {
      UpsertPoints(cs[1..], c);
      assert Has(cs[1..], c.kind) ==> Has(cs, c.kind) by {
        if j :| 0 <= j < |cs[1..]| && cs[1..][j].kind == c.kind { assert cs[j + 1].kind == c.kind; }
      }
      assert forall i :: 0 < i < |cs| ==> cs[i] == cs[1..][i - 1];
    }
  }

  // ---- what the list says about the history ----

  /** Call `i` is the most recent one for its kind. */
  ghost predicate Latest<K, R>(calls: seq<Call<K, R>>, i: int) {
    0 <= i < |calls| && forall k :: i < k < |calls| ==> calls[k].kind != calls[i].kind
  }

  /** Call `j` began the unbroken run of calls with one status that ends at call `i`: they are
      for the same kind, every call for it from `j` to `i` has that status, and the call for it
      just before `j`, if any, has another. */
  ghost predicate BeganRun<K, R>(calls: seq<Call<K, R>>, j: int, i: int) {
    && 0 <= j <= i < |calls| && calls[j].kind == calls[i].kind
    && (forall k :: j <= k <= i && calls[k].kind == calls[i].kind ==> calls[k].status == calls[i].status)
    && (forall k :: LastBefore(calls, k, j) ==> calls[k].status != calls[i].status)
  }

  /** Call `k` is the last one before call `j` for the same kind. */
  ghost predicate LastBefore<K, R>(calls: seq<Call<K, R>>, k: int, j: int) {
    && 0 <= k < j < |calls| && calls[k].kind == calls[j].kind
    && forall l :: k < l < j ==> calls[l].kind != calls[j].kind
  }

  /** The condition reports the latest call of its kind, dated by the call that began its run. */
  ghost predicate Reports<K, R>(calls: seq<Call<K, R>>, cond: Condition<K, R>, j: int, i: int) {
    && Latest(calls, i) && BeganRun(calls, j, i)
    && cond.kind == calls[i].kind && cond.status == calls[i].status && cond.reason == calls[i].reason
    && cond.observedGeneration == calls[i].generation && cond.lastTransition == calls[j].now
  }

  lemma LastBeforePrefix<K, R>(calls: seq<Call<K, R>>, c: Call<K, R>, k: int, j: int)
    requires j < |calls| && LastBefore(calls + [c], k, j)
    ensures LastBefore(calls, k, j)
  {
    assert forall l :: 0 <= l < |calls| ==> (calls + [c])[l] == calls[l];
  }

  lemma ReportsAfterOther<K, R>(calls: seq<Call<K, R>>, c: Call<K, R>, cond: Condition<K, R>, j: int, i: int)
    requires Reports(calls, cond, j, i) && c.kind != cond.kind
    ensures Reports(calls + [c], cond, j, i)
  {
    forall k | LastBefore(calls + [c], k, j) ensures LastBefore(calls, k, j) {
      LastBeforePrefix(calls, c, k, j);
    }
  }

  lemma ReportsAfterSame<K, R>(calls: seq<Call<K, R>>, c: Call<K, R>, cond: Condition<K, R>, j: int, i: int)
    requires Reports(calls, cond, j, i) && c.kind == cond.kind
    ensures c.status == cond.status ==> Reports(calls + [c], Entry(c, cond.lastTransition), j, |calls|)
    ensures c.status != cond.status ==> Reports(calls + [c], Entry(c, c.now), |calls|, |calls|)
  {
    var all := calls + [c];
    assert forall l :: 0 <= l < |calls| ==> all[l] == calls[l];
    forall k | LastBefore(all, k, j) ensures LastBefore(calls, k, j) {
      LastBeforePrefix(calls, c, k, j);
    }
    forall k | LastBefore(all, k, |calls|) ensures k == i {
      assert all[i].kind == c.kind;
    }
  }

  /** The main result, for every history: kinds are unique; a kind is listed exactly when some
      call named it; and each condition carries the latest call's data and the clock reading of
      the call that began the current unbroken run of its status. */
  lemma {:induction false} HistoryIsReported<K, R>(calls: seq<Call<K, R>>)
    ensures Unique(History(calls))
    ensures forall kind :: Has(History(calls), kind) <==> Named(calls, kind)
    ensures forall p :: 0 <= p < |History(calls)| ==> Reported(calls, History(calls)[p])
  {
    if calls != [] {
      var before, c := calls[..|calls| - 1], calls[|calls| - 1];
      assert calls == before + [c];
      HistoryIsReported(before);
      var cs := History(before);
      UpsertPoints(cs, c);
      forall kind ensures Has(Upsert(cs, c), kind) <==> Named(calls, kind) {
        KindsAfter(cs, c, kind);
        NamedAfter(before, c, kind);
      }
      forall p | 0 <= p < |Upsert(cs, c)| ensures Reported(calls, Upsert(cs, c)[p]) {
        ReportedAfter(before, cs, c, p);
      }
    }
  }

  ghost predicate Reported<K, R>(calls: seq<Call<K, R>>, cond: Condition<K, R>) {
    exists j, i :: Reports(calls, cond, j, i)
  }

  lemma ReportedAfter<K, R>(calls: seq<Call<K, R>>, cs: seq<Condition<K, R>>, c: Call<K, R>, p: int)
    requires Unique(cs) && (Has(cs, c.kind) <==> Named(calls, c.kind))
    requires forall q :: 0 <= q < |cs| ==> Reported(calls, cs[q])
    requires 0 <= p < |Upsert(cs, c)|
    ensures Reported(calls + [c], Upsert(cs, c)[p])
  {
    UpsertPoints(cs, c);
    if p < |cs| {
      assert Reported(calls, cs[p]);
      var j, i :| Reports(calls, cs[p], j, i);
      if cs[p].kind == c.kind {
        ReportsAfterSame(calls, c, cs[p], j, i);
      } else {
        ReportsAfterOther(calls, c, cs[p], j, i);
      }
    } else {
      ReportsFirst(calls, c);
    }
  }

  lemma ReportsFirst<K, R>(calls: seq<Call<K, R>>, c: Call<K, R>)
    requires !Named(calls, c.kind)
    ensures Reports(calls + [c], Entry(c, c.now), |calls|, |calls|)
  {
    assert forall l :: 0 <= l < |calls| ==> (calls + [c])[l] == calls[l];
  }

  ghost predicate Named<K, R>(calls: seq<Call<K, R>>, kind: K) {
    exists k :: 0 <= k < |calls| && calls[k].kind == kind
  }

  lemma NamedAfter<K, R>(calls: seq<Call<K, R>>, c: Call<K, R>, kind: K)
    ensures Named(calls + [c], kind) <==> kind == c.kind || Named(calls, kind)
  {
    var all := calls + [c];
    assert all[|calls|] == c;
    if k :| 0 <= k < |calls| && calls[k].kind == kind { assert all[k].kind == kind; }
  }

  lemma KindsAfter<K, R>(cs: seq<Condition<K, R>>, c: Call<K, R>, kind: K)
    requires Unique(cs)
    ensures Has(Upsert(cs, c), kind) <==> kind == c.kind || Has(cs, kind)
  {
    UpsertPoints(cs, c);
    var r := Upsert(cs, c);
    if i :| 0 <= i < |cs| && cs[i].kind == kind { assert r[i].kind == kind; }
    if Has(cs, c.kind) {
      var i :| 0 <= i < |cs| && cs[i].kind == c.kind;
      assert r[i].kind == c.kind;
    } else {
      assert r[|cs|].kind == c.kind;
    }
  }

  // ---- reading a condition back ----

  /** The condition of a kind carries the given status. */
  ghost predicate Says<K, R>(cs: seq<Condition<K, R>>, kind: K, status: Status) {
    exists i :: 0 <= i < |cs| && cs[i].kind == kind && cs[i].status == status
  }

  /** After a call its kind has the new status, and every other kind is as before. */
  lemma UpsertSays<K, R>(cs: seq<Condition<K, R>>, c: Call<K, R>)
    requires Unique(cs)
    ensures Unique(Upsert(cs, c))
    ensures forall s :: Says(Upsert(cs, c), c.kind, s) <==> s == c.status
    ensures forall kind, s :: kind != c.kind ==> (Says(Upsert(cs, c), kind, s) <==> Says(cs, kind, s))
  {
    UpsertPoints(cs, c);
    var r := Upsert(cs, c);
    KindsAfter(cs, c, c.kind);
    var p :| 0 <= p < |r| && r[p].kind == c.kind;
    assert r[p].status == c.status;
    forall kind, s | kind != c.kind && Says(cs, kind, s) ensures Says(r, kind, s) {
      var i :| 0 <= i < |cs| && cs[i].kind == kind && cs[i].status == s;
      assert r[i] == cs[i];
    }
  }

  /** The condition of a kind carries the given status, reason and generation. */
  ghost predicate Tells<K, R>(cs: seq<Condition<K, R>>, kind: K, status: Status, reason: R, generation: int) {
    exists i :: 0 <= i < |cs| && cs[i].kind == kind && cs[i].status == status && cs[i].reason == reason
      && cs[i].observedGeneration == generation
  }

  lemma TellsSays<K, R>(cs: seq<Condition<K, R>>, kind: K, status: Status, reason: R, generation: int)
    requires Unique(cs) && Tells(cs, kind, status, reason, generation)
    ensures forall s :: Says(cs, kind, s) <==> s == status
  {
    var i :| 0 <= i < |cs| && cs[i].kind == kind && cs[i].status == status;
  }

  /** A call is told from then on. */
  lemma UpsertTells<K, R>(cs: seq<Condition<K, R>>, c: Call<K, R>)
    requires Unique(cs)
    ensures Unique(Upsert(cs, c)) && Tells(Upsert(cs, c), c.kind, c.status, c.reason, c.generation)
  {
    UpsertPoints(cs, c);
    var r := Upsert(cs, c);
    KindsAfter(cs, c, c.kind);
    var p :| 0 <= p < |r| && r[p].kind == c.kind;
    assert r[p].status == c.status && r[p].reason == c.reason && r[p].observedGeneration == c.generation;
  }

  /** Of other kinds the same is told as before. */
  lemma UpsertTellsStill<K, R>(cs: seq<Condition<K, R>>, c: Call<K, R>, kind: K, status: Status, reason: R, generation: int)
    requires Unique(cs) && kind != c.kind
    ensures Tells(Upsert(cs, c), kind, status, reason, generation) <==> Tells(cs, kind, status, reason, generation)
  {
    UpsertPoints(cs, c);
    var r := Upsert(cs, c);
    if Tells(cs, kind, status, reason, generation) {
      var i :| 0 <= i < |cs| && cs[i].kind == kind && cs[i].status == status && cs[i].reason == reason
        && cs[i].observedGeneration == generation;
      assert r[i] == cs[i];
    }
  }

  /** The list already shows what the call would set. */
  ghost predicate Shows<K, R>(cs: seq<Condition<K, R>>, c: Call<K, R>) {
    exists i :: 0 <= i < |cs| && cs[i] == Entry(c, cs[i].lastTransition)
  }

  /** Setting what is already shown changes nothing, not even the transition time. */
  lemma UpsertShown<K, R>(cs: seq<Condition<K, R>>, c: Call<K, R>)
    requires Unique(cs) && Shows(cs, c)
    ensures Upsert(cs, c) == cs
  {
    UpsertPoints(cs, c);
    assert Has(cs, c.kind);
  }

  /** What a call sets is shown from then on, until a call for the same kind. */
  lemma UpsertShows<K, R>(cs: seq<Condition<K, R>>, c: Call<K, R>, d: Call<K, R>)
    requires Unique(cs)
    ensures c.(now := d.now) == d ==> Shows(Upsert(cs, c), d)
    ensures Shows(cs, d) && c.kind != d.kind ==> Shows(Upsert(cs, c), d)
  {
    UpsertPoints(cs, c);
    var r := Upsert(cs, c);
    KindsAfter(cs, c, c.kind);
    var p :| 0 <= p < |r| && r[p].kind == c.kind;
    assert r[p] == Entry(c, r[p].lastTransition);
    if Shows(cs, d) && c.kind != d.kind {
      var i :| 0 <= i < |cs| && cs[i] == Entry(d, cs[i].lastTransition);
      assert r[i] == cs[i];
    }
  }
}
