/** internal/snapshot: the retention sweep, with its hand-written exchange sort. */
module Snapshot {
  import Int64

  /** A snapshot: its creation time in nanoseconds, and everything else about it. */
  datatype Manifest = Manifest(name: string, created: int)

  datatype RetentionPolicy = RetentionPolicy(maxCount: int, maxAge: int)

  // ---- sorting ----

  predicate NewestFirst(s: seq<Manifest>) {
    forall i, j :: 0 <= i < j < |s| ==> s[i].created >= s[j].created
  }

  method Swap(a: array<Manifest>, i: nat, j: nat)
    requires i < j < a.Length
    modifies a
    ensures a[i] == old(a[j]) && a[j] == old(a[i])
    ensures forall k :: 0 <= k < a.Length && k != i && k != j ==> a[k] == old(a[k])
    ensures multiset(a[..]) == old(multiset(a[..]))
  {
    a[i], a[j] := a[j], a[i];
  }

  /** The first `i` entries are in place: none of them is older than anything after it. */
  ghost predicate InPlace(a: array<Manifest>, i: nat)
    reads a
  {
    forall p, q :: 0 <= p < i && p < q < a.Length ==> a[p].created >= a[q].created
  }

  method ExchangeSort(a: array<Manifest>)
    modifies a
    ensures NewestFirst(a[..]) && multiset(a[..]) == old(multiset(a[..]))
  {
    for i := 0 to a.Length
      invariant InPlace(a, i) && multiset(a[..]) == old(multiset(a[..]))
    {
      for j := i + 1 to a.Length
        invariant InPlace(a, i) && multiset(a[..]) == old(multiset(a[..]))
        invariant forall q :: i < q < j ==> a[i].created >= a[q].created
      {
        if a[j].created > a[i].created {
          Swap(a, i, j);
        }
      }
    }
  }

  // ---- the sweep ----

  /** time.Time.Sub saturates at the ends of the duration range. */
  function Age(s: Manifest, now: int): int {
    var d := now - s.created;
    if d > Int64.MAX then Int64.MAX else if d < Int64.MIN then Int64.MIN else d
  }

  predicate Expired(p: RetentionPolicy, s: Manifest, now: int) {
    p.maxAge > 0 && Age(s, now) > p.maxAge
  }

  /** A limit in the duration range is exceeded when more time has gone by; the largest one never
      is, because the age saturates. */
  lemma ExpiredSays(p: RetentionPolicy, s: Manifest, now: int)
    requires Int64.InRange(p.maxAge)
    ensures Expired(p, s, now) <==> 0 < p.maxAge < Int64.MAX && now - s.created > p.maxAge
  {
  }

  predicate Drops(p: RetentionPolicy, s: Manifest, i: int, now: int) {
    (p.maxCount > 0 && i >= p.maxCount) || Expired(p, s, now)
  }

  function Dropped(p: RetentionPolicy, sorted: seq<Manifest>, now: int): seq<Manifest> {
    if sorted == [] then []
    else
      var n := |sorted| - 1;
      Dropped(p, sorted[..n], now) + if Drops(p, sorted[n], n, now) then [sorted[n]] else []
  }

  /** `del` is what a sweep deletes from the snapshots; the sort leaves the order of equal
      times open. */
  ghost predicate IsSweep(p: RetentionPolicy, snaps: seq<Manifest>, now: int, del: seq<Manifest>) {
    exists sorted :: NewestFirst(sorted) && multiset(sorted) == multiset(snaps) && del == Dropped(p, sorted, now)
  }

  method Apply(p: RetentionPolicy, snaps: seq<Manifest>, now: int) returns (toDelete: seq<Manifest>)
    ensures IsSweep(p, snaps, now, toDelete)
  {
    var sorted := new Manifest[|snaps|](i requires 0 <= i < |snaps| => snaps[i]);
    assert sorted[..] == snaps;
    ExchangeSort(sorted);
    toDelete := [];
    for i := 0 to sorted.Length
      invariant toDelete == Dropped(p, sorted[..i], now)
    {
      assert sorted[..i + 1][..i] == sorted[..i];
      var s := sorted[i];
      if p.maxCount > 0 && i >= p.maxCount {
        toDelete := toDelete + [s];
        continue;
      }
      if p.maxAge > 0 && Age(s, now) > p.maxAge {
        toDelete := toDelete + [s];
      }
    }
    assert sorted[..sorted.Length] == sorted[..];
  }

  // ---- what a sweep deletes ----

  lemma OlderIsExpired(p: RetentionPolicy, s: Manifest, t: Manifest, now: int)
    requires Expired(p, s, now) && s.created >= t.created
    ensures Expired(p, t, now)
  {}

  /** The number of snapshots kept: the kept ones are the newest. */
  function Kept(p: RetentionPolicy, sorted: seq<Manifest>, now: int): (m: nat)
    ensures m <= |sorted|
    ensures forall i :: 0 <= i < m ==> !Drops(p, sorted[i], i, now)
    ensures m < |sorted| ==> Drops(p, sorted[m], m, now)
  {
    if sorted == [] then 0
    else
      var n := |sorted| - 1;
      var m := Kept(p, sorted[..n], now);
      if m < n || Drops(p, sorted[n], n, now) then m else n + 1
  }

  lemma LaterDropToo(p: RetentionPolicy, sorted: seq<Manifest>, m: nat, n: nat, now: int)
    requires NewestFirst(sorted) && m < n < |sorted| && Drops(p, sorted[m], m, now)
    ensures Drops(p, sorted[n], n, now)
  {
    if Expired(p, sorted[m], now) {
      OlderIsExpired(p, sorted[m], sorted[n], now);
    }
  }

  lemma {:induction false} DroppedIsTheRest(p: RetentionPolicy, sorted: seq<Manifest>, now: int)
    requires NewestFirst(sorted)
    ensures Dropped(p, sorted, now) == sorted[Kept(p, sorted, now)..]
  {
    if sorted != [] {
      var n := |sorted| - 1;
      var init := sorted[..n];
      var m := Kept(p, init, now);
      DroppedIsTheRest(p, init, now);
      if m < n {
        assert init[m] == sorted[m];
        LaterDropToo(p, sorted, m, n, now);
      }
      assert sorted[m..] == init[m..] + [sorted[n]];
      assert init[n..] == [];
    }
  }

  /** The main result about one sweep, for all policies, snapshots and times. Kept and deleted
      make up the input; nothing kept is older than anything deleted; the survivors respect both
      limits; and nothing is deleted without need: it has expired, or the count limit is used up
      by the survivors. */
  lemma SweepIsRight(p: RetentionPolicy, snaps: seq<Manifest>, now: int, del: seq<Manifest>)
    returns (kept: seq<Manifest>)
    requires IsSweep(p, snaps, now, del)
    ensures multiset(kept) + multiset(del) == multiset(snaps)
    ensures forall i, j :: 0 <= i < |kept| && 0 <= j < |del| ==> kept[i].created >= del[j].created
    ensures p.maxCount > 0 ==> |kept| <= p.maxCount
    ensures forall i :: 0 <= i < |kept| ==> !Expired(p, kept[i], now)
    ensures forall j :: 0 <= j < |del| ==> Expired(p, del[j], now) || (p.maxCount > 0 && |kept| == p.maxCount)
  {
    var sorted :| NewestFirst(sorted) && multiset(sorted) == multiset(snaps) && del == Dropped(p, sorted, now);
    DroppedIsTheRest(p, sorted, now);
    var m := Kept(p, sorted, now);
    kept := sorted[..m];
    MultisetOfCut(sorted, m);
    LimitsOfKept(p, sorted, m, now);
    OrderOfCut(sorted, m, kept, del);
    NeedOfCut(p, sorted, m, del, now);
  }

  /** The snapshot is older than the limit, if there is one. */
  predicate Overdue(p: RetentionPolicy, s: Manifest, now: int) {
    p.maxAge > 0 && now - s.created > p.maxAge
  }

  /** The same in plain time: no survivor is older than a limit below the largest duration, and
      what is deleted is older than the limit, or the count limit is used up. */
  lemma SweepInPlainTime(p: RetentionPolicy, snaps: seq<Manifest>, now: int, del: seq<Manifest>)
    returns (kept: seq<Manifest>)
    requires IsSweep(p, snaps, now, del) && Int64.InRange(p.maxAge)
    ensures multiset(kept) + multiset(del) == multiset(snaps)
    ensures p.maxAge < Int64.MAX ==> forall i :: 0 <= i < |kept| ==> !Overdue(p, kept[i], now)
    ensures forall j :: 0 <= j < |del| ==> Overdue(p, del[j], now) || (p.maxCount > 0 && |kept| == p.maxCount)
  {
    kept := SweepIsRight(p, snaps, now, del);
    forall i | 0 <= i < |kept| && p.maxAge < Int64.MAX ensures !Overdue(p, kept[i], now) {
      ExpiredSays(p, kept[i], now);
    }
    forall j | 0 <= j < |del| ensures Overdue(p, del[j], now) || (p.maxCount > 0 && |kept| == p.maxCount) {
      ExpiredSays(p, del[j], now);
    }
  }

  lemma MultisetOfCut(sorted: seq<Manifest>, m: nat)
    requires m <= |sorted|
    ensures multiset(sorted[..m]) + multiset(sorted[m..]) == multiset(sorted)
  {
    assert sorted == sorted[..m] + sorted[m..];
  }

  lemma OrderOfCut(sorted: seq<Manifest>, m: nat, kept: seq<Manifest>, del: seq<Manifest>)
    requires NewestFirst(sorted) && m <= |sorted| && kept == sorted[..m] && del == sorted[m..]
    ensures forall i, j :: 0 <= i < |kept| && 0 <= j < |del| ==> kept[i].created >= del[j].created
  {
    forall i, j | 0 <= i < |kept| && 0 <= j < |del| ensures kept[i].created >= del[j].created {
      assert kept[i] == sorted[i] && del[j] == sorted[m + j];
    }
  }

  lemma NeedOfCut(p: RetentionPolicy, sorted: seq<Manifest>, m: nat, del: seq<Manifest>, now: int)
    requires NewestFirst(sorted) && m <= |sorted| && del == sorted[m..]
    requires m < |sorted| ==> Expired(p, sorted[m], now) || (p.maxCount > 0 && m == p.maxCount)
    ensures forall j :: 0 <= j < |del| ==> Expired(p, del[j], now) || (p.maxCount > 0 && m == p.maxCount)
  {
    forall j | 0 <= j < |del| ensures Expired(p, del[j], now) || (p.maxCount > 0 && m == p.maxCount) {
      assert del[j] == sorted[m + j];
      if Expired(p, sorted[m], now) {
        OlderIsExpired(p, sorted[m], del[j], now);
      }
    }
  }

  lemma LimitsOfKept(p: RetentionPolicy, sorted: seq<Manifest>, m: nat, now: int)
    requires m <= |sorted| && forall i :: 0 <= i < m ==> !Drops(p, sorted[i], i, now)
    requires m < |sorted| ==> Drops(p, sorted[m], m, now)
    ensures p.maxCount > 0 ==> m <= p.maxCount
    ensures m < |sorted| ==> Expired(p, sorted[m], now) || (p.maxCount > 0 && m == p.maxCount)
  {
    if m > 0 {
      assert !Drops(p, sorted[m - 1], m - 1, now);
    }
  }

  /** Members and size of a list depend only on its multiset. */
  lemma SameElements(a: seq<Manifest>, b: seq<Manifest>)
    requires multiset(a) == multiset(b)
    ensures |a| == |b| && forall i :: 0 <= i < |a| ==> a[i] in b
  {
    assert |multiset(a)| == |multiset(b)|;
    forall i | 0 <= i < |a| ensures a[i] in b {
      assert a[i] in multiset(a);
    }
  }

  /** A second sweep of the survivors, in whatever order, at the same time deletes nothing. */
  lemma SecondSweepDeletesNothing(p: RetentionPolicy, snaps: seq<Manifest>, now: int, del: seq<Manifest>,
                                  left: seq<Manifest>, del2: seq<Manifest>)
    requires IsSweep(p, snaps, now, del) && multiset(left) + multiset(del) == multiset(snaps)
    requires IsSweep(p, left, now, del2)
    ensures del2 == []
  {
    var kept := SweepIsRight(p, snaps, now, del);
    Cancel(multiset(left), multiset(kept), multiset(del));
    SameElements(left, kept);
    WithinLimits(p, left, now, del2);
  }

  lemma Cancel(a: multiset<Manifest>, b: multiset<Manifest>, d: multiset<Manifest>)
    requires a + d == b + d
    ensures a == b
  {
    forall x ensures a[x] == b[x] {
      assert (a + d)[x] == (b + d)[x];
    }
  }

  /** From snapshots within both limits a sweep deletes nothing. */
  lemma WithinLimits(p: RetentionPolicy, snaps: seq<Manifest>, now: int, del: seq<Manifest>)
    requires p.maxCount > 0 ==> |snaps| <= p.maxCount
    requires forall i :: 0 <= i < |snaps| ==> !Expired(p, snaps[i], now)
    requires IsSweep(p, snaps, now, del)
    ensures del == []
  {
    assert del == [] || del[0] in del;
    var kept := SweepIsRight(p, snaps, now, del);
    PartsOf(kept, del, snaps);
  }

  lemma PartsOf(kept: seq<Manifest>, del: seq<Manifest>, snaps: seq<Manifest>)
    requires multiset(kept) + multiset(del) == multiset(snaps)
    ensures |kept| + |del| == |snaps|
    ensures forall j :: 0 <= j < |del| ==> del[j] in snaps
  {
    SameElements(kept + del, snaps);
    forall j | 0 <= j < |del| ensures del[j] in snaps {
      assert (kept + del)[|kept| + j] == del[j];
    }
  }
}
