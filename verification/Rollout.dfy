/** internal/rolerollout: the order of a rolling upgrade, and whole rollouts driven by Next. */
module Rollout {
  import opened Text

  datatype Pod = Pod(name: string, ordinal: int, isPrimary: bool, healthy: bool, onDesired: bool)

  datatype Id = Id(name: string, ordinal: int)

  function IdOf(p: Pod): Id { Id(p.name, p.ordinal) }

  function Ids(ps: seq<Pod>): (ids: seq<Id>)
    ensures |ids| == |ps| && forall i :: 0 <= i < |ps| ==> ids[i] == IdOf(ps[i])
  {
    seq(|ps|, i requires 0 <= i < |ps| => IdOf(ps[i]))
  }

  /** StatefulSet pods have one ordinal each. */
  ghost predicate Distinct(ps: seq<Pod>) {
    forall i, j :: 0 <= i < j < |ps| ==> ps[i].ordinal != ps[j].ordinal
  }

  // ---- the plan ----

  function PendingReplicas(pods: seq<Pod>): seq<Pod> {
    if pods == [] then []
    else
      var init, p := PendingReplicas(pods[..|pods| - 1]), pods[|pods| - 1];
      if !p.onDesired && !p.isPrimary then init + [p] else init
  }

  function PendingPrimaries(pods: seq<Pod>): seq<Pod> {
    if pods == [] then []
    else
      var init, p := PendingPrimaries(pods[..|pods| - 1]), pods[|pods| - 1];
      if !p.onDesired && p.isPrimary then init + [p] else init
  }

  /** Highest ordinal first. */
  predicate Descending(ps: seq<Pod>) {
    forall i, j :: 0 <= i < j < |ps| ==> ps[i].ordinal >= ps[j].ordinal
  }

  /** A plan: the pending replicas, each once, highest ordinal first, and then the last pending
      primary of the list, if there is one. */
  ghost predicate IsPlan(pods: seq<Pod>, plan: seq<Pod>) {
    var primaries := PendingPrimaries(pods);
    if primaries == [] then IsSorted(PendingReplicas(pods), plan)
    else |plan| > 0 && plan[|plan| - 1] == primaries[|primaries| - 1] && IsSorted(PendingReplicas(pods), plan[..|plan| - 1])
  }

  ghost predicate IsSorted(ps: seq<Pod>, sorted: seq<Pod>) {
    multiset(sorted) == multiset(ps) && Descending(sorted)
  }

  method InsertionPoint(sorted: seq<Pod>, p: Pod) returns (k: nat)
    ensures k <= |sorted|
    ensures k > 0 ==> sorted[k - 1].ordinal >= p.ordinal
    ensures forall j :: k <= j < |sorted| ==> sorted[j].ordinal < p.ordinal
  {
    k := |sorted|;
    while k > 0 && sorted[k - 1].ordinal < p.ordinal
      invariant 0 <= k <= |sorted|
      invariant forall j :: k <= j < |sorted| ==> sorted[j].ordinal < p.ordinal
    {
      k := k - 1;
    }
  }

  /** sort.Slice with the plan's comparison. The order of equal ordinals is left open. */
  method SortSlice(ps: seq<Pod>) returns (sorted: seq<Pod>)
    ensures IsSorted(ps, sorted)
  {
    sorted := [];
    for i := 0 to |ps|
      invariant IsSorted(ps[..i], sorted)
    {
      var k := InsertionPoint(sorted, ps[i]);
      assert ps[..i + 1] == ps[..i] + [ps[i]];
      InsertedInOrder(sorted, k, ps[i]);
      sorted := sorted[..k] + [ps[i]] + sorted[k..];
    }
    assert ps[..|ps|] == ps;
  }

  lemma InsertedInOrder(ps: seq<Pod>, k: nat, p: Pod)
    requires Descending(ps) && k <= |ps|
    requires k > 0 ==> ps[k - 1].ordinal >= p.ordinal
    requires forall j :: k <= j < |ps| ==> ps[j].ordinal < p.ordinal
    ensures Descending(ps[..k] + [p] + ps[k..])
    ensures multiset(ps[..k] + [p] + ps[k..]) == multiset(ps) + multiset{p}
  {
    InsertedElements(ps, k, p);
    var r := ps[..k] + [p] + ps[k..];
    forall i, j | 0 <= i < j < |r| ensures r[i].ordinal >= r[j].ordinal {
      if i >= k && j > k {
        assert r[j] == ps[j - 1];
      }
    }
  }

  lemma InsertedElements(ps: seq<Pod>, k: nat, p: Pod)
    requires k <= |ps|
    ensures multiset(ps[..k] + [p] + ps[k..]) == multiset(ps) + multiset{p}
  {
    assert ps == ps[..k] + ps[k..];
  }

  method Plan(pods: seq<Pod>) returns (plan: seq<Pod>)
    ensures IsPlan(pods, plan)
  {
    var pending: seq<Pod> := [];
    var primary: Option<Pod> := None;
    for i := 0 to |pods|
      invariant pending == PendingReplicas(pods[..i])
      invariant var ps := PendingPrimaries(pods[..i]);
        primary == if ps == [] then None else Some(ps[|ps| - 1])
    {
      assert pods[..i + 1][..i] == pods[..i];
      var p := pods[i];
      if p.onDesired {
        continue;
      }
      if p.isPrimary {
        primary := Some(p);
        continue;
      }
      pending := pending + [p];
    }
    assert pods[..|pods|] == pods;
    pending := SortSlice(pending);
    if primary.Some? {
      assert (pending + [primary.value])[..|pending|] == pending;
      pending := pending + [primary.value];
    }
    return pending;
  }

  predicate CanProceed(pods: seq<Pod>) {
    forall i :: 0 <= i < |pods| && pods[i].onDesired ==> pods[i].healthy
  }

  predicate IsComplete(pods: seq<Pod>) {
    |pods| > 0 && forall i :: 0 <= i < |pods| ==> pods[i].onDesired && pods[i].healthy
  }

  method PendingCount(pods: seq<Pod>) returns (count: nat)
    ensures count == Pending(pods)
  {
    count := 0;
    for i := 0 to |pods|
      invariant count == |PendingReplicas(pods[..i])| + |PendingPrimaries(pods[..i])|
    {
      assert pods[..i + 1][..i] == pods[..i];
      if !pods[i].onDesired {
        count := count + 1;
      }
    }
    assert pods[..|pods|] == pods;
  }

  /** Next hands out the head of a plan, unless an updated pod has not recovered. */
  ghost predicate IsNext(pods: seq<Pod>, next: Option<Pod>) {
    exists plan :: IsPlan(pods, plan) &&
      next == if plan == [] || !CanProceed(pods) then None else Some(plan[0])
  }

  method Next(pods: seq<Pod>) returns (next: Option<Pod>)
    ensures IsNext(pods, next)
  {
    var plan := Plan(pods);
    if |plan| == 0 {
      return None;
    }
    if !CanProceed(pods) {
      return None;
    }
    return Some(plan[0]);
  }

  // ---- lists of pending pods ----

  lemma {:induction false} PendingMembers(pods: seq<Pod>, p: Pod)
    ensures p in PendingReplicas(pods) <==> p in pods && !p.onDesired && !p.isPrimary
    ensures p in PendingPrimaries(pods) <==> p in pods && !p.onDesired && p.isPrimary
  {
    if pods != [] {
      assert pods == pods[..|pods| - 1] + [pods[|pods| - 1]];
      PendingMembers(pods[..|pods| - 1], p);
    }
  }

  lemma {:induction false} PendingDistinct(pods: seq<Pod>)
    requires Distinct(pods)
    ensures Distinct(PendingReplicas(pods)) && Distinct(PendingPrimaries(pods))
  {
    if pods != [] {
      var init, p := pods[..|pods| - 1], pods[|pods| - 1];
      PendingDistinct(init);
      forall i | 0 <= i < |PendingReplicas(init)| ensures PendingReplicas(init)[i].ordinal != p.ordinal {
        PendingMembers(init, PendingReplicas(init)[i]);
      }
      forall i | 0 <= i < |PendingPrimaries(init)| ensures PendingPrimaries(init)[i].ordinal != p.ordinal {
        PendingMembers(init, PendingPrimaries(init)[i]);
      }
    }
  }

  /** The primary goes last: it is handed out only when every replica is updated and healthy. */
  lemma PrimaryIsLast(pods: seq<Pod>, p: Pod)
    requires IsNext(pods, Some(p)) && p.isPrimary
    ensures forall i :: 0 <= i < |pods| && !pods[i].isPrimary ==> pods[i].onDesired && pods[i].healthy
    ensures p in pods && !p.onDesired
  {
    var plan :| IsPlan(pods, plan) && Some(p) == if plan == [] || !CanProceed(pods) then None else Some(plan[0]);
    HeadOfPlan(pods, plan);
    forall i | 0 <= i < |pods| && !pods[i].isPrimary ensures pods[i].onDesired {
      PendingMembers(pods, pods[i]);
    }
  }

  /** The head of a plan is a pending pod, and a replica as long as one is pending. */
  lemma HeadOfPlan(pods: seq<Pod>, plan: seq<Pod>)
    requires IsPlan(pods, plan) && plan != []
    ensures plan[0] in pods && !plan[0].onDesired
    ensures plan[0].isPrimary <==> PendingReplicas(pods) == []
  {
    var replicas, primaries := PendingReplicas(pods), PendingPrimaries(pods);
    var sorted := if primaries == [] then plan else plan[..|plan| - 1];
    assert |multiset(sorted)| == |multiset(replicas)|;
    assert sorted != [] ==> plan[0] in multiset(sorted);
    PendingMembers(pods, plan[0]);
  }

  // ---- rollouts ----

  /** A rollout in progress: the pods as they are now, and those handed out so far. */
  datatype Progress = Progress(pods: seq<Pod>, handed: seq<Id>)

  /** The pod goes onto the desired image and is unhealthy until it recovers. */
  function Updated(pods: seq<Pod>, id: Id): (r: seq<Pod>)
    ensures |r| == |pods|
    ensures forall i :: 0 <= i < |pods| ==>
      r[i] == if pods[i].ordinal == id.ordinal then pods[i].(onDesired := true, healthy := false) else pods[i]
  {
    seq(|pods|, i requires 0 <= i < |pods| =>
      if pods[i].ordinal == id.ordinal then pods[i].(onDesired := true, healthy := false) else pods[i])
  }

  ghost predicate HandsOut(r: Progress, r': Progress, p: Pod) {
    IsNext(r.pods, Some(p)) && r' == Progress(Updated(r.pods, IdOf(p)), r.handed + [IdOf(p)])
  }

  /** A pod's health changes: an updated pod only recovers; one still to be updated may come
      and go. */
  ghost predicate HealthChanges(r: Progress, r': Progress, i: nat) {
    && i < |r.pods| && r'.handed == r.handed
    && exists h: bool :: (r.pods[i].onDesired ==> h) && r'.pods == r.pods[i := r.pods[i].(healthy := h)]
  }

  ghost predicate Advances(r: Progress, r': Progress) {
    (exists p :: HandsOut(r, r', p)) || (exists i: nat :: HealthChanges(r, r', i))
  }

  ghost predicate IsRollout(rs: seq<Progress>) {
    |rs| > 0 && rs[0].handed == [] && forall k :: 0 <= k < |rs| - 1 ==> Advances(rs[k], rs[k + 1])
  }

  // ---- the order of hand-outs ----

  function Reversed(ids: seq<Id>): (r: seq<Id>)
    ensures |r| == |ids|
    ensures ids != [] ==> r[0] == ids[|ids| - 1]
  {
    if ids == [] then [] else [ids[|ids| - 1]] + Reversed(ids[..|ids| - 1])
  }

  ghost predicate IsPendingReplica(pods: seq<Pod>, id: Id) {
    exists i :: 0 <= i < |pods| && !pods[i].onDesired && !pods[i].isPrimary && IdOf(pods[i]) == id
  }

  /** The ids of the pending replicas, with strictly falling ordinals. */
  ghost predicate EnumeratesReplicas(pods: seq<Pod>, ids: seq<Id>) {
    && (forall i, j :: 0 <= i < j < |ids| ==> ids[i].ordinal > ids[j].ordinal)
    && (forall id :: id in ids <==> IsPendingReplica(pods, id))
  }

  /** The order in which the pending pods are going to be handed out: replicas from the highest
      ordinal down, and then the primaries from the back of the list. */
  ghost predicate IsOrder(pods: seq<Pod>, order: seq<Id>) {
    && |PendingPrimaries(pods)| <= |order|
    && var n := |order| - |PendingPrimaries(pods)|;
    && EnumeratesReplicas(pods, order[..n]) && order[n..] == Reversed(Ids(PendingPrimaries(pods)))
  }

  /** A plan extended by the primaries it leaves out. */
  function FullOrder(pods: seq<Pod>, plan: seq<Pod>): seq<Id> {
    var primaries := PendingPrimaries(pods);
    if primaries == [] then Ids(plan) else Ids(plan) + Reversed(Ids(primaries))[1..]
  }

  lemma SortedReplicas(pods: seq<Pod>, sorted: seq<Pod>)
    requires Distinct(pods) && IsSorted(PendingReplicas(pods), sorted)
    ensures EnumeratesReplicas(pods, Ids(sorted)) && |sorted| == |PendingReplicas(pods)|
  {
    var ids := Ids(sorted);
    var rs := PendingReplicas(pods);
    assert |multiset(sorted)| == |multiset(rs)|;
    PendingDistinct(pods);
    SortedStrictly(rs, sorted);
    forall id ensures id in ids <==> IsPendingReplica(pods, id) {
      if id in ids {
        var i :| 0 <= i < |ids| && ids[i] == id;
        assert sorted[i] in multiset(sorted);
        PendingMembers(pods, sorted[i]);
      }
      if IsPendingReplica(pods, id) {
        var k :| 0 <= k < |pods| && !pods[k].onDesired && !pods[k].isPrimary && IdOf(pods[k]) == id;
        PendingMembers(pods, pods[k]);
        assert pods[k] in multiset(rs);
        var i :| 0 <= i < |sorted| && sorted[i] == pods[k];
        assert ids[i] == id;
      }
    }
  }

  /** A list with distinct ordinals, sorted, falls strictly. */
  lemma SortedStrictly(ps: seq<Pod>, sorted: seq<Pod>)
    requires Distinct(ps) && IsSorted(ps, sorted)
    ensures forall i, j :: 0 <= i < j < |sorted| ==> sorted[i].ordinal > sorted[j].ordinal
  {
    forall i, j | 0 <= i < j < |sorted| ensures sorted[i].ordinal != sorted[j].ordinal {
      if sorted[i].ordinal == sorted[j].ordinal {
        assert sorted[i] in multiset(sorted) && sorted[j] in multiset(sorted);
        assert sorted[i] in ps && sorted[j] in ps;
        assert sorted[i] == sorted[j];
        TwiceInMultiset(sorted, i, j);
        OnceInDistinct(ps, sorted[i]);
      }
    }
  }

  lemma TwiceInMultiset(ps: seq<Pod>, i: nat, j: nat)
    requires i < j < |ps| && ps[i] == ps[j]
    ensures multiset(ps)[ps[i]] >= 2
  {
    assert ps == ps[..j] + [ps[j]] + ps[j + 1..];
    assert ps[i] in ps[..j];
  }

  lemma {:induction false} OnceInDistinct(ps: seq<Pod>, p: Pod)
    requires Distinct(ps)
    ensures multiset(ps)[p] <= 1
  {
    if ps != [] {
      var init, last := ps[..|ps| - 1], ps[|ps| - 1];
      assert ps == init + [last];
      OnceInDistinct(init, p);
      if p == last {
        assert p !in init;
      }
    }
  }

  /** A plan is sorted replicas with at most one primary behind them. */
  lemma PlanParts(pods: seq<Pod>, plan: seq<Pod>) returns (sorted: seq<Pod>)
    requires IsPlan(pods, plan)
    ensures IsSorted(PendingReplicas(pods), sorted)
    ensures FullOrder(pods, plan) == Ids(sorted) + Reversed(Ids(PendingPrimaries(pods)))
    ensures |plan| == |sorted| + if PendingPrimaries(pods) == [] then 0 else 1
  {
    var primaries := PendingPrimaries(pods);
    if primaries == [] {
      sorted := plan;
    } else {
      sorted := plan[..|plan| - 1];
      assert plan == sorted + [plan[|plan| - 1]];
      LastPrimaryJoins(primaries, sorted);
    }
  }

  lemma PartsAreOrder(pods: seq<Pod>, sorted: seq<Pod>)
    requires Distinct(pods) && IsSorted(PendingReplicas(pods), sorted)
    ensures IsOrder(pods, Ids(sorted) + Reversed(Ids(PendingPrimaries(pods))))
    ensures |sorted| == |PendingReplicas(pods)|
  {
    SortedReplicas(pods, sorted);
    var back := Reversed(Ids(PendingPrimaries(pods)));
    var order := Ids(sorted) + back;
    assert order[..|sorted|] == Ids(sorted) && order[|sorted|..] == back;
  }

  /** Every plan begins the full order; it is all of it exactly when at most one primary is
      pending. */
  lemma PlanIsOrder(pods: seq<Pod>, plan: seq<Pod>)
    requires Distinct(pods) && IsPlan(pods, plan)
    ensures IsOrder(pods, FullOrder(pods, plan))
    ensures |FullOrder(pods, plan)| == |PendingReplicas(pods)| + |PendingPrimaries(pods)|
    ensures Ids(plan) <= FullOrder(pods, plan)
    ensures FullOrder(pods, plan) == Ids(plan) <==> |PendingPrimaries(pods)| <= 1
  {
    var sorted := PlanParts(pods, plan);
    PartsAreOrder(pods, sorted);
  }

  lemma LastPrimaryJoins(primaries: seq<Pod>, sorted: seq<Pod>)
    requires primaries != []
    ensures var last := primaries[|primaries| - 1];
      Ids(sorted + [last]) + Reversed(Ids(primaries))[1..] == Ids(sorted) + Reversed(Ids(primaries))
  {
    var last := primaries[|primaries| - 1];
    var back := Reversed(Ids(primaries));
    assert Ids(sorted + [last]) == Ids(sorted) + [IdOf(last)];
    assert back == [IdOf(last)] + back[1..];
  }

  // ---- every rollout follows the order ----

  lemma {:induction false} OtherPrimariesStay(pods: seq<Pod>, id: Id)
    requires forall i :: 0 <= i < |pods| && !pods[i].onDesired && pods[i].isPrimary ==> pods[i].ordinal != id.ordinal
    ensures PendingPrimaries(Updated(pods, id)) == PendingPrimaries(pods)
  {
    if pods != [] {
      var init := pods[..|pods| - 1];
      assert Updated(pods, id)[..|pods| - 1] == Updated(init, id);
      OtherPrimariesStay(init, id);
    }
  }

  lemma {:induction false} LastPrimaryLeaves(pods: seq<Pod>, id: Id)
    requires Distinct(pods)
    requires var ps := PendingPrimaries(pods); ps != [] && ps[|ps| - 1].ordinal == id.ordinal
    ensures var ps := PendingPrimaries(pods); PendingPrimaries(Updated(pods, id)) == ps[..|ps| - 1]
  {
    if pods != [] {
      var init, p := pods[..|pods| - 1], pods[|pods| - 1];
      assert Updated(pods, id)[..|pods| - 1] == Updated(init, id);
      if !p.onDesired && p.isPrimary {
        OtherPrimariesStay(init, id);
      } else {
        LastPrimaryLeaves(init, id);
      }
    }
  }

  /** The pod that Next returns heads the order. */
  lemma NextHeadsOrder(pods: seq<Pod>, p: Pod, order: seq<Id>)
    requires Distinct(pods) && IsNext(pods, Some(p)) && IsOrder(pods, order)
    ensures order != [] && order[0] == IdOf(p)
    ensures p in pods && !p.onDesired && CanProceed(pods)
    ensures p.isPrimary <==> |order| == |PendingPrimaries(pods)|
    ensures p.isPrimary ==> PendingPrimaries(pods)[|PendingPrimaries(pods)| - 1] == p
  {
    var plan :| IsPlan(pods, plan) && Some(p) == if plan == [] || !CanProceed(pods) then None else Some(plan[0]);
    HeadOfPlan(pods, plan);
    if p.isPrimary {
      PrimaryHeadsOrder(pods, plan, order);
    } else {
      ReplicaHeadsOrder(pods, plan, order);
    }
  }

  lemma PrimaryHeadsOrder(pods: seq<Pod>, plan: seq<Pod>, order: seq<Id>)
    requires IsPlan(pods, plan) && plan != [] && plan[0].isPrimary && IsOrder(pods, order)
    ensures |order| == |PendingPrimaries(pods)| > 0 && order[0] == IdOf(plan[0])
    ensures PendingPrimaries(pods)[|PendingPrimaries(pods)| - 1] == plan[0]
  {
    HeadOfPlan(pods, plan);
    var n := |order| - |PendingPrimaries(pods)|;
    NoReplicasListed(pods, order[..n]);
    PendingMembers(pods, plan[0]);
    OnlyPrimaryPlanned(pods, plan);
    assert order[n..] == order;
  }

  lemma ReplicaHeadsOrder(pods: seq<Pod>, plan: seq<Pod>, order: seq<Id>)
    requires Distinct(pods) && IsPlan(pods, plan) && plan != [] && !plan[0].isPrimary && IsOrder(pods, order)
    ensures |order| > |PendingPrimaries(pods)| && order[0] == IdOf(plan[0])
  {
    HeadOfPlan(pods, plan);
    HighestReplica(pods, plan, order[..|order| - |PendingPrimaries(pods)|]);
  }

  lemma NoReplicasListed(pods: seq<Pod>, ids: seq<Id>)
    requires EnumeratesReplicas(pods, ids) && PendingReplicas(pods) == []
    ensures ids == []
  {
    if ids != [] {
      assert IsPendingReplica(pods, ids[0]);
      var i :| 0 <= i < |pods| && !pods[i].onDesired && !pods[i].isPrimary && IdOf(pods[i]) == ids[0];
      PendingMembers(pods, pods[i]);
    }
  }

  lemma OnlyPrimaryPlanned(pods: seq<Pod>, plan: seq<Pod>)
    requires IsPlan(pods, plan) && plan != [] && PendingReplicas(pods) == []
    ensures |plan| == 1
  {
    var sorted := PlanParts(pods, plan);
    assert |multiset(sorted)| == 0;
  }

  lemma HighestReplica(pods: seq<Pod>, plan: seq<Pod>, ids: seq<Id>)
    requires Distinct(pods) && IsPlan(pods, plan) && EnumeratesReplicas(pods, ids)
    requires plan != [] && !plan[0].isPrimary && plan[0] in pods && !plan[0].onDesired
    ensures ids != [] && ids[0] == IdOf(plan[0])
  {
    var p := plan[0];
    var k :| 0 <= k < |pods| && pods[k] == p;
    assert IsPendingReplica(pods, IdOf(p));
    assert IdOf(p) in ids;
    assert IsPendingReplica(pods, ids[0]);
    var i :| 0 <= i < |pods| && !pods[i].onDesired && !pods[i].isPrimary && IdOf(pods[i]) == ids[0];
    HeadIsHighest(pods, plan, pods[i]);
    assert ids[0].ordinal == p.ordinal;
    assert i == k;
  }

  lemma HeadIsHighest(pods: seq<Pod>, plan: seq<Pod>, q: Pod)
    requires IsPlan(pods, plan) && plan != [] && !plan[0].isPrimary
    requires q in pods && !q.onDesired && !q.isPrimary
    ensures q.ordinal <= plan[0].ordinal
  {
    PendingMembers(pods, q);
    var rs, primaries := PendingReplicas(pods), PendingPrimaries(pods);
    var sorted := if primaries == [] then plan else plan[..|plan| - 1];
    assert q in multiset(rs);
    assert q in multiset(sorted);
    assert q in sorted;
    var i :| 0 <= i < |sorted| && sorted[i] == q;
    assert sorted[0] == plan[0];
  }

  /** Handing out the head leaves the rest of the order. */
  lemma HandOutFollowsOrder(pods: seq<Pod>, p: Pod, order: seq<Id>)
    requires Distinct(pods) && IsNext(pods, Some(p)) && IsOrder(pods, order)
    ensures order != [] && order[0] == IdOf(p)
    ensures IsOrder(Updated(pods, IdOf(p)), order[1..])
  {
    NextHeadsOrder(pods, p, order);
    if p.isPrimary {
      PrimaryHandOut(pods, p, order);
    } else {
      ReplicaHandOut(pods, p, order);
    }
  }

  lemma PrimaryHandOut(pods: seq<Pod>, p: Pod, order: seq<Id>)
    requires Distinct(pods) && IsOrder(pods, order) && |order| == |PendingPrimaries(pods)|
    requires order != [] && PendingPrimaries(pods)[|order| - 1] == p
    ensures IsOrder(Updated(pods, IdOf(p)), order[1..])
  {
    var primaries := PendingPrimaries(pods);
    LastPrimaryLeaves(pods, IdOf(p));
    assert order[0..] == order && order[..0] == [];
    assert Ids(primaries)[..|primaries| - 1] == Ids(primaries[..|primaries| - 1]);
    NoReplicasLeft(pods, p);
    assert order[1..][..0] == [] && order[1..][0..] == order[1..];
  }

  lemma ReplicaHandOut(pods: seq<Pod>, p: Pod, order: seq<Id>)
    requires Distinct(pods) && IsOrder(pods, order) && |order| != |PendingPrimaries(pods)|
    requires p in pods && !p.isPrimary && order[0] == IdOf(p)
    ensures IsOrder(Updated(pods, IdOf(p)), order[1..])
  {
    var n := |order| - |PendingPrimaries(pods)|;
    OtherPrimariesStay(pods, IdOf(p));
    ReplicaLeaves(pods, p, order[..n]);
    RestOfParts(order, n);
  }

  lemma RestOfParts(order: seq<Id>, n: nat)
    requires 0 < n <= |order|
    ensures order[1..][..n - 1] == order[..n][1..] && order[1..][n - 1..] == order[n..]
  {
  }

  lemma NoReplicasLeft(pods: seq<Pod>, p: Pod)
    requires EnumeratesReplicas(pods, [])
    ensures EnumeratesReplicas(Updated(pods, IdOf(p)), [])
  {
    forall id ensures !IsPendingReplica(Updated(pods, IdOf(p)), id) {
      assert id !in [];
      assert !IsPendingReplica(pods, id);
    }
  }

  lemma ReplicaLeaves(pods: seq<Pod>, p: Pod, ids: seq<Id>)
    requires Distinct(pods) && p in pods && !p.isPrimary && EnumeratesReplicas(pods, ids)
    requires ids != [] && ids[0] == IdOf(p)
    ensures EnumeratesReplicas(Updated(pods, IdOf(p)), ids[1..])
  {
    var up := Updated(pods, IdOf(p));
    forall id ensures id in ids[1..] <==> IsPendingReplica(up, id) {
      if id in ids[1..] {
        assert id in ids && IsPendingReplica(pods, id) && id.ordinal != p.ordinal;
        var i :| 0 <= i < |pods| && !pods[i].onDesired && !pods[i].isPrimary && IdOf(pods[i]) == id;
        assert up[i] == pods[i];
      }
      if IsPendingReplica(up, id) {
        var i :| 0 <= i < |up| && !up[i].onDesired && !up[i].isPrimary && IdOf(up[i]) == id;
        assert up[i] == pods[i] && IsPendingReplica(pods, id);
        assert id in ids && id != ids[0];
      }
    }
  }

  /** A change of health does not change the order. */
  lemma HealthKeepsOrder(pods: seq<Pod>, i: nat, h: bool, order: seq<Id>)
    requires Distinct(pods) && i < |pods| && IsOrder(pods, order)
    ensures var pods' := pods[i := pods[i].(healthy := h)]; Distinct(pods') && IsOrder(pods', order)
  {
    var pods' := pods[i := pods[i].(healthy := h)];
    HealthKeepsPrimaries(pods, i, h);
    forall id ensures IsPendingReplica(pods', id) <==> IsPendingReplica(pods, id) {
      if k :| 0 <= k < |pods| && !pods[k].onDesired && !pods[k].isPrimary && IdOf(pods[k]) == id {
        assert IdOf(pods'[k]) == id;
      }
      if k :| 0 <= k < |pods'| && !pods'[k].onDesired && !pods'[k].isPrimary && IdOf(pods'[k]) == id {
        assert IdOf(pods[k]) == id;
      }
    }
  }

  lemma {:induction false} HealthKeepsPrimaries(pods: seq<Pod>, i: nat, h: bool)
    requires i < |pods|
    ensures Ids(PendingPrimaries(pods[i := pods[i].(healthy := h)])) == Ids(PendingPrimaries(pods))
  {
    var pods' := pods[i := pods[i].(healthy := h)];
    var n := |pods| - 1;
    if i < n {
      assert pods'[..n] == pods[..n][i := pods[i].(healthy := h)];
      HealthKeepsPrimaries(pods[..n], i, h);
    } else {
      assert pods'[..n] == pods[..n];
    }
  }

  // ---- whole rollouts ----

  ghost predicate AtMostOneDown(pods: seq<Pod>) {
    forall i, j :: 0 <= i < j < |pods| && pods[i].onDesired && pods[j].onDesired ==> pods[i].healthy || pods[j].healthy
  }

  /** What holds throughout a rollout that is to follow `order`. */
  ghost predicate Follows(r: Progress, order: seq<Id>) {
    && Distinct(r.pods) && r.handed <= order
    && IsOrder(r.pods, order[|r.handed|..])
  }

  lemma OneMoreHanded(order: seq<Id>, handed: seq<Id>, rest: seq<Id>)
    requires handed <= order && rest == order[|handed|..] && rest != []
    ensures handed + [rest[0]] <= order && order[|handed| + 1..] == rest[1..]
  {
    assert order == handed + rest;
  }

  lemma UpdatedStaysDistinct(pods: seq<Pod>, id: Id)
    requires Distinct(pods)
    ensures Distinct(Updated(pods, id))
  {
  }

  lemma HandOutFollows(r: Progress, r': Progress, p: Pod, order: seq<Id>)
    requires Follows(r, order) && HandsOut(r, r', p)
    ensures Follows(r', order)
  {
    var rest := order[|r.handed|..];
    HandOutFollowsOrder(r.pods, p, rest);
    OneMoreHanded(order, r.handed, rest);
    UpdatedStaysDistinct(r.pods, IdOf(p));
  }

  lemma OneMoreDown(pods: seq<Pod>, p: Pod)
    requires Distinct(pods) && CanProceed(pods)
    ensures AtMostOneDown(Updated(pods, IdOf(p)))
  {}

  lemma StepFollows(r: Progress, r': Progress, order: seq<Id>)
    requires Follows(r, order) && Advances(r, r')
    ensures Follows(r', order) && |r'.pods| == |r.pods|
    ensures AtMostOneDown(r.pods) ==> AtMostOneDown(r'.pods)
  {
    if p :| HandsOut(r, r', p) {
      HandOutFollows(r, r', p, order);
      OneMoreDown(r.pods, p);
    } else {
      var i: nat :| HealthChanges(r, r', i);
      var h: bool :| (r.pods[i].onDesired ==> h) && r'.pods == r.pods[i := r.pods[i].(healthy := h)];
      HealthKeepsOrder(r.pods, i, h, order[|r.handed|..]);
    }
  }

  lemma {:induction false} RolloutFollows(rs: seq<Progress>, order: seq<Id>, k: nat)
    requires IsRollout(rs) && k < |rs| && Distinct(rs[0].pods) && IsOrder(rs[0].pods, order)
    ensures Follows(rs[k], order) && |rs[k].pods| == |rs[0].pods|
    ensures AtMostOneDown(rs[0].pods) ==> AtMostOneDown(rs[k].pods)
  {
    if k == 0 {
      assert order[0..] == order;
    } else {
      RolloutFollows(rs, order, k - 1);
      StepFollows(rs[k - 1], rs[k], order);
    }
  }

  lemma {:induction false} SizeOfDistinct(ids: seq<Id>)
    requires forall i, j :: 0 <= i < j < |ids| ==> ids[i] != ids[j]
    ensures |set id | id in ids| == |ids|
  {
    if ids != [] {
      var init, last := ids[..|ids| - 1], ids[|ids| - 1];
      SizeOfDistinct(init);
      assert (set id | id in ids) == (set id | id in init) + {last};
      assert last !in init;
    }
  }

  /** The order has one entry per pending pod. */
  lemma OrderLength(pods: seq<Pod>, order: seq<Id>)
    requires Distinct(pods) && IsOrder(pods, order)
    ensures |order| == Pending(pods)
  {
    var rs := PendingReplicas(pods);
    var ids := order[..|order| - |PendingPrimaries(pods)|];
    PendingDistinct(pods);
    SizeOfDistinct(ids);
    SizeOfDistinct(Ids(rs));
    forall id ensures id in ids <==> id in Ids(rs) {
      ReplicaIds(pods, id);
    }
    assert (set id | id in ids) == (set id | id in Ids(rs));
  }

  lemma ReplicaIds(pods: seq<Pod>, id: Id)
    ensures id in Ids(PendingReplicas(pods)) <==> IsPendingReplica(pods, id)
  {
    var rs := PendingReplicas(pods);
    if id in Ids(rs) {
      var i :| 0 <= i < |rs| && IdOf(rs[i]) == id;
      PendingMembers(pods, rs[i]);
    }
    if IsPendingReplica(pods, id) {
      var k :| 0 <= k < |pods| && !pods[k].onDesired && !pods[k].isPrimary && IdOf(pods[k]) == id;
      PendingMembers(pods, pods[k]);
      var i :| 0 <= i < |rs| && rs[i] == pods[k];
      assert Ids(rs)[i] == id;
    }
  }

  /** The main result. At every moment of every rollout: the pods handed out so far are, in
      order, the beginning of the full order that any plan of the initial pods begins; hand-outs
      and pending pods add up; and at most one updated pod is down if that was so at first. */
  lemma EveryRollout(rs: seq<Progress>, plan: seq<Pod>, k: nat)
    requires IsRollout(rs) && k < |rs| && Distinct(rs[0].pods) && IsPlan(rs[0].pods, plan)
    ensures rs[k].handed <= FullOrder(rs[0].pods, plan)
    ensures |rs[k].handed| + Pending(rs[k].pods) == Pending(rs[0].pods)
    ensures AtMostOneDown(rs[0].pods) ==> AtMostOneDown(rs[k].pods)
  {
    var order := FullOrder(rs[0].pods, plan);
    PlanIsOrder(rs[0].pods, plan);
    RolloutFollows(rs, order, k);
    OrderLength(rs[k].pods, order[|rs[k].handed|..]);
  }

  /** PendingCount. */
  function Pending(pods: seq<Pod>): nat {
    |PendingReplicas(pods)| + |PendingPrimaries(pods)|
  }

  /** A rollout that has come to its end handed out exactly the initial plan when at most one
      primary was pending, and then only; it took PendingCount hand-outs. */
  lemma FinishedRollout(rs: seq<Progress>, plan: seq<Pod>, k: nat)
    requires IsRollout(rs) && k < |rs| && Distinct(rs[0].pods) && IsPlan(rs[0].pods, plan)
    requires Pending(rs[k].pods) == 0
    ensures |rs[k].handed| == Pending(rs[0].pods)
    ensures rs[k].handed == Ids(plan) <==> |PendingPrimaries(rs[0].pods)| <= 1
  {
    EveryRollout(rs, plan, k);
    PlanIsOrder(rs[0].pods, plan);
  }

  lemma NonePending(pods: seq<Pod>)
    ensures Pending(pods) == 0 <==> forall i :: 0 <= i < |pods| ==> pods[i].onDesired
  {
    forall i | 0 <= i < |pods| ensures Pending(pods) == 0 ==> pods[i].onDesired {
      PendingMembers(pods, pods[i]);
    }
    if Pending(pods) > 0 {
      var p := if PendingReplicas(pods) != [] then PendingReplicas(pods)[0] else PendingPrimaries(pods)[0];
      PendingMembers(pods, p);
    }
  }

  lemma EmptyPlan(pods: seq<Pod>, plan: seq<Pod>)
    requires IsPlan(pods, plan)
    ensures plan == [] <==> Pending(pods) == 0
  {
    var sorted := PlanParts(pods, plan);
    assert |multiset(sorted)| == |multiset(PendingReplicas(pods))|;
  }

  /** A rollout never gets stuck: while it is not complete, either Next hands out a pod, or an
      updated pod has still to recover; once complete, nothing is handed out any more. */
  lemma NeverStuck(pods: seq<Pod>, next: Option<Pod>)
    requires IsNext(pods, next) && pods != []
    ensures IsComplete(pods) <==> CanProceed(pods) && Pending(pods) == 0
    ensures next.None? <==> IsComplete(pods) || !CanProceed(pods)
  {
    var plan :| IsPlan(pods, plan) && next == if plan == [] || !CanProceed(pods) then None else Some(plan[0]);
    EmptyPlan(pods, plan);
    NonePending(pods);
  }

  /** Nothing is handed out exactly when no pod is pending, or when some updated pod is unhealthy; what
      is handed out is a pending pod. */
  lemma NextSays(pods: seq<Pod>, next: Option<Pod>)
    requires IsNext(pods, next)
    ensures next.None? <==>
      || (forall i :: 0 <= i < |pods| ==> pods[i].onDesired)
      || exists i :: 0 <= i < |pods| && pods[i].onDesired && !pods[i].healthy
    ensures next.Some? ==> next.value in pods && !next.value.onDesired
  {
    var plan :| IsPlan(pods, plan) && next == if plan == [] || !CanProceed(pods) then None else Some(plan[0]);
    EmptyPlan(pods, plan);
    NonePending(pods);
    if plan != [] {
      HeadOfPlan(pods, plan);
    }
  }

  lemma OnlyPrimary(a: Pod)
    requires a.isPrimary && !a.onDesired
    ensures PendingPrimaries([a]) == [a] && PendingReplicas([a]) == []
  {
    assert [a][..0] == [];
    assert PendingPrimaries([]) == [] && PendingReplicas([]) == [];
  }

  lemma TwoPrimaries(a: Pod, b: Pod)
    requires a.isPrimary && b.isPrimary && !a.onDesired && !b.onDesired
    ensures PendingPrimaries([a, b]) == [a, b] && PendingReplicas([a, b]) == []
  {
    OnlyPrimary(a);
    assert [a, b][..1] == [a];
  }

  /** Two pending primaries: the plan hands out the second only, although two pods are pending. */
  lemma SecondPrimaryIsPlannedAlone(a: Pod, b: Pod)
    requires a.isPrimary && b.isPrimary && !a.onDesired && !b.onDesired && a.ordinal != b.ordinal
    ensures IsPlan([a, b], [b]) && FullOrder([a, b], [b]) != Ids([b])
    ensures |FullOrder([a, b], [b])| == 2
  {
    TwoPrimaries(a, b);
    assert [b][..0] == [];
    PlanIsOrder([a, b], [b]);
  }
}
