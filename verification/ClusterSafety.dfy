/** What the cluster controller keeps over every history of reconciles, failing calls, crashes
    and edits by others. */
module ClusterSafety {
  import opened Text
  import opened ClusterMachine
  import C = Conditions

  // ---- the safety property ----

  /** The owned objects after the ServiceAccount exist in the order in which they are made. */
  ghost predicate Prefix(owned: map<Kind, Content>) {
    forall i, j :: 1 <= i < j < |ORDER| && ORDER[j] in owned ==> ORDER[i] in owned
  }

  /** The phase that stands for a number of ready replicas. */
  function PhaseFor(replicas: int, instances: int): Phase {
    if replicas <= 0 then Creating else if replicas < instances then Degraded else Running
  }

  /** The three phases that come from an observation. */
  predicate Observed(p: Phase) {
    p == Creating || p == Degraded || p == Running
  }

  /** An observed phase comes with the Ready and Degraded conditions that belong to it and with the
      names of the primary pod and the two Services; and when the status is about the present
      spec, the phase and the version are right for it. */
  ghost predicate StatusOk(c: Cluster) {
    var s := c.status;
    && C.Unique(s.conditions)
    && s.observedGeneration <= c.generation
    && (Observed(s.phase) ==>
          && C.Says(s.conditions, ReadyCondition, if s.phase == Running then C.True else C.False)
          && (s.phase == Running ==> C.Says(s.conditions, DegradedCondition, C.False))
          && (s.phase == Degraded ==> C.Says(s.conditions, DegradedCondition, C.True))
          && s.readyInstances >= 0 && (s.phase == Creating <==> s.readyInstances == 0)
          && s.currentPrimary == Pod(c.name, 0) && s.writeService == PrimaryOf(c.name)
          && s.readService == ReplicasOf(c.name)
          && (s.observedGeneration == c.generation ==>
                && s.phase == PhaseFor(s.readyInstances, c.spec.instances)
                && s.postgresVersion == Some(c.spec.postgresVersion)))
  }

  ghost predicate Safe(w: World) {
    w.cluster.Some? ==>
      var c := w.cluster.value;
      && StatusOk(c)
      && (c.deleting ==> c.finalizer)
      && (!c.finalizer ==> w.owned == map[])
      && (!c.deleting ==> Prefix(w.owned))
  }

  /** A new cluster: no status, no finalizer, no owned objects. */
  ghost predicate Initial(w: World) {
    w.cluster.Some? ==>
      var c := w.cluster.value;
      && c.status.phase == NoPhase && c.status.conditions == [] && c.status.observedGeneration <= c.generation
      && !c.finalizer && !c.deleting && w.owned == map[]
  }

  // ---- the invariant of a pass ----

  /** The in-memory copy is as old as its version says. */
  ghost predicate CopyOf(mem: Cluster, w: World) {
    w.cluster.Some? ==>
      var c := w.cluster.value;
      && mem.version <= c.version
      && (mem.version == c.version ==>
            mem.spec == c.spec && mem.generation == c.generation && mem.deleting == c.deleting && mem.name == c.name)
  }

  /** The pass is past its checks: not paused, finalizer stored, and the objects before step `i`
      exist unless the cluster is being deleted by now. */
  ghost predicate Working(mem: Cluster, w: World, i: nat) {
    && !mem.spec.paused && !mem.deleting && StatusOk(mem) && CopyOf(mem, w)
    && w.cluster.Some? && w.cluster.value.finalizer
    && (!w.cluster.value.deleting ==> forall k :: 1 <= k < i && k < |ORDER| ==> ORDER[k] in w.owned)
  }

  ghost predicate JobOk(w: World, j: Job) {
    match j
    case Idle => true
    case Start => true
    case PauseStatus(mem) => StatusOk(mem) && CopyOf(mem, w)
    case AddFinalizer(mem) => mem.finalizer && CopyOf(mem, w)
    case RemoveFinalizer(mem) => mem.deleting && !mem.finalizer && CopyOf(mem, w)
    case InitStatus(mem) => Working(mem, w, 0)
    case Ensure(i, mem) => Working(mem, w, i)
    case Create(i, mem, _) => Working(mem, w, i)
    case Update(i, mem, _) => i >= 2 && Working(mem, w, i)
    case ReadStatefulSet(mem) => Working(mem, w, |ORDER|)
    case FinalStatus(mem) => Working(mem, w, |ORDER|)
  }

  ghost predicate Inv(s: State) {
    Safe(s.world) && JobOk(s.world, s.job)
  }

  // ---- local computation ----

  lemma ProgressingKeepsStatusOk(c: Cluster, p: Phase, s: C.Status, reason: Reason, now: int)
    requires StatusOk(c) && !Observed(p)
    ensures StatusOk(SetCondition(SetPhase(c, p), ProgressingCondition, s, reason, now))
  {
    C.UpsertSays(c.status.conditions, C.Call(ProgressingCondition, s, reason, c.generation, now));
  }

  /** What the status says about a number of ready replicas, field by field. */
  ghost predicate Reads(c: Cluster, replicas: int) {
    var s, n, ready := c.status, c.spec.instances, if replicas > 0 then replicas else 0;
    && s.readyInstances == ready && s.phase == PhaseFor(replicas, n)
    && s.currentPrimary == Pod(c.name, 0) && s.writeService == PrimaryOf(c.name) && s.readService == ReplicasOf(c.name)
    && s.observedGeneration == c.generation && s.postgresVersion == Some(c.spec.postgresVersion)
    && C.Unique(s.conditions)
    && (C.Says(s.conditions, ReadyCondition, C.True) <==> replicas > 0 && replicas >= n)
    && (C.Says(s.conditions, ReadyCondition, C.False) <==> replicas <= 0 || replicas < n)
    && (replicas <= 0 ==> C.Tells(s.conditions, ReadyCondition, C.False, NoReadyInstances, c.generation))
    && (0 < replicas < n ==>
          && C.Tells(s.conditions, ReadyCondition, C.False, InsufficientInstances(replicas, n), c.generation)
          && C.Tells(s.conditions, DegradedCondition, C.True, InsufficientInstances(replicas, n), c.generation))
    && (replicas > 0 && replicas >= n ==>
          && C.Tells(s.conditions, ReadyCondition, C.True, AllInstancesReady(n), c.generation)
          && C.Tells(s.conditions, DegradedCondition, C.False, FullyOperational, c.generation))
  }

  lemma JudgeTells(cs: seq<C.Condition<ConditionKind, Reason>>, x: C.Call<ConditionKind, Reason>,
                   y: C.Call<ConditionKind, Reason>)
    requires C.Unique(cs) && x.kind != y.kind
    ensures var r := C.Upsert(C.Upsert(cs, x), y);
      && C.Unique(r) && C.Tells(r, x.kind, x.status, x.reason, x.generation)
      && C.Tells(r, y.kind, y.status, y.reason, y.generation)
      && forall s :: C.Says(r, x.kind, s) <==> s == x.status
  {
    var cs1 := C.Upsert(cs, x);
    C.UpsertTells(cs, x);
    C.UpsertTells(cs1, y);
    C.UpsertTellsStill(cs1, y, x.kind, x.status, x.reason, x.generation);
    C.TellsSays(C.Upsert(cs1, y), x.kind, x.status, x.reason, x.generation);
  }

  /** updateStatus says of the replicas it saw what it should, whatever the status was before; it
      leaves the Degraded condition alone when nothing is ready, and the Progressing condition
      always. */
  lemma ObserveReads(c: Cluster, replicas: int, a: Answer)
    requires C.Unique(c.status.conditions)
    ensures var r := Observe(c, replicas, a);
      && Reads(r, replicas) && r == c.(status := r.status)
      && forall kind, s :: kind == ProgressingCondition || (kind == DegradedCondition && replicas <= 0) ==>
           (C.Says(r.status.conditions, kind, s) <==> C.Says(c.status.conditions, kind, s))
  {
    var ready := if replicas > 0 then replicas else 0;
    var desired := c.spec.instances;
    var cs := c.status.conditions;
    if ready == 0 {
      var x := C.Call(ReadyCondition, C.False, NoReadyInstances, c.generation, a.clock);
      C.UpsertTells(cs, x);
      C.UpsertSays(cs, x);
    } else {
      var few := ready < desired;
      var x := C.Call(ReadyCondition, if few then C.False else C.True,
        if few then InsufficientInstances(ready, desired) else AllInstancesReady(desired), c.generation, a.clock);
      var y := C.Call(DegradedCondition, if few then C.True else C.False,
        if few then InsufficientInstances(ready, desired) else FullyOperational, c.generation, a.later);
      JudgeTells(cs, x, y);
      C.UpsertSays(cs, x);
      C.UpsertSays(C.Upsert(cs, x), y);
    }
  }

  /** A pass that finds no StatefulSet when it looks for ready replicas reports none. */
  lemma MissingMeansNone(w: World, mem: Cluster, a: Answer)
    requires a.outcome == Done && StatefulSet !in w.owned && C.Unique(mem.status.conditions)
    ensures var s := Step(State(w, ReadStatefulSet(mem)), a);
      s.world == w && s.job.FinalStatus? && Reads(s.job.mem, 0)
  {
    ObserveReads(mem, 0, a);
  }

  /** Both lists tell the same about progress. */
  ghost predicate SameProgress(cs: seq<C.Condition<ConditionKind, Reason>>, cs': seq<C.Condition<ConditionKind, Reason>>) {
    forall s, reason, g ::
      C.Tells(cs, ProgressingCondition, s, reason, g) <==> C.Tells(cs', ProgressingCondition, s, reason, g)
  }

  lemma UpsertKeepsProgress(cs: seq<C.Condition<ConditionKind, Reason>>, x: C.Call<ConditionKind, Reason>)
    requires C.Unique(cs) && x.kind != ProgressingCondition
    ensures SameProgress(cs, C.Upsert(cs, x)) && C.Unique(C.Upsert(cs, x))
  {
    C.UpsertTells(cs, x);
    forall s, reason, g
      ensures C.Tells(cs, ProgressingCondition, s, reason, g) <==>
        C.Tells(C.Upsert(cs, x), ProgressingCondition, s, reason, g)
    {
      C.UpsertTellsStill(cs, x, ProgressingCondition, s, reason, g);
    }
  }

  lemma ObserveKeepsProgress(c: Cluster, replicas: int, a: Answer)
    requires C.Unique(c.status.conditions)
    ensures SameProgress(c.status.conditions, Observe(c, replicas, a).status.conditions)
  {
    var ready := if replicas > 0 then replicas else 0;
    var n, g, cs := c.spec.instances, c.generation, c.status.conditions;
    if ready == 0 {
      UpsertKeepsProgress(cs, C.Call(ReadyCondition, C.False, NoReadyInstances, g, a.clock));
    } else {
      var few := ready < n;
      var x := C.Call(ReadyCondition, if few then C.False else C.True,
        if few then InsufficientInstances(ready, n) else AllInstancesReady(n), g, a.clock);
      UpsertKeepsProgress(cs, x);
      UpsertKeepsProgress(C.Upsert(cs, x), C.Call(DegradedCondition, if few then C.True else C.False,
        if few then InsufficientInstances(ready, n) else FullyOperational, g, a.later));
    }
  }

  /** The two statuses that are written before any object is looked at: Paused says that work is
      suspended, Initializing that it goes on; all other conditions and fields stay. */
  lemma FirstStatuses(c: Cluster, a: Answer)
    requires C.Unique(c.status.conditions)
    ensures c.spec.paused && c.status.phase != Paused ==>
      && Dispatch(c, a).PauseStatus?
      && var mem := Dispatch(c, a).mem;
      && mem == c.(status := c.status.(phase := Paused, conditions := mem.status.conditions))
      && C.Tells(mem.status.conditions, ProgressingCondition, C.False, Suspended, c.generation)
      && OtherwiseSame(c.status.conditions, mem.status.conditions)
    ensures Active(c) && c.status.phase == NoPhase ==>
      && Dispatch(c, a).InitStatus?
      && var mem := Dispatch(c, a).mem;
      && mem == c.(status := c.status.(phase := Initializing, conditions := mem.status.conditions))
      && C.Tells(mem.status.conditions, ProgressingCondition, C.True, BeingInitialised, c.generation)
      && OtherwiseSame(c.status.conditions, mem.status.conditions)
  {
    var cs := c.status.conditions;
    SetsProgress(cs, C.Call(ProgressingCondition, C.False, Suspended, c.generation, a.clock));
    SetsProgress(cs, C.Call(ProgressingCondition, C.True, BeingInitialised, c.generation, a.clock));
  }

  ghost predicate OtherwiseSame(cs: seq<C.Condition<ConditionKind, Reason>>, cs': seq<C.Condition<ConditionKind, Reason>>) {
    forall k, s, reason, g ::
      k != ProgressingCondition ==> (C.Tells(cs, k, s, reason, g) <==> C.Tells(cs', k, s, reason, g))
  }

  lemma SetsProgress(cs: seq<C.Condition<ConditionKind, Reason>>, x: C.Call<ConditionKind, Reason>)
    requires C.Unique(cs) && x.kind == ProgressingCondition
    ensures C.Tells(C.Upsert(cs, x), ProgressingCondition, x.status, x.reason, x.generation)
    ensures OtherwiseSame(cs, C.Upsert(cs, x))
  {
    C.UpsertTells(cs, x);
    forall k, s, reason, g | k != ProgressingCondition
      ensures C.Tells(cs, k, s, reason, g) <==> C.Tells(C.Upsert(cs, x), k, s, reason, g)
    {
      C.UpsertTellsStill(cs, x, k, s, reason, g);
    }
  }

  /** updateStatus never claims more than it saw. */
  lemma ObserveIsOk(c: Cluster, replicas: int, a: Answer)
    requires C.Unique(c.status.conditions)
    ensures var r := Observe(c, replicas, a);
      StatusOk(r) && r == c.(status := r.status) && r.status.observedGeneration == c.generation
  {
    ObserveReads(c, replicas, a);
    ReadsIsOk(Observe(c, replicas, a), replicas);
  }

  lemma ReadsIsOk(c: Cluster, replicas: int)
    requires Reads(c, replicas)
    ensures StatusOk(c)
  {
    var cs, g, n := c.status.conditions, c.generation, c.spec.instances;
    if replicas > 0 && replicas < n {
      C.TellsSays(cs, DegradedCondition, C.True, InsufficientInstances(replicas, n), g);
    } else if replicas > 0 {
      C.TellsSays(cs, DegradedCondition, C.False, FullyOperational, g);
    }
  }

  // ---- the invariant is kept ----

  lemma EnvKeepsInv(s: State, env: Option<World>)
    requires Inv(s)
    ensures Inv(State(Moved(s.world, env), s.job))
  {
    var w' := Moved(s.world, env);
    assert Safe(w') by {
      assert w'.cluster.Some? && !w'.cluster.value.finalizer ==> w'.owned.Keys == s.world.owned.Keys;
    }
  }

  lemma DispatchIsOk(w: World, a: Answer)
    requires Safe(w) && w.cluster.Some?
    ensures JobOk(w, Dispatch(w.cluster.value, a))
  {
    var c := w.cluster.value;
    ProgressingKeepsStatusOk(c, Paused, C.False, Suspended, a.clock);
    ProgressingKeepsStatusOk(c, Initializing, C.True, BeingInitialised, a.clock);
  }

  lemma StatusWriteIsOk(w: World, mem: Cluster, a: Answer)
    requires Safe(w) && StatusOk(mem) && CopyOf(mem, w) && Accepted(w, mem, a)
    ensures var c := Stored(w.cluster.value, mem);
      Safe(w.(cluster := Some(c))) && StatusOk(c) && CopyOf(c, w.(cluster := Some(c))) &&
      c.spec == mem.spec && c.deleting == mem.deleting
  {}

  lemma MetaWriteIsOk(w: World, mem: Cluster, a: Answer)
    requires Safe(w) && CopyOf(mem, w) && (mem.finalizer || mem.deleting)
    ensures Safe(WriteMeta(w, mem, a).world)
  {}

  lemma ObjectWriteIsOk(w: World, mem: Cluster, i: nat, content: Content)
    requires Safe(w) && i < |ORDER| && Working(mem, w, i)
    ensures var w' := w.(owned := w.owned[ORDER[i] := content]); Safe(w') && Working(mem, w', i + 1)
  {}

  lemma StatusStepKeepsInv(s: State, a: Answer)
    requires Inv(s) && (s.job.PauseStatus? || s.job.InitStatus? || s.job.FinalStatus?)
    ensures Inv(Step(s, a))
  {
    if Accepted(s.world, s.job.mem, a) {
      StatusWriteIsOk(s.world, s.job.mem, a);
    }
  }

  lemma ObjectStepKeepsInv(s: State, a: Answer)
    requires Inv(s) && (s.job.Ensure? || s.job.Create? || s.job.Update?)
    ensures Inv(Step(s, a))
  {
    var i, mem := s.job.i, s.job.mem;
    if i < |ORDER| && s.job.Create? {
      ObjectWriteIsOk(s.world, mem, i, s.job.content);
    }
    if i < |ORDER| && s.job.Update? {
      ObjectWriteIsOk(s.world, mem, i, s.job.existing.(live := LiveOf(ORDER[i], mem)));
    }
  }

  lemma StepKeepsInv(s: State, a: Answer)
    requires Inv(s)
    ensures Inv(Step(s, a))
  {
    if s.job.Start? {
      if s.world.cluster.Some? { DispatchIsOk(s.world, a); }
    } else if s.job.AddFinalizer? || s.job.RemoveFinalizer? {
      MetaWriteIsOk(s.world, s.job.mem, a);
    } else if s.job.Ensure? || s.job.Create? || s.job.Update? {
      ObjectStepKeepsInv(s, a);
    } else if s.job.ReadStatefulSet? {
      ObserveIsOk(s.job.mem, SeenReplicas(s.world), a);
    } else if !s.job.Idle? {
      StatusStepKeepsInv(s, a);
    }
  }

  lemma {:induction false} PassIsSafe(s: State, script: seq<Turn>)
    requires Inv(s)
    ensures Safe(Pass(s, script))
    decreases script
  {
    if !s.job.Idle? && script != [] {
      EnvKeepsInv(s, script[0].env);
      var s1 := State(Moved(s.world, script[0].env), s.job);
      StepKeepsInv(s1, script[0].answer);
      PassIsSafe(Step(s1, script[0].answer), script[1..]);
    }
  }

  /** The main result: every world reachable from a new cluster is safe. */
  lemma {:induction false} EveryHistoryIsSafe(w: World, events: seq<Event>)
    requires Initial(w)
    ensures Safe(History(w, events))
  {
    if events != [] {
      var before := History(w, events[..|events| - 1]);
      EveryHistoryIsSafe(w, events[..|events| - 1]);
      match events[|events| - 1]
      case Reconcile(script) => PassIsSafe(State(before, Start), script);
      case Environment(move) => EnvKeepsInv(State(before, Idle), Some(move));
    }
  }

  // ---- what a single call may touch ----

  /** An owned object is written only by a pass that read the cluster as not paused and not
      being deleted, only once the finalizer is stored, and only to create the next missing
      object or to refresh the live part of an existing one; the Secret and the ServiceAccount are
      never refreshed, and no fixed part ever is. */
  lemma OwnedWritesAreGuarded(s: State, a: Answer)
    requires Inv(s)
    ensures var w, w' := s.world, Step(s, a).world;
      w'.owned != w.owned ==>
        && (s.job.Create? || s.job.Update?) && s.job.i < |ORDER|
        && !s.job.mem.spec.paused && !s.job.mem.deleting
        && w.cluster.Some? && w.cluster.value.finalizer
        && var k := ORDER[s.job.i];
        && (k !in w.owned ==> s.job.Create? && w'.owned == w.owned[k := s.job.content])
        && (k in w.owned ==>
              s.job.Update? && !OnceOnly(k) && w'.owned == w.owned[k := w.owned[k].(live := LiveOf(k, s.job.mem))])
  {}

  /** A write replaces only the version that the pass has read; a status write replaces the
      status and nothing else, and the two metadata writes add the finalizer or, with it, take away
      a cluster that is being deleted. */
  lemma ClusterWritesAreGuarded(s: State, a: Answer)
    requires Inv(s) && s.world.cluster.Some? && Step(s, a).world.cluster != s.world.cluster
    ensures !s.job.Idle? && !s.job.Start? && s.job.mem.version == s.world.cluster.value.version
    ensures var c, c' := s.world.cluster.value, Step(s, a).world.cluster;
      match s.job
      case AddFinalizer(_) => !c.finalizer && c' == Some(c.(finalizer := true, version := c.version + 1))
      case RemoveFinalizer(_) => c.deleting && c'.None?
      case PauseStatus(mem) => c' == Some(c.(status := mem.status, version := c.version + 1))
      case InitStatus(mem) => c' == Some(c.(status := mem.status, version := c.version + 1))
      case FinalStatus(mem) => c' == Some(c.(status := mem.status, version := c.version + 1))
      case _ => false
  {}

  /** A pass ends with the first call that is rejected or whose answer is lost. */
  lemma FailedCallEndsPass(s: State, a: Answer)
    requires a.outcome != Done
    ensures Step(s, a).job.Idle?
  {}

  /** A missing Secret is created with the password that was drawn, and every other missing object as
      the builders make it. */
  lemma MissingIsCreated(w: World, mem: Cluster, i: nat, a: Answer)
    requires i < |ORDER| && ORDER[i] !in w.owned && a.outcome == Done
    ensures var s := Step(State(w, Ensure(i, mem)), a);
      && s.world == w && s.job.Create? && s.job.i == i && s.job.mem == mem
      && s.job.content.live == (if ORDER[i] == Secret then Password(a.password) else LiveOf(ORDER[i], mem))
      && s.job.content.fixed == FixedOf(ORDER[i], mem)
  {}

  /** Every call brings the end of the pass nearer. */
  lemma EveryPassEnds(s: State, a: Answer)
    requires Inv(s) && !s.job.Idle?
    ensures CallsLeft(Step(s, a).job) < CallsLeft(s.job)
  {}

  // ---- passes that are left alone ----

  /** Nobody else acts, and every call is carried out. */
  ghost predicate Quiet(script: seq<Turn>) {
    forall i :: 0 <= i < |script| ==> script[i].env.None? && script[i].answer.outcome == Done
  }

  /** Nobody else acts; calls may fail. */
  ghost predicate Alone(script: seq<Turn>) {
    forall i :: 0 <= i < |script| ==> script[i].env.None?
  }

  /** The status that a pass stores for a paused cluster. */
  function PausedStatus(c: Cluster, clock: int): Status {
    SetCondition(SetPhase(c, Paused), ProgressingCondition, C.False, Suspended, clock).status
  }

  /** A pass over a paused cluster changes nothing, or the status alone: it then says Paused. It
      does so exactly when the status did not say it, both calls are made and neither fails. */
  lemma {:induction false} PausedPassOnlySetsPhase(w: World, script: seq<Turn>)
    requires Alone(script) && w.cluster.Some? && w.cluster.value.spec.paused
    ensures var c := w.cluster.value;
      Pass(State(w, Start), script) ==
        if |script| >= 2 && c.status.phase != Paused
           && script[0].answer.outcome == Done && script[1].answer.outcome != Rejected
        then w.(cluster := Some(c.(status := PausedStatus(c, script[0].answer.clock), version := c.version + 1)))
        else w
  {
    if script != [] {
      var s1 := Step(State(w, Start), script[0].answer);
      if !s1.job.Idle? && |script| > 1 {
        assert script[1..][0] == script[1];
        assert Pass(s1, script[1..]) == Pass(Step(s1, script[1].answer), script[1..][1..]);
      }
    }
  }

  lemma {:induction false} TwoCalls(s: State, s1: State, s2: State, script: seq<Turn>)
    requires Quiet(script) && |script| >= 2 && !s.job.Idle?
    requires s1 == Step(s, script[0].answer) && s2 == Step(s1, script[1].answer) && s2.job.Idle?
    ensures Pass(s, script) == s2.world
  {
    QuietTurn(s, script);
    if !s1.job.Idle? {
      QuietTurn(s1, script[1..]);
    }
  }

  lemma StartCall(w: World, c: Cluster, a: Answer)
    requires w.cluster == Some(c) && a.outcome == Done
    ensures Step(State(w, Start), a) == State(w, Dispatch(c, a))
  {
  }

  lemma MetaCall(w: World, mem: Cluster, a: Answer)
    ensures Step(State(w, AddFinalizer(mem)), a) == WriteMeta(w, mem, a)
    ensures Step(State(w, RemoveFinalizer(mem)), a) == WriteMeta(w, mem, a)
  {
  }

  /** An undisturbed pass over a cluster that is being deleted lets it go exactly when it is not
      paused; the pause test comes first. */
  lemma {:induction false} DeletionWaitsForPause(w: World, c: Cluster, script: seq<Turn>)
    requires Safe(w) && w.cluster == Some(c) && c.deleting
    requires Quiet(script) && |script| >= 2
    ensures Pass(State(w, Start), script).cluster.None? <==> !c.spec.paused
    ensures !c.spec.paused ==> Pass(State(w, Start), script) == w.(cluster := None)
  {
    if c.spec.paused {
      PausedPassOnlySetsPhase(w, script);
    } else {
      var mem := c.(finalizer := false);
      StartCall(w, c, script[0].answer);
      MetaCall(w, mem, script[1].answer);
      TwoCalls(State(w, Start), State(w, RemoveFinalizer(mem)), State(w.(cluster := None), Idle), script);
    }
  }

  /** The step at which a kind is visited. */
  function Rank(k: Kind): nat {
    match k
    case ServiceAccount => 0
    case Secret => 1
    case ConfigMap => 2
    case StatefulSet => 3
    case HeadlessService => 4
    case PrimaryService => 5
    case ReplicaService => 6
    case PodDisruptionBudget => 7
  }

  lemma RankOfOrder(i: nat)
    requires i < |ORDER|
    ensures forall k: Kind :: k == ORDER[i] <==> Rank(k) == i
  {}

  /** The object after a visit: made for the cluster if it was missing, else refreshed. */
  function Refreshed(w: World, k: Kind, c: Cluster): Content {
    if k in w.owned then w.owned[k].(live := LiveOf(k, c)) else Built(k, c)
  }

  /** What a pass from step `i` on did to the object of one kind: an object it visits is made or
      refreshed for the cluster `c`, but an existing Secret or ServiceAccount is left as it is, and
      so is everything before step `i`. */
  ghost predicate KindUpToDate(w: World, w': World, c: Cluster, i: nat, k: Kind) {
    && (k in w.owned ==> k in w'.owned)
    && (Rank(k) >= i ==> k in w'.owned)
    && (Rank(k) < i && k in w'.owned ==> k in w.owned)
    && (k in w.owned && (Rank(k) < i || OnceOnly(k)) ==> w'.owned[k] == w.owned[k])
    && (Rank(k) >= i && !OnceOnly(k) ==> w'.owned[k] == Refreshed(w, k, c))
    && (Rank(k) >= i && k !in w.owned ==>
          w'.owned[k].fixed == FixedOf(k, c) && (k == Secret <==> w'.owned[k].live.Password?))
  }

  /** Between the worlds `w` and `w'` the objects from step `i` on were made or refreshed for
      the cluster `c`, and nothing else was touched. */
  ghost predicate BroughtUpToDate(w: World, w': World, c: Cluster, i: nat) {
    w'.ready == w.ready && forall k :: KindUpToDate(w, w', c, i, k)
  }

  lemma {:induction false} QuietTurn(s: State, script: seq<Turn>)
    requires Quiet(script) && script != [] && !s.job.Idle?
    ensures Pass(s, script) == Pass(Step(s, script[0].answer), script[1..])
    ensures Quiet(script[1..])
  {}

  /** Step `i` found its object there and left it, or wrote it. */
  ghost predicate Visited(w: World, w1: World, c: Cluster, i: nat, a: Answer) {
    && i < |ORDER| && w1.ready == w.ready && w1.cluster == w.cluster
    && var k := ORDER[i];
    w1.owned ==
      if k !in w.owned then w.owned[k := Desired(k, c, a)]
      else if OnceOnly(k) then w.owned
      else w.owned[k := Refreshed(w, k, c)]
  }

  /** The two calls of step `i` in a quiet pass: a read, and a write if one is needed. */
  lemma {:induction false} QuietVisit(w: World, c: Cluster, i: nat, script: seq<Turn>) returns (w1: World, n: nat)
    requires Quiet(script) && i < |ORDER| && |script| >= 2
    requires i == 0 ==> c.spec.serviceAccountName == ""
    ensures 1 <= n <= 2
    ensures Pass(State(w, Enter(i, c)), script) == Pass(State(w1, Enter(i + 1, c)), script[n..])
    ensures Visited(w, w1, c, i, script[0].answer)
  {
    var s := State(w, Enter(i, c));
    QuietTurn(s, script);
    var k := ORDER[i];
    if k in w.owned && OnceOnly(k) {
      w1, n := w, 1;
    } else {
      var content := if k in w.owned then Refreshed(w, k, c) else Desired(k, c, script[0].answer);
      w1, n := w.(owned := w.owned[k := content]), 2;
      QuietTurn(Step(s, script[0].answer), script[1..]);
      assert script[1..][1..] == script[2..];
    }
  }

  lemma {:induction false} QuietEnd(w: World, c: Cluster, script: seq<Turn>)
    requires Quiet(script) && |script| >= 2 && w.cluster == Some(c)
    ensures Pass(State(w, ReadStatefulSet(c)), script) ==
            w.(cluster := Some(Stored(c, Observe(c, SeenReplicas(w), script[0].answer))))
  {
    QuietTurn(State(w, ReadStatefulSet(c)), script);
    QuietTurn(State(w, FinalStatus(Observe(c, SeenReplicas(w), script[0].answer))), script[1..]);
  }

  lemma KindOneMore(w: World, w1: World, w2: World, c: Cluster, i: nat, a: Answer, k: Kind)
    requires Visited(w, w1, c, i, a) && KindUpToDate(w1, w2, c, i + 1, k)
    ensures KindUpToDate(w, w2, c, i, k)
  {
    RankOfOrder(i);
  }

  lemma UpToDateOneMore(w: World, w1: World, w2: World, c: Cluster, i: nat, a: Answer)
    requires Visited(w, w1, c, i, a)
    requires BroughtUpToDate(w1, w2, c, i + 1)
    ensures BroughtUpToDate(w, w2, c, i)
  {
    forall k ensures KindUpToDate(w, w2, c, i, k) {
      KindOneMore(w, w1, w2, c, i, a, k);
    }
  }

  /** A quiet pass from step `i` on brings every object from there on up to date and then
      stores the status that it observed. */
  lemma {:induction false} QuietFrom(w: World, c: Cluster, i: nat, script: seq<Turn>) returns (a: Answer)
    requires Quiet(script) && i <= |ORDER| && |script| >= 2 * (|ORDER| - i) + 2
    requires w.cluster == Some(c)
    requires i == 0 ==> c.spec.serviceAccountName == ""
    ensures var w' := Pass(State(w, Enter(i, c)), script);
      BroughtUpToDate(w, w', c, i) && w'.cluster == Some(Stored(c, Observe(c, SeenReplicas(w'), a)))
    decreases |ORDER| - i
  {
    if i == |ORDER| {
      a := script[0].answer;
      QuietEnd(w, c, script);
    } else {
      var w1, n := QuietVisit(w, c, i, script);
      a := QuietFrom(w1, c, i + 1, script[n..]);
      UpToDateOneMore(w, w1, Pass(State(w, Enter(i, c)), script), c, i, script[0].answer);
    }
  }

  // ---- a quiet pass reaches a fixed point ----

  /** A cluster that a pass works on. */
  ghost predicate Active(c: Cluster) {
    !c.spec.paused && c.finalizer && !c.deleting
  }

  /** The first owned object that a pass visits. */
  function First(c: Cluster): nat {
    if c.spec.serviceAccountName == "" then 0 else 1
  }

  /** The stored status is what an observation of the present world would say, whenever it is
      made. */
  ghost predicate UpToDateStatus(c: Cluster, replicas: int) {
    forall a :: Observe(c, replicas, a) == c
  }

  lemma ObserveAgain(c: Cluster, replicas: int, a: Answer, d: Cluster)
    requires C.Unique(c.status.conditions)
    requires d == c.(status := Observe(c, replicas, a).status, version := d.version)
    ensures UpToDateStatus(d, replicas)
  {
    var ready := if replicas > 0 then replicas else 0;
    var desired := c.spec.instances;
    var cs := c.status.conditions;
    forall b ensures Observe(d, replicas, b) == d {
      if ready == 0 {
        TwiceTheSame(cs, C.Call(ReadyCondition, C.False, NoReadyInstances, c.generation, a.clock), b.clock);
      } else if ready < desired {
        TwiceTheSamePair(cs,
          C.Call(ReadyCondition, C.False, InsufficientInstances(ready, desired), c.generation, a.clock), b.clock,
          C.Call(DegradedCondition, C.True, InsufficientInstances(ready, desired), c.generation, a.later), b.later);
      } else {
        TwiceTheSamePair(cs,
          C.Call(ReadyCondition, C.True, AllInstancesReady(desired), c.generation, a.clock), b.clock,
          C.Call(DegradedCondition, C.False, FullyOperational, c.generation, a.later), b.later);
      }
    }
  }

  lemma TwiceTheSame(cs: seq<C.Condition<ConditionKind, Reason>>, x: C.Call<ConditionKind, Reason>, t: int)
    requires C.Unique(cs)
    ensures C.Upsert(C.Upsert(cs, x), x.(now := t)) == C.Upsert(cs, x)
  {
    C.UpsertSays(cs, x);
    C.UpsertShows(cs, x, x.(now := t));
    C.UpsertShown(C.Upsert(cs, x), x.(now := t));
  }

  lemma TwiceTheSamePair(cs: seq<C.Condition<ConditionKind, Reason>>,
                         x: C.Call<ConditionKind, Reason>, t: int, y: C.Call<ConditionKind, Reason>, u: int)
    requires C.Unique(cs) && x.kind != y.kind
    ensures var r := C.Upsert(C.Upsert(cs, x), y);
      C.Upsert(C.Upsert(r, x.(now := t)), y.(now := u)) == r
  {
    var cs1 := C.Upsert(cs, x);
    var r := C.Upsert(cs1, y);
    C.UpsertSays(cs, x);
    C.UpsertSays(cs1, y);
    C.UpsertShows(cs, x, x.(now := t));
    C.UpsertShows(cs1, y, x.(now := t));
    C.UpsertShown(r, x.(now := t));
    C.UpsertShows(cs1, y, y.(now := u));
    C.UpsertShown(r, y.(now := u));
  }

  /** Every object a pass keeps is there, with a live part made for the present spec, and the
      status is up to date. */
  ghost predicate Converged(w: World) {
    && w.cluster.Some?
    && var c := w.cluster.value;
    && Active(c)
    && (forall k :: Rank(k) >= First(c) ==> k in w.owned)
    && (forall k :: Rank(k) >= 2 ==> w.owned[k].live == LiveOf(k, c))
    && UpToDateStatus(c, w.ready) && Reads(c, w.ready)
  }

  /** An undisturbed pass over any safe world converges: it makes every missing object, refreshes
      the live part of the others, and touches neither the spec nor existing credentials. */
  lemma {:induction false} QuietPassConverges(w: World, script: seq<Turn>)
    requires Safe(w) && w.cluster.Some? && Active(w.cluster.value)
    requires Quiet(script) && |script| >= CallsLeft(Start)
    ensures var c, w' := w.cluster.value, Pass(State(w, Start), script);
      && Converged(w') && w'.ready == w.ready
      && w'.cluster == Some(c.(status := w'.cluster.value.status, version := w'.cluster.value.version))
      && BroughtUpToDate(w, w', c, First(c))
      && (Secret in w.owned ==> w'.owned[Secret] == w.owned[Secret])
      && (if c.status.phase == NoPhase
          then C.Tells(w'.cluster.value.status.conditions, ProgressingCondition, C.True, BeingInitialised, c.generation)
          else SameProgress(c.status.conditions, w'.cluster.value.status.conditions))
  {
    var c := w.cluster.value;
    var s1 := Step(State(w, Start), script[0].answer);
    QuietTurn(State(w, Start), script);
    DispatchIsOk(w, script[0].answer);
    if c.status.phase == NoPhase {
      QuietTurn(s1, script[1..]);
      FirstStatuses(c, script[0].answer);
      StatusWriteIsOk(w, s1.job.mem, script[1].answer);
      var s2 := Step(s1, script[1].answer);
      var c2 := s2.world.cluster.value;
      QuietBody(s2.world, c2, script[1..][1..]);
      SameSpecSameObjects(w, s2.world, Pass(State(w, Start), script), c, c2);
    } else {
      QuietBody(w, c, script[1..]);
    }
  }

  lemma SameSpecSameObjects(w: World, w1: World, w': World, c: Cluster, c1: Cluster)
    requires w1.owned == w.owned && w1.ready == w.ready && c1.name == c.name && c1.spec == c.spec
    requires BroughtUpToDate(w1, w', c1, First(c1))
    ensures BroughtUpToDate(w, w', c, First(c))
  {
    forall k ensures KindUpToDate(w, w', c, First(c), k) {
      assert KindUpToDate(w1, w', c1, First(c1), k);
    }
  }

  /** What a converged world holds, object by object: the StatefulSet has as many replicas as the
      spec has instances, and the version, account and settings of the spec; the ConfigMap has its
      config; the Services select the cluster's pods; and the budget is for its instances. */
  lemma ConvergedObjects(w: World)
    requires Converged(w)
    ensures var c := w.cluster.value;
      && (forall k :: Rank(k) >= 2 ==> k in w.owned)
      && w.owned[StatefulSet].live ==
         Pods(c.spec.instances, c.spec.postgresVersion, c.spec.serviceAccountName, c.spec.settings)
      && w.owned[ConfigMap].live == ConfigData(c.spec.config)
      && w.owned[HeadlessService].live == w.owned[PrimaryService].live == w.owned[ReplicaService].live == Routing(c.name)
      && w.owned[PodDisruptionBudget].live == Budget(c.name, c.spec.instances)
  {
  }

  /** What an undisturbed pass finds missing it makes with the cluster's name, its version and, in
      a StatefulSet, its storage; a new Secret holds a password. */
  lemma {:induction false} QuietPassMakes(w: World, script: seq<Turn>, k: Kind)
    requires Safe(w) && w.cluster.Some? && Active(w.cluster.value)
    requires Quiet(script) && |script| >= CallsLeft(Start)
    requires Rank(k) >= First(w.cluster.value) && k !in w.owned
    ensures var c, o := w.cluster.value, Pass(State(w, Start), script).owned;
      && k in o && (k == Secret <==> o[k].live.Password?)
      && o[k].fixed == Fixed(c.name, c.spec.postgresVersion, if k == StatefulSet then Some(c.spec.storage) else None)
  {
    QuietPassConverges(w, script);
    assert KindUpToDate(w, Pass(State(w, Start), script), w.cluster.value, First(w.cluster.value), k);
  }

  /** After an undisturbed pass an object is what the builders make for the present spec exactly
      when it was missing, or its fixed part already was. */
  lemma {:induction false} WhollyBuilt(w: World, script: seq<Turn>, k: Kind)
    requires Safe(w) && w.cluster.Some? && Active(w.cluster.value) && Rank(k) >= 2
    requires Quiet(script) && |script| >= CallsLeft(Start)
    ensures var c, w' := w.cluster.value, Pass(State(w, Start), script);
      && w'.cluster.Some? && k in w'.owned
      && (w'.owned[k] == Built(k, w'.cluster.value) <==> k !in w.owned || w.owned[k].fixed == FixedOf(k, c))
  {
    QuietPassConverges(w, script);
    assert KindUpToDate(w, Pass(State(w, Start), script), w.cluster.value, First(w.cluster.value), k);
  }

  lemma {:induction false} QuietBody(w: World, c: Cluster, script: seq<Turn>)
    requires w.cluster == Some(c) && Active(c) && StatusOk(c)
    requires Quiet(script) && |script| >= 2 * |ORDER| + 2
    ensures var w' := Pass(State(w, Enter(0, c)), script);
      && Converged(w') && w'.ready == w.ready
      && w'.cluster == Some(c.(status := w'.cluster.value.status, version := w'.cluster.value.version))
      && BroughtUpToDate(w, w', c, First(c))
      && (Secret in w.owned ==> w'.owned[Secret] == w.owned[Secret])
      && SameProgress(c.status.conditions, w'.cluster.value.status.conditions)
  {
    var a := QuietFrom(w, c, First(c), script);
    ConvergedThen(w, Pass(State(w, Enter(0, c)), script), c, a);
  }

  lemma ConvergedThen(w: World, w': World, c: Cluster, a: Answer)
    requires w.cluster == Some(c) && Active(c) && StatusOk(c)
    requires BroughtUpToDate(w, w', c, First(c)) && w'.cluster == Some(Stored(c, Observe(c, SeenReplicas(w'), a)))
    ensures Converged(w') && w'.ready == w.ready
    ensures w'.cluster == Some(c.(status := w'.cluster.value.status, version := w'.cluster.value.version))
    ensures Secret in w.owned ==> w'.owned[Secret] == w.owned[Secret]
    ensures SameProgress(c.status.conditions, w'.cluster.value.status.conditions)
  {
    assert KindUpToDate(w, w', c, First(c), StatefulSet) && KindUpToDate(w, w', c, First(c), Secret);
    ObserveReads(c, w.ready, a);
    ObserveKeepsProgress(c, w.ready, a);
    ObserveAgain(c, w.ready, a, Stored(c, Observe(c, w.ready, a)));
    ObjectsAreThere(w, w', c, w'.cluster.value);
  }

  lemma ObjectsAreThere(w: World, w': World, c: Cluster, c': Cluster)
    requires BroughtUpToDate(w, w', c, First(c)) && c'.name == c.name && c'.spec == c.spec
    ensures forall k :: Rank(k) >= First(c) ==> k in w'.owned
    ensures forall k :: Rank(k) >= 2 ==> w'.owned[k].live == LiveOf(k, c')
  {
    forall k | Rank(k) >= First(c) ensures k in w'.owned && (Rank(k) >= 2 ==> w'.owned[k].live == LiveOf(k, c')) {
      assert KindUpToDate(w, w', c, First(c), k);
    }
  }

  lemma FinalizerStored(w: World, c: Cluster, a: Answer)
    requires w.cluster == Some(c) && !c.finalizer && a.outcome == Done
    ensures WriteMeta(w, c.(finalizer := true), a) ==
      State(w.(cluster := Some(c.(finalizer := true, version := c.version + 1))), Idle)
  {
  }

  /** The first undisturbed pass over a new cluster adds the finalizer and nothing else. */
  lemma {:induction false} FirstPassAddsFinalizer(w: World, c: Cluster, w1: World, script: seq<Turn>)
    requires w.cluster == Some(c) && !c.spec.paused && !c.finalizer
    requires w1 == w.(cluster := Some(c.(finalizer := true, version := c.version + 1)))
    requires Quiet(script) && |script| >= 2
    ensures Pass(State(w, Start), script) == w1
  {
    var mem := c.(finalizer := true);
    StartCall(w, c, script[0].answer);
    MetaCall(w, mem, script[1].answer);
    FinalizerStored(w, c, script[1].answer);
    TwoCalls(State(w, Start), State(w, AddFinalizer(mem)), State(w1, Idle), script);
  }

  lemma {:induction false} TwoQuietPasses(w: World, c: Cluster, w1: World, first: seq<Turn>, second: seq<Turn>)
    requires Safe(w) && w.cluster == Some(c) && !c.spec.paused && !c.deleting
    requires Quiet(first) && Quiet(second) && |first| >= CallsLeft(Start) && |second| >= CallsLeft(Start)
    requires w1 == Pass(State(w, Start), first)
    ensures Converged(Pass(State(w1, Start), second))
  {
    if c.finalizer {
      QuietPassConverges(w, first);
      ConvergedIsStable(w1, second);
    } else {
      FirstPassAddsFinalizer(w, c, w.(cluster := Some(c.(finalizer := true, version := c.version + 1))), first);
      PassIsSafe(State(w, Start), first);
      QuietPassConverges(w1, second);
    }
  }

  /** Whatever has happened to a cluster since it was new, as long as it exists and is neither
      paused nor being deleted, two undisturbed passes converge. */
  lemma {:induction false} EveryHistoryConverges(w: World, events: seq<Event>, first: seq<Turn>, second: seq<Turn>)
    requires Initial(w)
    requires Quiet(first) && Quiet(second) && |first| >= CallsLeft(Start) && |second| >= CallsLeft(Start)
    ensures var h := History(w, events);
      h.cluster.Some? && !h.cluster.value.spec.paused && !h.cluster.value.deleting ==>
        Converged(History(w, events + [Reconcile(first), Reconcile(second)]))
  {
    var h := History(w, events);
    EveryHistoryIsSafe(w, events);
    TwoMore(w, events, first, second);
    if h.cluster.Some? && !h.cluster.value.spec.paused && !h.cluster.value.deleting {
      TwoQuietPasses(h, h.cluster.value, Pass(State(h, Start), first), first, second);
    }
  }

  lemma OneMore(w: World, events: seq<Event>, e: Event)
    ensures History(w, events + [e]) == After(History(w, events), e)
  {
    assert (events + [e])[..|events|] == events;
  }

  lemma {:induction false} TwoMore(w: World, events: seq<Event>, first: seq<Turn>, second: seq<Turn>)
    ensures History(w, events + [Reconcile(first), Reconcile(second)]) ==
      Pass(State(Pass(State(History(w, events), Start), first), Start), second)
  {
    assert events + [Reconcile(first), Reconcile(second)] == events + [Reconcile(first)] + [Reconcile(second)];
    OneMore(w, events + [Reconcile(first)], Reconcile(second));
    OneMore(w, events, Reconcile(first));
  }

  /** In a converged world an undisturbed pass changes nothing at all, so its result is a fixed
      point of reconciliation. */
  lemma {:induction false} ConvergedIsStable(w: World, script: seq<Turn>)
    requires Converged(w) && Quiet(script) && |script| >= CallsLeft(Start)
    ensures Pass(State(w, Start), script) == w
  {
    var c := w.cluster.value;
    QuietTurn(State(w, Start), script);
    StableBody(w, c, script[1..]);
  }

  lemma {:induction false} StableBody(w: World, c: Cluster, script: seq<Turn>)
    requires Converged(w) && w.cluster == Some(c) && Quiet(script) && |script| >= 2 * |ORDER| + 2
    ensures Pass(State(w, Enter(0, c)), script) == w
  {
    var a := QuietFrom(w, c, First(c), script);
    NothingToUpdate(w, Pass(State(w, Enter(0, c)), script));
  }

  lemma NothingToUpdate(w: World, w': World)
    requires Converged(w) && BroughtUpToDate(w, w', w.cluster.value, First(w.cluster.value))
    ensures w'.owned == w.owned && w'.ready == w.ready
  {
    var c := w.cluster.value;
    forall k ensures k in w'.owned <==> k in w.owned {
      assert KindUpToDate(w, w', c, First(c), k);
    }
    forall k | k in w.owned ensures w'.owned[k] == w.owned[k] {
      assert KindUpToDate(w, w', c, First(c), k);
    }
  }

  // ---- an edit that is never carried out ----

  /** The cluster after an edit of its storage. */
  function WithStorage(w: World, storage: string): World
    requires w.cluster.Some?
  {
    var c := w.cluster.value;
    w.(cluster := Some(c.(spec := c.spec.(storage := storage), generation := c.generation + 1, version := c.version + 1)))
  }

  /** Editing the storage of a converged cluster is permitted and leaves it to be worked on. */
  lemma StorageEditIsPermitted(w: World, storage: string)
    requires Safe(w) && Converged(w)
    ensures EnvMove(w, WithStorage(w, storage)) && Safe(WithStorage(w, storage))
    ensures Active(WithStorage(w, storage).cluster.value)
  {
  }

  lemma FixedStays(w: World, w': World, c: Cluster, k: Kind)
    requires BroughtUpToDate(w, w', c, First(c)) && k in w.owned
    ensures k in w'.owned && w'.owned[k].fixed == w.owned[k].fixed
  {
    assert KindUpToDate(w, w', c, First(c), k);
  }

  /** After the edit an undisturbed pass converges and reports the new generation, and every
      object still has the fixed part that it had before. */
  lemma {:induction false} StorageEditIsIgnored(w: World, edited: World, w': World, storage: string,
                                                script: seq<Turn>, k: Kind)
    requires Safe(w) && Converged(w) && edited == WithStorage(w, storage) && w' == Pass(State(edited, Start), script)
    requires Quiet(script) && |script| >= CallsLeft(Start) && k in w.owned
    ensures Converged(w') && w'.cluster.value.spec.storage == storage
    ensures k in w'.owned && w'.owned[k].fixed == w.owned[k].fixed
  {
    StorageEditIsPermitted(w, storage);
    QuietPassConverges(edited, script);
    FixedStays(edited, w', edited.cluster.value, k);
  }

  /** A cluster without objects that asks for 1Gi comes up in one pass and is then edited to 2Gi: the
      next pass leaves a StatefulSet that claims 1Gi, and reports the new generation as observed. */
  lemma {:induction false} GrownStorageStaysSmall(w: World, c: Cluster, up: World, w': World, script: seq<Turn>)
    requires Safe(w) && w.cluster == Some(c) && Active(c) && w.owned == map[] && c.spec.storage == "1Gi"
    requires Quiet(script) && |script| >= CallsLeft(Start)
    requires up == Pass(State(w, Start), script) && up.cluster.Some?
    requires w' == Pass(State(WithStorage(up, "2Gi"), Start), script)
    ensures EnvMove(up, WithStorage(up, "2Gi"))
    ensures Converged(w') && w'.cluster.value.spec.storage == "2Gi" && w'.owned[StatefulSet].fixed.storage == Some("1Gi")
  {
    QuietPassConverges(w, script);
    assert KindUpToDate(w, up, c, First(c), StatefulSet);
    PassIsSafe(State(w, Start), script);
    StorageEditIsPermitted(up, "2Gi");
    StorageEditIsIgnored(up, WithStorage(up, "2Gi"), w', "2Gi", script, StatefulSet);
  }
}
