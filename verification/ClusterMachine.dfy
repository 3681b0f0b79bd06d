/** internal/controller/postgrescluster_controller.go as a step machine. One step is one API
    call; it may be rejected, or carried out with its answer lost, and between two calls the
    environment may edit the cluster, its owned objects and the StatefulSet's ready count. */
module ClusterMachine {
  import opened Text
  import C = Conditions

  // ---- API objects ----

  datatype Phase = NoPhase | Initializing | Creating | Running | Degraded | Paused

  /** The spec; `storage` is size, class and access modes of the data volumes, `config` the
      server parameters, access rules and TLS switch, and `settings` everything else that goes
      into the pods. */
  datatype Spec = Spec(
    instances: int, paused: bool, serviceAccountName: string, postgresVersion: int, storage: string, config: string,
    settings: string)

  datatype ConditionKind = ReadyCondition | DegradedCondition | ProgressingCondition

  /** The reason and message texts of conditions, by what they say. */
  datatype Reason =
    | Suspended
    | BeingInitialised
    | NoReadyInstances
    | InsufficientInstances(ready: int, desired: int)
    | AllInstancesReady(desired: int)
    | FullyOperational

  /** The names derived from the cluster's own name. */
  datatype Ref = NoRef | Pod(cluster: string, ordinal: nat) | PrimaryOf(cluster: string) | ReplicasOf(cluster: string)

  datatype Status = Status(
    phase: Phase, conditions: seq<C.Condition<ConditionKind, Reason>>, readyInstances: int, observedGeneration: int,
    currentPrimary: Ref, writeService: Ref, readService: Ref, postgresVersion: Option<int>)

  /** `version` is the resourceVersion, `deleting` whether a deletion timestamp is set and
      `finalizer` whether the operator's finalizer is present. */
  datatype Cluster = Cluster(
    name: string, spec: Spec, generation: int, version: int, deleting: bool, finalizer: bool, status: Status)

  datatype Kind =
    | ServiceAccount | Secret | ConfigMap | StatefulSet | HeadlessService | PrimaryService | ReplicaService
    | PodDisruptionBudget

  /** The order in which reconcileSubresources visits the owned objects. */
  const ORDER: seq<Kind> :=
    [ServiceAccount, Secret, ConfigMap, StatefulSet, HeadlessService, PrimaryService, ReplicaService, PodDisruptionBudget]

  /** What is set when an object is created and never again: the labels, which carry the cluster's
      name and the version, and the volume claim template of the StatefulSet. */
  datatype Fixed = Fixed(name: string, versionLabel: int, storage: Option<string>)

  /** What every update copies from the built object into the existing one. */
  datatype Live =
    | NothingLive
    | Password(password: string)
    | ConfigData(config: string)
    | Pods(replicas: int, version: int, serviceAccountName: string, settings: string)
    | Routing(cluster: string)
    | Budget(cluster: string, instances: int)

  datatype Content = Content(fixed: Fixed, live: Live)

  /** Everything the API server stores; `ready` is the StatefulSet's count of ready replicas. */
  datatype World = World(cluster: Option<Cluster>, owned: map<Kind, Content>, ready: int)

  // ---- one API call ----

  datatype Outcome = Done | Rejected | Lost

  /** The fate of a call, and what the operator draws from the outside before its next call:
      two clock readings and a generated password. */
  datatype Answer = Answer(outcome: Outcome, clock: int, later: int, password: string)

  /** The environment's move, if any, followed by the operator's call. */
  datatype Turn = Turn(env: Option<World>, answer: Answer)

  /** The call the operator makes next, with its in-memory copy of the cluster. */
  datatype Job =
    | Idle
    | Start
    | PauseStatus(mem: Cluster)
    | AddFinalizer(mem: Cluster)
    | RemoveFinalizer(mem: Cluster)
    | InitStatus(mem: Cluster)
    | Ensure(i: nat, mem: Cluster)
    | Create(i: nat, mem: Cluster, content: Content)
    | Update(i: nat, mem: Cluster, existing: Content)
    | ReadStatefulSet(mem: Cluster)
    | FinalStatus(mem: Cluster)

  datatype State = State(world: World, job: Job)

  // ---- local computation between calls ----

  function SetCondition(c: Cluster, kind: ConditionKind, s: C.Status, reason: Reason, now: int): Cluster {
    c.(status := c.status.(conditions := C.Upsert(c.status.conditions, C.Call(kind, s, reason, c.generation, now))))
  }

  function SetPhase(c: Cluster, p: Phase): Cluster {
    c.(status := c.status.(phase := p))
  }

  /** What Reconcile does right after it has read the cluster. */
  function Dispatch(c: Cluster, a: Answer): Job {
    if c.spec.paused then
      if c.status.phase != Paused then
        PauseStatus(SetCondition(SetPhase(c, Paused), ProgressingCondition, C.False, Suspended, a.clock))
      else Idle
    else if !c.finalizer then AddFinalizer(c.(finalizer := true))
    else if c.deleting then RemoveFinalizer(c.(finalizer := false))
    else if c.status.phase == NoPhase then
      InitStatus(SetCondition(SetPhase(c, Initializing), ProgressingCondition, C.True, BeingInitialised, a.clock))
    else Enter(0, c)
  }

  /** The call that begins step `i` of reconcileSubresources. */
  function Enter(i: nat, c: Cluster): Job {
    if i >= |ORDER| then ReadStatefulSet(c)
    else if i == 0 && c.spec.serviceAccountName != "" then Ensure(1, c)
    else Ensure(i, c)
  }

  /** The phase and the conditions that stand for a number of ready replicas. */
  function Judged(c: Cluster, ready: int, a: Answer): Cluster {
    var desired := c.spec.instances;
    if ready == 0 then
      SetCondition(SetPhase(c, Creating), ReadyCondition, C.False, NoReadyInstances, a.clock)
    else if ready < desired then
      SetCondition(
        SetCondition(SetPhase(c, Degraded), ReadyCondition, C.False, InsufficientInstances(ready, desired), a.clock),
        DegradedCondition, C.True, InsufficientInstances(ready, desired), a.later)
    else
      SetCondition(
        SetCondition(SetPhase(c, Running), ReadyCondition, C.True, AllInstancesReady(desired), a.clock),
        DegradedCondition, C.False, FullyOperational, a.later)
  }

  /** updateStatus up to its write: the status as seen from the StatefulSet. */
  function Observe(c: Cluster, replicas: int, a: Answer): Cluster {
    var ready := if replicas > 0 then replicas else 0;
    var c2 := Judged(c.(status := c.status.(readyInstances := ready)), ready, a);
    c2.(status := c2.status.(
      currentPrimary := Pod(c.name, 0),
      writeService := PrimaryOf(c.name),
      readService := ReplicasOf(c.name),
      observedGeneration := c.generation,
      postgresVersion := Some(c.spec.postgresVersion)))
  }

  /** Objects that are made once and then left alone. */
  predicate OnceOnly(k: Kind) {
    k.ServiceAccount? || k.Secret?
  }

  function FixedOf(k: Kind, c: Cluster): Fixed {
    Fixed(c.name, c.spec.postgresVersion, if k == StatefulSet then Some(c.spec.storage) else None)
  }

  function LiveOf(k: Kind, c: Cluster): Live {
    match k
    case ServiceAccount => NothingLive
    case Secret => NothingLive
    case ConfigMap => ConfigData(c.spec.config)
    case StatefulSet =>
      Pods(c.spec.instances, c.spec.postgresVersion, c.spec.serviceAccountName, c.spec.settings)
    case PodDisruptionBudget => Budget(c.name, c.spec.instances)
    case _ => Routing(c.name)
  }

  /** The object that the builders make for the cluster. */
  function Built(k: Kind, c: Cluster): Content {
    Content(FixedOf(k, c), LiveOf(k, c))
  }

  function Desired(k: Kind, c: Cluster, a: Answer): Content {
    if k == Secret then Content(FixedOf(k, c), Password(a.password)) else Built(k, c)
  }

  // ---- the API server ----

  /** Storing an unchanged object is not a new version. */
  function Commit(stored: Cluster, wanted: Cluster): Cluster {
    if wanted == stored then stored else wanted.(version := stored.version + 1)
  }

  /** A write based on an outdated read is refused. */
  predicate Accepted(w: World, mem: Cluster, a: Answer) {
    a.outcome != Rejected && w.cluster.Some? && w.cluster.value.version == mem.version
  }

  /** What a status write leaves in the store. */
  function Stored(c: Cluster, mem: Cluster): Cluster {
    Commit(c, c.(status := mem.status))
  }

  /** Status().Update: stores the status part. */
  function StatusWritten(w: World, mem: Cluster, a: Answer): World {
    if Accepted(w, mem, a) then w.(cluster := Some(Stored(w.cluster.value, mem))) else w
  }

  /** Update: stores spec and metadata. A cluster marked for deletion goes away with its finalizer. */
  function WriteMeta(w: World, mem: Cluster, a: Answer): State {
    if !Accepted(w, mem, a) then State(w, Idle)
    else
      var stored := w.cluster.value;
      State(w.(cluster :=
        if stored.deleting && !mem.finalizer then None
        else Some(Commit(stored, stored.(spec := mem.spec, finalizer := mem.finalizer)))), Idle)
  }

  /** The ready replicas as a read of the StatefulSet shows them; a missing one shows none. */
  function SeenReplicas(w: World): int {
    if StatefulSet in w.owned then w.ready else 0
  }

  /** The object is still the one that was read; an update based on an outdated read is refused. */
  predicate Untouched(w: World, k: Kind, existing: Content) {
    k in w.owned && w.owned[k] == existing
  }

  /** One API call of the operator. */
  function Step(s: State, a: Answer): State {
    var w := s.world;
    match s.job
    case Idle => s
    case Start =>
      if a.outcome == Done && w.cluster.Some? then State(w, Dispatch(w.cluster.value, a)) else State(w, Idle)
    case PauseStatus(mem) => State(StatusWritten(w, mem, a), Idle)
    case AddFinalizer(mem) => WriteMeta(w, mem, a)
    case RemoveFinalizer(mem) => WriteMeta(w, mem, a)
    case InitStatus(mem) =>
      State(StatusWritten(w, mem, a),
            if Accepted(w, mem, a) && a.outcome == Done then Enter(0, Stored(w.cluster.value, mem)) else Idle)
    case Ensure(i, mem) =>
      if a.outcome != Done || i >= |ORDER| then State(w, Idle)
      else if ORDER[i] !in w.owned then State(w, Create(i, mem, Desired(ORDER[i], mem, a)))
      else if OnceOnly(ORDER[i]) then State(w, Enter(i + 1, mem))
      else State(w, Update(i, mem, w.owned[ORDER[i]]))
    case Create(i, mem, content) =>
      if a.outcome == Rejected || i >= |ORDER| || ORDER[i] in w.owned then State(w, Idle)
      else State(w.(owned := w.owned[ORDER[i] := content]), if a.outcome == Done then Enter(i + 1, mem) else Idle)
    case Update(i, mem, existing) =>
      if a.outcome == Rejected || i >= |ORDER| || !Untouched(w, ORDER[i], existing) then State(w, Idle)
      else
        State(w.(owned := w.owned[ORDER[i] := existing.(live := LiveOf(ORDER[i], mem))]),
              if a.outcome == Done then Enter(i + 1, mem) else Idle)
    case ReadStatefulSet(mem) =>
      if a.outcome != Done then State(w, Idle)
      else State(w, FinalStatus(Observe(mem, SeenReplicas(w), a)))
    case FinalStatus(mem) => State(StatusWritten(w, mem, a), Idle)
  }

  // ---- the environment ----

  /** What others may do to the stored cluster: edit the spec (a new generation), request
      deletion, touch other metadata (a new version); never the status or the finalizer. */
  predicate Edited(c: Cluster, c': Cluster) {
    && c'.name == c.name && c'.status == c.status && c'.finalizer == c.finalizer
    && (c.deleting ==> c'.deleting) && (c'.deleting ==> c'.finalizer)
    && c.generation <= c'.generation && (c'.spec != c.spec ==> c.generation < c'.generation)
    && (c' != c ==> c.version < c'.version)
  }

  /** Nobody else creates or deletes owned objects before the cluster is being deleted, but
      their contents and the ready count may change. */
  predicate EnvMove(w: World, w': World) {
    match w.cluster
    case None => w'.cluster.None?
    case Some(c) =>
      match w'.cluster
      case None => !c.finalizer
      case Some(c') => Edited(c, c') && (c'.deleting || w'.owned.Keys == w.owned.Keys)
  }

  /** A move that the rules do not allow does not happen. */
  function Moved(w: World, env: Option<World>): World {
    if env.Some? && EnvMove(w, env.value) then env.value else w
  }

  // ---- passes and histories ----

  /** An upper bound on the calls left in a pass: every pass ends, whatever its calls answer. */
  function CallsLeft(j: Job): nat {
    match j
    case Idle => 0
    case Start => 20
    case PauseStatus(_) => 1
    case AddFinalizer(_) => 1
    case RemoveFinalizer(_) => 1
    case InitStatus(_) => 19
    case Ensure(i, _) => if i < |ORDER| then 2 * (|ORDER| - i) + 2 else 1
    case Create(i, _, _) => if i < |ORDER| then 2 * (|ORDER| - i) + 1 else 1
    case Update(i, _, _) => if i < |ORDER| then 2 * (|ORDER| - i) + 1 else 1
    case ReadStatefulSet(_) => 2
    case FinalStatus(_) => 1
  }

  /** One pass of Reconcile against a script of turns. When the script runs out before the pass
      ends, the operator has crashed there; so the worlds in the middle of a pass are the final
      worlds of the shortened scripts. */
  function Pass(s: State, script: seq<Turn>): World
    decreases script
  {
    if s.job.Idle? || script == [] then s.world
    else Pass(Step(State(Moved(s.world, script[0].env), s.job), script[0].answer), script[1..])
  }

  datatype Event = Reconcile(script: seq<Turn>) | Environment(move: World)

  function After(w: World, e: Event): World {
    match e
    case Reconcile(script) => Pass(State(w, Start), script)
    case Environment(move) => Moved(w, Some(move))
  }

  function History(w: World, events: seq<Event>): World {
    if events == [] then w else After(History(w, events[..|events| - 1]), events[|events| - 1])
  }
}
