/** internal/controller/postgrescluster_controller.go in its own form: methods that read and
    write through the API server and update the in-memory cluster in place. Reconcile is
    proved to be a pass of the step machine, call by call. */
module ClusterController {
  import opened Text
  import opened ClusterMachine
  import C = Conditions

  const ZERO: Cluster :=
    Cluster("", Spec(0, false, "", 0, "", "", ""), 0, 0, false, false, Status(NoPhase, [], 0, 0, NoRef, NoRef, NoRef, None))

  class PostgresClusterReconciler {
    /** What the API server stores. */
    var world: World
    /** The object the reconciler works on. */
    var cluster: Cluster
    /** What the outside will do, turn by turn, and the answer to the latest call. */
    var script: seq<Turn>
    var answer: Answer
    /** The world in which this pass has to end. */
    ghost var goal: World

    constructor (world: World)
      ensures this.world == world
    {
      this.world := world;
      cluster := ZERO;
      script := [];
      answer := Answer(Rejected, 0, 0, "");
      goal := world;
    }

    /** With `job` as the next call, the pass ends in `goal`. */
    ghost predicate On(job: Job)
      reads this
    {
      Pass(State(world, job), script) == goal
    }

    /** Lets the outside act and then answer a call; fails once the operator has crashed. */
    method Await(ghost job: Job) returns (crashed: bool)
      requires On(job) && !job.Idle?
      modifies this`world, this`script, this`answer
      ensures crashed ==> On(Idle)
      ensures !crashed ==> Pass(Step(State(world, job), answer), script) == goal
    {
      if script == [] {
        return true;
      }
      world := Moved(world, script[0].env);
      answer := script[0].answer;
      script := script[1..];
      return false;
    }

    // ---- the API client ----

    method GetCluster() returns (err: bool, found: bool)
      requires On(Start)
      modifies this`world, this`script, this`answer, this`cluster
      ensures !err && found ==> On(Dispatch(cluster, answer))
      ensures err || !found ==> On(Idle)
    {
      found := false;
      err := Await(Start);
      if !err {
        err := answer.outcome != Done;
        found := world.cluster.Some?;
        if !err && found {
          cluster := world.cluster.value;
        }
      }
    }

    method UpdateStatus(ghost job: Job) returns (err: bool)
      requires job == PauseStatus(cluster) || job == InitStatus(cluster) || job == FinalStatus(cluster)
      requires On(job)
      modifies this`world, this`script, this`answer, this`cluster
      ensures err ==> On(Idle)
      ensures !err ==> On(if job.InitStatus? then Enter(0, cluster) else Idle)
    {
      err := Await(job);
      if !err {
        if !Accepted(world, cluster, answer) {
          return true;
        }
        var stored := Stored(world.cluster.value, cluster);
        world := world.(cluster := Some(stored));
        err := answer.outcome != Done;
        if !err {
          cluster := stored;
        }
      }
    }

    method UpdateCluster(ghost job: Job) returns (err: bool)
      requires job == AddFinalizer(cluster) || job == RemoveFinalizer(cluster)
      requires On(job)
      modifies this`world, this`script, this`answer
      ensures On(Idle)
    {
      err := Await(job);
      if !err {
        err := !Accepted(world, cluster, answer) || answer.outcome != Done;
        world := WriteMeta(world, cluster, answer).world;
      }
    }

    method GetOwned(kind: Kind, ghost i: nat) returns (err: bool, existing: Option<Content>)
      requires i < |ORDER| && ORDER[i] == kind && On(Ensure(i, cluster))
      modifies this`world, this`script, this`answer
      ensures err ==> On(Idle)
      ensures !err && existing.None? ==> On(Create(i, cluster, Desired(kind, cluster, answer)))
      ensures !err && existing.Some? ==>
        On(if OnceOnly(kind) then Enter(i + 1, cluster) else Update(i, cluster, existing.value))
    {
      existing := None;
      err := Await(Ensure(i, cluster));
      if !err {
        err := answer.outcome != Done;
        if kind in world.owned {
          existing := Some(world.owned[kind]);
        }
      }
    }

    method CreateOwned(kind: Kind, content: Content, ghost i: nat) returns (err: bool)
      requires i < |ORDER| && ORDER[i] == kind && On(Create(i, cluster, content))
      modifies this`world, this`script, this`answer
      ensures On(if err then Idle else Enter(i + 1, cluster))
    {
      err := Await(Create(i, cluster, content));
      if !err {
        if answer.outcome == Rejected || kind in world.owned {
          return true;
        }
        world := world.(owned := world.owned[kind := content]);
        err := answer.outcome != Done;
      }
    }

    /** Stores the object that was read, with the fields that have been copied into it. */
    method UpdateOwned(kind: Kind, existing: Content, changed: Content, ghost i: nat) returns (err: bool)
      requires i < |ORDER| && ORDER[i] == kind && On(Update(i, cluster, existing))
      requires changed == existing.(live := LiveOf(kind, cluster))
      modifies this`world, this`script, this`answer
      ensures On(if err then Idle else Enter(i + 1, cluster))
    {
      err := Await(Update(i, cluster, existing));
      if !err {
        if answer.outcome == Rejected || !Untouched(world, kind, existing) {
          return true;
        }
        world := world.(owned := world.owned[kind := changed]);
        err := answer.outcome != Done;
      }
    }

    // ---- the reconciler ----

    method ReconcileServiceAccount() returns (err: bool)
      requires On(Enter(0, cluster))
      modifies this`world, this`script, this`answer
      ensures On(if err then Idle else Enter(1, cluster))
    {
      if cluster.spec.serviceAccountName != "" {
        return false;
      }
      var existing;
      err, existing := GetOwned(ServiceAccount, 0);
      if !err && existing.None? {
        err := CreateOwned(ServiceAccount, Built(ServiceAccount, cluster), 0);
      }
    }

    method ReconcileCredentials() returns (err: bool)
      requires On(Enter(1, cluster))
      modifies this`world, this`script, this`answer
      ensures On(if err then Idle else Enter(2, cluster))
    {
      var existing;
      err, existing := GetOwned(Secret, 1);
      if !err && existing.None? {
        err := CreateOwned(Secret, Content(FixedOf(Secret, cluster), Password(answer.password)), 1);
      }
    }

    /** The create-or-update shared by the ConfigMap, StatefulSet, Services and PDB. */
    method CreateOrUpdate(i: nat) returns (err: bool)
      requires 2 <= i < |ORDER| && On(Enter(i, cluster))
      modifies this`world, this`script, this`answer
      ensures On(if err then Idle else Enter(i + 1, cluster))
    {
      var kind := ORDER[i];
      var desired := Built(kind, cluster);
      var existing;
      err, existing := GetOwned(kind, i);
      if err {
        return true;
      }
      if existing.None? {
        err := CreateOwned(kind, desired, i);
      } else {
        var changed := existing.value.(live := desired.live);
        err := UpdateOwned(kind, existing.value, changed, i);
      }
    }

    method ReconcileServices() returns (err: bool)
      requires On(Enter(4, cluster))
      modifies this`world, this`script, this`answer
      ensures On(if err then Idle else Enter(7, cluster))
    {
      err := false;
      for svc := 4 to 7
        invariant On(Enter(svc, cluster)) && cluster == old(cluster)
      {
        err := CreateOrUpdate(svc);
        if err {
          return true;
        }
      }
    }

    method SetClusterCondition(kind: ConditionKind, status: C.Status, reason: Reason, now: int)
      modifies this`cluster
      ensures cluster == SetCondition(old(cluster), kind, status, reason, now)
    {
      var holder := new C.Conditioned<ConditionKind, Reason>(cluster.generation);
      holder.conditions := cluster.status.conditions;
      holder.SetCondition(kind, status, reason, now);
      cluster := cluster.(status := cluster.status.(conditions := holder.conditions));
    }

    /** The three-way choice inside updateStatus. */
    method Judge(ready: int)
      modifies this`cluster
      ensures cluster == Judged(old(cluster), ready, answer)
    {
      var desired := cluster.spec.instances;
      if ready == 0 {
        cluster := SetPhase(cluster, Creating);
        SetClusterCondition(ReadyCondition, C.False, NoReadyInstances, answer.clock);
      } else if ready < desired {
        cluster := SetPhase(cluster, Degraded);
        SetClusterCondition(ReadyCondition, C.False, InsufficientInstances(ready, desired), answer.clock);
        SetClusterCondition(DegradedCondition, C.True, InsufficientInstances(ready, desired), answer.later);
      } else {
        cluster := SetPhase(cluster, Running);
        SetClusterCondition(ReadyCondition, C.True, AllInstancesReady(desired), answer.clock);
        SetClusterCondition(DegradedCondition, C.False, FullyOperational, answer.later);
      }
    }

    method RefreshStatus() returns (err: bool)
      requires On(ReadStatefulSet(cluster))
      modifies this`world, this`script, this`answer, this`cluster
      ensures On(Idle)
    {
      err := Await(ReadStatefulSet(cluster));
      if err || answer.outcome != Done {
        return true;
      }
      ghost var mem := cluster;
      var ready := 0;
      if StatefulSet in world.owned && world.ready > 0 {
        ready := world.ready;
      }
      cluster := cluster.(status := cluster.status.(readyInstances := ready));
      Judge(ready);
      cluster := cluster.(status := cluster.status.(currentPrimary := Pod(cluster.name, 0)));
      cluster := cluster.(status := cluster.status.(writeService := PrimaryOf(cluster.name)));
      cluster := cluster.(status := cluster.status.(readService := ReplicasOf(cluster.name)));
      cluster := cluster.(status := cluster.status.(observedGeneration := cluster.generation));
      cluster := cluster.(status := cluster.status.(postgresVersion := Some(cluster.spec.postgresVersion)));
      assert cluster == Observe(mem, SeenReplicas(world), answer);
      err := UpdateStatus(FinalStatus(cluster));
    }

    /** The call with which step number `step` of reconcileSubresources begins. */
    ghost function StepJob(step: nat): Job
      reads this
    {
      if step == 0 then Enter(0, cluster)
      else if step == 1 then Enter(1, cluster)
      else if step == 2 then Enter(2, cluster)
      else if step == 3 then Enter(3, cluster)
      else if step == 4 then Enter(4, cluster)
      else if step == 5 then Enter(7, cluster)
      else if step == 6 then Enter(8, cluster)
      else Idle
    }

    method ReconcileSubresources() returns (err: bool)
      requires On(Enter(0, cluster))
      modifies this`world, this`script, this`answer, this`cluster
      ensures On(Idle)
    {
      err := false;
      for step := 0 to 7
        invariant On(StepJob(step))
      {
        match step {
          case 0 => err := ReconcileServiceAccount();
          case 1 => err := ReconcileCredentials();
          case 2 => err := CreateOrUpdate(2);
          case 3 => err := CreateOrUpdate(3);
          case 4 => err := ReconcileServices();
          case 5 => err := CreateOrUpdate(7);
          case _ => err := RefreshStatus();
        }
        if err {
          return true;
        }
      }
    }

    method ReconcileDelete() returns (err: bool)
      requires On(RemoveFinalizer(cluster.(finalizer := false)))
      modifies this`world, this`script, this`answer, this`cluster
      ensures On(Idle)
    {
      cluster := cluster.(finalizer := false);
      err := UpdateCluster(RemoveFinalizer(cluster));
    }

    /** Reconcile is exactly one pass of the machine, for every behaviour of the outside. */
    method Reconcile(turns: seq<Turn>) returns (err: bool)
      modifies this
      ensures world == Pass(State(old(world), Start), turns)
    {
      script := turns;
      goal := Pass(State(world, Start), turns);
      cluster := ZERO;
      var found;
      err, found := GetCluster();
      if err || !found {
        return err;
      }

      if cluster.spec.paused {
        if cluster.status.phase != Paused {
          cluster := SetPhase(cluster, Paused);
          SetClusterCondition(ProgressingCondition, C.False, Suspended, answer.clock);
          err := UpdateStatus(PauseStatus(cluster));
        }
        return err;
      }

      if !cluster.finalizer {
        cluster := cluster.(finalizer := true);
        err := UpdateCluster(AddFinalizer(cluster));
        return err;
      }

      if cluster.deleting {
        err := ReconcileDelete();
        return err;
      }

      if cluster.status.phase == NoPhase {
        cluster := SetPhase(cluster, Initializing);
        SetClusterCondition(ProgressingCondition, C.True, BeingInitialised, answer.clock);
        err := UpdateStatus(InitStatus(cluster));
        if err {
          return true;
        }
      }

      err := ReconcileSubresources();
    }
  }
}
