/** internal/controller/postgresbackup_controller.go in its own form; Reconcile is proved to be
    a pass of the step machine. */
module BackupController {
  import opened Text
  import opened BackupMachine
  import C = Conditions

  class PostgresBackupReconciler {
    /** What the API server stores. */
    var world: World
    /** The object the reconciler works on. */
    var backup: Backup
    /** What the outside will do, turn by turn, and the answer to the latest call. */
    var script: seq<Turn>
    var answer: Answer
    /** The world in which this pass has to end. */
    ghost var goal: World

    constructor (world: World)
      ensures this.world == world
    {
      this.world := world;
      backup := Backup(0, 0, Status(NoPhase, None, None, []));
      script := [];
      answer := Answer(Rejected, 0, 0);
      goal := world;
    }

    /** With `task` as the next call, the pass ends in `goal`. */
    ghost predicate On(task: Task)
      reads this
    {
      Pass(State(world, task), script) == goal
    }

    /** Lets the outside act and then answer a call; fails once the operator has crashed. */
    method Await(ghost task: Task) returns (crashed: bool)
      requires On(task) && !task.Idle?
      modifies this`world, this`script, this`answer
      ensures crashed ==> On(Idle)
      ensures !crashed ==> Pass(Step(State(world, task), answer), script) == goal
    {
      if script == [] {
        return true;
      }
      world := Moved(world, script[0].env);
      answer := script[0].answer;
      script := script[1..];
      return false;
    }

    method UpdateStatus(ghost task: Task) returns (err: bool)
      requires task == NoteWaiting(backup) || task == RunningStatus(backup) || task == FinalStatus(backup)
      requires On(task)
      modifies this`world, this`script, this`answer
      ensures On(Idle)
    {
      err := Await(task);
      if !err {
        err := !Accepted(world, backup, answer) || answer.outcome != Done;
        world := StatusWritten(world, backup, answer);
      }
    }

    method SetBackupCondition(kind: ConditionKind, status: C.Status, reason: Reason, now: int)
      modifies this`backup
      ensures backup == SetCondition(old(backup), kind, status, reason, now)
    {
      var holder := new C.Conditioned<ConditionKind, Reason>(backup.generation);
      holder.conditions := backup.status.conditions;
      holder.SetCondition(kind, status, reason, now);
      backup := backup.(status := backup.status.(conditions := holder.conditions));
    }

    method CreateBackupJob() returns (err: bool)
      requires On(CreateJob(backup))
      modifies this`world, this`script, this`answer, this`backup
      ensures On(Idle)
    {
      err := Await(CreateJob(backup));
      if err {
        return true;
      }
      if answer.outcome == Rejected || world.job.Some? {
        return true;
      }
      world := world.(job := Some([]));
      if answer.outcome != Done {
        return true;
      }
      backup := backup.(status := backup.status.(phase := Running));
      backup := backup.(status := backup.status.(startTime := Some(answer.clock)));
      SetBackupCondition(RunningCondition, C.True, JobCreated, answer.later);
      err := UpdateStatus(RunningStatus(backup));
    }

    method SyncBackupStatus(conditions: seq<JobCondition>) returns (err: bool)
      requires
        var v := Verdict(conditions);
        On(if v.Some? then FinalStatus(Finished(backup, v.value, answer)) else Idle)
      modifies this`world, this`script, this`answer, this`backup
      ensures On(Idle)
    {
      for i := 0 to |conditions|
        invariant Verdict(conditions) == Verdict(conditions[i..])
        invariant backup == old(backup) && answer == old(answer) && world == old(world) && script == old(script)
      {
        var cond := conditions[i];
        if cond.kind == JobComplete && cond.isTrue {
          backup := backup.(status := backup.status.(phase := Completed));
          backup := backup.(status := backup.status.(completionTime := Some(answer.clock)));
          SetBackupCondition(CompleteCondition, C.True, JobSucceeded, answer.later);
          err := UpdateStatus(FinalStatus(backup));
          return err;
        }
        if cond.kind == JobFailure && cond.isTrue {
          backup := backup.(status := backup.status.(phase := Failed));
          backup := backup.(status := backup.status.(completionTime := Some(answer.clock)));
          SetBackupCondition(CompleteCondition, C.False, BackupMachine.JobFailed, answer.later);
          err := UpdateStatus(FinalStatus(backup));
          return err;
        }
        assert conditions[i..][1..] == conditions[i + 1..];
      }
      return false;
    }

    /** Reconcile is exactly one pass of the machine, for every behaviour of the outside. */
    method Reconcile(turns: seq<Turn>) returns (err: bool)
      modifies this
      ensures world == Pass(State(old(world), Start), turns)
    {
      script := turns;
      goal := Pass(State(world, Start), turns);

      err := Await(Start);
      if err || answer.outcome != Done {
        return true;
      }
      if world.backup.None? {
        return false;
      }
      backup := world.backup.value;

      if backup.status.phase == Completed || backup.status.phase == Failed {
        return false;
      }

      err := Await(ReadCluster(backup));
      if err || answer.outcome != Done {
        return true;
      }
      if world.clusterRunning.None? {
        SetBackupCondition(ClusterFound, C.False, ClusterNotFound, answer.clock);
        var _ := UpdateStatus(NoteWaiting(backup));
        return false;
      }
      if !world.clusterRunning.value {
        SetBackupCondition(ClusterReady, C.False, ClusterNotReady, answer.clock);
        var _ := UpdateStatus(NoteWaiting(backup));
        return false;
      }

      err := Await(ReadJob(backup));
      if err || answer.outcome != Done {
        return true;
      }
      if world.job.None? {
        err := CreateBackupJob();
        return err;
      }
      err := SyncBackupStatus(world.job.value);
    }
  }
}
