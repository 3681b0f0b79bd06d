/** internal/controller/postgresbackup_controller.go as a step machine, one step per API call,
    with the same failures as the cluster controller: a call is rejected, or carried out with
    its answer lost, or the operator crashes. */
module BackupMachine {
  import opened Text
  import C = Conditions

  datatype Phase = NoPhase | Pending | Running | Completed | Failed

  datatype ConditionKind = ClusterFound | ClusterReady | RunningCondition | CompleteCondition

  datatype Reason = ClusterNotFound | ClusterNotReady | JobCreated | JobSucceeded | JobFailed

  datatype Status = Status(
    phase: Phase, startTime: Option<int>, completionTime: Option<int>,
    conditions: seq<C.Condition<ConditionKind, Reason>>)

  datatype Backup = Backup(generation: int, version: int, status: Status)

  datatype JobConditionKind = JobComplete | JobFailure | OtherCondition

  datatype JobCondition = JobCondition(kind: JobConditionKind, isTrue: bool)

  /** The store: the backup, whether its cluster is in phase Running (if it exists), and the
      conditions of its Job (if it exists). */
  datatype World = World(backup: Option<Backup>, clusterRunning: Option<bool>, job: Option<seq<JobCondition>>)

  datatype Outcome = Done | Rejected | Lost

  /** The fate of a call, and the two clock readings taken before the next one. */
  datatype Answer = Answer(outcome: Outcome, clock: int, later: int)

  datatype Turn = Turn(env: Option<World>, answer: Answer)

  /** The call the operator makes next, with its in-memory copy of the backup. */
  datatype Task =
    | Idle
    | Start
    | ReadCluster(mem: Backup)
    | NoteWaiting(mem: Backup)
    | ReadJob(mem: Backup)
    | CreateJob(mem: Backup)
    | RunningStatus(mem: Backup)
    | FinalStatus(mem: Backup)

  datatype State = State(world: World, task: Task)

  predicate Terminal(p: Phase) {
    p == Completed || p == Failed
  }

  // ---- local computation ----

  function SetCondition(b: Backup, kind: ConditionKind, s: C.Status, reason: Reason, now: int): Backup {
    b.(status := b.status.(conditions := C.Upsert(b.status.conditions, C.Call(kind, s, reason, b.generation, now))))
  }

  function Started(b: Backup, a: Answer): Backup {
    SetCondition(b.(status := b.status.(phase := Running, startTime := Some(a.clock))),
                 RunningCondition, C.True, JobCreated, a.later)
  }

  function Finished(b: Backup, success: bool, a: Answer): Backup {
    SetCondition(b.(status := b.status.(phase := if success then Completed else Failed, completionTime := Some(a.clock))),
                 CompleteCondition, if success then C.True else C.False, if success then JobSucceeded else JobFailed, a.later)
  }

  /** The verdict of the first decisive Job condition: Some(success), or None while it runs. */
  function Verdict(cs: seq<JobCondition>): Option<bool> {
    if cs == [] then None
    else if cs[0].kind == JobComplete && cs[0].isTrue then Some(true)
    else if cs[0].kind == JobFailure && cs[0].isTrue then Some(false)
    else Verdict(cs[1..])
  }

  // ---- the API server and the operator ----

  predicate Accepted(w: World, mem: Backup, a: Answer) {
    a.outcome != Rejected && w.backup.Some? && w.backup.value.version == mem.version
  }

  /** Status().Update; storing an unchanged object is not a new version. */
  function StatusWritten(w: World, mem: Backup, a: Answer): World {
    if !Accepted(w, mem, a) then w
    else
      var b := w.backup.value;
      w.(backup := Some(if b.status == mem.status then b else b.(status := mem.status, version := b.version + 1)))
  }

  /** One API call of the operator. */
  function Step(s: State, a: Answer): State {
    var w := s.world;
    match s.task
    case Idle => s
    case Start =>
      if a.outcome != Done || w.backup.None? || Terminal(w.backup.value.status.phase) then State(w, Idle)
      else State(w, ReadCluster(w.backup.value))
    case ReadCluster(mem) =>
      if a.outcome != Done then State(w, Idle)
      else if w.clusterRunning.None? then
        State(w, NoteWaiting(SetCondition(mem, ClusterFound, C.False, ClusterNotFound, a.clock)))
      else if !w.clusterRunning.value then
        State(w, NoteWaiting(SetCondition(mem, ClusterReady, C.False, ClusterNotReady, a.clock)))
      else State(w, ReadJob(mem))
    case NoteWaiting(mem) => State(StatusWritten(w, mem, a), Idle)
    case ReadJob(mem) =>
      if a.outcome != Done then State(w, Idle)
      else if w.job.None? then State(w, CreateJob(mem))
      else
        var v := Verdict(w.job.value);
        State(w, if v.Some? then FinalStatus(Finished(mem, v.value, a)) else Idle)
    case CreateJob(mem) =>
      if a.outcome == Rejected || w.job.Some? then State(w, Idle)
      else State(w.(job := Some([])), if a.outcome == Done then RunningStatus(Started(mem, a)) else Idle)
    case RunningStatus(mem) => State(StatusWritten(w, mem, a), Idle)
    case FinalStatus(mem) => State(StatusWritten(w, mem, a), Idle)
  }

  /** Others may do anything to the cluster and the Job; they may delete the backup or touch it
      (a new version), but they do not write its status. */
  predicate EnvMove(w: World, w': World) {
    match w.backup
    case None => w'.backup.None?
    case Some(b) =>
      w'.backup.Some? ==>
        w'.backup.value.status == b.status && (w'.backup.value != b ==> b.version < w'.backup.value.version)
  }

  function Moved(w: World, env: Option<World>): World {
    if env.Some? && EnvMove(w, env.value) then env.value else w
  }

  /** One pass of Reconcile; the operator crashes where the script runs out. */
  function Pass(s: State, script: seq<Turn>): World
    decreases script
  {
    if s.task.Idle? || script == [] then s.world
    else Pass(Step(State(Moved(s.world, script[0].env), s.task), script[0].answer), script[1..])
  }

  datatype Event = Reconcile(script: seq<Turn>) | Environment(move: World)

  function After(w: World, e: Event): World {
    match e
    case Reconcile(script) => Pass(State(w, Start), script)
    case Environment(move) => Moved(w, Some(move))
  }

  function History(w: World, events: seq<Event>): World {
    if events == [] then w else After(History(w, events[..|events| - 1]), events[|events| - 1])
  }

  // ---- safety ----

  ghost predicate StatusOk(s: Status) {
    && C.Unique(s.conditions)
    && (s.completionTime.Some? <==> Terminal(s.phase))
    && (s.phase == Running ==> s.startTime.Some?)
    && (s.startTime.Some? ==> s.phase == Running || Terminal(s.phase))
  }

  ghost predicate Safe(w: World) {
    w.backup.Some? ==> StatusOk(w.backup.value.status)
  }

  ghost predicate Initial(w: World) {
    w.backup.Some? ==> w.backup.value.status == Status(NoPhase, None, None, [])
  }

  function PhaseRank(p: Phase): nat {
    match p
    case NoPhase => 0
    case Pending => 1
    case Running => 2
    case Completed => 3
    case Failed => 3
  }

  /** The later status `s'` may follow `s`: the phase does not move backward, a terminal status
      is final and a start time is never lost. */
  ghost predicate StatusAdvances(s: Status, s': Status) {
    && PhaseRank(s.phase) <= PhaseRank(s'.phase)
    && (Terminal(s.phase) ==> s' == s)
    && (s.startTime.Some? ==> s'.startTime.Some?)
  }

  ghost predicate Advances(w: World, w': World) {
    && (w.backup.None? ==> w'.backup.None?)
    && (w.backup.Some? && w'.backup.Some? ==> StatusAdvances(w.backup.value.status, w'.backup.value.status))
  }

  /** The copy `mem`, as long as it is current, differs from the stored non-terminal status
      only by moving it forward. */
  ghost predicate Current(mem: Backup, w: World) {
    && StatusOk(mem.status)
    && (w.backup.Some? ==>
          var b := w.backup.value;
          && mem.version <= b.version
          && (mem.version == b.version ==> !Terminal(b.status.phase) && StatusAdvances(b.status, mem.status)))
  }

  ghost predicate Inv(s: State) {
    && Safe(s.world)
    && (!s.task.Idle? && !s.task.Start? ==> Current(s.task.mem, s.world))
    && (s.task.ReadCluster? || s.task.ReadJob? || s.task.CreateJob? ==> !Terminal(s.task.mem.status.phase))
    && (s.task.RunningStatus? ==> s.task.mem.status.phase == Running)
    && (!s.task.Idle? && !s.task.Start? && !s.task.RunningStatus? ==> SameStart(s.task.mem, s.world))
  }

  /** A current copy has the stored start time. */
  ghost predicate SameStart(mem: Backup, w: World) {
    w.backup.Some? && mem.version == w.backup.value.version ==> mem.status.startTime == w.backup.value.status.startTime
  }

  lemma SetConditionIsOk(b: Backup, kind: ConditionKind, s: C.Status, reason: Reason, now: int)
    requires C.Unique(b.status.conditions)
    ensures C.Unique(SetCondition(b, kind, s, reason, now).status.conditions)
  {
    C.UpsertSays(b.status.conditions, C.Call(kind, s, reason, b.generation, now));
  }

  lemma StepKeepsInv(s: State, a: Answer)
    requires Inv(s)
    ensures Inv(Step(s, a)) && Advances(s.world, Step(s, a).world)
  {
    match s.task
    case ReadCluster(mem) =>
      SetConditionIsOk(mem, ClusterFound, C.False, ClusterNotFound, a.clock);
      SetConditionIsOk(mem, ClusterReady, C.False, ClusterNotReady, a.clock);
    case ReadJob(mem) =>
      SetConditionIsOk(mem, CompleteCondition, C.True, JobSucceeded, a.later);
      SetConditionIsOk(mem, CompleteCondition, C.False, JobFailed, a.later);
    case CreateJob(mem) =>
      SetConditionIsOk(mem, RunningCondition, C.True, JobCreated, a.later);
    case _ =>
  }

  lemma EnvKeepsInv(s: State, env: Option<World>)
    requires Inv(s)
    ensures Inv(State(Moved(s.world, env), s.task)) && Advances(s.world, Moved(s.world, env))
  {}

  lemma AdvancesTransitive(u: World, v: World, w: World)
    requires Advances(u, v) && Advances(v, w)
    ensures Advances(u, w)
  {}

  lemma {:induction false} PassAdvances(s: State, script: seq<Turn>)
    requires Inv(s)
    ensures Safe(Pass(s, script)) && Advances(s.world, Pass(s, script))
    decreases script
  {
    if !s.task.Idle? && script != [] {
      var s1 := State(Moved(s.world, script[0].env), s.task);
      EnvKeepsInv(s, script[0].env);
      StepKeepsInv(s1, script[0].answer);
      var s2 := Step(s1, script[0].answer);
      PassAdvances(s2, script[1..]);
      AdvancesTransitive(s.world, s1.world, s2.world);
      AdvancesTransitive(s.world, s2.world, Pass(s, script));
    }
  }

  lemma AfterAdvances(w: World, e: Event)
    requires Safe(w)
    ensures Safe(After(w, e)) && Advances(w, After(w, e))
  {
    match e
    case Reconcile(script) => PassAdvances(State(w, Start), script);
    case Environment(move) => EnvKeepsInv(State(w, Idle), Some(move));
  }

  /** The main result, for every history and every later one: completion time exactly in
      terminal phases, a start time while Running; and between the two moments the phase never
      moved backward and a terminal status stayed as it was. */
  lemma {:induction false} EveryHistoryAdvances(w: World, events: seq<Event>, n: nat)
    requires Initial(w) && n <= |events|
    ensures Safe(History(w, events))
    ensures Advances(History(w, events[..n]), History(w, events))
  {
    if n < |events| {
      var init := events[..|events| - 1];
      EveryHistoryAdvances(w, init, n);
      assert init[..n] == events[..n];
      AfterAdvances(History(w, init), events[|events| - 1]);
      AdvancesTransitive(History(w, events[..n]), History(w, init), History(w, events));
    } else {
      assert events[..n] == events;
      if events != [] {
        EveryHistoryAdvances(w, events[..n - 1], n - 1);
        assert events[..n - 1][..n - 1] == events[..n - 1];
        AfterAdvances(History(w, events[..n - 1]), events[n - 1]);
      }
    }
  }

  // ---- the calls of a pass ----

  /** The state in which call number `n` of a pass is made. */
  function CallState(s: State, script: seq<Turn>, n: nat): State
    requires n < |script|
    decreases n
  {
    var s1 := State(Moved(s.world, script[0].env), s.task);
    if n == 0 then s1 else CallState(Step(s1, script[0].answer), script[1..], n - 1)
  }

  lemma {:induction false} NextCall(s: State, script: seq<Turn>, n: nat)
    requires n + 1 < |script|
    ensures CallState(s, script, n + 1).task == Step(CallState(s, script, n), script[n].answer).task
    decreases n
  {
    var s1 := Step(State(Moved(s.world, script[0].env), s.task), script[0].answer);
    if n > 0 {
      NextCall(s1, script[1..], n - 1);
    }
  }

  /** Call number `n` of the pass writes the status that goes with a new Job, and the write is
      carried out. */
  ghost predicate StartWritten(s: State, script: seq<Turn>, n: nat) {
    && n < |script|
    && var t := CallState(s, script, n);
    t.task.RunningStatus? && Accepted(t.world, t.task.mem, script[n].answer)
  }

  // ---- the start time ----

  ghost predicate HasStart(w: World) {
    w.backup.Some? && w.backup.value.status.startTime.Some?
  }

  ghost predicate IsRunning(w: World) {
    w.backup.Some? && w.backup.value.status.phase == Running
  }

  lemma {:induction false} PassSetsStartWhenRunning(s: State, script: seq<Turn>)
    requires Inv(s) && !HasStart(s.world)
    ensures HasStart(Pass(s, script)) ==> IsRunning(Pass(s, script))
    decreases script
  {
    if !s.task.Idle? && script != [] {
      var s1 := State(Moved(s.world, script[0].env), s.task);
      EnvKeepsInv(s, script[0].env);
      StepKeepsInv(s1, script[0].answer);
      if !HasStart(Step(s1, script[0].answer).world) {
        PassSetsStartWhenRunning(Step(s1, script[0].answer), script[1..]);
      }
    }
  }

  /** A backup that still exists has a start time exactly when its stored phase was Running
      after some event; so a finished backup may lack one. */
  lemma {:induction false} StartTimeMeansWasRunning(w: World, events: seq<Event>)
    requires Initial(w) && History(w, events).backup.Some?
    ensures HasStart(History(w, events)) <==> exists n :: 0 <= n <= |events| && IsRunning(History(w, events[..n]))
  {
    forall n | 0 <= n <= |events| && IsRunning(History(w, events[..n])) ensures HasStart(History(w, events)) {
      EveryHistoryAdvances(w, events, n);
      EveryHistoryAdvances(w, events[..n], 0);
    }
    if events != [] && HasStart(History(w, events)) {
      var init, e := events[..|events| - 1], events[|events| - 1];
      var before := History(w, init);
      EveryHistoryAdvances(w, init, 0);
      AfterAdvances(before, e);
      if HasStart(before) {
        StartTimeMeansWasRunning(w, init);
        var n :| 0 <= n <= |init| && IsRunning(History(w, init[..n]));
        assert init[..n] == events[..n];
      } else {
        if e.Reconcile? {
          PassSetsStartWhenRunning(State(before, Start), e.script);
        }
        assert events[..|events|] == events;
      }
    }
  }

  lemma {:induction false} LaterCall(s: State, script: seq<Turn>, n: nat)
    requires script != []
    ensures var s2 := Step(State(Moved(s.world, script[0].env), s.task), script[0].answer);
      StartWritten(s, script, n + 1) <==> StartWritten(s2, script[1..], n)
  {
  }

  lemma {:induction false} NoWriteWhenIdle(s: State, script: seq<Turn>, n: nat)
    requires s.task.Idle?
    ensures !StartWritten(s, script, n)
    decreases n
  {
    if n > 0 && script != [] {
      var s2 := Step(State(Moved(s.world, script[0].env), s.task), script[0].answer);
      LaterCall(s, script, n - 1);
      NoWriteWhenIdle(s2, script[1..], n - 1);
    }
  }

  /** One call adds the start time exactly when it is the accepted status write of a new Job. */
  lemma CallStarts(s: State, a: Answer)
    requires Inv(s) && Step(s, a).world.backup.Some?
    ensures HasStart(Step(s, a).world) <==>
      HasStart(s.world) || (s.task.RunningStatus? && Accepted(s.world, s.task.mem, a))
  {
    StepKeepsInv(s, a);
  }

  /** One pass ends with a start time exactly when there was one, or it was written. */
  lemma {:induction false} PassStarts(s: State, script: seq<Turn>)
    requires Inv(s) && Pass(s, script).backup.Some?
    ensures HasStart(Pass(s, script)) <==> HasStart(s.world) || exists n :: StartWritten(s, script, n)
    decreases script
  {
    if s.task.Idle? || script == [] {
      forall n: nat ensures !StartWritten(s, script, n) {
        if s.task.Idle? {
          NoWriteWhenIdle(s, script, n);
        }
      }
    } else {
      var s1 := State(Moved(s.world, script[0].env), s.task);
      var s2 := Step(s1, script[0].answer);
      EnvKeepsInv(s, script[0].env);
      StepKeepsInv(s1, script[0].answer);
      PassAdvances(s2, script[1..]);
      CallStarts(s1, script[0].answer);
      PassStarts(s2, script[1..]);
      assert StartWritten(s, script, 0) <==> s1.task.RunningStatus? && Accepted(s1.world, s1.task.mem, script[0].answer);
      WrittenNowOrLater(s, s2, script);
    }
  }

  lemma {:induction false} WrittenNowOrLater(s: State, s2: State, script: seq<Turn>)
    requires script != [] && s2 == Step(State(Moved(s.world, script[0].env), s.task), script[0].answer)
    ensures (exists n :: StartWritten(s, script, n)) <==>
      StartWritten(s, script, 0) || exists n :: StartWritten(s2, script[1..], n)
  {
    if n: nat :| StartWritten(s, script, n) {
      if n > 0 {
        LaterCall(s, script, n - 1);
      }
    }
    if n: nat :| StartWritten(s2, script[1..], n) {
      LaterCall(s, script, n);
    }
  }

  /** Event number `m` is a pass, and its call number `n` writes the start time. */
  ghost predicate StartWrittenAt(w: World, events: seq<Event>, m: nat, n: nat) {
    && m < |events| && events[m].Reconcile?
    && StartWritten(State(History(w, events[..m]), Start), events[m].script, n)
  }

  /** A backup that still exists has a start time exactly when in some pass the status write after
      the Job's creation was carried out; the Job itself does not matter. */
  lemma {:induction false} StartTimeMeansWritten(w: World, events: seq<Event>)
    requires Initial(w) && History(w, events).backup.Some?
    ensures HasStart(History(w, events)) <==> exists m, n :: StartWrittenAt(w, events, m, n)
  {
    if events != [] {
      var last := |events| - 1;
      var init, e := events[..last], events[last];
      EveryHistoryAdvances(w, init, 0);
      AfterAdvances(History(w, init), e);
      StartTimeMeansWritten(w, init);
      if e.Reconcile? {
        PassStarts(State(History(w, init), Start), e.script);
      }
      WrittenInPrefix(w, events, last);
      assert forall n: nat :: StartWrittenAt(w, events, last, n) <==>
        e.Reconcile? && StartWritten(State(History(w, init), Start), e.script, n);
    }
  }

  lemma WrittenInPrefix(w: World, events: seq<Event>, last: nat)
    requires |events| == last + 1
    ensures (exists m, n :: StartWrittenAt(w, events, m, n)) <==>
      || (exists m, n :: StartWrittenAt(w, events[..last], m, n))
      || (exists n :: StartWrittenAt(w, events, last, n))
  {
    var init := events[..last];
    forall m: nat, n: nat | m < last ensures StartWrittenAt(w, events, m, n) <==> StartWrittenAt(w, init, m, n) {
      assert init[..m] == events[..m];
    }
  }

  /** When the status write after the Job's creation fails, the backup later completes without
      ever having been Running and without a start time. */
  lemma CompletedWithoutStart(w: World, yes: Turn, no: Turn)
    requires w == World(Some(Backup(1, 1, Status(NoPhase, None, None, []))), Some(true), None)
    requires yes == Turn(None, Answer(Done, 5, 6)) && no == Turn(None, Answer(Rejected, 7, 8))
    ensures
      var created := Reconcile([yes, yes, yes, yes, no]);
      var finished := Environment(World(w.backup, Some(true), Some([JobCondition(JobComplete, true)])));
      var w' := History(w, [created, finished, Reconcile([yes, yes, yes, yes])]);
      w'.backup.Some? && w'.backup.value.status.phase == Completed && w'.backup.value.status.startTime == None
  {
    var created := Reconcile([yes, yes, yes, yes, no]);
    var finished := Environment(World(w.backup, Some(true), Some([JobCondition(JobComplete, true)])));
    var last := Reconcile([yes, yes, yes, yes]);
    var b := w.backup.value;
    var w1 := w.(job := Some([]));
    var w2 := finished.move;
    var done := Finished(b, true, yes.answer);
    assert After(w, created) == w1 by {
      assert Pass(State(w1, RunningStatus(Started(b, yes.answer))), [no]) == w1;
      assert Pass(State(w, CreateJob(b)), [yes, no]) == Pass(State(w1, RunningStatus(Started(b, yes.answer))), [no]);
      assert Pass(State(w, ReadJob(b)), [yes, yes, no]) == Pass(State(w, CreateJob(b)), [yes, no]);
      assert Pass(State(w, ReadCluster(b)), [yes, yes, yes, no]) == Pass(State(w, ReadJob(b)), [yes, yes, no]);
      assert created.script[1..] == [yes, yes, yes, no];
    }
    assert After(w1, finished) == w2;
    assert After(w2, last) == StatusWritten(w2, done, yes.answer) by {
      assert Verdict(w2.job.value) == Some(true);
      assert Pass(State(w2, FinalStatus(done)), [yes]) == StatusWritten(w2, done, yes.answer);
      assert Pass(State(w2, ReadJob(b)), [yes, yes]) == Pass(State(w2, FinalStatus(done)), [yes]);
      assert Pass(State(w2, ReadCluster(b)), [yes, yes, yes]) == Pass(State(w2, ReadJob(b)), [yes, yes]);
      assert last.script[1..] == [yes, yes, yes];
    }
    var events := [created, finished, last];
    assert events[..2] == [created, finished] && events[..2][..1] == [created] && events[..1][..0] == [];
    assert History(w, [created]) == w1;
    assert History(w, events[..2]) == w2;
  }

  /** A pass ends with the first call that is rejected or whose answer is lost. */
  lemma FailedCallEndsPass(s: State, a: Answer)
    requires a.outcome != Done
    ensures Step(s, a).task.Idle?
  {}

  // ---- when a Job is created ----

  /** A call creates the Job only if the two calls before it, in the same pass, found the
      cluster Running and the Job absent, and the Job is absent still. */
  lemma {:induction false} JobCreationIsEarned(w: World, script: seq<Turn>, n: nat)
    requires n < |script|
    requires
      var s := CallState(State(w, Start), script, n);
      Step(s, script[n].answer).world.job != s.world.job
    ensures n >= 2
    ensures
      var s := State(w, Start);
      && CallState(s, script, n).task.CreateJob? && CallState(s, script, n).world.job.None?
      && CallState(s, script, n - 1).task.ReadJob? && CallState(s, script, n - 1).world.job.None?
      && CallState(s, script, n - 2).task.ReadCluster? && CallState(s, script, n - 2).world.clusterRunning == Some(true)
  {
    if n > 0 { NextCall(State(w, Start), script, n - 1); }
    if n > 1 { NextCall(State(w, Start), script, n - 2); }
  }

  // ---- undisturbed passes ----

  ghost predicate Quiet(script: seq<Turn>) {
    forall i :: 0 <= i < |script| ==> script[i].env.None? && script[i].answer.outcome == Done
  }

  lemma {:induction false} QuietTurn(s: State, script: seq<Turn>)
    requires Quiet(script) && script != [] && !s.task.Idle?
    ensures Pass(s, script) == Pass(Step(s, script[0].answer), script[1..])
    ensures Quiet(script[1..])
  {}

  /** A Job condition that settles the backup. */
  predicate Decisive(c: JobCondition) {
    c.isTrue && (c.kind == JobComplete || c.kind == JobFailure)
  }

  /** Condition `i` is the first decisive one. */
  ghost predicate Decides(cs: seq<JobCondition>, i: int) {
    0 <= i < |cs| && Decisive(cs[i]) && forall j :: 0 <= j < i ==> !Decisive(cs[j])
  }

  lemma {:induction false} FirstDecides(cs: seq<JobCondition>, i: int)
    requires Decides(cs, i)
    ensures Verdict(cs) == Some(cs[i].kind == JobComplete)
  {
    if i > 0 {
      assert !Decisive(cs[0]);
      FirstDecides(cs[1..], i - 1);
    }
  }

  lemma {:induction false} Undecided(cs: seq<JobCondition>)
    requires forall i :: 0 <= i < |cs| ==> !Decisive(cs[i])
    ensures Verdict(cs) == None
  {
    if cs != [] {
      Undecided(cs[1..]);
    }
  }

  /** The condition of one kind is set, and those of all other kinds are as before. */
  ghost predicate OnlySets(cs: seq<C.Condition<ConditionKind, Reason>>, cs': seq<C.Condition<ConditionKind, Reason>>,
                           kind: ConditionKind, status: C.Status, reason: Reason, generation: int) {
    && C.Unique(cs') && C.Tells(cs', kind, status, reason, generation)
    && forall k, s, r, g :: k != kind ==> (C.Tells(cs', k, s, r, g) <==> C.Tells(cs, k, s, r, g))
  }

  lemma SetOnlySets(cs: seq<C.Condition<ConditionKind, Reason>>, x: C.Call<ConditionKind, Reason>)
    requires C.Unique(cs)
    ensures OnlySets(cs, C.Upsert(cs, x), x.kind, x.status, x.reason, x.generation)
  {
    C.UpsertTells(cs, x);
    forall k, s, r, g | k != x.kind ensures C.Tells(C.Upsert(cs, x), k, s, r, g) <==> C.Tells(cs, k, s, r, g) {
      C.UpsertTellsStill(cs, x, k, s, r, g);
    }
  }

  lemma {:induction false} QuietReads(w: World, b: Backup, script: seq<Turn>)
    requires w.backup == Some(b) && !Terminal(b.status.phase) && w.clusterRunning == Some(true)
    requires Quiet(script) && |script| >= 3
    ensures Pass(State(w, Start), script) == Pass(Step(State(w, ReadJob(b)), script[2].answer), script[3..])
    ensures Quiet(script[3..])
  {
    QuietTurn(State(w, Start), script);
    QuietTurn(State(w, ReadCluster(b)), script[1..]);
    QuietTurn(State(w, ReadJob(b)), script[1..][1..]);
    assert script[1..][1..][1..] == script[3..];
  }

  lemma {:induction false} QuietWrite(w: World, mem: Backup, t: Task, script: seq<Turn>)
    requires w.backup.Some? && w.backup.value.version == mem.version
    requires t == RunningStatus(mem) || t == FinalStatus(mem) || t == NoteWaiting(mem)
    requires Quiet(script) && script != []
    ensures var b := w.backup.value;
      Pass(State(w, t), script) ==
        w.(backup := Some(b.(status := mem.status, version := b.version + if b.status == mem.status then 0 else 1)))
  {
    QuietTurn(State(w, t), script);
  }

  /** An undisturbed pass over an unfinished backup of a Running cluster takes over what the first
      decisive condition of the Job says: Completed with a True Complete condition if it is
      JobComplete, Failed with a False one if it is JobFailure; with the clock reading as completion
      time, and nothing else changed. */
  lemma {:induction false} QuietPassFinishes(w: World, b: Backup, cs: seq<JobCondition>, i: int, script: seq<Turn>)
    requires w == World(Some(b), Some(true), Some(cs)) && Decides(cs, i)
    requires !Terminal(b.status.phase) && C.Unique(b.status.conditions)
    requires Quiet(script) && |script| >= 4
    ensures var w' := Pass(State(w, Start), script);
      && w'.backup.Some? && w' == w.(backup := w'.backup)
      && var s := w'.backup.value.status;
      && w'.backup.value == b.(status := s, version := b.version + 1)
      && s.phase == (if cs[i].kind == JobComplete then Completed else Failed)
      && s.completionTime == Some(script[2].answer.clock) && s.startTime == b.status.startTime
      && (cs[i].kind == JobComplete ==>
            OnlySets(b.status.conditions, s.conditions, CompleteCondition, C.True, JobSucceeded, b.generation))
      && (cs[i].kind == JobFailure ==>
            OnlySets(b.status.conditions, s.conditions, CompleteCondition, C.False, JobFailed, b.generation))
  {
    var won := cs[i].kind == JobComplete;
    var a := script[2].answer;
    FirstDecides(cs, i);
    QuietReads(w, b, script);
    QuietWrite(w, Finished(b, won, a), FinalStatus(Finished(b, won, a)), script[3..]);
    SetOnlySets(b.status.conditions, C.Call(CompleteCondition, if won then C.True else C.False,
      if won then JobSucceeded else JobFailed, b.generation, a.later));
  }

  /** While no condition of the Job is decisive, an undisturbed pass changes nothing. */
  lemma {:induction false} QuietPassWaits(w: World, b: Backup, cs: seq<JobCondition>, script: seq<Turn>)
    requires w == World(Some(b), Some(true), Some(cs)) && forall i :: 0 <= i < |cs| ==> !Decisive(cs[i])
    requires !Terminal(b.status.phase) && Quiet(script) && |script| >= 4
    ensures Pass(State(w, Start), script) == w
  {
    Undecided(cs);
    QuietReads(w, b, script);
  }

  /** Without a Job an undisturbed pass creates one and stores Running, with the clock reading as
      start time and a True Running condition. */
  lemma {:induction false} QuietPassStarts(w: World, b: Backup, script: seq<Turn>)
    requires w == World(Some(b), Some(true), None) && C.Unique(b.status.conditions)
    requires !Terminal(b.status.phase) && Quiet(script) && |script| >= 5
    ensures var w' := Pass(State(w, Start), script);
      && w'.backup.Some? && w' == World(w'.backup, Some(true), Some([]))
      && var s := w'.backup.value.status;
      && w'.backup.value == b.(status := s, version := w'.backup.value.version)
      && s.phase == Running && s.startTime == Some(script[3].answer.clock) && s.completionTime == b.status.completionTime
      && OnlySets(b.status.conditions, s.conditions, RunningCondition, C.True, JobCreated, b.generation)
  {
    var a := script[3].answer;
    var w1 := w.(job := Some([]));
    QuietReads(w, b, script);
    QuietTurn(State(w, CreateJob(b)), script[3..]);
    assert script[3..][1..] == script[4..];
    QuietWrite(w1, Started(b, a), RunningStatus(Started(b, a)), script[4..]);
    SetOnlySets(b.status.conditions, C.Call(RunningCondition, C.True, JobCreated, b.generation, a.later));
  }

  /** Without its cluster, or before that is Running, a backup only notes the reason: an undisturbed
      pass sets ClusterFound or ClusterReady to False, and touches nothing else. */
  lemma {:induction false} QuietPassHolds(w: World, b: Backup, script: seq<Turn>)
    requires w.backup == Some(b) && w.clusterRunning != Some(true) && C.Unique(b.status.conditions)
    requires !Terminal(b.status.phase) && Quiet(script) && |script| >= 3
    ensures var w' := Pass(State(w, Start), script);
      && w'.backup.Some? && w' == w.(backup := w'.backup)
      && var s := w'.backup.value.status;
      && s == b.status.(conditions := s.conditions)
      && (w.clusterRunning.None? ==>
            OnlySets(b.status.conditions, s.conditions, ClusterFound, C.False, ClusterNotFound, b.generation))
      && (w.clusterRunning.Some? ==>
            OnlySets(b.status.conditions, s.conditions, ClusterReady, C.False, ClusterNotReady, b.generation))
  {
    var kind := if w.clusterRunning.None? then ClusterFound else ClusterReady;
    var reason := if w.clusterRunning.None? then ClusterNotFound else ClusterNotReady;
    var mem := SetCondition(b, kind, C.False, reason, script[1].answer.clock);
    QuietTurn(State(w, Start), script);
    QuietTurn(State(w, ReadCluster(b)), script[1..]);
    QuietTurn(State(w, NoteWaiting(mem)), script[1..][1..]);
    SetOnlySets(b.status.conditions, C.Call(kind, C.False, reason, b.generation, script[1].answer.clock));
  }

  /** A finished backup is left alone by every undisturbed pass. */
  lemma {:induction false} FinishedIsLeft(w: World, b: Backup, script: seq<Turn>)
    requires w.backup == Some(b) && Terminal(b.status.phase) && Quiet(script)
    ensures Pass(State(w, Start), script) == w
  {
    if script != [] {
      QuietTurn(State(w, Start), script);
    }
  }

  /** An undisturbed pass over a pending backup of a Running cluster creates a missing Job and
      records the start; it takes over the verdict of a finished Job; and it leaves everything
      alone while the Job runs. */
  lemma {:induction false} QuietPassActs(w: World, script: seq<Turn>)
    requires w.backup.Some? && !Terminal(w.backup.value.status.phase) && w.clusterRunning == Some(true)
    requires Quiet(script) && |script| >= 5
    ensures
      var w' := Pass(State(w, Start), script);
      && w'.backup.Some?
      && var s := w'.backup.value.status;
      if w.job.None? then w'.job == Some([]) && s.phase == Running && s.startTime.Some?
      else
        && ((forall i :: 0 <= i < |w.job.value| ==> !Decisive(w.job.value[i])) ==> w' == w)
        && (forall i :: Decides(w.job.value, i) ==>
              s.phase == (if w.job.value[i].kind == JobComplete then Completed else Failed) && s.completionTime.Some?)
  {
    if w.job.Some? {
      if forall i :: 0 <= i < |w.job.value| ==> !Decisive(w.job.value[i]) {
        Undecided(w.job.value);
      }
      forall i | Decides(w.job.value, i) ensures Verdict(w.job.value) == Some(w.job.value[i].kind == JobComplete) {
        FirstDecides(w.job.value, i);
      }
    }
    var b := w.backup.value;
    QuietTurn(State(w, Start), script);
    QuietTurn(State(w, ReadCluster(b)), script[1..]);
    QuietTurn(State(w, ReadJob(b)), script[1..][1..]);
    var rest := script[1..][1..][1..];
    var s := Step(State(w, ReadJob(b)), script[1..][1..][0].answer);
    if !s.task.Idle? {
      QuietTurn(s, rest);
      var s' := Step(s, rest[0].answer);
      if !s'.task.Idle? {
        QuietTurn(s', rest[1..]);
      }
    }
  }
}
