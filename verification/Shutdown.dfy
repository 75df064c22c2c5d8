/** src/server/mod.rs and src/server/tui.rs: how a running server ends. When told to stop, it stops; it
    returns Ok exactly if nothing has failed or come too late; and there are servers that are deaf. */
module Shutdown {
  import opened Wrappers
  import opened EncryptedStream
  import opened Lifecycle

  // ----- draining -----

  function RunningTasks(tasks: seq<TaskState>): nat {
    if tasks == [] then 0
    else RunningTasks(tasks[..|tasks| - 1]) + if tasks[|tasks| - 1] == TaskRunning then 1 else 0
  }

  function MainRank(pc: MainPc): nat {
    match pc
    case Starting => 31
    case Punching => 29
    case Announcing => 27
    case UdpRecv => 9
    case Replying => 8
    case UdpHead => 7
    case AwaitingData => 6
    case Joining => 5
    case JoiningThreads => 4
    case Releasing => 3
    case Resetting => 2
    case _ => 0
  }

  function DataRank(pc: DataPc): nat {
    match pc
    case NotSpawned => 0
    case DataStarting => 10
    case Accepting => 9
    case Greeting => 8
    case Cloning => 7
    case Flagging => 5
    case AwaitingTask => 4
    case LoopHead => 2
    case _ => 0
  }

  function UiRank(render: RenderPc, events: EventPc): nat {
    (match render case Rendering => 2 case Leaving => 1 case _ => 0)
    + (match events case EventHead => 1 case Polling => 3 case Forwarding => 2 case _ => 0)
  }

  /** The steps that are left once the flag is up, at most. */
  function Drain(s: State): nat {
    MainRank(s.main) + DataRank(s.data) + UiRank(s.render, s.events) + RunningTasks(s.tasks)
  }

  lemma {:induction false} TaskFinishes(tasks: seq<TaskState>, i: nat, result: TaskState)
    requires i < |tasks| && tasks[i] == TaskRunning && result != TaskRunning
    ensures RunningTasks(tasks[i := result]) + 1 == RunningTasks(tasks)
    decreases |tasks|
  {
    var after := tasks[i := result];
    if i < |tasks| - 1 {
      TaskFinishes(tasks[..|tasks| - 1], i, result);
      assert after[..|tasks| - 1] == tasks[..|tasks| - 1][i := result];
    } else {
      assert after[..|tasks| - 1] == tasks[..|tasks| - 1];
    }
  }

  lemma TaskStarts(tasks: seq<TaskState>)
    ensures RunningTasks(tasks + [TaskRunning]) == RunningTasks(tasks) + 1
  {
  }

  /** Once the flag is up, every step of every process brings the end nearer. */
  lemma FlaggedStepDrains(s: State, step: Step)
    requires Inv(s) && s.flag && Next(s, step).Some?
    ensures Drain(Next(s, step).value) < Drain(s)
  {
    hide RunningTasks, MainStep, DataStep, Inv;
    match step
    case Main(luck) => MainDrains(s, luck);
    case Data(luck) => DataDrains(s, luck);
    case Task(i, result) => TaskFinishes(s.tasks, i, result);
    case _ => hide MainRank, DataRank;
  }

  lemma MainDrains(s: State, luck: Luck)
    requires Inv(s) && s.flag && MainStep(s, luck).Some?
    ensures Drain(MainStep(s, luck).value) < Drain(s)
  {
    assert UiInv(s) && DataInv(s);
    MainLeavesOthers(s, luck);
    MainComesDown(s, luck);
    hide Inv, UiInv, DataInv, MainStep, RunningTasks, MainRank, UiRank;
  }

  /** With the flag up, all that a step of `serve` may start is the data task. */
  lemma MainLeavesOthers(s: State, luck: Luck)
    requires UiInv(s) && DataInv(s) && MainStep(s, luck).Some? && (s.main == Starting ==> !s.Tui())
    ensures var s' := MainStep(s, luck).value;
            && s'.tasks == s.tasks && s'.render == s.render && s'.events == s.events
            && s'.data == (if s.main == Announcing && s'.main == UdpHead then DataStarting else s.data)
            && (s.main == Announcing ==> s.data == NotSpawned)
  {
  }

  lemma MainComesDown(s: State, luck: Luck)
    requires s.flag && MainStep(s, luck).Some?
    ensures var s' := MainStep(s, luck).value;
            MainRank(s'.main) + (if s.main == Announcing && s'.main == UdpHead then 11 else 1) <= MainRank(s.main)
  {
  }

  lemma DataComesDown(s: State, luck: Luck)
    requires s.flag && DataStep(s, luck).Some?
    ensures var s' := DataStep(s, luck).value;
            && s' == s.(data := s'.data, accepted := s'.accepted, tasks := s'.tasks, flag := true)
            && DataRank(s'.data) < DataRank(s.data)
            && (s'.tasks != s.tasks ==> s'.tasks == s.tasks + [TaskRunning] && DataRank(s'.data) + 1 < DataRank(s.data))
  {
  }

  lemma DataDrains(s: State, luck: Luck)
    requires s.flag && DataStep(s, luck).Some?
    ensures Drain(DataStep(s, luck).value) < Drain(s)
  {
    var s' := DataStep(s, luck).value;
    DataComesDown(s, luck);
    TaskStarts(s.tasks);
    hide RunningTasks, MainRank, DataRank, UiRank, DataStep;
  }

  // ----- who is needed for a step -----

  /** Somebody outside has to do something for this step: a ping, a connection, a key. */
  predicate NeedsPing(s: State, step: Step) {
    match step
    case Main(luck) => s.main == UdpRecv && luck == Good
    case Data(luck) => s.data == Accepting && luck == Good
    case QuitKey => true
    case Events(event) => event && s.events == Polling
    case _ => false
  }

  function MainOn(s: State): Step {
    Main(if s.main == UdpRecv then Timeout else Good)
  }

  function DataOn(s: State): Step {
    if s.data == AwaitingTask && s.tasks != [] && s.tasks[0] == TaskRunning then Task(0, TaskOk)
    else Data(if s.data == Accepting then Timeout else Good)
  }

  /** A run from `s` in which every step is possible and none is of the kind `bad`. */
  predicate Avoids(s: State, steps: seq<Step>, bad: (State, Step) -> bool)
    decreases |steps|
  {
    steps == [] ||
    (Next(s, steps[0]).Some? && !bad(s, steps[0]) && Avoids(Next(s, steps[0]).value, steps[1..], bad))
  }

  lemma {:induction false} AvoidsRuns(s: State, steps: seq<Step>, bad: (State, Step) -> bool)
    requires Avoids(s, steps, bad)
    ensures Run(s, steps).Some?
    decreases |steps|
  {
    hide Next;
    if steps == [] {
    } else {
      AvoidsRuns(Next(s, steps[0]).value, steps[1..], bad);
    }
  }

  /** And until `serve` has returned, some process can step: the data task's own work can end, timeouts
      come, and nothing waits for a ping, a connection or a key. */
  lemma FlaggedNotStuck(s: State) returns (step: Step)
    requires Inv(s) && s.flag && !s.Over()
    ensures Next(s, step).Some? && !NeedsPing(s, step)
  {
    if s.main == AwaitingData && !DataDone(s) {
      step := DataOn(s);
    } else if s.main == JoiningThreads && s.render == Leaving {
      step := LeaveRender;
    } else if s.main == JoiningThreads && s.events != EventsDone && s.events != EventsFailed {
      step := Events(false);
    } else {
      step := MainOn(s);
    }
  }

  /** A server told to stop stops: from any reachable state with the flag up, a run in which the flag
      is not yet taken back has at most `Drain` steps, and as long as `serve` is in, it can go on with
      nobody's help. */
  lemma {:induction false} ShutdownDrains(s: State, steps: seq<Step>)
    requires Inv(s) && s.flag && Run(s, steps).Some? && Run(s, steps).value.flag
    ensures |steps| <= Drain(s)
    ensures var s' := Run(s, steps).value; !s'.Over() ==> exists step :: Next(s', step).Some? && !NeedsPing(s', step)
    decreases |steps|
  {
    if steps == [] {
      if !s.Over() {
        var step := FlaggedNotStuck(s);
      }
    } else {
      var s1 := Next(s, steps[0]).value;
      NextInv(s, steps[0]);
      FlaggedStepDrains(s, steps[0]);
      if s1.flag {
        hide Next, Inv, Drain;
        ShutdownDrains(s1, steps[1..]);
      } else {
        ResetIsLast(s, steps[0]);
        NoFlagAfterReturn(s1, steps[1..]);
      }
    }
  }

  lemma ResetIsLast(s: State, step: Step)
    requires s.flag && Next(s, step).Some? && !Next(s, step).value.flag
    ensures Next(s, step).value.main == ReturnedOk
  {
  }

  /** After `serve` has returned Ok nobody puts the flag up again. */
  lemma {:induction false} NoFlagAfterReturn(s: State, steps: seq<Step>)
    requires Inv(s) && s.main == ReturnedOk && Run(s, steps).Some?
    ensures !Run(s, steps).value.flag
    decreases |steps|
  {
    if steps == [] {
      assert FlagInv(s);
    } else {
      NextInv(s, steps[0]);
      ReturnedStays(s, steps[0]);
      hide Next, Inv;
      NoFlagAfterReturn(Next(s, steps[0]).value, steps[1..]);
    }
  }

  lemma ReturnedStays(s: State, step: Step)
    requires s.main == ReturnedOk && Next(s, step).Some?
    ensures Next(s, step).value.main == ReturnedOk
  {
  }

  // ----- when `serve` returns Ok -----

  /** A step that comes too late: it writes to the log, or forwards an event, when the interface's
      receiver is gone. A line of `serve`'s own at its start, a ping, the data task's first line, a
      connection, and an event that was read. */
  predicate Late(s: State, step: Step) {
    s.LogPanics() &&
    match step
    case Main(luck) => s.main == Punching || s.main == Announcing || (s.main == UdpRecv && luck == Good)
    case Data(luck) => luck == Good && (s.data == DataStarting || s.data == Accepting)
    case Events(_) => s.events == Forwarding
    case _ => false
  }

  /** A step that fails: an error of the network, of the terminal, of the served file, of the tunnel or
      the port mapping, or of a one-shot server's connection. */
  predicate Fails(s: State, step: Step) {
    match step
    case Main(luck) =>
      (match s.main
       case Starting => s.Tui() && luck != Good
       case Punching => s.b.holepunch != NoPuncher && luck != Good
       case Announcing => luck != Good
       case UdpRecv => luck == Bad
       case Replying => luck != Good
       case Releasing => s.held && luck != Good
       case _ => false)
    case Data(luck) =>
      (match s.data
       case DataStarting => luck != Good
       case Accepting => luck == Bad
       case Greeting => luck != Good
       case Cloning => luck != Good
       case _ => false)
    case Task(_, result) => !s.b.stayAlive && result != TaskOk
    case RenderError => true
    case EventError => true
    case _ => false
  }

  predicate Harms(s: State, step: Step) {
    Late(s, step) || Fails(s, step)
  }

  /** Some process has failed, or `serve` has returned an error or panicked. */
  predicate Failed(s: State) {
    || s.main == ReturnedErr || s.main == MainPanic || s.data == DataErr || s.data == DataPanic
    || s.render == RenderFailed || s.events == EventsFailed
    || (!s.b.stayAlive && s.tasks != [] && (s.tasks[0] == TaskErr || s.tasks[0] == TaskPanic))
  }

  lemma HarmMakesFailure(s: State, step: Step)
    requires Inv(s) && !Failed(s) && Next(s, step).Some?
    ensures Failed(Next(s, step).value) <==> Harms(s, step)
  {
    assert DataInv(s) && UiInv(s);
    hide Inv, Failed, Harms, MainStep, DataStep;
    match step
    case Main(luck) => MainHarm(s, luck);
    case Data(luck) => DataHarm(s, luck);
    case _ => OtherHarm(s, step);
  }

  lemma OtherHarm(s: State, step: Step)
    requires DataInv(s) && UiInv(s) && !Failed(s) && Next(s, step).Some? && !step.Main? && !step.Data?
    ensures Failed(Next(s, step).value) <==> Harms(s, step)
  {
  }

  lemma MainHarm(s: State, luck: Luck)
    requires !Failed(s) && MainStep(s, luck).Some?
    ensures Failed(MainStep(s, luck).value) <==> Harms(s, Main(luck))
  {
    MainAlone(s, luck);
    MainEnds(s, luck);
    hide MainStep, Failed, Late, Fails;
  }

  predicate EndsBadly(pc: MainPc) {
    pc == ReturnedErr || pc == MainPanic
  }

  lemma MainAlone(s: State, luck: Luck)
    requires !Failed(s) && MainStep(s, luck).Some?
    ensures Failed(MainStep(s, luck).value) <==> EndsBadly(MainStep(s, luck).value.main)
  {
    MainFrame(s, luck);
    hide MainStep;
  }

  /** `serve` starts the other processes, and leaves them alone otherwise. */
  lemma MainFrame(s: State, luck: Luck)
    requires MainStep(s, luck).Some?
    ensures var s' := MainStep(s, luck).value;
            && s'.b == s.b && s'.tasks == s.tasks
            && (s'.data == s.data || s'.data == DataStarting)
            && (if s.main == Starting then s'.render == s.render || s'.render == Rendering else s'.render == s.render)
            && (if s.main == Starting then s'.events == s.events || s'.events == EventHead else s'.events == s.events)
  {
  }

  lemma MainEnds(s: State, luck: Luck)
    requires !Failed(s) && MainStep(s, luck).Some?
    ensures EndsBadly(MainStep(s, luck).value.main) <==> Harms(s, Main(luck))
  {
    assert s.data != DataErr && s.data != DataPanic && s.render != RenderFailed && s.events != EventsFailed;
    assert !EndsBadly(s.main);
    hide Failed;
  }

  lemma DataHarm(s: State, luck: Luck)
    requires DataInv(s) && !Failed(s) && DataStep(s, luck).Some?
    ensures Failed(DataStep(s, luck).value) <==> Harms(s, Data(luck))
  {
    assert s.data == AwaitingTask ==> !s.b.stayAlive && |s.tasks| == 1;
    hide DataInv;
  }

  /** `serve` panics in this step: it comes too late, or what it waits for has panicked, be it its data task or
      a thread of the interface that has failed. */
  predicate MainPanics(s: State, luck: Luck) {
    || Late(s, Main(luck))
    || (s.main == AwaitingData && s.data == DataPanic)
    || (s.main == JoiningThreads && (s.render == RenderFailed || s.events == EventsFailed))
  }

  /** Or it returns an error: it fails otherwise, or what it waits for has returned one. */
  predicate MainErrs(s: State, luck: Luck) {
    !Late(s, Main(luck)) && (Fails(s, Main(luck)) || (s.main == AwaitingData && s.data == DataErr))
  }

  /** The data task panics: it comes too late, or the served file is gone, or its connection's task has. */
  predicate DataPanics(s: State, luck: Luck) {
    || Late(s, Data(luck)) || (s.data == Cloning && luck != Good)
    || (s.data == AwaitingTask && s.tasks == [TaskPanic])
  }

  predicate DataErrs(s: State, luck: Luck) {
    && !Late(s, Data(luck))
    && ((Fails(s, Data(luck)) && s.data != Cloning) || (s.data == AwaitingTask && s.tasks == [TaskErr]))
  }

  /** How `serve` and its data task fail: with a panic or with an error, exactly in these steps. */
  lemma PanicOrError(s: State, step: Step)
    requires Inv(s) && Next(s, step).Some?
    ensures var s' := Next(s, step).value;
            && (s'.main == MainPanic <==> s.main == MainPanic || (step.Main? && MainPanics(s, step.luck)))
            && (s'.main == ReturnedErr <==> s.main == ReturnedErr || (step.Main? && MainErrs(s, step.luck)))
            && (s'.data == DataPanic <==> s.data == DataPanic || (step.Data? && DataPanics(s, step.luck)))
            && (s'.data == DataErr <==> s.data == DataErr || (step.Data? && DataErrs(s, step.luck)))
  {
    assert DataInv(s) && UiInv(s);
    hide Inv, MainStep, DataStep, MainPanics, MainErrs, DataPanics, DataErrs;
    match step
    case Main(luck) =>
      MainFailsHow(s, luck);
      MainLeavesData(s, luck);
    case Data(luck) => DataFailsHow(s, luck);
    case _ => OthersMoveNeither(s, step);
  }

  lemma MainFailsHow(s: State, luck: Luck)
    requires DataInv(s) && UiInv(s) && MainStep(s, luck).Some?
    ensures MainStep(s, luck).value.main == MainPanic <==> MainPanics(s, luck)
    ensures MainStep(s, luck).value.main == ReturnedErr <==> MainErrs(s, luck)
    ensures s.main != MainPanic && s.main != ReturnedErr
  {
    MainPanicsHow(s, luck);
    MainErrsHow(s, luck);
    hide MainStep, MainPanics, MainErrs, DataInv, UiInv;
  }

  lemma MainPanicsHow(s: State, luck: Luck)
    requires UiInv(s) && MainStep(s, luck).Some?
    ensures MainStep(s, luck).value.main == MainPanic <==> MainPanics(s, luck)
    ensures s.main != MainPanic && s.main != ReturnedErr
  {
    hide Fails;
  }

  lemma MainErrsHow(s: State, luck: Luck)
    requires UiInv(s) && MainStep(s, luck).Some?
    ensures MainStep(s, luck).value.main == ReturnedErr <==> MainErrs(s, luck)
  {
  }

  lemma DataFailsHow(s: State, luck: Luck)
    requires DataInv(s) && DataStep(s, luck).Some?
    ensures var s' := DataStep(s, luck).value;
            && s'.main == s.main
            && (s'.data == DataPanic <==> DataPanics(s, luck)) && (s'.data == DataErr <==> DataErrs(s, luck))
    ensures s.data != DataPanic && s.data != DataErr
  {
    assert s.data == AwaitingTask ==> s.tasks == [s.tasks[0]];
  }

  lemma OthersMoveNeither(s: State, step: Step)
    requires !step.Main? && !step.Data? && Next(s, step).Some?
    ensures Next(s, step).value.main == s.main && Next(s, step).value.data == s.data
  {
  }

  lemma FailureStays(s: State, step: Step)
    requires Inv(s) && Failed(s) && Next(s, step).Some?
    ensures Failed(Next(s, step).value)
  {
    assert DataInv(s);
    hide Inv, DataInv, MainStep, DataStep, EventStep;
    match step
    case Main(luck) => MainKeepsFailure(s, luck);
    case Data(luck) => DataKeepsFailure(s, luck);
    case Events(event) => hide EventStep;
    case _ =>
  }

  lemma MainKeepsFailure(s: State, luck: Luck)
    requires Inv(s) && Failed(s) && MainStep(s, luck).Some?
    ensures Failed(MainStep(s, luck).value)
  {
  }

  lemma DataKeepsFailure(s: State, luck: Luck)
    requires DataInv(s) && Failed(s) && DataStep(s, luck).Some?
    ensures Failed(DataStep(s, luck).value)
  {
  }

  /** `serve` is over and has not failed if and only if it has returned Ok. */
  lemma OverUnfailed(s: State)
    requires Inv(s) && s.Over()
    ensures s.main == ReturnedOk <==> !Failed(s)
    ensures s.main == ReturnedOk ==> !s.held && s.released == if s.b.holepunch == NoPuncher then 0 else 1
  {
  }

  /** When `serve` is over, it has returned Ok, with what it had acquired released once, if and only if
      no step of the run failed or came too late. */
  lemma {:induction false} OkExactly(s: State, steps: seq<Step>)
    requires Inv(s) && !Failed(s) && Run(s, steps).Some? && Run(s, steps).value.Over()
    ensures var s' := Run(s, steps).value;
            && (s'.main == ReturnedOk <==> Avoids(s, steps, Harms))
            && (s'.main == ReturnedOk ==> !s'.held && s'.released == if s.b.holepunch == NoPuncher then 0 else 1)
    decreases |steps|
  {
    if steps == [] {
      OverUnfailed(s);
    } else {
      var s1 := Next(s, steps[0]).value;
      NextInv(s, steps[0]);
      HarmMakesFailure(s, steps[0]);
      SameBuilder(s, steps[0]);
      hide Next, Inv, Harms, Failed;
      if Failed(s1) {
        FailedRunFails(s1, steps[1..]);
      } else {
        OkExactly(s1, steps[1..]);
      }
    }
  }

  lemma SameBuilder(s: State, step: Step)
    requires Next(s, step).Some?
    ensures Next(s, step).value.b == s.b
  {
  }

  lemma {:induction false} FailedRunFails(s: State, steps: seq<Step>)
    requires Inv(s) && Failed(s) && Run(s, steps).Some?
    ensures Run(s, steps).value.main != ReturnedOk
    decreases |steps|
  {
    if steps == [] {
      if s.Over() {
        OverUnfailed(s);
      }
    } else {
      NextInv(s, steps[0]);
      FailureStays(s, steps[0]);
      hide Next, Inv, Failed;
      FailedRunFails(Next(s, steps[0]).value, steps[1..]);
    }
  }

  // ----- when `serve` can still return Ok -----

  /** A step that must still be taken comes too late already. */
  predicate Doomed(s: State) {
    s.LogPanics() &&
    (s.main == Punching || s.main == Announcing || s.data == DataStarting || s.events == Forwarding)
  }

  lemma DoomStays(s: State, step: Step)
    requires Inv(s) && Doomed(s) && Next(s, step).Some? && !Harms(s, step)
    ensures Doomed(Next(s, step).value)
  {
    assert s.main != Starting by {
      assert UiInv(s);
    }
    hide Inv, MainStep, DataStep;
    match step
    case Main(luck) => MainDoom(s, luck);
    case Data(luck) => DataDoom(s, luck);
    case _ =>
  }

  lemma MainDoom(s: State, luck: Luck)
    requires Doomed(s) && s.main != Starting && MainStep(s, luck).Some? && !Harms(s, Main(luck))
    ensures Doomed(MainStep(s, luck).value)
  {
    MainFrame(s, luck);
    var s' := MainStep(s, luck).value;
    hide MainStep, Fails;
    assert s'.data == s.data || s'.data == DataStarting;
  }

  lemma DataDoom(s: State, luck: Luck)
    requires Doomed(s) && DataStep(s, luck).Some? && !Harms(s, Data(luck))
    ensures Doomed(DataStep(s, luck).value)
  {
  }

  lemma {:induction false} DoomedRun(s: State, steps: seq<Step>)
    requires Inv(s) && Doomed(s) && Avoids(s, steps, Harms)
    ensures Run(s, steps).Some? && Doomed(Run(s, steps).value)
    decreases |steps|
  {
    if steps == [] {
    } else {
      DoomStays(s, steps[0]);
      NextInv(s, steps[0]);
      hide Next, Inv, Doomed, Harms;
      DoomedRun(Next(s, steps[0]).value, steps[1..]);
    }
  }

  /** What nobody has to help with, and does no harm. */
  predicate NeedsOrHarms(s: State, step: Step) {
    NeedsPing(s, step) || Harms(s, step)
  }

  lemma HelpfulStep(s: State) returns (step: Step)
    requires Inv(s) && s.flag && !Failed(s) && !Doomed(s) && !s.Over()
    ensures Next(s, step).Some? && !NeedsOrHarms(s, step)
    ensures !Doomed(Next(s, step).value)
    ensures Next(s, step).value.flag || Next(s, step).value.main == ReturnedOk
  {
    hide HandleInv;
    if BeforeData(s) {
      step := MainOn(s);
    } else if s.data == DataStarting {
      step := Data(Good);
    } else if s.events == Forwarding {
      step := Events(false);
    } else if s.main == AwaitingData && s.data != DataOk {
      step := DataOn(s);
    } else if s.main == JoiningThreads && s.render == Leaving {
      step := LeaveRender;
    } else if s.main == JoiningThreads && s.events != EventsDone {
      step := Events(false);
    } else {
      step := MainOn(s);
    }
  }

  /** With the flag up and nothing failed, `serve` goes on to return Ok with nobody's help, unless it is
      doomed. */
  lemma {:induction false} FlaggedReturns(s: State) returns (steps: seq<Step>)
    requires Inv(s) && !Failed(s) && !Doomed(s) && (s.flag || s.main == ReturnedOk)
    ensures Avoids(s, steps, NeedsOrHarms) && Run(s, steps).Some? && Run(s, steps).value.main == ReturnedOk
    decreases Drain(s)
  {
    if s.main == ReturnedOk {
      steps := [];
    } else {
      var step := HelpfulStep(s);
      NextInv(s, step);
      HarmMakesFailure(s, step);
      FlaggedStepDrains(s, step);
      hide Next, Inv, Drain, Failed, Doomed, NeedsPing, Harms;
      var more := FlaggedReturns(Next(s, step).value);
      steps := [step] + more;
      assert steps[1..] == more;
    }
  }

  lemma {:induction false} AvoidsLess(s: State, steps: seq<Step>)
    requires Avoids(s, steps, NeedsOrHarms)
    ensures Avoids(s, steps, NeedsPing) && Avoids(s, steps, Harms)
    decreases |steps|
  {
    hide Next, NeedsPing, Harms;
    if steps == [] {
    } else {
      AvoidsLess(Next(s, steps[0]).value, steps[1..]);
    }
  }

  /** A server told to stop, with nothing failed so far, can still return Ok if and only if no step that
      it has to take comes too late already; and then it needs no ping, connection or key for it. */
  lemma StoppedCanReturnOk(s: State)
    requires Inv(s) && s.flag && !Failed(s)
    ensures (exists steps :: Run(s, steps).Some? && Run(s, steps).value.main == ReturnedOk) <==> !Doomed(s)
    ensures !Doomed(s) ==> exists steps ::
              Avoids(s, steps, NeedsPing) && Run(s, steps).Some? && Run(s, steps).value.main == ReturnedOk
  {
    if steps :| Run(s, steps).Some? && Run(s, steps).value.main == ReturnedOk {
      OkExactly(s, steps);
      if Doomed(s) {
        DoomedRun(s, steps);
        RunInv(s, steps);
        assert false;
      }
    }
    if !Doomed(s) {
      var steps := FlaggedReturns(s);
      AvoidsLess(s, steps);
    }
  }

  /** A one-shot server has handed over its connection, and nothing has failed. */
  predicate HandedOver(s: State) {
    && !s.b.stayAlive && !BeforeData(s) && s.main != ReturnedErr && s.main != MainPanic
    && (s.data == Flagging || s.data == AwaitingTask || s.data == DataOk)
    && |s.tasks| == 1 && (s.tasks[0] == TaskRunning || s.tasks[0] == TaskOk)
    && s.render == NoRender
  }

  /** Once it has handed over its connection, a one-shot server can always go on to return Ok, and
      needs no ping for it. */
  lemma OneShotReturns(s: State) returns (steps: seq<Step>)
    requires Inv(s) && HandedOver(s)
    ensures Avoids(s, steps, NeedsPing) && Run(s, steps).Some? && Run(s, steps).value.main == ReturnedOk
  {
    if s.data == Flagging {
      var s1 := Next(s, Data(Good)).value;
      NextInv(s, Data(Good));
      var more := FlaggedReturns(s1);
      AvoidsLess(s1, more);
      steps := [Data(Good)] + more;
      assert steps[1..] == more;
    } else {
      steps := FlaggedReturns(s);
      AvoidsLess(s, steps);
    }
  }

  // ----- runs that show what can happen -----

  lemma {:induction false} RunSnoc(s: State, steps: seq<Step>, step: Step)
    requires Run(s, steps).Some?
    ensures Run(s, steps + [step]) == Next(Run(s, steps).value, step)
    decreases |steps|
  {
    hide Next;
    if steps == [] {
      assert (steps + [step])[1..] == [];
    } else {
      assert (steps + [step])[1..] == steps[1..] + [step];
      RunSnoc(Next(s, steps[0]).value, steps[1..], step);
    }
  }

  lemma ReachedNext(s: State, step: Step) returns (s': State)
    requires Reached(s) && Next(s, step).Some?
    ensures s' == Next(s, step).value && Reached(s')
  {
    s' := Next(s, step).value;
    assert s'.b == s.b;
    hide Next;
    var steps :| Run(Fresh(s.b), steps) == Some(s);
    RunSnoc(Fresh(s.b), steps, step);
  }

  lemma Begins(b: Builder) returns (s: State)
    ensures s == Fresh(b) && Reached(s)
  {
    s := Fresh(b);
    assert Run(Fresh(s.b), []) == Some(s);
  }

  /** From the start to the operator's quitting key; then, if `late`, one more key just before the interface
      is gone; and on to the end. */
  function QuitRun(late: bool): seq<Step> {
    if late then
      [Main(Good), Main(Good), Main(Good), Data(Good), Events(false), QuitKey, Events(true), LeaveRender,
       Events(false), Data(Good), Main(Good), Main(Good), Main(Good), Main(Good)]
    else
      [Main(Good), Main(Good), Main(Good), Data(Good), Events(false), QuitKey, Events(false), LeaveRender,
       Events(false), Data(Good), Main(Good), Main(Good), Main(Good), Main(Good), Main(Good), Main(Good)]
  }

  /** `s` is where the first `n` steps of a run lead. */
  predicate Prefix(b: Builder, steps: seq<Step>, n: nat, s: State) {
    n <= |steps| && Run(Fresh(b), steps[..n]) == Some(s)
  }

  lemma Onward(b: Builder, steps: seq<Step>, n: nat, s: State) returns (s': State)
    requires n < |steps| && Prefix(b, steps, n, s) && Next(s, steps[n]).Some?
    ensures s' == Next(s, steps[n]).value && Prefix(b, steps, n + 1, s')
  {
    hide Next;
    RunSnoc(Fresh(b), steps[..n], steps[n]);
    assert steps[..n] + [steps[n]] == steps[..n + 1];
    s' := Next(s, steps[n]).value;
  }

  /** One key too many makes `serve` panic with its tunnel or port mapping still in place; without that
      key, the same run returns Ok and has released it. */
  lemma LateKeyHappens(b: Builder, late: bool)
    requires b.stayAlive && b.strategy == Interactive && b.holepunch != NoPuncher
    ensures Run(Fresh(b), QuitRun(late)).Some?
    ensures var s := Run(Fresh(b), QuitRun(late)).value;
            if late then s.main == MainPanic && s.held && s.released == 0
            else s.main == ReturnedOk && !s.held && s.released == 1
  {
    var steps := QuitRun(late);
    var s := UntilQuit(b, steps, late);
    hide Prefix, QuitRun, MainStep, DataStep;
    s := Onward(b, steps, 6, s);
    s := Onward(b, steps, 7, s);
    s := Onward(b, steps, 8, s);
    UntilEnd(b, steps, late, s);
  }

  lemma UntilServing(b: Builder, steps: seq<Step>, late: bool) returns (s: State)
    requires b.stayAlive && b.strategy == Interactive && b.holepunch != NoPuncher && steps == QuitRun(late)
    ensures Prefix(b, steps, 3, s)
    ensures s == Fresh(b).(main := UdpHead, data := DataStarting, render := Rendering, events := EventHead, held := true)
  {
    s := Fresh(b);
    assert Prefix(b, steps, 0, s);
    assert |steps| >= 3 && steps[0] == steps[1] == steps[2] == Main(Good);
    hide Prefix, QuitRun, EventStep, DataStep;
    s := Onward(b, steps, 0, s);
    s := Onward(b, steps, 1, s);
    s := Onward(b, steps, 2, s);
  }

  lemma UntilQuit(b: Builder, steps: seq<Step>, late: bool) returns (s: State)
    requires b.stayAlive && b.strategy == Interactive && b.holepunch != NoPuncher && steps == QuitRun(late)
    ensures |steps| >= 14 && steps[6] == Events(late) && steps[7] == LeaveRender && steps[8] == Events(false)
    ensures Prefix(b, steps, 6, s)
    ensures s == Fresh(b).(main := UdpHead, data := LoopHead, render := Leaving, flag := true, events := Polling,
                           held := true)
  {
    s := UntilServing(b, steps, late);
    assert |steps| >= 14 && steps[3] == Data(Good) && steps[4] == Events(false) && steps[5] == QuitKey;
    assert steps[6] == Events(late) && steps[7] == LeaveRender && steps[8] == Events(false);
    hide Prefix, MainStep, QuitRun;
    s := Onward(b, steps, 3, s);
    s := Onward(b, steps, 4, s);
    s := Onward(b, steps, 5, s);
  }

  lemma UntilEnd(b: Builder, steps: seq<Step>, late: bool, s0: State)
    requires b.stayAlive && b.strategy == Interactive && steps == QuitRun(late) && Prefix(b, steps, 9, s0)
    requires s0 == Fresh(b).(main := UdpHead, data := LoopHead, render := RenderDone, flag := true,
                             events := if late then EventsFailed else EventsDone, held := true)
    ensures Run(Fresh(b), steps).Some?
    ensures var s := Run(Fresh(b), steps).value;
            if late then s.main == MainPanic && s.held && s.released == 0
            else s.main == ReturnedOk && !s.held && s.released == 1
  {
    assert steps[9] == Data(Good) && steps[10] == steps[11] == steps[12] == steps[13] == Main(Good);
    assert |steps| == (if late then 14 else 16) && (!late ==> steps[14] == steps[15] == Main(Good));
    assert steps[..|steps|] == steps;
    hide QuitRun, Run, EventStep;
    var s := Onward(b, steps, 9, s0);
    s := UntilJoined(b, steps, s);
    if !late {
      s := Onward(b, steps, 14, s);
      s := Onward(b, steps, 15, s);
    }
  }

  /** From the head of the UDP loop, with the flag up and the accept loop ended, to the end of the join. */
  lemma UntilJoined(b: Builder, steps: seq<Step>, s0: State) returns (s: State)
    requires |steps| >= 14 && steps[10] == steps[11] == steps[12] == steps[13] == Main(Good)
    requires Prefix(b, steps, 10, s0) && s0.main == UdpHead && s0.flag && s0.data == DataOk && s0.Tui()
    requires s0.render == RenderDone && (s0.events == EventsDone || s0.events == EventsFailed)
    ensures Prefix(b, steps, 14, s)
    ensures s == s0.(main := if s0.events == EventsDone then Releasing else MainPanic)
  {
    hide Run, EventStep, DataStep, Prefix;
    s := Onward(b, steps, 10, s0);
    s := Onward(b, steps, 11, s);
    s := Onward(b, steps, 12, s);
    s := Onward(b, steps, 13, s);
  }

  // ----- deaf servers -----

  predicate InUdpLoop(s: State) {
    s.main == UdpHead || s.main == UdpRecv || s.main == Replying
  }

  /** A server whose data task has ended badly, which accepts nobody any more, while `serve` goes on
      answering pings. */
  predicate Deaf(s: State) {
    (s.data == DataErr || s.data == DataPanic) && InUdpLoop(s)
  }

  predicate PingOrError(s: State, step: Step) {
    step.Main? && s.main == UdpRecv && step.luck != Timeout
  }

  predicate NetworkError(s: State, step: Step) {
    step.Main? && ((s.main == UdpRecv && step.luck == Bad) || (s.main == Replying && step.luck != Good))
  }

  /** It can come to that, however the server was set up: the first accept fails. */
  lemma DeafServerHappens(b: Builder)
    ensures exists s: State :: s.b == b && Reached(s) && Deaf(s) && !s.flag
  {
    hide Reached;
    var s := Begins(b);
    s := ReachedNext(s, Main(Good));
    s := ReachedNext(s, Main(Good));
    s := ReachedNext(s, Main(Good));
    s := ReachedNext(s, Data(Good));
    s := ReachedNext(s, Data(Good));
    s := ReachedNext(s, Data(Bad));
    assert s.b == b && Deaf(s) && !s.flag;
  }

  /** Nobody but a ping, or an error on its UDP socket, gets a deaf one-shot server out of its loop, unless
      the flag is up already. */
  lemma OneShotDeaf(s: State)
    requires Inv(s) && Deaf(s) && !s.b.stayAlive
    ensures (exists steps :: LeadsOut(s, steps, PingOrError))
       <==> s.flag || s.main == Replying
  {
    if steps :| LeadsOut(s, steps, PingOrError) {
      if !s.flag && s.main != Replying {
        OneShotStaysDeaf(s, steps);
      }
    }
    if s.flag || s.main == Replying {
      hide Inv;
      var steps := FlagLeadsOut(s, PingOrError);
    }
  }

  predicate LeadsOut(s: State, steps: seq<Step>, bad: (State, Step) -> bool) {
    Avoids(s, steps, bad) && Run(s, steps).Some? && !InUdpLoop(Run(s, steps).value)
  }

  lemma Prepend(s: State, step: Step, steps: seq<Step>, bad: (State, Step) -> bool)
    requires Next(s, step).Some? && !bad(s, step) && LeadsOut(Next(s, step).value, steps, bad)
    ensures LeadsOut(s, [step] + steps, bad)
  {
    assert ([step] + steps)[1..] == steps;
  }

  lemma {:induction false} OneShotStaysDeaf(s: State, steps: seq<Step>)
    requires Inv(s) && Deaf(s) && !s.b.stayAlive && !s.flag && s.main != Replying
    requires Avoids(s, steps, PingOrError) && Run(s, steps).Some?
    ensures InUdpLoop(Run(s, steps).value)
    decreases |steps|
  {
    if steps == [] {
    } else {
      NextInv(s, steps[0]);
      DeafUnpinged(s, steps[0]);
      hide Next, Inv, PingOrError;
      OneShotStaysDeaf(Next(s, steps[0]).value, steps[1..]);
    }
  }

  lemma DeafUnpinged(s: State, step: Step)
    requires Inv(s) && Deaf(s) && !s.b.stayAlive && !s.flag && s.main != Replying
    requires Next(s, step).Some? && !PingOrError(s, step)
    ensures var s' := Next(s, step).value; Deaf(s') && !s'.b.stayAlive && !s'.flag && s'.main != Replying
  {
    hide HandleInv, FlagInv, DataInv;
  }

  /** A server that stays alive goes on answering pings, any number of them, and never accepts again, as
      long as the flag is down and its interface has not failed; which is always, if it has none. */
  lemma {:induction false} PingsDoNotHelp(s: State, steps: seq<Step>)
    requires Inv(s) && s.b.stayAlive && (s.data == DataErr || s.data == DataPanic)
    requires InUdpLoop(s) || s.flag || s.LogPanics()
    requires Avoids(s, steps, NetworkError) && Run(s, steps).Some?
    ensures var s' := Run(s, steps).value;
            && s'.data == s.data && s'.accepted == s.accepted
            && (!s'.flag && !s'.LogPanics() ==> InUdpLoop(s'))
            && (!s.Tui() ==> InUdpLoop(s'))
    decreases |steps|
  {
    if steps == [] {
      assert UiInv(s) && FlagInv(s);
    } else {
      var s1 := Next(s, steps[0]).value;
      NextInv(s, steps[0]);
      DeafPinged(s, steps[0]);
      assert s1.Tui() == s.Tui();
      hide Next, Inv, NetworkError, InUdpLoop;
      PingsDoNotHelp(s1, steps[1..]);
    }
  }

  lemma DeafPinged(s: State, step: Step)
    requires Inv(s) && s.b.stayAlive && (s.data == DataErr || s.data == DataPanic)
    requires InUdpLoop(s) || s.flag || s.LogPanics()
    requires Next(s, step).Some? && !NetworkError(s, step)
    ensures var s' := Next(s, step).value;
            && s'.b == s.b && s'.data == s.data && s'.accepted == s.accepted
            && (InUdpLoop(s') || s'.flag || s'.LogPanics())
  {
    assert DataInv(s) && UiInv(s);
    hide Inv, MainStep, InUdpLoop;
    if step.Main? {
      MainPinged(s, step.luck);
    }
  }

  lemma MainPinged(s: State, luck: Luck)
    requires DataInv(s) && UiInv(s) && s.b.stayAlive && (s.data == DataErr || s.data == DataPanic)
    requires InUdpLoop(s) || s.flag || s.LogPanics()
    requires MainStep(s, luck).Some? && !NetworkError(s, Main(luck))
    ensures var s' := MainStep(s, luck).value;
            && s'.b == s.b && s'.data == s.data && s'.accepted == s.accepted
            && (InUdpLoop(s') || s'.flag || s'.LogPanics())
  {
  }

  /** Without an error on its UDP socket, such a server can get out of its loop if and only if it has an
      interface: the operator can quit, or, if the interface has failed, a ping makes `serve` panic. */
  lemma StayAliveDeaf(s: State)
    requires Inv(s) && Deaf(s) && s.b.stayAlive
    ensures (exists steps :: LeadsOut(s, steps, NetworkError))
       <==> s.Tui()
  {
    if steps :| LeadsOut(s, steps, NetworkError) {
      PingsDoNotHelp(s, steps);
    }
    if s.Tui() {
      var steps := TuiLeadsOut(s);
    }
  }

  /** With the flag up, and for a one-shot server that answers a ping, the way out takes nobody's help. */
  lemma FlagLeadsOut(s: State, bad: (State, Step) -> bool) returns (steps: seq<Step>)
    requires InUdpLoop(s) && (s.flag || (s.main == Replying && !s.b.stayAlive))
    requires bad == PingOrError || bad == NetworkError
    ensures LeadsOut(s, steps, bad)
    decreases if s.main == UdpHead then 0 else 1
  {
    var step := Main(if s.main == UdpRecv then Timeout else Good);
    var s1 := Next(s, step).value;
    if InUdpLoop(s1) {
      steps := FlagLeadsOut(s1, bad);
    } else {
      steps := [];
      assert LeadsOut(s1, [], bad);
    }
    Prepend(s, step, steps, bad);
    steps := [step] + steps;
  }

  lemma TuiLeadsOut(s: State) returns (steps: seq<Step>)
    requires Inv(s) && InUdpLoop(s) && s.b.stayAlive && s.Tui()
    ensures LeadsOut(s, steps, NetworkError)
    decreases if s.main == Replying then 2 else if s.main == UdpHead then 1 else 0
  {
    hide HandleInv, DataInv;
    if s.flag {
      steps := FlagLeadsOut(s, NetworkError);
    } else if s.render == Rendering {
      var more := FlagLeadsOut(Next(s, QuitKey).value, NetworkError);
      Prepend(s, QuitKey, more, NetworkError);
      steps := [QuitKey] + more;
    } else if s.main == UdpRecv {
      assert LeadsOut(Next(s, Main(Good)).value, [], NetworkError);
      Prepend(s, Main(Good), [], NetworkError);
      steps := [Main(Good)] + [];
    } else {
      NextInv(s, Main(Good));
      var more := TuiLeadsOut(Next(s, Main(Good)).value);
      Prepend(s, Main(Good), more, NetworkError);
      steps := [Main(Good)] + more;
    }
  }
}
