/** The server that takes one connection comes to its end: from wherever nothing has failed, with one client
    and one line typed at the console, the file gets to the client's disk, or the client is refused, and
    `serve` returns Ok without any ping. */
module OneShotProgress {
  import opened Wrappers
  import opened Session
  import opened SessionSafety
  import opened SessionDelivery
  import opened SessionProgress
  import opened OneShot
  import S = Shutdown
  import V = Serving

  predicate Ping(w: World, step: WorldStep) {
    step.Life? && step.lifeStep == L.Main(L.Good) && w.life.main == L.UdpRecv
  }

  /** A run from `w` to `w'` without a ping. */
  ghost predicate Goes(cfg: Config, w: World, steps: seq<WorldStep>, w': World)
    decreases |steps|
  {
    if steps == [] then w == w'
    else Next(cfg, w, steps[0]).Some? && !Ping(w, steps[0]) && Goes(cfg, Next(cfg, w, steps[0]).value, steps[1..], w')
  }

  lemma {:induction false} GoesOn(cfg: Config, w: World, a: seq<WorldStep>, w1: World, b: seq<WorldStep>, w2: World)
    requires Goes(cfg, w, a, w1) && Goes(cfg, w1, b, w2)
    ensures Goes(cfg, w, a + b, w2)
    decreases |a|
  {
    hide Next, Ping;
    if a == [] {
      assert a + b == b;
    } else {
      assert (a + b)[1..] == a[1..] + b;
      GoesOn(cfg, Next(cfg, w, a[0]).value, a[1..], w1, b, w2);
    }
  }

  lemma Goes1(cfg: Config, w: World, step: WorldStep)
    requires Next(cfg, w, step).Some? && !Ping(w, step)
    ensures Goes(cfg, w, [step], Next(cfg, w, step).value)
  {
    hide Next, Ping;
    assert Goes(cfg, Next(cfg, w, step).value, [], Next(cfg, w, step).value);
  }

  lemma {:induction false} GoesIsRun(cfg: Config, w: World, steps: seq<WorldStep>, w': World)
    requires Goes(cfg, w, steps, w')
    ensures Run(cfg, w, steps) == Some(w')
    decreases |steps|
  {
    hide Next, Ping;
    if steps == [] {
    } else {
      GoesIsRun(cfg, Next(cfg, w, steps[0]).value, steps[1..], w');
    }
  }

  /** Nothing has failed, neither in the processes nor on the connection. */
  ghost predicate Well(cfg: Config, w: World) {
    && WorldInv(cfg, w) && Sound(cfg) && !S.Failed(w.life)
    && (w.conn.Some? ==> w.conn.value.short == None && Unharmed(cfg, w.conn.value))
  }

  /** Whether the client gets the file: as it has been decided, or will be. */
  predicate Served(cfg: Config, conn: Option<Session>, choice: bool) {
    if !cfg.info.encrypted then true
    else if conn.Some? && H.Stage(cfg, conn.value.server) == 2 then conn.value.server.approved
    else choice
  }

  // ----- the connection -----

  lemma WellReachable(cfg: Config, w: World)
    requires Well(cfg, w) && w.conn.Some?
    ensures cfg.Valid() && Reachable(cfg, w.conn.value)
    ensures w.conn.value.short == None && Unharmed(cfg, w.conn.value) && Sound(cfg)
  {
    ConnReachable(cfg, w);
  }

  /** One clean step of the connection, its console included. */
  lemma Advance(cfg: Config, w: World, choice: bool) returns (step: WorldStep, w': World)
    requires Well(cfg, w) && w.conn.Some? && (w.life.tasks != [] || w.conn.value.server.pc == SendingHeader)
    requires w.conn.value.server.pc == SendingHeader ==> w.life.data == L.Greeting
    requires w.conn.value.server.status == Running || w.conn.value.client.status == Running
    ensures Goes(cfg, w, [step], w') && Well(cfg, w') && w'.life == w.life && w'.conn.Some?
    ensures Served(cfg, w'.conn, choice) == Served(cfg, w.conn, choice)
    ensures 0 <= Work(cfg, w'.conn.value) < Work(cfg, w.conn.value)
  {
    var s := w.conn.value;
    WellReachable(cfg, w);
    var connStep := V.NextClean(cfg, s);
    hide L.Inv, S.Failed, WorldInv, Reachable, Unharmed, Sound, Work, Clean, Served, Goes;
    if connStep.Submit? {
      V.CleanKeeps(cfg, s, connStep);
      step, w' := Ask(cfg, w, choice);
    } else if connStep.Verdict? {
      step, w' := Answer(cfg, w, choice);
    } else {
      V.CleanKeeps(cfg, s, connStep);
      step, w' := Own(cfg, w, connStep, choice);
    }
    Goes1(cfg, w, step);
  }

  lemma Own(cfg: Config, w: World, connStep: Step, choice: bool) returns (step: WorldStep, w': World)
    requires WorldInv(cfg, w) && w.conn.Some? && (w.life.tasks != [] || w.conn.value.server.pc == SendingHeader)
    requires w.conn.value.server.pc == SendingHeader ==> w.life.data == L.Greeting
    requires Apply(cfg, w.conn.value, connStep).Some? && !H.AsksApprover(connStep)
    ensures step == Conn(connStep) && Next(cfg, w, step) == Some(w')
    ensures WorldInv(cfg, w') && w'.life == w.life && w'.conn == Apply(cfg, w.conn.value, connStep)
    ensures Served(cfg, w'.conn, choice) == Served(cfg, w.conn, choice)
  {
    ConnReachable(cfg, w);
    step := Conn(connStep);
    assert cfg.Valid();
    CanStep(cfg, w, connStep);
    hide L.Inv, WorldInv, Reachable, Apply, H.Stage, Next;
    w' := Next(cfg, w, step).value;
    H.StageKept(cfg, w.conn.value, connStep);
    OwnStepInv(cfg, w, connStep);
  }

  lemma CanStep(cfg: Config, w: World, connStep: Step)
    requires w.conn.Some? && (w.life.tasks != [] || w.conn.value.server.pc == SendingHeader)
    requires w.conn.value.server.pc == SendingHeader ==> w.life.data == L.Greeting
    requires Apply(cfg, w.conn.value, connStep).Some? && !H.AsksApprover(connStep)
    ensures Next(cfg, w, Conn(connStep)).Some?
    ensures var w' := Next(cfg, w, Conn(connStep)).value;
            w'.life == w.life && w'.conn == Apply(cfg, w.conn.value, connStep)
  {
    hide Apply;
  }

  lemma Ask(cfg: Config, w: World, choice: bool) returns (step: WorldStep, w': World)
    requires WorldInv(cfg, w) && w.conn.Some? && (w.life.tasks != [] || w.conn.value.server.pc == SendingHeader)
    requires Apply(cfg, w.conn.value, Submit).Some?
    ensures step == AskConsole && Next(cfg, w, step) == Some(w')
    ensures WorldInv(cfg, w') && w'.life == w.life && w'.conn == Apply(cfg, w.conn.value, Submit)
    ensures Served(cfg, w'.conn, choice) == Served(cfg, w.conn, choice)
  {
    ConnReachable(cfg, w);
    assert cfg.Valid();
    H.HandshakeIsEncrypted(cfg, w.conn.value);
    H.ApproverSteps(cfg, w.conn.value, false);
    step := AskConsole;
    CanAsk(cfg, w);
    w' := Next(cfg, w, step).value;
    hide L.Inv, WorldInv, Reachable, Apply, Next, H.Stage;
    AskInv(cfg, w);
  }

  lemma CanAsk(cfg: Config, w: World)
    requires w.conn.Some? && Apply(cfg, w.conn.value, Submit).Some? && w.life.tasks != []
    ensures Next(cfg, w, AskConsole).Some?
    ensures var w' := Next(cfg, w, AskConsole).value;
            w'.life == w.life && w'.conn == Apply(cfg, w.conn.value, Submit)
  {
  }

  lemma Answer(cfg: Config, w: World, choice: bool) returns (step: WorldStep, w': World)
    requires Well(cfg, w) && w.conn.Some? && (w.life.tasks != [] || w.conn.value.server.pc == SendingHeader)
    requires w.conn.value.server.pc == Awaiting && w.conn.value.server.status == Running
    ensures Next(cfg, w, step) == Some(w') && !Ping(w, step)
    ensures Well(cfg, w') && w'.life == w.life && w'.conn.Some?
    ensures Served(cfg, w'.conn, choice) == Served(cfg, w.conn, choice)
    ensures 0 <= Work(cfg, w'.conn.value) < Work(cfg, w.conn.value)
  {
    var s := w.conn.value;
    WellReachable(cfg, w);
    H.HandshakeIsEncrypted(cfg, s);
    H.ApproverSteps(cfg, s, choice);
    var line := if choice then "y" else "n";
    LinesMean(choice);
    step := AnswerConsole(Some(line));
    CanAnswer(cfg, w, line);
    w' := Next(cfg, w, step).value;
    hide L.Inv, S.Failed, WorldInv, Reachable, Unharmed, Sound, Work, Next, Apply, C.Approves, H.Stage;
    AnswerInv(cfg, w, Some(line));
    V.CleanKeeps(cfg, s, Verdict(choice));
  }

  lemma CanAnswer(cfg: Config, w: World, line: string)
    requires w.conn.Some? && w.conn.value.server.pc == Awaiting && w.conn.value.server.status == Running
    requires w.life.tasks != []
    ensures Next(cfg, w, AnswerConsole(Some(line))).Some?
    ensures var w' := Next(cfg, w, AnswerConsole(Some(line))).value;
            && Apply(cfg, w.conn.value, Verdict(C.Approves(line))).Some?
            && w'.life == w.life && w'.conn == Apply(cfg, w.conn.value, Verdict(C.Approves(line)))
  {
    hide C.Approves;
  }

  lemma LinesMean(choice: bool)
    ensures C.Approves(if choice then "y" else "n") == choice
  {
    var line := if choice then "y" else "n";
    assert line[1..] == "" && line[..0] == "";
    assert C.Trim(line) == line;
  }

  /** The connection comes to its proper end. */
  lemma {:induction false} RunConn(cfg: Config, w: World, choice: bool) returns (steps: seq<WorldStep>, w': World)
    requires Well(cfg, w) && w.conn.Some? && w.life.tasks != []
    ensures Goes(cfg, w, steps, w') && Well(cfg, w') && w'.life == w.life && w'.conn.Some?
    ensures w'.conn.value.server.status != Running && w'.conn.value.client.status != Running
    ensures Served(cfg, w'.conn, choice) == Served(cfg, w.conn, choice)
    decreases Work(cfg, w.conn.value)
  {
    HeaderIsOut(cfg, w);
    hide Well, Served, Goes;
    if w.conn.value.server.status == Running || w.conn.value.client.status == Running {
      var step, w1 := Advance(cfg, w, choice);
      var more;
      more, w' := RunConn(cfg, w1, choice);
      GoesOn(cfg, w, [step], w1, more, w');
      steps := [step] + more;
    } else {
      steps, w' := [], w;
      assert Goes(cfg, w, [], w) by {
        Stays(cfg, w);
      }
    }
  }

  lemma Stays(cfg: Config, w: World)
    ensures Goes(cfg, w, [], w)
  {
  }

  lemma HeaderIsOut(cfg: Config, w: World)
    requires Well(cfg, w) && w.conn.Some? && w.life.tasks != []
    ensures w.conn.value.server.pc != SendingHeader
  {
    hide L.Inv, ConnInv, S.Failed, Sound, Unharmed;
  }

  /** The accept loop gets the header out. */
  lemma {:induction false} SendHeader(cfg: Config, w: World, choice: bool) returns (steps: seq<WorldStep>, w': World)
    requires Well(cfg, w) && w.conn.Some? && w.life.data == L.Greeting
    ensures Goes(cfg, w, steps, w') && Well(cfg, w') && w'.life == w.life && w'.conn.Some?
    ensures w'.conn.value.server.pc != SendingHeader
    ensures Served(cfg, w'.conn, choice) == Served(cfg, w.conn, choice)
    decreases Work(cfg, w.conn.value)
  {
    if w.conn.value.server.pc == SendingHeader {
      AtHeaderIsRunning(cfg, w);
      hide Well, Served, Goes;
      var step, w1 := Advance(cfg, w, choice);
      var more;
      more, w' := SendHeader(cfg, w1, choice);
      GoesOn(cfg, w, [step], w1, more, w');
      steps := [step] + more;
    } else {
      steps, w' := [], w;
    }
  }

  lemma AtHeaderIsRunning(cfg: Config, w: World)
    requires Well(cfg, w) && w.conn.Some? && w.conn.value.server.pc == SendingHeader
    ensures w.conn.value.server.status == Running
  {
    WellReachable(cfg, w);
    ReachableInv(cfg, w.conn.value);
    hide ScriptOf, Works, Reachable, WorldInv, ClientInv, ServerReads, ServerCopies;
  }

  // ----- the processes -----

  /** A step of the processes that harms nobody and is no ping. */
  lemma LifeStep(cfg: Config, w: World, step: L.Step, choice: bool) returns (w': World)
    requires Well(cfg, w) && L.Next(w.life, step).Some? && Fits(w, step)
    requires !S.Harms(w.life, step) && !(step == L.Main(L.Good) && w.life.main == L.UdpRecv)
    ensures Goes(cfg, w, [Life(step)], w') && Well(cfg, w') && w'.life == L.Next(w.life, step).value
    ensures w'.conn == if w'.life.accepted > w.life.accepted then Some(Initial(cfg)) else w.conn
    ensures Served(cfg, w'.conn, choice) == Served(cfg, w.conn, choice)
  {
    S.HarmMakesFailure(w.life, step);
    assert L.Inv(w.life) && !S.Failed(w.life);
    LifeIsNext(cfg, w, step);
    w' := Next(cfg, w, Life(step)).value;
    hide L.Next, L.Inv, S.Harms, S.Failed, Sound, Next, ShownOk, Unharmed;
    LifeInv(cfg, w, step);
    Goes1(cfg, w, Life(step));
    NewConnection(cfg);
    assert w'.life.accepted > w.life.accepted ==> w.conn.None?;
    hide WorldInv, Goes;
  }

  lemma LifeIsNext(cfg: Config, w: World, step: L.Step)
    requires L.Next(w.life, step).Some? && Fits(w, step)
    ensures Next(cfg, w, Life(step)).Some?
    ensures var w' := Next(cfg, w, Life(step)).value;
            && w'.life == L.Next(w.life, step).value
            && (w'.conn == if w'.life.accepted > w.life.accepted then Some(Initial(cfg)) else w.conn)
            && (w'.life.accepted <= w.life.accepted ==> w' == w.(life := w'.life))
  {
    hide L.Next, Fits;
  }

  lemma NewConnection(cfg: Config)
    ensures Initial(cfg).short == None && Unharmed(cfg, Initial(cfg)) && H.Stage(cfg, Initial(cfg).server) == 0
  {
  }

  function BeforeTask(s: L.State): nat {
    match s.data
    case NotSpawned => (match s.main case Starting => 13 case Punching => 12 case Announcing => 11 case _ => 10)
    case DataStarting => 9
    case LoopHead => 8
    case Accepting => 7
    case Greeting => 6
    case Cloning => 5
    case _ => 0
  }

  /** The next step of the processes on the way to a connection and its task. */
  lemma TowardsTask(cfg: Config, w: World) returns (step: L.Step)
    requires Well(cfg, w) && w.life.tasks == [] && !(w.life.data == L.Greeting && !Fits(w, L.Data(L.Good)))
    ensures L.Next(w.life, step).Some? && Fits(w, step) && !S.Harms(w.life, step)
    ensures !(step == L.Main(L.Good) && w.life.main == L.UdpRecv)
    ensures BeforeTask(L.Next(w.life, step).value) < BeforeTask(w.life)
  {
    step := if w.life.data == L.NotSpawned then L.Main(L.Good) else L.Data(L.Good);
    assert L.DataInv(w.life) && L.UiInv(w.life) && L.FlagInv(w.life);
    hide WorldInv, Sound, Unharmed, L.HandleInv;
  }

  /** From the start of `serve` to a connection that has its task. */
  lemma {:induction false} Prepare(cfg: Config, w: World, choice: bool) returns (steps: seq<WorldStep>, w': World)
    requires Well(cfg, w)
    ensures Goes(cfg, w, steps, w') && Well(cfg, w') && w'.conn.Some? && w'.life.tasks != []
    ensures Served(cfg, w'.conn, choice) == Served(cfg, w.conn, choice)
    decreases BeforeTask(w.life), if Fits(w, L.Data(L.Good)) then 0 else 1
  {
    TasksHaveConn(cfg, w);
    hide Well, Served, Goes, BeforeTask, L.Next, Next;
    if w.life.tasks != [] {
      steps, w' := [], w;
      Stays(cfg, w);
    } else if w.life.data == L.Greeting && !Fits(w, L.Data(L.Good)) {
      var a, w1 := SendHeader(cfg, w, choice);
      var b;
      b, w' := Prepare(cfg, w1, choice);
      GoesOn(cfg, w, a, w1, b, w');
      steps := a + b;
    } else {
      var step := TowardsTask(cfg, w);
      var w1 := LifeStep(cfg, w, step, choice);
      var b;
      b, w' := Prepare(cfg, w1, choice);
      GoesOn(cfg, w, [Life(step)], w1, b, w');
      steps := [Life(step)] + b;
    }
  }

  lemma TasksHaveConn(cfg: Config, w: World)
    requires Well(cfg, w)
    ensures w.life.tasks != [] || w.life.data == L.Greeting ==> w.conn.Some?
  {
    hide Sound, Unharmed, S.Failed, L.FlagInv, L.UiInv, L.HandleInv, ShownOk;
  }

  /** The connection's task is over, and what is left is the processes' own. */
  predicate TaskOver(s: L.State) {
    s.tasks == [L.TaskOk] && (s.data == L.Flagging || s.data == L.AwaitingTask || L.DataDone(s))
  }

  lemma AfterTask(w: World, step: L.Step)
    requires L.Inv(w.life) && !w.life.b.stayAlive && TaskOver(w.life) && L.Next(w.life, step).Some?
    ensures Fits(w, step) && TaskOver(L.Next(w.life, step).value)
    ensures L.Next(w.life, step).value.accepted == w.life.accepted
  {
    assert L.DataInv(w.life);
    LifeAlone(w.life, step);
    hide L.Inv, L.MainStep, L.EventStep;
    if step.Main? {
      L.MainLeavesData(w.life, step.luck);
    }
  }

  lemma LiftOne(cfg: Config, w: World, step: L.Step)
    requires WorldInv(cfg, w) && TaskOver(w.life) && L.Next(w.life, step).Some? && !S.NeedsPing(w.life, step)
    ensures var w' := w.(life := L.Next(w.life, step).value);
            Next(cfg, w, Life(step)) == Some(w') && WorldInv(cfg, w') && TaskOver(w'.life)
    ensures !Ping(w, Life(step))
  {
    assert L.Inv(w.life) && !w.life.b.stayAlive;
    AfterTask(w, step);
    LifeIsNext(cfg, w, step);
    hide L.Next, L.Inv, TaskOver, WorldInv, Next, Fits;
    LifeInv(cfg, w, step);
  }

  lemma {:induction false} LiftLife(cfg: Config, w: World, lifeSteps: seq<L.Step>) returns (steps: seq<WorldStep>, w': World)
    requires WorldInv(cfg, w) && TaskOver(w.life) && S.Avoids(w.life, lifeSteps, S.NeedsPing)
    ensures Goes(cfg, w, steps, w')
    ensures Some(w'.life) == L.Run(w.life, lifeSteps) && w'.conn == w.conn
    decreases |lifeSteps|
  {
    if lifeSteps == [] {
      steps, w' := [], w;
    } else {
      var step := lifeSteps[0];
      hide WorldInv, TaskOver, L.Next, Goes, Next;
      LiftOne(cfg, w, step);
      Goes1(cfg, w, Life(step));
      var more;
      more, w' := LiftLife(cfg, w.(life := L.Next(w.life, step).value), lifeSteps[1..]);
      GoesOn(cfg, w, [Life(step)], w.(life := L.Next(w.life, step).value), more, w');
      steps := [Life(step)] + more;
    }
  }

  /** Once the connection is over, its task ends well, and `serve` returns Ok. */
  lemma Finish(cfg: Config, w: World) returns (steps: seq<WorldStep>, w': World)
    requires Well(cfg, w) && w.conn.Some? && w.life.tasks != [] && w.conn.value.server.status != Running
    ensures Goes(cfg, w, steps, w') && w'.life.main == L.ReturnedOk && w'.conn == w.conn
  {
    TaskEndsWell(cfg, w);
    var w1 := w;
    if w.life.tasks == [L.TaskRunning] {
      w1 := LifeStep(cfg, w, L.Task(0, L.TaskOk), true);
      steps := [Life(L.Task(0, L.TaskOk))];
      TaskEndsWell(cfg, w1);
    } else {
      steps := [];
      Stays(cfg, w);
    }
    hide Well, Goes;
    var b;
    b, w' := ReturnOk(cfg, w1);
    GoesOn(cfg, w, steps, w1, b, w');
    steps := steps + b;
  }

  lemma TaskEndsWell(cfg: Config, w: World)
    requires Well(cfg, w) && w.conn.Some? && w.life.tasks != [] && w.conn.value.server.status != Running
    ensures S.HandedOver(w.life) && (w.life.tasks == [L.TaskRunning] || TaskOver(w.life))
    ensures w.life.tasks == [L.TaskRunning] ==>
              && L.Next(w.life, L.Task(0, L.TaskOk)) == Some(w.life.(tasks := [L.TaskOk]))
              && Fits(w, L.Task(0, L.TaskOk)) && !S.Harms(w.life, L.Task(0, L.TaskOk))
  {
    hide Sound, ConnInv, L.HandleInv;
    assert w.life.tasks == [w.life.tasks[0]];
    assert [L.TaskRunning][0 := L.TaskOk] == [L.TaskOk];
  }

  lemma ReturnOk(cfg: Config, w: World) returns (steps: seq<WorldStep>, w': World)
    requires Well(cfg, w) && S.HandedOver(w.life) && TaskOver(w.life)
    ensures Goes(cfg, w, steps, w') && w'.life.main == L.ReturnedOk && w'.conn == w.conn
  {
    hide Sound, S.Failed, ConnInv, TaskInv, S.HandedOver, TaskOver;
    var lifeSteps := S.OneShotReturns(w.life);
    steps, w' := LiftLife(cfg, w, lifeSteps);
  }

  /** As long as nothing has failed, a one-shot server is never stuck: with a client, and one line typed at
      the console if none has been, it goes on to the end, without any ping. `serve` returns Ok; the client
      has the file on its disk, or knows that it was refused, as the line says. */
  lemma CanDeliver(cfg: Config, w: World, choice: bool) returns (steps: seq<WorldStep>, w': World)
    requires Well(cfg, w)
    ensures Goes(cfg, w, steps, w') && Run(cfg, w, steps) == Some(w')
    ensures w'.life.main == L.ReturnedOk && w'.conn.Some?
    ensures V.Ended(w'.conn.value, cfg.file, Served(cfg, w.conn, choice))
  {
    hide Well, Goes, Served;
    var a, w1 := Prepare(cfg, w, choice);
    var b, w2 := RunConn(cfg, w1, choice);
    var c;
    c, w' := Finish(cfg, w2);
    GoesOn(cfg, w, a, w1, b, w2);
    GoesOn(cfg, w, a + b, w2, c, w');
    steps := a + b + c;
    GoesIsRun(cfg, w, steps, w');
    ConnEnds(cfg, w2, choice);
  }

  lemma ConnEnds(cfg: Config, w: World, choice: bool)
    requires Well(cfg, w) && w.conn.Some?
    requires w.conn.value.server.status != Running && w.conn.value.client.status != Running
    ensures V.Ended(w.conn.value, cfg.file, Served(cfg, w.conn, choice))
  {
    var (s, x) := (w.conn.value, ScriptOf(cfg));
    WellReachable(cfg, w);
    ReachableInv(cfg, s);
    ScriptWorks(cfg);
    assert Inv(cfg, x, s);
    hide ScriptOf, Works, Reachable, Unharmed, Sound, WorldInv, Inv;
    ProperEnd(cfg, x, s);
    V.StageAtEnd(cfg, x, s);
  }

  // ----- every clean run -----

  /** A step that fails nobody: of the processes, of the connection, or at the console. */
  predicate CleanStep(cfg: Config, w: World, step: WorldStep) {
    match step
    case Life(lifeStep) => !S.Harms(w.life, lifeStep)
    case Conn(connStep) => w.conn.Some? && Clean(cfg, w.conn.value, connStep)
    case AskConsole => true
    case AnswerConsole(line) => line.Some?
  }

  predicate CleanRun(cfg: Config, w: World, steps: seq<WorldStep>)
    decreases |steps|
  {
    steps == [] ||
    (&& Next(cfg, w, steps[0]).Some? && CleanStep(cfg, w, steps[0])
     && CleanRun(cfg, Next(cfg, w, steps[0]).value, steps[1..]))
  }

  lemma WellKept(cfg: Config, w: World, step: WorldStep)
    requires Well(cfg, w) && Next(cfg, w, step).Some? && CleanStep(cfg, w, step)
    ensures Well(cfg, Next(cfg, w, step).value)
  {
    match step
    case Life(lifeStep) =>
      LifeKeepsWell(cfg, w, lifeStep);
    case Conn(connStep) =>
      ConnKeepsWell(cfg, w, step, connStep);
      OwnStepInv(cfg, w, connStep);
    case AskConsole =>
      ConnKeepsWell(cfg, w, step, Submit);
      AskInv(cfg, w);
    case AnswerConsole(line) =>
      ConnKeepsWell(cfg, w, step, StepFor(line));
      AnswerInv(cfg, w, line);
  }

  lemma LifeKeepsWell(cfg: Config, w: World, step: L.Step)
    requires Well(cfg, w) && Next(cfg, w, Life(step)).Some? && !S.Harms(w.life, step)
    ensures Well(cfg, Next(cfg, w, Life(step)).value)
  {
    assert L.Next(w.life, step).Some? && Fits(w, step);
    S.HarmMakesFailure(w.life, step);
    assert L.Inv(w.life) && !S.Failed(w.life);
    LifeIsNext(cfg, w, step);
    hide L.Next, L.Inv, S.Harms, S.Failed, Sound, Next, ShownOk, Unharmed;
    LifeInv(cfg, w, step);
    NewConnection(cfg);
  }

  lemma ConnKeepsWell(cfg: Config, w: World, step: WorldStep, connStep: Step)
    requires Well(cfg, w) && Next(cfg, w, step).Some? && CleanStep(cfg, w, step) && !step.Life?
    requires connStep == match step
                         case Conn(c) => c
                         case AnswerConsole(line) => StepFor(line)
                         case _ => Submit
    ensures var w' := Next(cfg, w, step).value;
            w'.life == w.life && w'.conn.Some? && w'.conn.value.short == None && Unharmed(cfg, w'.conn.value)
  {
    WellReachable(cfg, w);
    hide Well, Reachable, Unharmed, Sound, C.Approves, Apply, Clean;
    assert Next(cfg, w, step).value.conn == Apply(cfg, w.conn.value, connStep);
    assert Clean(cfg, w.conn.value, connStep) by {
      ConsoleIsClean(cfg, w.conn.value, step, connStep);
    }
    V.CleanKeeps(cfg, w.conn.value, connStep);
  }

  lemma ConsoleIsClean(cfg: Config, s: Session, step: WorldStep, connStep: Step)
    ensures connStep.Submit? || connStep.Verdict? ==> Clean(cfg, s, connStep)
  {
  }

  lemma {:induction false} CleanRunWell(cfg: Config, w: World, steps: seq<WorldStep>)
    requires Well(cfg, w) && CleanRun(cfg, w, steps)
    ensures Run(cfg, w, steps).Some? && Well(cfg, Run(cfg, w, steps).value)
    decreases |steps|
  {
    hide Well, Next, CleanStep;
    if steps == [] {
    } else {
      WellKept(cfg, w, steps[0]);
      CleanRunWell(cfg, Next(cfg, w, steps[0]).value, steps[1..]);
    }
  }

  /** From `w` the server can come, without a ping, to where `serve` has returned Ok and the client has the file
      or knows of the refusal. */
  ghost predicate CanEndWell(cfg: Config, w: World, served: bool) {
    exists more, w' ::
      && Goes(cfg, w, more, w') && w'.life.main == L.ReturnedOk && w'.conn.Some?
      && V.Ended(w'.conn.value, cfg.file, served)
  }

  /** Every run from the start in which nothing fails can be continued to such an end. */
  lemma CleanRunsDeliver(cfg: Config, b: L.Builder, steps: seq<WorldStep>, choice: bool)
    requires Sound(cfg) && !b.stayAlive && CleanRun(cfg, Start(b), steps)
    ensures Run(cfg, Start(b), steps).Some?
    ensures var w := Run(cfg, Start(b), steps).value; CanEndWell(cfg, w, Served(cfg, w.conn, choice))
  {
    L.FreshInv(b);
    StartInv(cfg, b);
    assert Well(cfg, Start(b));
    hide Well, Goes, L.Inv, WorldInv, Start, CleanRun, V.Ended, Served;
    CleanRunWell(cfg, Start(b), steps);
    var more, w' := CanDeliver(cfg, Run(cfg, Start(b), steps).value, choice);
  }
}
