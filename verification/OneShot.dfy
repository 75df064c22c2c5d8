/** The server as the command line starts it by default: it takes one connection and asks at the console
    whether to serve it (src/server/mod.rs:73-77, 206-268, src/server/client_approver.rs). Its processes,
    its connection with the client at the other end, and the console, in one run. */
module OneShot {
  import opened Wrappers
  import opened Noise
  import opened Session
  import opened SessionSafety
  import opened SessionDelivery
  import opened SessionProgress
  import C = Console
  import H = Hub
  import L = Lifecycle

  /** `conn` is the connection, once it is accepted, and `run` the steps it has taken; `shown` is what the
      console has shown. */
  datatype World = World(life: L.State, conn: Option<Session>, run: seq<Step>, shown: seq<C.Entry>)

  datatype WorldStep =
    | Life(lifeStep: L.Step)
    | Conn(connStep: Step)
    | AskConsole | AnswerConsole(line: Option<string>)

  function Start(b: L.Builder): World {
    World(L.Fresh(b), None, [], [])
  }

  /** How the task of a connection ends. */
  function ResultOf(status: Status): L.TaskState {
    match status
    case Running => L.TaskRunning
    case Finished => L.TaskOk
    case Refused => L.TaskOk
    case Failed => L.TaskErr
    case Panicked => L.TaskPanic
  }

  /** The accept loop writes the header, its task does the rest; and both go by what the connection does. */
  predicate Fits(w: World, step: L.Step) {
    match step
    case Data(luck) =>
      (w.life.data == L.Greeting ==>
         w.conn.Some? && if luck == L.Good then w.conn.value.server.pc != SendingHeader
                         else w.conn.value.server.status == Failed)
    case Task(_, result) => w.conn.Some? && result == ResultOf(w.conn.value.server.status)
    case _ => true
  }

  predicate ServerMayStep(w: World)
    requires w.conn.Some?
  {
    if w.conn.value.server.pc == SendingHeader then w.life.data == L.Greeting else w.life.tasks != []
  }

  function ConnStep(cfg: Config, w: World, step: Step): Option<World>
    requires w.conn.Some?
  {
    if OfServer(step) && !ServerMayStep(w) then None
    else
      match Apply(cfg, w.conn.value, step)
      case None => None
      case Some(s') => Some(w.(conn := Some(s'), run := w.run + [step]))
  }

  function StepFor(line: Option<string>): Step {
    if line.None? then ApproverError else Verdict(C.Approves(line.value))
  }

  function EntryFor(line: Option<string>): C.Entry {
    if line.None? then C.ReadFailed else C.Line(line.value)
  }

  function Next(cfg: Config, w: World, step: WorldStep): Option<World> {
    match step
    case Life(lifeStep) =>
      (match L.Next(w.life, lifeStep)
       case None => None
       case Some(life') =>
         if !Fits(w, lifeStep) then None
         else if life'.accepted > w.life.accepted then Some(w.(life := life', conn := Some(Initial(cfg)), run := []))
         else Some(w.(life := life')))
    case Conn(connStep) =>
      if w.conn.None? || H.AsksApprover(connStep) then None else ConnStep(cfg, w, connStep)
    case AskConsole =>
      if w.conn.None? || w.conn.value.server.pc != Submitting then None
      else
        (match ConnStep(cfg, w, Submit)
         case None => None
         case Some(w') => Some(w'.(shown := w.shown + [C.Prompt(w.conn.value.server.noise.rs)])))
    case AnswerConsole(line) =>
      if w.conn.None? || w.conn.value.server.pc != Awaiting then None
      else
        match ConnStep(cfg, w, StepFor(line))
        case None => None
        case Some(w') => Some(w'.(shown := w.shown + [EntryFor(line)]))
  }

  function Run(cfg: Config, w: World, steps: seq<WorldStep>): Option<World>
    decreases |steps|
  {
    if steps == [] then Some(w)
    else
      match Next(cfg, w, steps[0])
      case None => None
      case Some(w') => Run(cfg, w', steps[1..])
  }

  // ----- the invariant -----

  /** What the console has shown goes with the stage the connection is at. */
  predicate ShownOk(cfg: Config, s: Session, shown: seq<C.Entry>) {
    var prompt := C.Prompt(PublicKey(cfg.keys.sc));
    match H.Stage(cfg, s.server)
    case 0 => shown == []
    case 1 => shown == [prompt] || (s.server.status == Failed && shown == [prompt, C.ReadFailed])
    case _ => |shown| == 2 && shown[0] == prompt && shown[1].Line? && s.server.approved == C.Approves(shown[1].text)
  }

  ghost predicate ConnInv(cfg: Config, w: World) {
    match w.conn
    case None => w.run == [] && w.shown == [] && w.life.accepted == 0
    case Some(s) =>
      w.life.accepted == 1 && Exec(cfg, Initial(cfg), w.run) == Some(s) && ShownOk(cfg, s, w.shown)
  }

  predicate TaskInv(w: World) {
    && !w.life.b.stayAlive
    && (w.life.data == L.Cloning ==> w.conn.Some? && w.conn.value.server.pc != SendingHeader)
    && (w.life.tasks != [] ==>
          |w.life.tasks| == 1 && w.conn.Some? && w.conn.value.server.pc != SendingHeader
          && (w.life.tasks[0] == L.TaskRunning || w.life.tasks[0] == ResultOf(w.conn.value.server.status)))
  }

  ghost predicate WorldInv(cfg: Config, w: World) {
    cfg.Valid() && L.Inv(w.life) && TaskInv(w) && ConnInv(cfg, w)
  }

  // ----- every step keeps it -----

  /** What a step of the processes means for the one connection and its task. */
  predicate LifeFrame(s: L.State, step: L.Step, s': L.State) {
    && !s'.b.stayAlive
    && (s'.accepted == s.accepted || (s'.accepted == 1 && s.accepted == 0 && s'.tasks == s.tasks == []))
    && (if step.Task? then step.i == 0 && s.tasks == [L.TaskRunning] && s'.tasks == [step.result]
        else s'.tasks == s.tasks || (s.tasks == [] && s'.tasks == [L.TaskRunning] && s.data == L.Cloning))
    && (s'.data == L.Cloning ==> s.data == L.Cloning || (s.data == L.Greeting && step == L.Data(L.Good)))
    && (s'.accepted > s.accepted ==> s'.data != L.Cloning)
  }

  lemma LifeAlone(s: L.State, step: L.Step)
    requires L.Inv(s) && !s.b.stayAlive && L.Next(s, step).Some?
    ensures LifeFrame(s, step, L.Next(s, step).value)
  {
    assert L.DataInv(s);
    hide L.Inv, L.DataInv, L.MainStep, L.DataStep, L.EventStep;
    match step
    case Main(luck) => L.MainLeavesData(s, luck);
    case Data(luck) => DataAlone(s, luck);
    case Task(i, result) => TaskAlone(s, i);
    case Events(event) => EventsAlone(s, event);
    case _ =>
  }

  lemma DataAlone(s: L.State, luck: L.Luck)
    requires L.DataInv(s) && !s.b.stayAlive && L.DataStep(s, luck).Some?
    ensures LifeFrame(s, L.Data(luck), L.DataStep(s, luck).value)
  {
  }

  lemma TaskAlone(s: L.State, i: nat)
    requires L.DataInv(s) && !s.b.stayAlive && i < |s.tasks| && s.tasks[i] == L.TaskRunning
    ensures i == 0 && s.tasks == [L.TaskRunning]
  {
  }

  lemma EventsAlone(s: L.State, event: bool)
    requires L.EventStep(s, event).Some?
    ensures L.EventStep(s, event).value == s.(events := L.EventStep(s, event).value.events)
  {
  }

  lemma LifeInv(cfg: Config, w: World, step: L.Step)
    requires WorldInv(cfg, w) && Next(cfg, w, Life(step)).Some?
    ensures WorldInv(cfg, Next(cfg, w, Life(step)).value)
  {
    LifeAlone(w.life, step);
    L.NextInv(w.life, step);
    AcceptedHasConn(cfg, w);
    hide L.Next, L.Inv, Exec;
    LifeTasks(cfg, w, step);
    LifeConn(cfg, w, step);
    hide TaskInv, ConnInv, LifeFrame;
  }

  lemma LifeTasks(cfg: Config, w: World, step: L.Step)
    requires TaskInv(w) && Next(cfg, w, Life(step)).Some? && LifeFrame(w.life, step, L.Next(w.life, step).value)
    requires w.life.accepted == 0 ==> w.life.data != L.Cloning && w.life.tasks == []
    ensures TaskInv(Next(cfg, w, Life(step)).value)
  {
    hide L.Next, Initial;
  }

  lemma LifeConn(cfg: Config, w: World, step: L.Step)
    requires ConnInv(cfg, w) && Next(cfg, w, Life(step)).Some? && LifeFrame(w.life, step, L.Next(w.life, step).value)
    ensures ConnInv(cfg, Next(cfg, w, Life(step)).value)
  {
    hide L.Next, Exec;
    InitialIsReached(cfg);
    if L.Next(w.life, step).value.accepted > w.life.accepted {
      NothingShownBefore(cfg, w);
    }
  }

  /** Before the connection is there, nothing has been shown. */
  lemma NothingShownBefore(cfg: Config, w: World)
    requires ConnInv(cfg, w) && w.conn.None?
    ensures w.shown == []
  {
  }

  lemma InitialIsReached(cfg: Config)
    ensures Exec(cfg, Initial(cfg), []) == Some(Initial(cfg))
  {
  }

  lemma AcceptedHasConn(cfg: Config, w: World)
    requires WorldInv(cfg, w)
    ensures w.life.accepted == 0 ==> w.life.data != L.Cloning && w.life.tasks == []
  {
    hide ConnInv, L.HandleInv, L.UiInv, L.FlagInv;
  }

  lemma HeaderStaysSent(cfg: Config, s: Session, step: Step)
    requires Apply(cfg, s, step).Some? && s.server.pc != SendingHeader
    ensures Apply(cfg, s, step).value.server.pc != SendingHeader
  {
    if !OfServer(step) && !step.Cut? {
      ClientStepFrame(cfg, ScriptOf(cfg), s, step);
    }
  }

  lemma StoppedStays(cfg: Config, s: Session, step: Step)
    requires Apply(cfg, s, step).Some? && s.server.status != Running
    ensures Apply(cfg, s, step).value.server.status == s.server.status
  {
    if !OfServer(step) && !step.Cut? {
      ClientStepFrame(cfg, ScriptOf(cfg), s, step);
    }
  }

  /** A step of the connection is one more step of its run. */
  lemma ConnStepInv(cfg: Config, w: World, step: Step, shown: seq<C.Entry>)
    requires WorldInv(cfg, w) && w.conn.Some? && ConnStep(cfg, w, step).Some?
    requires ShownOk(cfg, Apply(cfg, w.conn.value, step).value, shown)
    ensures WorldInv(cfg, ConnStep(cfg, w, step).value.(shown := shown))
  {
    var s := w.conn.value;
    ExecAppend(cfg, Initial(cfg), w.run, step);
    if s.server.pc != SendingHeader {
      HeaderStaysSent(cfg, s, step);
    }
    if s.server.status != Running {
      StoppedStays(cfg, s, step);
    }
    hide L.Inv, Exec, Apply, ShownOk;
  }

  lemma ConnReachable(cfg: Config, w: World)
    requires WorldInv(cfg, w) && w.conn.Some?
    ensures Reachable(cfg, w.conn.value)
  {
  }

  lemma OwnStepInv(cfg: Config, w: World, step: Step)
    requires WorldInv(cfg, w) && Next(cfg, w, Conn(step)).Some?
    ensures WorldInv(cfg, Next(cfg, w, Conn(step)).value)
  {
    ConnReachable(cfg, w);
    H.StageKept(cfg, w.conn.value, step);
    if w.conn.value.server.status == Failed {
      StoppedStays(cfg, w.conn.value, step);
    }
    hide L.Inv, Apply, Reachable, Exec, H.Stage;
    ConnStepInv(cfg, w, step, w.shown);
  }

  lemma AskInv(cfg: Config, w: World)
    requires WorldInv(cfg, w) && Next(cfg, w, AskConsole).Some?
    ensures WorldInv(cfg, Next(cfg, w, AskConsole).value)
  {
    ConnReachable(cfg, w);
    H.HandshakeIsEncrypted(cfg, w.conn.value);
    AskIsStep(cfg, w);
    hide L.Inv, Reachable, Exec, Apply, TaskInv, ShownOk;
    AskShown(cfg, w.conn.value, w.shown);
    ConnStepInv(cfg, w, Submit, w.shown + [C.Prompt(w.conn.value.server.noise.rs)]);
  }

  lemma AskIsStep(cfg: Config, w: World)
    requires Next(cfg, w, AskConsole).Some?
    ensures w.conn.Some? && w.conn.value.server.pc == Submitting && ConnStep(cfg, w, Submit).Some?
    ensures Apply(cfg, w.conn.value, Submit).Some?
    ensures Next(cfg, w, AskConsole)
         == Some(ConnStep(cfg, w, Submit).value.(shown := w.shown + [C.Prompt(w.conn.value.server.noise.rs)]))
  {
    hide Apply;
  }

  lemma AskShown(cfg: Config, s: Session, shown: seq<C.Entry>)
    requires ShownOk(cfg, s, shown) && s.server.pc == Submitting && cfg.info.encrypted
    requires s.server.noise.rs == PublicKey(cfg.keys.sc) && Apply(cfg, s, Submit).Some?
    ensures ShownOk(cfg, Apply(cfg, s, Submit).value, shown + [C.Prompt(s.server.noise.rs)])
  {
    H.ApproverSteps(cfg, s, false);
    hide C.Approves, PublicKey, Apply;
    assert shown == [];
  }

  lemma AnswerInv(cfg: Config, w: World, line: Option<string>)
    requires WorldInv(cfg, w) && Next(cfg, w, AnswerConsole(line)).Some?
    ensures WorldInv(cfg, Next(cfg, w, AnswerConsole(line)).value)
  {
    ConnReachable(cfg, w);
    H.HandshakeIsEncrypted(cfg, w.conn.value);
    hide L.Inv, Reachable, Exec, Apply, C.Approves, TaskInv, ShownOk;
    AnswerShown(cfg, w.conn.value, w.shown, line);
    ConnStepInv(cfg, w, StepFor(line), w.shown + [EntryFor(line)]);
  }

  lemma AnswerShown(cfg: Config, s: Session, shown: seq<C.Entry>, line: Option<string>)
    requires ShownOk(cfg, s, shown) && s.server.pc == Awaiting && cfg.info.encrypted
    requires Apply(cfg, s, StepFor(line)).Some?
    ensures ShownOk(cfg, Apply(cfg, s, StepFor(line)).value, shown + [EntryFor(line)])
  {
    WaitingIsRunning(cfg, s, line);
    hide C.Approves, PublicKey;
    assert shown == [C.Prompt(PublicKey(cfg.keys.sc))];
    if line.Some? {
      H.ApproverSteps(cfg, s, C.Approves(line.value));
    }
    hide Apply;
  }

  lemma WaitingIsRunning(cfg: Config, s: Session, line: Option<string>)
    requires s.server.pc == Awaiting
    requires Apply(cfg, s, StepFor(line)).Some?
    ensures s.server.status == Running
    ensures line.None? ==> Apply(cfg, s, ApproverError) == Some(s.(server := s.server.(status := Failed)))
  {
  }

  lemma {:induction false} RunInv(cfg: Config, w: World, steps: seq<WorldStep>)
    requires WorldInv(cfg, w) && Run(cfg, w, steps).Some?
    ensures WorldInv(cfg, Run(cfg, w, steps).value)
    decreases |steps|
  {
    if steps == [] {
    } else {
      match steps[0] {
        case Life(step) => LifeInv(cfg, w, step);
        case Conn(step) => OwnStepInv(cfg, w, step);
        case AskConsole => AskInv(cfg, w);
        case AnswerConsole(line) => AnswerInv(cfg, w, line);
      }
      hide Next, WorldInv;
      RunInv(cfg, Next(cfg, w, steps[0]).value, steps[1..]);
    }
  }

  // ----- what every run keeps -----

  /** `w` is reached by a run of a server that serves `cfg.file` once. */
  ghost predicate Reached(cfg: Config, w: World) {
    cfg.Valid() && exists b: L.Builder, steps :: !b.stayAlive && Run(cfg, Start(b), steps) == Some(w)
  }

  lemma ReachedInv(cfg: Config, w: World)
    requires Reached(cfg, w)
    ensures WorldInv(cfg, w)
  {
    hide WorldInv, Run;
    var b: L.Builder, steps :| !b.stayAlive && Run(cfg, Start(b), steps) == Some(w);
    L.FreshInv(b);
    StartInv(cfg, b);
    RunInv(cfg, Start(b), steps);
  }

  lemma StartInv(cfg: Config, b: L.Builder)
    requires cfg.Valid() && !b.stayAlive && L.Inv(L.Fresh(b))
    ensures WorldInv(cfg, Start(b))
  {
  }

  /** With encryption, an octet of the file is on the wire, and a download file on the client's disk, only
      if the console asked about this client, by its public key, and the line typed was a yes. */
  lemma FileNeedsYes(cfg: Config, w: World)
    requires Reached(cfg, w) && w.conn.Some? && cfg.info.encrypted
    requires H.FileOctetsOut(H.Conn(cfg, w.conn.value)) || w.conn.value.client.received != []
             || w.conn.value.client.disk.Some?
    ensures |w.shown| == 2 && w.shown[0] == C.Prompt(PublicKey(cfg.keys.sc))
    ensures w.shown[1].Line? && C.IsPaddedYes(w.shown[1].text)
  {
    ReachedInv(cfg, w);
    ConnReachable(cfg, w);
    hide Reached, L.Inv, Reachable, C.Approves, C.IsPaddedYes;
    H.CopyingNeeded(cfg, w.conn.value);
    C.ApprovesExactly(w.shown[1].text);
  }

  /** `serve` returns Ok only over a connection that the server has come to the end of: all of the file is
      written, or the client refused. */
  lemma OkOverConnection(cfg: Config, w: World)
    requires Reached(cfg, w) && w.life.main == L.ReturnedOk
    ensures w.conn.Some?
    ensures w.conn.value.server.status == Finished || w.conn.value.server.status == Refused
  {
    ReachedInv(cfg, w);
    hide Reached;
  }

  /** How the task of the connection ends: well exactly if all of the file is written or the client was refused,
      and else with the connection's error or panic. */
  lemma TaskTells(cfg: Config, w: World)
    requires Reached(cfg, w) && w.life.tasks != [] && w.life.tasks[0] != L.TaskRunning
    ensures w.conn.Some?
    ensures var status := w.conn.value.server.status;
            && (w.life.tasks == [L.TaskOk] <==> status == Finished || status == Refused)
            && (w.life.tasks == [L.TaskErr] <==> status == Failed)
            && (w.life.tasks == [L.TaskPanic] <==> status == Panicked)
  {
    ReachedInv(cfg, w);
    hide Reached, ConnInv, L.Inv;
    assert w.life.tasks == [w.life.tasks[0]];
  }

  /** And if no step of the connection failed, then when the client too has stopped, it has all of the file
      on its disk, or knows that it was refused. */
  lemma OkDelivers(cfg: Config, w: World)
    requires Reached(cfg, w) && w.life.main == L.ReturnedOk && Sound(cfg) && CleanRun(cfg, Initial(cfg), w.run)
    requires w.conn.Some? && w.conn.value.client.status != Running
    ensures var (sv, cl) := (w.conn.value.server, w.conn.value.client);
            if cfg.info.encrypted && !sv.approved then sv.status == cl.status == Refused && cl.disk == None
            else cl.status == Finished && cl.received == cfg.file && cl.disk == Some(cfg.file)
  {
    ReachedInv(cfg, w);
    OkOverConnection(cfg, w);
    hide Reached, L.Inv, TaskInv, CleanRun, Sound;
    CleanRunsDeliver(cfg, w.run);
  }
}
