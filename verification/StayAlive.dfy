/** The interactive server that stays alive, in one run: its processes around the shutdown flag
    (`Lifecycle`) and its connections, interface and keys (`Hub`). Each step is one of the former, one of
    the latter, or one of each at once. */
module StayAlive {
  import opened Wrappers
  import opened Bytes
  import opened EncryptedStream
  import opened Models
  import opened Session
  import opened SessionSafety
  import H = Hub
  import L = Lifecycle
  import O = OneShot
  import V = Serving
  import S = Shutdown
  import T = Tui

  datatype World = World(life: L.State, hub: H.World) {
    /** The interface's receiver is there. */
    predicate Receives() {
      life.render == L.Rendering || life.render == L.Leaving
    }
  }

  datatype JointStep = JointStep(life: Option<L.Step>, hub: Option<H.WorldStep>)

  function Start(b: L.Builder, info: DataSrvInfo, file: seq<byte>): World {
    World(L.Fresh(b), H.Start(info, file))
  }

  /** A step of the processes alone. The accept loop goes by what its last connection does, a task ends as
      its connection does, and what the interface's threads do with messages is no step of theirs alone. */
  predicate LifeAlone(w: World, step: L.Step) {
    match step
    case Data(luck) =>
      && !(w.life.data == L.Accepting && luck == L.Good)
      && (w.life.data == L.Greeting ==>
            w.hub.conns != [] && var sv := w.hub.Server(|w.hub.conns| - 1);
            if luck == L.Good then sv.pc != SendingHeader else sv.status == Failed)
    case Task(i, result) => i < |w.hub.conns| && result == O.ResultOf(w.hub.Server(i).status)
    case Main(_) => true
    case SeeFlag => true
    case Events(_) => !(w.life.events == L.Forwarding && w.Receives())
    case EventError => true
    case _ => false
  }

  /** The header of a connection is written by the accept loop, the rest by the connection's task. */
  predicate ServerMayStep(w: World, i: nat) {
    i < |w.hub.conns| &&
    if w.hub.Server(i).pc == SendingHeader then w.life.data == L.Greeting && i == |w.hub.conns| - 1
    else i < |w.life.tasks|
  }

  /** A step of a connection or of the interface alone, or somebody's line in the log. */
  predicate HubAlone(w: World, step: H.WorldStep) {
    match step
    case ConnStep(i, connStep) => OfServer(connStep) ==> ServerMayStep(w, i)
    case SubmitRequest(i) => ServerMayStep(w, i)
    case SubmitFails(i) => ServerMayStep(w, i)
    case TakeReply(i) => ServerMayStep(w, i)
    case NoReply(i) => ServerMayStep(w, i)
    case Send(msg) => msg.Log? && w.Receives()
    case Handle => w.life.render == L.Rendering && w.hub.chan != [] && !T.Quits(w.hub.chan[0])
    case _ => false
  }

  /** A connection is accepted; an event is forwarded; a message quits the loop; the receiver goes. */
  predicate AtOnce(w: World, lifeStep: L.Step, hubStep: H.WorldStep) {
    match (lifeStep, hubStep)
    case (Data(luck), Accept(_)) => w.life.data == L.Accepting && luck == L.Good
    case (Events(_), Send(msg)) => w.life.events == L.Forwarding && w.Receives() && msg.Input?
    case (QuitKey, Handle) => w.hub.chan != [] && T.Quits(w.hub.chan[0])
    case (LeaveRender, CloseUi) => true
    case (RenderError, CloseUi) => true
    case _ => false
  }

  predicate Together(w: World, step: JointStep) {
    match step
    case JointStep(Some(lifeStep), None) => LifeAlone(w, lifeStep)
    case JointStep(None, Some(hubStep)) => HubAlone(w, hubStep)
    case JointStep(Some(lifeStep), Some(hubStep)) => AtOnce(w, lifeStep, hubStep)
    case _ => false
  }

  function LifeNext(s: L.State, step: Option<L.Step>): Option<L.State> {
    if step.None? then Some(s) else L.Next(s, step.value)
  }

  function HubNext(w: H.World, step: Option<H.WorldStep>): Option<H.World> {
    if step.None? then Some(w) else H.Next(w, step.value)
  }

  function Next(w: World, step: JointStep): Option<World> {
    if !Together(w, step) then None
    else
      match (LifeNext(w.life, step.life), HubNext(w.hub, step.hub))
      case (Some(life), Some(hub)) => Some(World(life, hub))
      case _ => None
  }

  function Run(w: World, steps: seq<JointStep>): Option<World>
    decreases |steps|
  {
    if steps == [] then Some(w)
    else
      match Next(w, steps[0])
      case None => None
      case Some(w') => Run(w', steps[1..])
  }

  // ----- the invariant -----

  /** Of the messages handled, the last one quits if the loop has ended by one, and no other does. */
  predicate LastQuits(history: seq<T.TermMsg>, ended: bool) {
    && (ended ==> history != [])
    && forall k :: 0 <= k < |history| ==> (T.Quits(history[k]) <==> ended && k == |history| - 1)
  }

  /** The receiver is there as long as the render thread is in, and the flag is up only after a message
      that quits. */
  predicate UiJoined(w: World) {
    var (life, hub) := (w.life, w.hub);
    && life.Tui()
    && (hub.open <==> life.render != L.RenderDone && life.render != L.RenderFailed)
    && LastQuits(hub.history, hub.ended)
    && (hub.ended ==> life.render != L.NoRender && life.render != L.Rendering)
    && (life.flag || life.data == L.DataOk || life.render == L.Leaving || life.render == L.RenderDone ==> hub.ended)
  }

  /** Where a connection without a task can be: at its header, or behind it. */
  predicate HasNoTask(pc: ServerPc) {
    pc == SendingHeader || pc == ReceivingHello || pc == Copying
  }

  /** Each connection accepted is one of the connections, and has its task once the header is out. */
  predicate ConnsJoined(w: World) {
    var (life, hub) := (w.life, w.hub);
    && |hub.conns| == life.accepted
    && |life.tasks| <= |hub.conns|
    && (life.data == L.Greeting || life.data == L.Cloning ==> |life.tasks| + 1 == |hub.conns|)
    && (!L.Serves(life.data) && life.data != L.DataErr && life.data != L.DataPanic ==> |life.tasks| == |hub.conns|)
    && (life.data == L.Cloning ==> hub.Server(|hub.conns| - 1).pc != SendingHeader)
    && (forall i :: 0 <= i < |life.tasks| ==>
          && hub.Server(i).pc != SendingHeader
          && (life.tasks[i] == L.TaskRunning || life.tasks[i] == O.ResultOf(hub.Server(i).status)))
    && (forall i :: |life.tasks| <= i < |hub.conns| ==> HasNoTask(hub.Server(i).pc))
  }

  ghost predicate Inv(w: World) {
    L.Inv(w.life) && UiJoined(w) && ConnsJoined(w)
  }

  // ----- every step keeps it -----

  lemma UiKept(w: World, step: JointStep)
    requires L.Inv(w.life) && UiJoined(w) && Next(w, step).Some?
    ensures UiJoined(Next(w, step).value)
  {
    var (w', life, hub) := (Next(w, step).value, w.life, w.hub);
    assert L.FlagInv(life);
    if step.life.Some? {
      LifeUi(life, step.life.value);
    }
    if step.hub.Some? {
      HubUi(hub, step.hub.value);
    }
    hide L.Inv, L.FlagInv, L.Next, H.Next, UiFrame, HubFrame, UiJoined, AtOnce, LifeAlone, HubAlone;
    match step
    case JointStep(Some(lifeStep), None) => LifeUiKept(w, lifeStep, w'.life);
    case JointStep(None, Some(hubStep)) => HubUiKept(w, hubStep, w'.hub);
    case JointStep(Some(lifeStep), Some(hubStep)) => BothUiKept(w, lifeStep, hubStep, w');
  }

  lemma LifeUiKept(w: World, step: L.Step, life': L.State)
    requires UiJoined(w) && L.FlagInv(w.life) && LifeAlone(w, step) && UiFrame(w.life, step, life')
    ensures UiJoined(World(life', w.hub))
  {
  }

  lemma HubUiKept(w: World, step: H.WorldStep, hub': H.World)
    requires UiJoined(w) && HubAlone(w, step) && HubFrame(w.hub, step, hub')
    ensures UiJoined(World(w.life, hub'))
  {
  }

  lemma BothUiKept(w: World, lifeStep: L.Step, hubStep: H.WorldStep, w': World)
    requires UiJoined(w) && AtOnce(w, lifeStep, hubStep)
    requires UiFrame(w.life, lifeStep, w'.life) && HubFrame(w.hub, hubStep, w'.hub)
    ensures UiJoined(w')
  {
  }

  /** What the processes do to the interface and the flag. */
  predicate UiFrame(s: L.State, step: L.Step, s': L.State) {
    && s'.b == s.b
    && (s'.flag && !s.flag ==> step.QuitKey? || s.data == L.DataOk)
    && (s'.data == L.DataOk && s.data != L.DataOk ==> s.flag)
    && match step
       case Main(_) => s'.render == s.render || (s.render == L.NoRender && s'.render == L.Rendering)
       case QuitKey => s.render == L.Rendering && s'.render == L.Leaving
       case SeeFlag => s.flag && s.render == L.Rendering && s'.render == L.Leaving
       case LeaveRender => s.render == L.Leaving && s'.render == L.RenderDone
       case RenderError => s'.render == L.RenderFailed
       case _ => s'.render == s.render
  }

  lemma LifeUi(s: L.State, step: L.Step)
    requires L.Inv(s) && s.Tui() && L.Next(s, step).Some?
    ensures UiFrame(s, step, L.Next(s, step).value)
  {
    assert L.FlagInv(s) && L.DataInv(s) && L.UiInv(s);
    hide L.Inv, L.HandleInv, L.MainStep, L.DataStep, L.EventStep, UiFrame;
    match step
    case Main(luck) => MainUi(s, luck);
    case Data(luck) => DataUi(s, luck);
    case Events(event) => O.EventsAlone(s, event); OtherUi(s, step);
    case _ => OtherUi(s, step);
  }

  lemma MainUi(s: L.State, luck: L.Luck)
    requires L.DataInv(s) && L.UiInv(s) && L.MainStep(s, luck).Some?
    ensures UiFrame(s, L.Main(luck), L.MainStep(s, luck).value)
  {
  }

  lemma DataUi(s: L.State, luck: L.Luck)
    requires L.DataInv(s) && s.b.stayAlive && L.DataStep(s, luck).Some?
    ensures UiFrame(s, L.Data(luck), L.DataStep(s, luck).value)
  {
  }

  lemma OtherUi(s: L.State, step: L.Step)
    requires !step.Main? && !step.Data? && L.Next(s, step).Some?
    ensures UiFrame(s, step, L.Next(s, step).value)
  {
  }

  /** And what the interface's own steps do to it. */
  ghost predicate HubFrame(w: H.World, step: H.WorldStep, w': H.World) {
    && w'.open == (w.open && !step.CloseUi?)
    && (if step.Handle? then
          H.CanHandle(w) && w'.history == w.history + [w.chan[0]] && w'.ended == T.Quits(w.chan[0])
        else w'.history == w.history && w'.ended == w.ended)
  }

  lemma HubUi(w: H.World, step: H.WorldStep)
    requires H.Next(w, step).Some?
    ensures HubFrame(w, step, H.Next(w, step).value)
  {
  }

  /** What the processes do to connections and tasks. */
  predicate TaskFrame(s: L.State, step: L.Step, s': L.State) {
    && s'.accepted == s.accepted + (if step.Data? && s.data == L.Accepting && step.luck == L.Good then 1 else 0)
    && (if step.Task? then step.i < |s.tasks| && s'.tasks == s.tasks[step.i := step.result] && s'.data == s.data
        else if step.Data? && s.data == L.Cloning && s'.data == L.LoopHead then s'.tasks == s.tasks + [L.TaskRunning]
        else s'.tasks == s.tasks)
    && (s'.data == s.data || s'.data == L.DataErr || s'.data == L.DataPanic ||
        match s.data
        case NotSpawned => s'.data == L.DataStarting
        case DataStarting => s'.data == L.LoopHead
        case LoopHead => s'.data == L.Accepting || s'.data == L.DataOk
        case Accepting => s'.data == if s'.accepted == s.accepted then L.LoopHead else L.Greeting
        case Greeting => step == L.Data(L.Good) && s'.data == L.Cloning
        case Cloning => step == L.Data(L.Good) && s'.data == L.LoopHead
        case _ => false)
    && (s'.accepted != s.accepted ==> s'.data != L.Accepting)
  }

  lemma LifeTasks(s: L.State, step: L.Step)
    requires L.Inv(s) && s.b.stayAlive && L.Next(s, step).Some?
    ensures TaskFrame(s, step, L.Next(s, step).value)
  {
    assert L.DataInv(s);
    hide L.Inv, L.HandleInv, L.MainStep, L.DataStep, L.EventStep, TaskFrame;
    match step
    case Main(luck) => MainTasks(s, luck);
    case Data(luck) => DataTasks(s, luck);
    case Events(event) => O.EventsAlone(s, event); OtherTasks(s, step);
    case _ => OtherTasks(s, step);
  }

  lemma MainTasks(s: L.State, luck: L.Luck)
    requires L.DataInv(s) && L.MainStep(s, luck).Some?
    ensures TaskFrame(s, L.Main(luck), L.MainStep(s, luck).value)
  {
    L.MainLeavesData(s, luck);
    hide L.MainStep;
  }

  lemma DataTasks(s: L.State, luck: L.Luck)
    requires L.DataInv(s) && s.b.stayAlive && L.DataStep(s, luck).Some?
    ensures TaskFrame(s, L.Data(luck), L.DataStep(s, luck).value)
  {
  }

  lemma OtherTasks(s: L.State, step: L.Step)
    requires !step.Main? && !step.Data? && L.Next(s, step).Some?
    ensures TaskFrame(s, step, L.Next(s, step).value)
  {
  }

  /** The server's side of connection `i` steps. */
  predicate Moves(step: H.WorldStep, i: nat) {
    match step
    case ConnStep(j, connStep) => j == i && OfServer(connStep)
    case SubmitRequest(j) => j == i
    case SubmitFails(j) => j == i
    case TakeReply(j) => j == i
    case NoReply(j) => j == i
    case _ => false
  }

  /** What the connections' own steps leave: a header that is out stays out, and who has stopped stays so. */
  ghost predicate ConnFrame(w: H.World, step: H.WorldStep, w': H.World) {
    && |w'.conns| == |w.conns| + (if step.Accept? then 1 else 0)
    && (forall i :: 0 <= i < |w.conns| ==>
         && (w.Server(i).pc != SendingHeader ==> w'.Server(i).pc != SendingHeader)
         && (w.Server(i).status != Running ==> w'.Server(i).status == w.Server(i).status)
         && (w'.Server(i) == w.Server(i)
             || (Moves(step, i) && (w.Server(i).pc == SendingHeader ==> HasNoTask(w'.Server(i).pc)))))
    && (step.Accept? ==> w'.Server(|w.conns|).pc == SendingHeader)
  }

  lemma HubConns(w: H.World, step: H.WorldStep)
    requires H.Next(w, step).Some?
    ensures ConnFrame(w, step, H.Next(w, step).value)
  {
    hide Apply, Initial;
    match step
    case ConnStep(i, connStep) => LocalFrame(w, i, connStep);
    case SubmitRequest(i) => LocalFrame(w, i, Submit);
    case SubmitFails(i) => LocalFrame(w, i, ApproverError);
    case TakeReply(i) => LocalFrame(w, i, Verdict(w.replies[i]));
    case NoReply(i) => LocalFrame(w, i, ApproverError);
    case Accept(cfg) => H.InitialStage(cfg); StartsAtHeader(cfg);
    case _ =>
  }

  lemma StartsAtHeader(cfg: Config)
    ensures Initial(cfg).server.pc == SendingHeader
  {
  }

  lemma LocalFrame(w: H.World, i: nat, step: Step)
    requires i < |w.conns| && H.Local(w, i, step).Some?
    ensures ConnFrame(w, H.ConnStep(i, step), H.Local(w, i, step).value)
  {
    var c := w.conns[i];
    if c.session.server.pc != SendingHeader {
      O.HeaderStaysSent(c.cfg, c.session, step);
    }
    if c.session.server.status != Running {
      O.StoppedStays(c.cfg, c.session, step);
    }
    ServerMoves(c.cfg, c.session, step);
    hide Apply;
  }

  lemma ServerMoves(cfg: Config, s: Session, step: Step)
    requires Apply(cfg, s, step).Some?
    ensures var sv := Apply(cfg, s, step).value.server;
            sv == s.server || (OfServer(step) && (s.server.pc == SendingHeader ==> HasNoTask(sv.pc)))
  {
    if !OfServer(step) && !step.Cut? {
      ClientStepFrame(cfg, ScriptOf(cfg), s, step);
    }
  }

  lemma KeptAlive(w: World)
    requires UiJoined(w)
    ensures w.life.b.stayAlive
  {
  }

  lemma ConnsKept(w: World, step: JointStep)
    requires Inv(w) && Next(w, step).Some?
    ensures ConnsJoined(Next(w, step).value)
  {
    var (w', life, hub) := (Next(w, step).value, w.life, w.hub);
    hide L.Inv, L.Next, H.Next, UiJoined, TaskFrame, ConnFrame, ConnsJoined;
    if step.life.Some? {
      assert life.b.stayAlive by {
        KeptAlive(w);
      }
      LifeTasks(life, step.life.value);
    }
    if step.hub.Some? {
      HubConns(hub, step.hub.value);
    }
    if step.hub.Some? && step.hub.value.Accept? {
      AcceptKept(w, w', step.life.value, step.hub.value);
    } else {
      if step.life.Some? {
        LifeKept(w, step.life.value, w'.life);
      }
      if step.hub.Some? {
        HubKept(World(w'.life, hub), step.hub.value, w'.hub);
      }
    }
  }

  lemma LifeKept(w: World, step: L.Step, life': L.State)
    requires ConnsJoined(w) && TaskFrame(w.life, step, life') && (step.Data? || step.Task? ==> LifeAlone(w, step))
    ensures ConnsJoined(World(life', w.hub))
  {
  }

  lemma HubKept(w: World, step: H.WorldStep, hub': H.World)
    requires ConnsJoined(w) && ConnFrame(w.hub, step, hub') && !step.Accept?
    requires forall i :: 0 <= i < |w.hub.conns| && Moves(step, i) ==> ServerMayStep(w, i)
    ensures ConnsJoined(World(w.life, hub'))
  {
  }

  lemma AcceptKept(w: World, w': World, lifeStep: L.Step, hubStep: H.WorldStep)
    requires ConnsJoined(w) && TaskFrame(w.life, lifeStep, w'.life) && ConnFrame(w.hub, hubStep, w'.hub)
    requires hubStep.Accept? && lifeStep == L.Data(L.Good) && w.life.data == L.Accepting
    ensures ConnsJoined(w')
  {
  }

  lemma StepInv(w: World, step: JointStep)
    requires Inv(w) && Next(w, step).Some?
    ensures Inv(Next(w, step).value)
  {
    UiKept(w, step);
    ConnsKept(w, step);
    if step.life.Some? {
      L.NextInv(w.life, step.life.value);
    }
    hide L.Inv, L.Next, H.Next, UiJoined, ConnsJoined;
  }

  // ----- every run is a run of both -----

  /** `w` is where both parts come to, each by a run of its own. */
  ghost predicate BothReached(w: World, info: DataSrvInfo, file: seq<byte>) {
    && L.Reached(w.life)
    && exists steps :: H.Run(H.Start(info, file), steps) == Some(w.hub)
  }

  lemma {:induction false} HubRunSnoc(w: H.World, steps: seq<H.WorldStep>, step: H.WorldStep)
    requires H.Run(w, steps).Some?
    ensures H.Run(w, steps + [step]) == H.Next(H.Run(w, steps).value, step)
    decreases |steps|
  {
    hide H.Next;
    if steps == [] {
      assert (steps + [step])[1..] == [];
    } else {
      assert (steps + [step])[1..] == steps[1..] + [step];
      HubRunSnoc(H.Next(w, steps[0]).value, steps[1..], step);
    }
  }

  lemma StepReached(w: World, step: JointStep, info: DataSrvInfo, file: seq<byte>)
    requires BothReached(w, info, file) && Next(w, step).Some?
    ensures BothReached(Next(w, step).value, info, file)
  {
    hide L.Next, L.Reached, H.Next;
    if step.life.Some? {
      var life' := S.ReachedNext(w.life, step.life.value);
    }
    var steps :| H.Run(H.Start(info, file), steps) == Some(w.hub);
    if step.hub.Some? {
      HubRunSnoc(H.Start(info, file), steps, step.hub.value);
    }
  }

  lemma {:induction false} RunInv(w: World, steps: seq<JointStep>, info: DataSrvInfo, file: seq<byte>)
    requires Inv(w) && BothReached(w, info, file) && Run(w, steps).Some?
    ensures Inv(Run(w, steps).value) && BothReached(Run(w, steps).value, info, file)
    decreases |steps|
  {
    hide Inv, BothReached, Next;
    if steps == [] {
    } else {
      StepInv(w, steps[0]);
      StepReached(w, steps[0], info, file);
      RunInv(Next(w, steps[0]).value, steps[1..], info, file);
    }
  }

  /** `w` is reached by a run of an interactive server that stays alive and serves `file`. */
  ghost predicate Reached(w: World) {
    && w.hub.info.dataLength == |w.hub.file|
    && exists b: L.Builder, steps ::
         b.stayAlive && b.strategy == Interactive && Run(Start(b, w.hub.info, w.hub.file), steps) == Some(w)
  }

  lemma ReachedInv(w: World)
    requires Reached(w)
    ensures Inv(w) && L.Reached(w.life) && H.Reached(w.hub)
  {
    hide Run, Inv, L.Reached;
    var b: L.Builder, steps :|
      b.stayAlive && b.strategy == Interactive && Run(Start(b, w.hub.info, w.hub.file), steps) == Some(w);
    StartInv(b, w.hub.info, w.hub.file);
    RunInv(Start(b, w.hub.info, w.hub.file), steps, w.hub.info, w.hub.file);
  }

  lemma StartInv(b: L.Builder, info: DataSrvInfo, file: seq<byte>)
    requires b.stayAlive && b.strategy == Interactive
    ensures Inv(Start(b, info, file)) && BothReached(Start(b, info, file), info, file)
  {
    L.FreshInv(b);
    assert L.Run(L.Fresh(b), []) == Some(L.Fresh(b));
    assert H.Run(H.Start(info, file), []) == Some(H.Start(info, file));
  }

  // ----- what holds of every run -----

  /** Escape, q, or c with control. */
  predicate QuittingKey(msg: T.TermMsg) {
    T.IsKey(msg, T.Esc) || T.IsKey(msg, T.Char('q')) || (T.IsKey(msg, T.Char('c')) && msg.event.control)
  }

  /** Only the operator ends it: `serve` returns Ok, or sees the flag at all, only if the last message that
      the interface handled was a quitting key; and a quitting key is always the last message handled. */
  lemma OnlyKeysEndIt(w: World)
    requires Reached(w)
    ensures var history := w.hub.history;
            && (w.life.flag || w.life.main == L.ReturnedOk ==>
                  history != [] && QuittingKey(history[|history| - 1]))
            && forall k :: 0 <= k < |history| - 1 ==> !QuittingKey(history[k])
  {
    ReachedInv(w);
    hide Reached, H.Reached, L.Reached;
  }

  /** A connection that waits for its answer when the interface is over does not wait any longer: it can
      take its answer, or fail for want of one; and so it is whenever `serve` has returned Ok. */
  lemma NobodyWaitsAfterwards(w: World, i: nat)
    requires Reached(w) && i < |w.hub.conns| && w.hub.Server(i).pc == Awaiting && w.hub.Server(i).status == Running
    requires w.life.main == L.ReturnedOk || w.life.render == L.RenderDone || w.life.render == L.RenderFailed
    ensures Next(w, JointStep(None, Some(if i in w.hub.replies then H.TakeReply(i) else H.NoReply(i)))).Some?
  {
    ReachedInv(w);
    L.ServeOutcome(w.life);
    ReceiverGone(w, i);
    hide Reached, H.Reached, L.Reached, H.Next, Inv;
    H.CanTakeReply(w.hub, i);
  }

  lemma ReceiverGone(w: World, i: nat)
    requires Inv(w) && i < |w.hub.conns| && w.hub.Server(i).pc == Awaiting
    ensures w.life.render == L.RenderDone || w.life.render == L.RenderFailed ==> !w.hub.open
    ensures w.life.Tui() && ServerMayStep(w, i)
  {
    hide L.Inv;
  }

  /** The run of the processes within a run of both. */
  lemma {:induction false} LifeRun(w: World, steps: seq<JointStep>) returns (lifeSteps: seq<L.Step>)
    requires Run(w, steps).Some?
    ensures L.Run(w.life, lifeSteps) == Some(Run(w, steps).value.life)
    decreases |steps|
  {
    hide L.Next, H.Next, Together;
    if steps == [] {
      lifeSteps := [];
    } else {
      var more := LifeRun(Next(w, steps[0]).value, steps[1..]);
      lifeSteps := match steps[0].life case None => more case Some(step) => [step] + more;
      assert steps[0].life.Some? ==> lifeSteps[1..] == more;
    }
  }

  lemma {:induction false} RunKeepsInv(w: World, steps: seq<JointStep>)
    requires Inv(w) && Run(w, steps).Some?
    ensures Inv(Run(w, steps).value)
    decreases |steps|
  {
    hide Inv, Next;
    if steps == [] {
    } else {
      StepInv(w, steps[0]);
      RunKeepsInv(Next(w, steps[0]).value, steps[1..]);
    }
  }

  /** Once the operator has quit, whatever happens after that: at most one more connection comes, and only
      if its accept was already under way. */
  lemma ConnectionsAfterFlag(w: World, steps: seq<JointStep>)
    requires Inv(w) && w.life.flag && Run(w, steps).Some?
    ensures |Run(w, steps).value.hub.conns| <= |w.hub.conns| + L.Underway(w.life)
  {
    RunKeepsInv(w, steps);
    var lifeSteps := LifeRun(w, steps);
    L.AcceptsAfterFlag(w.life, lifeSteps);
    hide Run, L.Run, L.Inv, UiJoined;
  }

  /** For every connection of every run: what `Hub.EndToEnd` says, and a task that is over tells how its
      connection ended: written out or refused, with an error, with a panic. */
  lemma EndToEnd(w: World, i: nat)
    requires Reached(w) && i < |w.hub.conns|
    ensures var (c, cl) := (w.hub.conns[i], w.hub.conns[i].session.client);
            && (i < |w.life.tasks| && w.life.tasks[i] != L.TaskRunning ==>
                  && (w.life.tasks[i] == L.TaskOk <==>
                        w.hub.Server(i).status == Finished || w.hub.Server(i).status == Refused)
                  && (w.life.tasks[i] == L.TaskErr <==> w.hub.Server(i).status == Failed)
                  && (w.life.tasks[i] == L.TaskPanic <==> w.hub.Server(i).status == Panicked))
            && (w.hub.info.encrypted || c.session.short == None ==> cl.received <= w.hub.file)
            && (w.hub.info.encrypted && (H.FileOctetsOut(c) || cl.received != [] || cl.disk.Some?) ==>
                  H.OperatorAnswered(w.hub, i, true) && !H.OperatorAnswered(w.hub, i, false))
            && (cl.status == Finished && (w.hub.info.encrypted || c.session.short == None) ==>
                  && cl.disk.Some? && |cl.disk.value| == |w.hub.file|
                  && Kept(cl) <= w.hub.file && Kept(cl) <= cl.disk.value
                  && forall j :: |Kept(cl)| <= j < |w.hub.file| ==> cl.disk.value[j] == 0)
  {
    ReachedInv(w);
    H.EndToEnd(w.hub, i);
    TasksAndConns(w, i);
    hide Reached, H.Reached, L.Reached, H.OperatorAnswered, Kept, Inv;
  }

  lemma TasksAndConns(w: World, i: nat)
    requires Inv(w) && i < |w.hub.conns|
    ensures i < |w.life.tasks| && w.life.tasks[i] != L.TaskRunning ==>
              && (w.life.tasks[i] == L.TaskOk <==>
                    w.hub.Server(i).status == Finished || w.hub.Server(i).status == Refused)
              && (w.life.tasks[i] == L.TaskErr <==> w.hub.Server(i).status == Failed)
              && (w.life.tasks[i] == L.TaskPanic <==> w.hub.Server(i).status == Panicked)
  {
    hide L.Inv, UiJoined;
  }

  // ----- everyone can be served -----

  /** Somebody sits at the interface, its threads are in, and connection `i` has its task. */
  ghost predicate Serving(w: World, i: nat) {
    && Inv(w) && V.Attended(w.hub) && i < |w.life.tasks| && w.life.render == L.Rendering
    && (w.life.events == L.EventHead || w.life.events == L.Polling || w.life.events == L.Forwarding)
  }

  lemma AttendedStays(w: H.World, i: nat, step: H.WorldStep)
    requires V.Attended(w) && V.HelpsOnly(i, step) && H.Next(w, step).Some?
    ensures V.Attended(H.Next(w, step).value)
  {
    if step.Handle? {
      V.HandledOne(w);
    }
    hide H.Local, T.After, T.Answered;
  }

  lemma {:induction false} RunSnoc(w: World, steps: seq<JointStep>, last: JointStep)
    requires Run(w, steps).Some?
    ensures Run(w, steps + [last]) == Next(Run(w, steps).value, last)
    decreases |steps|
  {
    hide Next;
    if steps == [] {
      assert (steps + [last])[1..] == [];
    } else {
      assert (steps + [last])[1..] == steps[1..] + [last];
      RunSnoc(Next(w, steps[0]).value, steps[1..], last);
    }
  }

  lemma {:induction false} RunAppend(w: World, a: seq<JointStep>, b: seq<JointStep>)
    requires Run(w, a).Some?
    ensures Run(w, a + b) == Run(Run(w, a).value, b)
    decreases |a|
  {
    hide Next;
    if a == [] {
      assert a + b == b;
    } else {
      assert (a + b)[1..] == a[1..] + b;
      RunAppend(Next(w, a[0]).value, a[1..], b);
    }
  }

  /** The event thread comes to where it has an event to forward. */
  lemma ToForwarding(w: World, i: nat) returns (steps: seq<JointStep>, w': World)
    requires Serving(w, i)
    ensures Run(w, steps) == Some(w') && Serving(w', i)
    ensures w' == World(w.life.(events := L.Forwarding), w.hub)
    decreases match w.life.events case EventHead => 2 case Polling => 1 case _ => 0
  {
    if w.life.events == L.Forwarding {
      steps, w' := [], w;
    } else {
      var step := JointStep(Some(L.Events(true)), None);
      ThreadStep(w, i);
      var w1 := Next(w, step).value;
      StepInv(w, step);
      hide Inv, Next;
      var more;
      more, w' := ToForwarding(w1, i);
      steps := [step] + more;
      assert steps[1..] == more;
    }
  }

  lemma ThreadStep(w: World, i: nat)
    requires Serving(w, i) && w.life.events != L.Forwarding
    ensures Next(w, JointStep(Some(L.Events(true)), None))
         == Some(World(w.life.(events := if w.life.events == L.EventHead then L.Polling else L.Forwarding), w.hub))
  {
    assert L.FlagInv(w.life) && !w.life.flag;
  }

  /** Other steps that help fit. */
  lemma HelpFits(w: World, i: nat, step: H.WorldStep)
    requires Serving(w, i) && V.HelpsOnly(i, step) && H.Next(w.hub, step).Some? && !step.Send?
    ensures HubAlone(w, step)
  {
    assert ConnsJoined(w);
    hide Inv, H.Local, H.HandleNext;
  }

  /** What helps connection `i` on can happen in the whole server. */
  lemma Lift(w: World, i: nat, step: H.WorldStep) returns (steps: seq<JointStep>, w': World)
    requires Serving(w, i) && V.HelpsOnly(i, step) && H.Next(w.hub, step).Some?
    ensures Run(w, steps) == Some(w') && w'.hub == H.Next(w.hub, step).value && Serving(w', i)
  {
    AttendedStays(w.hub, i, step);
    var w1 := w;
    if step.Send? {
      steps, w1 := ToForwarding(w, i);
      var last := JointStep(Some(L.Events(false)), Some(step));
      w' := World(w1.life.(events := L.EventHead), H.Next(w.hub, step).value);
      assert Next(w1, last) == Some(w');
      StepInv(w1, last);
      hide Next, Serving;
      RunSnoc(w, steps, last);
      steps := steps + [last];
    } else {
      var only := JointStep(None, Some(step));
      w' := World(w.life, H.Next(w.hub, step).value);
      HelpFits(w, i, step);
      assert Next(w, only) == Some(w');
      StepInv(w, only);
      hide Next;
      steps := [only];
      assert Run(w', []) == Some(w');
    }
  }

  lemma {:induction false} LiftRun(w: World, i: nat, hubSteps: seq<H.WorldStep>) returns (steps: seq<JointStep>, w': World)
    requires Serving(w, i) && H.Run(w.hub, hubSteps).Some?
    requires forall step :: step in hubSteps ==> V.HelpsOnly(i, step)
    ensures Run(w, steps) == Some(w') && w'.hub == H.Run(w.hub, hubSteps).value
    decreases |hubSteps|
  {
    hide Serving, H.Next, V.HelpsOnly, Next;
    if hubSteps == [] {
      steps, w' := [], w;
    } else {
      var a, w1 := Lift(w, i, hubSteps[0]);
      var b;
      b, w' := LiftRun(w1, i, hubSteps[1..]);
      RunAppend(w, a, b);
      steps := a + b;
    }
  }

  /** In a run of the whole server, too, the operator can bring every connection on which nothing has failed
      to its end, with either answer if it has none yet. */
  lemma Serve(w: World, i: nat, choice: bool) returns (steps: seq<JointStep>, w': World)
    requires Serving(w, i) && V.CanBeServed(w.hub, i)
    ensures Run(w, steps) == Some(w')
    ensures |w'.hub.conns| == |w.hub.conns| && w'.hub.conns == w.hub.conns[i := w'.hub.conns[i]]
    ensures w'.hub.file == w.hub.file && V.Ended(w'.hub.conns[i].session, w.hub.file, V.Served(w.hub, i, choice))
  {
    var hubSteps, hub' := V.Serve(w.hub, i, choice);
    hide Serving, V.CanBeServed, V.HelpsOnly, V.Ended, V.Served, Run, H.Run;
    steps, w' := LiftRun(w, i, hubSteps);
  }
}
