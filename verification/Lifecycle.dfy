/** src/server/mod.rs and src/server/tui.rs: the processes of a running server and the shutdown flag
    they share, and what every run of them keeps. `serve` (with its UDP loop), `data_srv` (the accept
    loop), one task per connection, the interface's render thread and its event thread, each with its own
    program counter. */
module Lifecycle {
  import opened Wrappers
  import opened EncryptedStream

  // ----- settings -----

  datatype HolePuncher = NoPuncher | Igd | Ngrok

  datatype Builder = Builder(stayAlive: bool, encryption: bool, strategy: ApprovalStrategy, holepunch: HolePuncher) {
    function Set(s: Setter): Builder {
      match s
      case SetUdpPort(_) => this
      case SetStayAlive(b) => this.(stayAlive := b)
      case SetHolePuncher(h) => this.(holepunch := h)
      case SetEncryption(b) =>
        if b then this.(encryption := b, strategy := Interactive) else this.(encryption := b)
    }
  }

  datatype Setter =
    | SetUdpPort(port: nat) | SetStayAlive(on: bool) | SetHolePuncher(h: HolePuncher) | SetEncryption(on: bool)

  const NEW_BUILDER := Builder(false, false, ApproveAll, NoPuncher)

  function Built(setters: seq<Setter>): Builder {
    if setters == [] then NEW_BUILDER else Built(setters[..|setters| - 1]).Set(setters[|setters| - 1])
  }

  /** Whatever setters were called in whatever order: clients are approved interactively exactly if
      encryption was ever switched on, so an encrypted server never approves all. */
  lemma {:induction false} EncryptedIsInteractive(setters: seq<Setter>)
    ensures Built(setters).strategy == Interactive <==> SetEncryption(true) in setters
    ensures Built(setters).encryption ==> Built(setters).strategy == Interactive
    decreases |setters|
  {
    if setters == [] {
    } else {
      var (before, last) := (setters[..|setters| - 1], setters[|setters| - 1]);
      EncryptedIsInteractive(before);
      assert setters == before + [last];
      assert forall s :: s in setters <==> s in before || s == last;
    }
  }

  /** Setter `k` is the last of its kind. */
  predicate LastOfKind(setters: seq<Setter>, k: nat) {
    k < |setters| &&
    forall j :: k < j < |setters| ==>
      match setters[k]
      case SetUdpPort(_) => !setters[j].SetUdpPort?
      case SetStayAlive(_) => !setters[j].SetStayAlive?
      case SetHolePuncher(_) => !setters[j].SetHolePuncher?
      case SetEncryption(_) => !setters[j].SetEncryption?
  }

  /** A setting is what the last call of its setter was given. */
  lemma {:induction false} LastCallDecides(setters: seq<Setter>, k: nat)
    requires LastOfKind(setters, k)
    ensures match setters[k]
            case SetUdpPort(_) => true
            case SetStayAlive(on) => Built(setters).stayAlive == on
            case SetHolePuncher(h) => Built(setters).holepunch == h
            case SetEncryption(on) => Built(setters).encryption == on
    decreases |setters|
  {
    var (before, last) := (setters[..|setters| - 1], setters[|setters| - 1]);
    assert Built(setters) == Built(before).Set(last);
    if k < |before| {
      assert LastOfKind(before, k);
      LastCallDecides(before, k);
    }
  }

  /** And without such a call: no encryption, no staying alive, no hole punching. */
  lemma {:induction false} DefaultsDecide(setters: seq<Setter>)
    ensures (forall s :: s in setters ==> !s.SetStayAlive?) ==> !Built(setters).stayAlive
    ensures (forall s :: s in setters ==> !s.SetHolePuncher?) ==> Built(setters).holepunch == NoPuncher
    ensures (forall s :: s in setters ==> !s.SetEncryption?) ==> !Built(setters).encryption
    decreases |setters|
  {
    if setters == [] {
    } else {
      var before := setters[..|setters| - 1];
      DefaultsDecide(before);
      assert forall s :: s in before ==> s in setters;
      assert setters[|setters| - 1] in setters;
    }
  }

  class FileSrvBuilder {
    var stayAlive: bool
    var encryption: bool
    var strategy: ApprovalStrategy
    var holepunch: HolePuncher

    ghost function Settings(): Builder
      reads this
    {
      Builder(stayAlive, encryption, strategy, holepunch)
    }

    constructor ()
      ensures Settings() == NEW_BUILDER
    {
      stayAlive, encryption, strategy, holepunch := false, false, ApproveAll, NoPuncher;
    }

    method SetStayAlive(on: bool)
      modifies this
      ensures Settings() == old(Settings()).Set(Setter.SetStayAlive(on))
    {
      stayAlive := on;
    }

    method SetHolePuncher(h: HolePuncher)
      modifies this
      ensures Settings() == old(Settings()).Set(Setter.SetHolePuncher(h))
    {
      holepunch := h;
    }

    method SetEncryption(on: bool)
      modifies this
      ensures Settings() == old(Settings()).Set(Setter.SetEncryption(on))
    {
      if on {
        strategy := Interactive;
      }
      encryption := on;
    }
  }

  // ----- state -----

  /** Where `serve` is. */
  datatype MainPc =
    | Starting | Punching | Announcing | UdpHead | UdpRecv | Replying
    | AwaitingData | Joining | JoiningThreads | Releasing | Resetting
    | ReturnedOk | ReturnedErr | MainPanic

  /** Where `data_srv` is. */
  datatype DataPc =
    | NotSpawned | DataStarting | LoopHead | Accepting | Greeting | Cloning | Flagging | AwaitingTask
    | DataOk | DataErr | DataPanic

  datatype TaskState = TaskRunning | TaskOk | TaskErr | TaskPanic

  /** The render thread: none, in its loop, past the end of its loop, returned, or failed on the
      terminal; in the last two its receiver is gone. */
  datatype RenderPc = NoRender | Rendering | Leaving | RenderDone | RenderFailed

  datatype EventPc = NoEvents | EventHead | Polling | Forwarding | EventsDone | EventsFailed

  datatype State = State(
    b: Builder, flag: bool, main: MainPc, data: DataPc, accepted: nat, tasks: seq<TaskState>,
    render: RenderPc, events: EventPc, held: bool, released: nat)
  {
    /** `serve` starts the interface in this mode. */
    predicate Tui() {
      b.strategy == Interactive && b.stayAlive
    }

    /** The logger's channel is gone, so writing to the log panics. */
    predicate LogPanics() {
      render == RenderDone || render == RenderFailed
    }

    predicate Over() {
      main == ReturnedOk || main == ReturnedErr || main == MainPanic
    }
  }

  function Fresh(b: Builder): State {
    State(b, false, Starting, NotSpawned, 0, [], NoRender, NoEvents, false, 0)
  }

  /** What the outside world lets happen in a step. */
  datatype Luck = Good | Bad | Timeout

  datatype Step =
    | Main(luck: Luck) | Data(luck: Luck) | Task(i: nat, result: TaskState)
    | QuitKey | SeeFlag | LeaveRender | RenderError
    | Events(event: bool) | EventError

  // ----- serve -----

  function MainStep(s: State, luck: Luck): Option<State> {
    match s.main
    case Starting =>
      if !s.Tui() then Some(s.(main := Punching))
      else if luck != Good then Some(s.(main := ReturnedErr))
      else Some(s.(main := Punching, render := Rendering, events := EventHead))
    case Punching =>
      if s.LogPanics() then Some(s.(main := MainPanic))
      else if s.b.holepunch == NoPuncher then Some(s.(main := Announcing))
      else if luck != Good then Some(s.(main := ReturnedErr))
      else Some(s.(main := Announcing, held := true))
    case Announcing =>
      if s.LogPanics() then Some(s.(main := MainPanic))
      else if luck != Good then Some(s.(main := ReturnedErr))
      else Some(s.(main := UdpHead, data := DataStarting))
    case UdpHead => Some(s.(main := if s.flag then AwaitingData else UdpRecv))
    case UdpRecv =>
      (match luck
       case Timeout => Some(s.(main := UdpHead))
       case Bad => Some(s.(main := ReturnedErr))
       case Good => Some(s.(main := if s.LogPanics() then MainPanic else Replying)))
    case Replying =>
      if luck != Good then Some(s.(main := ReturnedErr))
      else Some(s.(main := if s.b.stayAlive then UdpHead else AwaitingData))
    case AwaitingData =>
      (match s.data
       case DataOk => Some(s.(main := Joining))
       case DataErr => Some(s.(main := ReturnedErr))
       case DataPanic => Some(s.(main := MainPanic))
       case _ => None)
    case Joining =>
      if s.Tui() then Some(s.(main := JoiningThreads, flag := true)) else Some(s.(main := Releasing))
    case JoiningThreads =>
      if s.render == RenderFailed then Some(s.(main := MainPanic))
      else if s.render != RenderDone then None
      else if s.events == EventsFailed then Some(s.(main := MainPanic))
      else if s.events != EventsDone then None
      else Some(s.(main := Releasing))
    case Releasing =>
      if !s.held then Some(s.(main := Resetting))
      else if luck != Good then Some(s.(main := ReturnedErr))
      else Some(s.(main := Resetting, held := false, released := s.released + 1))
    case Resetting => Some(s.(main := ReturnedOk, flag := false))
    case _ => None
  }

  // ----- data_srv -----

  function DataStep(s: State, luck: Luck): Option<State> {
    match s.data
    case DataStarting =>
      if luck != Good then Some(s.(data := DataErr))
      else Some(s.(data := if s.LogPanics() then DataPanic else LoopHead))
    case LoopHead => Some(s.(data := if s.flag then DataOk else Accepting))
    case Accepting =>
      (match luck
       case Timeout => Some(s.(data := LoopHead))
       case Bad => Some(s.(data := DataErr))
       case Good =>
         Some(s.(data := if s.LogPanics() then DataPanic else Greeting, accepted := s.accepted + 1)))
    case Greeting =>
      if luck != Good then Some(s.(data := DataErr)) else Some(s.(data := Cloning))
    case Cloning => // opens the file again, and panics if it is gone
      if luck != Good then Some(s.(data := DataPanic))
      else Some(s.(data := if s.b.stayAlive then LoopHead else Flagging, tasks := s.tasks + [TaskRunning]))
    case Flagging => Some(s.(data := AwaitingTask, flag := true))
    case AwaitingTask =>
      if s.tasks == [] then None
      else
        (match s.tasks[|s.tasks| - 1]
         case TaskRunning => None
         case TaskOk => Some(s.(data := DataOk))
         case TaskErr => Some(s.(data := DataErr))
         case TaskPanic => Some(s.(data := DataPanic)))
    case _ => None
  }

  // ----- the interface's threads -----

  function EventStep(s: State, event: bool): Option<State> {
    match s.events
    case EventHead => Some(s.(events := if s.flag then EventsDone else Polling))
    case Polling => Some(s.(events := if event then Forwarding else EventHead))
    case Forwarding =>
      Some(s.(events := if s.render == RenderDone || s.render == RenderFailed then EventsFailed else EventHead))
    case _ => None
  }

  function Next(s: State, step: Step): Option<State> {
    match step
    case Main(luck) => MainStep(s, luck)
    case Data(luck) => DataStep(s, luck)
    case Task(i, result) =>
      if i < |s.tasks| && s.tasks[i] == TaskRunning && result != TaskRunning
      then Some(s.(tasks := s.tasks[i := result]))
      else None
    case QuitKey => if s.render == Rendering then Some(s.(render := Leaving, flag := true)) else None
    case SeeFlag => if s.render == Rendering && s.flag then Some(s.(render := Leaving)) else None
    case LeaveRender => if s.render == Leaving then Some(s.(render := RenderDone)) else None
    case RenderError => if s.render == Rendering || s.render == Leaving then Some(s.(render := RenderFailed)) else None
    case Events(event) => EventStep(s, event)
    case EventError => if s.events == Polling then Some(s.(events := EventsFailed)) else None
  }

  function Run(s: State, steps: seq<Step>): Option<State>
    decreases |steps|
  {
    if steps == [] then Some(s)
    else
      match Next(s, steps[0])
      case None => None
      case Some(s') => Run(s', steps[1..])
  }

  // ----- the invariant -----

  predicate DataDone(s: State) {
    s.data == DataOk || s.data == DataErr || s.data == DataPanic
  }

  /** `serve` has seen its data task end well. */
  predicate PastData(s: State) {
    s.main == Joining || s.main == JoiningThreads || s.main == Releasing || s.main == Resetting || s.main == ReturnedOk
  }

  predicate BeforeData(s: State) {
    s.main == Starting || s.main == Punching || s.main == Announcing
  }

  /** What puts the flag up: a one-shot data task with its connection, the interface on its way out. */
  predicate Stopping(s: State) {
    s.data == AwaitingTask || (!s.b.stayAlive && s.data == DataOk) || s.render == Leaving || s.render == RenderDone
  }

  /** The flag is up from then until `serve` returns Ok, and nothing else puts it up. */
  predicate FlagInv(s: State) {
    && (s.flag ==> if s.b.stayAlive then s.render != NoRender && s.render != Rendering
                   else s.data == AwaitingTask || DataDone(s))
    && (s.main == AwaitingData && s.b.stayAlive ==> s.flag)
    && (s.b.stayAlive && s.data == DataOk ==> s.render != NoRender && s.render != Rendering)
    && (s.main == ReturnedOk ==> !s.flag)
    && (Stopping(s) && s.main != ReturnedOk ==> s.flag)
  }

  /** The accept loop is busy with a connection. */
  predicate Serves(pc: DataPc) {
    pc == Greeting || pc == Cloning || pc == Flagging || pc == AwaitingTask
  }

  /** A one-shot data task accepts one connection at most, and ends well only over it. */
  predicate DataInv(s: State) {
    && (s.b.stayAlive ==> s.data != Flagging && s.data != AwaitingTask)
    && (!s.b.stayAlive ==>
          && |s.tasks| <= s.accepted <= 1
          && (s.accepted == 1 ==> Serves(s.data) || DataDone(s))
          && (Serves(s.data) || s.data == DataOk ==> s.accepted == 1)
          && (s.data == Flagging || s.data == AwaitingTask || s.data == DataOk ==> |s.tasks| == 1)
          && (|s.tasks| == 1 ==> s.data == Flagging || s.data == AwaitingTask || DataDone(s))
          && (s.data == DataOk ==> s.tasks == [TaskOk]))
    && (BeforeData(s) ==> s.data == NotSpawned)
    && (!BeforeData(s) && !s.Over() ==> s.data != NotSpawned)
    && (s.data == NotSpawned ==> s.tasks == [] && s.accepted == 0)
    && (PastData(s) ==> s.data == DataOk)
  }

  /** The interface runs in its mode only, and both threads are over when `serve` goes on. */
  predicate UiInv(s: State) {
    && (!s.Tui() || s.main == Starting ==> s.render == NoRender)
    && (s.Tui() && s.main != Starting && s.main != ReturnedErr ==> s.render != NoRender)
    && (s.render == NoRender <==> s.events == NoEvents)
    && (s.Tui() && (s.main == Releasing || s.main == Resetting || s.main == ReturnedOk) ==>
          s.render == RenderDone && s.events == EventsDone)
    && (s.main == JoiningThreads ==> s.Tui())
  }

  /** What the hole puncher acquired is held until it is released, which happens once. */
  predicate HandleInv(s: State) {
    if s.b.holepunch == NoPuncher || s.main == Starting || s.main == Punching then !s.held && s.released == 0
    else if s.main == Resetting || s.main == ReturnedOk then !s.held && s.released == 1
    else s.released == 0 && (!s.Over() ==> s.held)
  }

  predicate Inv(s: State) {
    FlagInv(s) && DataInv(s) && UiInv(s) && HandleInv(s)
  }

  lemma FreshInv(b: Builder)
    ensures Inv(Fresh(b))
  {
  }

  lemma MainFlag(s: State, luck: Luck)
    requires FlagInv(s) && DataInv(s) && UiInv(s) && MainStep(s, luck).Some?
    ensures FlagInv(MainStep(s, luck).value)
  {
    var s' := MainStep(s, luck).value;
    assert s'.flag != s.flag ==> s.main == Joining || s.main == Resetting;
  }

  lemma MainData(s: State, luck: Luck)
    requires DataInv(s) && MainStep(s, luck).Some?
    ensures DataInv(MainStep(s, luck).value)
  {
    MainLeavesData(s, luck);
    MainMoves(s, luck);
    hide MainStep;
  }

  /** All `serve` does to its data task is to start it, and to wait for its end. */
  lemma MainLeavesData(s: State, luck: Luck)
    requires MainStep(s, luck).Some?
    ensures var s' := MainStep(s, luck).value;
            && s'.b == s.b && s'.tasks == s.tasks && s'.accepted == s.accepted
            && s'.data == (if BeforeData(s) && s'.main == UdpHead then DataStarting else s.data)
  {
  }

  lemma MainMoves(s: State, luck: Luck)
    requires MainStep(s, luck).Some?
    ensures var s' := MainStep(s, luck).value;
            && (BeforeData(s) && !BeforeData(s') ==> s'.main == UdpHead || s'.Over())
            && (BeforeData(s') ==> BeforeData(s))
            && (PastData(s') ==> PastData(s) || (s.main == AwaitingData && s.data == DataOk))
            && !s.Over()
  {
  }

  lemma MainUi(s: State, luck: Luck)
    requires UiInv(s) && MainStep(s, luck).Some?
    ensures UiInv(MainStep(s, luck).value)
  {
  }

  lemma MainHandle(s: State, luck: Luck)
    requires HandleInv(s) && MainStep(s, luck).Some?
    ensures HandleInv(MainStep(s, luck).value)
  {
  }

  lemma MainInv(s: State, luck: Luck)
    requires Inv(s) && MainStep(s, luck).Some?
    ensures Inv(MainStep(s, luck).value)
  {
    MainFlag(s, luck);
    MainData(s, luck);
    MainUi(s, luck);
    MainHandle(s, luck);
    hide MainStep, FlagInv, DataInv, UiInv, HandleInv;
  }

  lemma DataStepInv(s: State, luck: Luck)
    requires Inv(s) && DataStep(s, luck).Some?
    ensures Inv(DataStep(s, luck).value)
  {
    HandleUntouched(s, DataStep(s, luck).value);
    hide HandleInv, UiInv;
    DataStepFlag(s, luck);
    DataStepData(s, luck);
    hide DataStep, FlagInv, DataInv;
  }

  lemma DataStepFlag(s: State, luck: Luck)
    requires FlagInv(s) && DataInv(s) && DataStep(s, luck).Some?
    ensures FlagInv(DataStep(s, luck).value)
  {
  }

  lemma DataStepData(s: State, luck: Luck)
    requires FlagInv(s) && DataInv(s) && DataStep(s, luck).Some?
    ensures DataInv(DataStep(s, luck).value)
  {
  }

  /** Only `serve` itself touches the handle or waits for the interface. */
  lemma HandleUntouched(s: State, s': State)
    requires s' == s.(data := s'.data, accepted := s'.accepted, tasks := s'.tasks, flag := s'.flag)
    ensures HandleInv(s) ==> HandleInv(s')
    ensures UiInv(s) ==> UiInv(s')
  {
  }

  lemma NextInv(s: State, step: Step)
    requires Inv(s) && Next(s, step).Some?
    ensures Inv(Next(s, step).value)
  {
    hide MainStep, DataStep;
    match step
    case Main(luck) => MainInv(s, luck);
    case Data(luck) => DataStepInv(s, luck);
    case _ =>
  }

  lemma {:induction false} RunInv(s: State, steps: seq<Step>)
    requires Inv(s) && Run(s, steps).Some?
    ensures Inv(Run(s, steps).value)
    decreases |steps|
  {
    hide Inv, Next;
    if steps == [] {
    } else {
      NextInv(s, steps[0]);
      RunInv(Next(s, steps[0]).value, steps[1..]);
    }
  }

  ghost predicate Reached(s: State) {
    exists steps :: Run(Fresh(s.b), steps) == Some(s)
  }

  lemma ReachedInv(s: State)
    requires Reached(s)
    ensures Inv(s)
  {
    hide Inv, Run;
    var steps :| Run(Fresh(s.b), steps) == Some(s);
    FreshInv(s.b);
    RunInv(Fresh(s.b), steps);
  }

  // ----- what every run keeps -----

  /** A server that does not stay alive never takes a second connection. */
  lemma OneShot(s: State)
    requires Reached(s) && !s.b.stayAlive
    ensures |s.tasks| <= s.accepted <= 1
    ensures s.main == ReturnedOk ==> s.tasks == [TaskOk]
  {
    ReachedInv(s);
    hide UiInv, HandleInv, FlagInv, Reached;
  }

  /** When `serve` returns Ok: the accept loop has ended well, the interface is gone, the flag is
      false, and what the hole puncher acquired has been released, once. It has been released in no
      other outcome: an error or a panic after the acquisition leaves it behind. */
  lemma ServeOutcome(s: State)
    requires Reached(s)
    ensures s.main == ReturnedOk ==>
              && s.data == DataOk && !s.flag && !s.held
              && s.released == (if s.b.holepunch == NoPuncher then 0 else 1)
              && (s.Tui() ==> s.render == RenderDone && s.events == EventsDone)
    ensures s.released <= 1
    ensures s.Over() && s.b.holepunch != NoPuncher ==> (s.released == 1 <==> s.main == ReturnedOk)
  {
    ReachedInv(s);
    hide Reached;
  }

  /** The flag goes up with a one-shot server's connection, and when the operator quits; and it stays
      up until `serve` returns Ok. */
  lemma FlagComesUp(s: State)
    requires Reached(s) && Stopping(s) && s.main != ReturnedOk
    ensures s.flag
  {
    ReachedInv(s);
    hide Reached;
  }

  /** Between startup and the last step of `serve`, which does it, the flag is never taken back. */
  lemma FlagStays(s: State, step: Step)
    requires Next(s, step).Some? && s.flag
    ensures Next(s, step).value.flag <==> !(step.Main? && s.main == Resetting)
  {
  }

  /** The accept loop will end without looking for another connection. */
  predicate Closing(s: State) {
    s.flag || DataDone(s)
  }

  function Underway(s: State): nat {
    if s.data == Accepting then 1 else 0
  }

  /** Once the flag is up, in whatever order things happen after that: the only connection that can
      still be accepted is one whose accept was already under way. */
  lemma {:induction false} AcceptsAfterFlag(s: State, steps: seq<Step>)
    requires Inv(s) && Closing(s) && Run(s, steps).Some?
    ensures Run(s, steps).value.accepted <= s.accepted + Underway(s)
    decreases |steps|
  {
    if steps == [] {
    } else {
      NextInv(s, steps[0]);
      ClosingStep(s, steps[0]);
      hide Next, Inv, Closing, Underway;
      AcceptsAfterFlag(Next(s, steps[0]).value, steps[1..]);
    }
  }

  lemma ClosingStep(s: State, step: Step)
    requires Inv(s) && Closing(s) && Next(s, step).Some?
    ensures var s' := Next(s, step).value;
            Closing(s') && s'.accepted + Underway(s') <= s.accepted + Underway(s)
  {
    assert DataInv(s);
    hide MainStep, DataStep, Inv, DataInv;
    match step
    case Main(luck) => ClosingMain(s, luck);
    case Data(luck) => ClosingData(s, luck);
    case _ => OthersLeaveData(s, step);
  }

  lemma OthersLeaveData(s: State, step: Step)
    requires !step.Main? && !step.Data? && Next(s, step).Some?
    ensures var s' := Next(s, step).value;
            s'.data == s.data && s'.accepted == s.accepted && (s.flag ==> s'.flag)
  {
  }

  lemma ClosingMain(s: State, luck: Luck)
    requires DataInv(s) && Closing(s) && MainStep(s, luck).Some?
    ensures var s' := MainStep(s, luck).value;
            Closing(s') && s'.accepted == s.accepted && Underway(s') == Underway(s)
  {
  }

  lemma ClosingData(s: State, luck: Luck)
    requires Closing(s) && DataStep(s, luck).Some?
    ensures var s' := DataStep(s, luck).value;
            Closing(s') && s'.accepted + Underway(s') <= s.accepted + Underway(s)
  {
  }
}
