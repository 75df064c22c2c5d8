/** The interactive server that stays alive: any number of connections, each with its client, the terminal
    interface that queues their requests, and the operator's keys (src/server/mod.rs,
    src/server/tui.rs, src/tui/mod.rs). Every step of every part can come at any time. */
module Hub {
  import opened Wrappers
  import opened Bytes
  import opened Noise
  import opened Models
  import opened Session
  import opened SessionSafety
  import opened SessionDelivery
  import T = Tui

  datatype Conn = Conn(cfg: Config, session: Session)

  /** `chan` is the channel into the interface, `history` the messages it has handled; `ended` says that
      the last of them quit its loop, and `open` is false once its receiver is gone; `replies` holds the
      value each connection's reply channel got. All connections serve the same file under the same
      header. */
  datatype World = World(
    info: DataSrvInfo, file: seq<byte>, conns: seq<Conn>, chan: seq<T.TermMsg>, history: seq<T.TermMsg>,
    ended: bool, open: bool, replies: map<nat, bool>)
  {
    function Server(i: nat): Server
      requires i < |conns|
    {
      conns[i].session.server
    }

    function Update(i: nat, s: Session): World
      requires i < |conns|
    {
      this.(conns := conns[i := Conn(conns[i].cfg, s)])
    }
  }

  function Start(info: DataSrvInfo, file: seq<byte>): World {
    World(info, file, [], [], [], false, true, map[])
  }

  datatype WorldStep =
    | Accept(cfg: Config)
    | ConnStep(i: nat, step: Step)
    | SubmitRequest(i: nat) | SubmitFails(i: nat) | TakeReply(i: nat) | NoReply(i: nat)
    | Send(msg: T.TermMsg)
    | Handle | CloseUi

  predicate AsksApprover(step: Step) {
    step.Submit? || step.Verdict? || step.ApproverError?
  }

  /** Connection `i` takes a step of its own. */
  function Local(w: World, i: nat, step: Step): Option<World>
    requires i < |w.conns|
  {
    match Apply(w.conns[i].cfg, w.conns[i].session, step)
    case None => None
    case Some(s') => Some(w.Update(i, s'))
  }

  /** The loop of the interface goes on as long as there is a receiver and no message has quit it. */
  predicate CanHandle(w: World) {
    w.open && !w.ended && w.chan != []
  }

  /** The interface handles the next message. */
  function HandleNext(w: World): World
    requires CanHandle(w)
  {
    var (t, msg) := (T.After(w.history), w.chan[0]);
    var answered := T.Answered(t, msg);
    var logged := if answered.Some? && answered.value.approved then [T.Log("Client downloading")] else [];
    w.(history := w.history + [msg],
       chan := w.chan[1..] + logged,
       ended := T.Quits(msg),
       replies := if answered.Some? && answered.value.request.reply !in w.replies
                  then w.replies[answered.value.request.reply := answered.value.approved] else w.replies)
  }

  /** One step of the server; None when it is not possible. The receiver goes, with all that is in the
      channel, some time after a message has quit the loop, or at any time when the loop sees the shutdown
      flag or the terminal fails. `TuiApprover::submit` fails when it is gone, and gets no reply when it
      goes with its request unanswered. */
  function Next(w: World, step: WorldStep): Option<World> {
    match step
    case Accept(cfg) =>
      if cfg.info == w.info && cfg.file == w.file then Some(w.(conns := w.conns + [Conn(cfg, Initial(cfg))])) else None
    case ConnStep(i, local) => if i < |w.conns| && !AsksApprover(local) then Local(w, i, local) else None
    case SubmitRequest(i) =>
      if i < |w.conns| && w.open && w.Server(i).pc == Submitting then
        (match Local(w, i, Submit)
         case None => None
         case Some(w') => Some(w'.(chan := w.chan + [T.ClientRequest(T.Request(w.Server(i).noise.rs, i))])))
      else None
    case SubmitFails(i) =>
      if i < |w.conns| && !w.open && w.Server(i).pc == Submitting then Local(w, i, ApproverError) else None
    case TakeReply(i) =>
      if i < |w.conns| && i in w.replies && w.Server(i).pc == Awaiting then Local(w, i, Verdict(w.replies[i])) else None
    case NoReply(i) =>
      if i < |w.conns| && i !in w.replies && !w.open && w.Server(i).pc == Awaiting then Local(w, i, ApproverError)
      else None
    case Send(msg) =>
      if w.open && !msg.ClientRequest? then Some(w.(chan := w.chan + [msg])) else None
    case Handle => if CanHandle(w) then Some(HandleNext(w)) else None
    case CloseUi => Some(w.(open := false, chan := []))
  }

  function Run(w: World, steps: seq<WorldStep>): Option<World>
    decreases |steps|
  {
    if steps == [] then Some(w)
    else
      match Next(w, steps[0])
      case None => None
      case Some(w') => Run(w', steps[1..])
  }

  // ----- the invariant -----

  /** How far a connection is with its approval: not asked, waiting, answered. */
  function Stage(cfg: Config, sv: Server): nat {
    if !cfg.info.encrypted then 0
    else if sv.pc == Awaiting then 1
    else if sv.pc == SendingVerdict || sv.pc == Copying then 2
    else 0
  }

  /** The bookkeeping of approvals: per connection its stage, the verdict it holds and its client's
      public key; the requests made, handled or not; the answers given, and what each reply channel
      got. */
  datatype Books = Books(
    stages: seq<nat>, verdicts: seq<bool>, ids: seq<seq<Octet>>, made: seq<T.Request>, answers: seq<T.Answer>,
    replies: map<nat, bool>)
  {
    function RequestOf(i: nat): T.Request
      requires i < |ids|
    {
      T.Request(ids[i], i)
    }

    /** Each connection makes one request at most, in its client's name. */
    predicate RequestsOk() {
      && T.Distinct(made)
      && (forall r :: r in made ==>
            r.reply < |stages| && r.reply < |ids| && r == RequestOf(r.reply) && stages[r.reply] >= 1)
    }

    /** A reply is an answer to that connection's request, and every answer is such a reply. */
    predicate RepliesOk() {
      && (forall i :: i in replies ==> i < |ids| && T.Answer(RequestOf(i), replies[i]) in answers)
      && (forall a :: a in answers ==> a.request.reply in replies && replies[a.request.reply] == a.approved)
    }

    /** The verdict of a connection that has one is its reply. */
    predicate VerdictsOk() {
      |verdicts| == |stages| &&
      forall i :: 0 <= i < |stages| && stages[i] == 2 ==> i in replies && verdicts[i] == replies[i]
    }

    predicate Ok() {
      |stages| == |verdicts| == |ids| && RequestsOk() && RepliesOk() && VerdictsOk()
    }

    /** Every connection that waits or has waited has its request in the books. */
    predicate AllAsked() {
      |ids| == |stages| && forall i :: 0 <= i < |stages| && stages[i] >= 1 ==> RequestOf(i) in made
    }
  }

  /** All requests made, handled or not. */
  function Made(w: World): seq<T.Request> {
    T.Requests(w.history + w.chan)
  }

  function Stages(conns: seq<Conn>): seq<nat> {
    seq(|conns|, i requires 0 <= i < |conns| => Stage(conns[i].cfg, conns[i].session.server))
  }

  function Verdicts(conns: seq<Conn>): seq<bool> {
    seq(|conns|, i requires 0 <= i < |conns| => conns[i].session.server.approved)
  }

  function Ids(conns: seq<Conn>): seq<seq<Octet>> {
    seq(|conns|, i requires 0 <= i < |conns| => PublicKey(conns[i].cfg.keys.sc))
  }

  function BooksOf(w: World): Books {
    Books(Stages(w.conns), Verdicts(w.conns), Ids(w.conns), Made(w), T.Answers(w.history), w.replies)
  }

  lemma ColumnsAppend(conns: seq<Conn>, c: Conn)
    ensures Stages(conns + [c]) == Stages(conns) + [Stage(c.cfg, c.session.server)]
    ensures Verdicts(conns + [c]) == Verdicts(conns) + [c.session.server.approved]
    ensures Ids(conns + [c]) == Ids(conns) + [PublicKey(c.cfg.keys.sc)]
  {
  }

  lemma ColumnsUpdate(conns: seq<Conn>, i: nat, c: Conn)
    requires i < |conns| && c.cfg == conns[i].cfg
    ensures Stages(conns[i := c]) == Stages(conns)[i := Stage(c.cfg, c.session.server)]
    ensures Verdicts(conns[i := c]) == Verdicts(conns)[i := c.session.server.approved]
    ensures Ids(conns[i := c]) == Ids(conns)
    ensures Stages(conns)[i] == Stage(conns[i].cfg, conns[i].session.server)
    ensures Verdicts(conns)[i] == conns[i].session.server.approved
    ensures Ids(conns)[i] == PublicKey(c.cfg.keys.sc)
    ensures |Stages(conns)| == |Verdicts(conns)| == |Ids(conns)| == |conns|
  {
  }

  ghost predicate ConnsInv(w: World) {
    forall i :: 0 <= i < |w.conns| ==>
      && w.conns[i].cfg.info == w.info && w.conns[i].cfg.file == w.file
      && Reachable(w.conns[i].cfg, w.conns[i].session)
  }

  ghost predicate WorldInv(w: World) {
    && w.info.dataLength == |w.file|
    && ConnsInv(w)
    && BooksOf(w).Ok()
    && (if w.open then BooksOf(w).AllAsked() else w.chan == [])
  }

  // ----- the books -----

  lemma BooksAccept(b: Books, id: seq<Octet>)
    requires b.Ok()
    ensures var b' := b.(stages := b.stages + [0], verdicts := b.verdicts + [false], ids := b.ids + [id]);
            b'.Ok() && (b.AllAsked() ==> b'.AllAsked())
  {
  }

  lemma BooksSubmit(b: Books, i: nat)
    requires b.Ok() && i < |b.stages| && b.stages[i] == 0
    ensures var b' := b.(stages := b.stages[i := 1], made := b.made + [b.RequestOf(i)]);
            b'.Ok() && (b.AllAsked() ==> b'.AllAsked())
  {
  }

  lemma BooksTake(b: Books, i: nat)
    requires b.Ok() && i < |b.stages| && b.stages[i] == 1 && i in b.replies
    ensures var b' := b.(stages := b.stages[i := 2], verdicts := b.verdicts[i := b.replies[i]]);
            b'.Ok() && (b.AllAsked() ==> b'.AllAsked())
  {
  }

  lemma BooksForget(b: Books, made: seq<T.Request>)
    requires b.Ok() && made <= b.made
    ensures b.(made := made).Ok()
  {
  }

  lemma BooksAnswer(b: Books, a: T.Answer)
    requires b.Ok() && a.request in b.made && a.request.reply !in b.replies
    ensures var b' := b.(answers := b.answers + [a], replies := b.replies[a.request.reply := a.approved]); b'.Ok()
  {
  }

  // ----- lemmas about the parts -----

  /** Only asking the approver and its answer move a connection from one stage to another. */
  lemma StageKept(cfg: Config, s: Session, step: Step)
    requires cfg.Valid() && Reachable(cfg, s) && Apply(cfg, s, step).Some?
    requires !step.Submit? && !step.Verdict?
    ensures var s' := Apply(cfg, s, step).value;
            Stage(cfg, s'.server) == Stage(cfg, s.server) && s'.server.approved == s.server.approved
  {
    HandshakeIsEncrypted(cfg, s);
    hide Reachable, ServerStep, ClientStep, Stage;
    if !OfServer(step) && !step.Cut? {
      ClientStepFrame(cfg, ScriptOf(cfg), s, step);
    } else if OfServer(step) {
      ServerStageKept(cfg, s, step);
    }
  }

  lemma HandshakeIsEncrypted(cfg: Config, s: Session)
    requires cfg.Valid() && Reachable(cfg, s)
    ensures s.server.pc != SendingHeader && s.server.pc != Copying ==> cfg.info.encrypted
    ensures s.server.pc == Submitting ==> s.server.noise.rs == PublicKey(cfg.keys.sc)
  {
    ReachableInv(cfg, s);
    hide ScriptOf, ClientInv, ServerScript, ServerCopies;
  }

  lemma ServerStageKept(cfg: Config, s: Session, step: Step)
    requires s.server.pc != SendingHeader && s.server.pc != Copying ==> cfg.info.encrypted
    requires OfServer(step) && !step.Submit? && !step.Verdict? && ServerStep(cfg, s, step).Some?
    ensures var s' := ServerStep(cfg, s, step).value;
            Stage(cfg, s'.server) == Stage(cfg, s.server) && s'.server.approved == s.server.approved
  {
  }

  lemma ApproverSteps(cfg: Config, s: Session, verdict: bool)
    requires cfg.info.encrypted
    ensures Apply(cfg, s, Submit).Some? ==>
              var sv := Apply(cfg, s, Submit).value.server;
              Stage(cfg, s.server) == 0 && Stage(cfg, sv) == 1 && sv.approved == s.server.approved
    ensures Apply(cfg, s, Verdict(verdict)).Some? ==>
              var sv := Apply(cfg, s, Verdict(verdict)).value.server;
              Stage(cfg, s.server) == 1 && Stage(cfg, sv) == 2 && sv.approved == verdict
  {
  }

  lemma {:induction false} RequestsAppend(a: seq<T.TermMsg>, b: seq<T.TermMsg>)
    ensures T.Requests(a + b) == T.Requests(a) + T.Requests(b)
    decreases |b|
  {
    if b == [] {
      assert a + b == a;
    } else {
      var front := b[..|b| - 1];
      assert (a + b)[..|a + b| - 1] == a + front;
      RequestsAppend(a, front);
    }
  }

  lemma OneRequest(msg: T.TermMsg)
    ensures T.Requests([msg]) == T.RequestIn(msg)
  {
  }

  // ----- every step keeps the invariant -----

  lemma AcceptInv(w: World, cfg: Config)
    requires WorldInv(w) && Next(w, Accept(cfg)).Some?
    ensures WorldInv(Next(w, Accept(cfg)).value)
  {
    var (b, w') := (BooksOf(w), Next(w, Accept(cfg)).value);
    AcceptConns(w, cfg);
    InitialStage(cfg);
    ColumnsAppend(w.conns, Conn(cfg, Initial(cfg)));
    BooksAccept(b, PublicKey(cfg.keys.sc));
    hide ConnsInv, Books.Ok, Books.AllAsked, Stages, Verdicts, Ids, Stage, Initial, PublicKey, T.Answers, T.Requests;
    assert BooksOf(w') == b.(stages := b.stages + [0], verdicts := b.verdicts + [false],
                             ids := b.ids + [PublicKey(cfg.keys.sc)]);
  }

  lemma InitialStage(cfg: Config)
    ensures Stage(cfg, Initial(cfg).server) == 0 && !Initial(cfg).server.approved
  {
  }

  lemma AcceptConns(w: World, cfg: Config)
    requires ConnsInv(w) && Next(w, Accept(cfg)).Some?
    ensures ConnsInv(Next(w, Accept(cfg)).value)
  {
    InitialReachable(cfg);
    hide Reachable, Initial;
  }

  /** A connection's step leaves the others alone, and is one of its own runs. */
  lemma LocalConns(w: World, i: nat, step: Step)
    requires WorldInv(w) && i < |w.conns| && Local(w, i, step).Some?
    ensures var s' := Apply(w.conns[i].cfg, w.conns[i].session, step).value;
            && Local(w, i, step) == Some(w.Update(i, s'))
            && ConnsInv(w.Update(i, s'))
  {
    hide Reachable, Apply, BooksOf, Books.Ok, Books.AllAsked;
    ReachableStep(w.conns[i].cfg, w.conns[i].session, step);
  }

  /** A connection's own step, or a failure of its approval. */
  lemma LocalInv(w: World, i: nat, step: Step)
    requires WorldInv(w) && i < |w.conns| && !step.Submit? && !step.Verdict? && Local(w, i, step).Some?
    ensures WorldInv(Local(w, i, step).value)
  {
    var (w', c) := (Local(w, i, step).value, w.conns[i]);
    LocalConns(w, i, step);
    StageKept(c.cfg, c.session, step);
    ColumnsUpdate(w.conns, i, w'.conns[i]);
    hide Reachable, Made, T.Answers, Apply, Stage, Books.Ok, Books.AllAsked, Stages, Verdicts, Ids;
    assert BooksOf(w') == BooksOf(w);
  }

  lemma SubmitConns(w: World, i: nat)
    requires WorldInv(w) && Next(w, SubmitRequest(i)).Some?
    ensures var (b, w') := (BooksOf(w), Next(w, SubmitRequest(i)).value);
            && ConnsInv(w') && i < |b.stages| && b.stages[i] == 0
            && Stages(w'.conns) == b.stages[i := 1] && Verdicts(w'.conns) == b.verdicts && Ids(w'.conns) == b.ids
            && w' == w.(conns := w'.conns, chan := w.chan + [T.ClientRequest(b.RequestOf(i))])
  {
    var (w', c, b) := (Next(w, SubmitRequest(i)).value, w.conns[i], BooksOf(w));
    LocalConns(w, i, Submit);
    HandshakeIsEncrypted(c.cfg, c.session);
    ApproverSteps(c.cfg, c.session, false);
    ColumnsUpdate(w.conns, i, w'.conns[i]);
    hide Reachable, Apply, Stage, PublicKey, T.Requests, T.Answers, Stages, Verdicts, Ids, Books.Ok, Books.AllAsked;
    assert b.verdicts[i := b.verdicts[i]] == b.verdicts;
    assert b.ids[i := b.ids[i]] == b.ids;
  }

  lemma SubmitInv(w: World, i: nat)
    requires WorldInv(w) && Next(w, SubmitRequest(i)).Some?
    ensures WorldInv(Next(w, SubmitRequest(i)).value)
  {
    var (w', b) := (Next(w, SubmitRequest(i)).value, BooksOf(w));
    SubmitConns(w, i);
    hide Next, Apply, T.Requests, T.Answers, Stages, Verdicts, Ids, ConnsInv;
    var msg := T.ClientRequest(b.RequestOf(i));
    assert w'.history + w'.chan == (w.history + w.chan) + [msg];
    RequestsAppend(w.history + w.chan, [msg]);
    OneRequest(msg);
    BooksSubmit(b, i);
    hide Books.Ok, Books.AllAsked;
    assert BooksOf(w') == b.(stages := b.stages[i := 1], made := b.made + [b.RequestOf(i)]);
  }

  lemma TakeReplyInv(w: World, i: nat)
    requires WorldInv(w) && Next(w, TakeReply(i)).Some?
    ensures WorldInv(Next(w, TakeReply(i)).value)
  {
    var (w', c, b) := (Next(w, TakeReply(i)).value, w.conns[i], BooksOf(w));
    LocalConns(w, i, Verdict(w.replies[i]));
    HandshakeIsEncrypted(c.cfg, c.session);
    ApproverSteps(c.cfg, c.session, w.replies[i]);
    ColumnsUpdate(w.conns, i, w'.conns[i]);
    hide Reachable, Apply, Stage, PublicKey, Made, T.Answers, Stages, Verdicts, Ids;
    BooksTake(b, i);
    hide Books.Ok, Books.AllAsked;
    assert BooksOf(w') == b.(stages := b.stages[i := 2], verdicts := b.verdicts[i := b.replies[i]]);
  }

  lemma SendInv(w: World, msg: T.TermMsg)
    requires WorldInv(w) && Next(w, Send(msg)).Some?
    ensures WorldInv(Next(w, Send(msg)).value)
  {
    hide Reachable, T.Requests, T.Answers, Books.Ok, Books.AllAsked;
    var w' := Next(w, Send(msg)).value;
    assert w'.history + w'.chan == (w.history + w.chan) + [msg];
    RequestsAppend(w.history + w.chan, [msg]);
    OneRequest(msg);
    assert Made(w') == Made(w) + [] == Made(w);
    assert BooksOf(w') == BooksOf(w);
  }

  lemma CloseInv(w: World)
    requires WorldInv(w)
    ensures WorldInv(Next(w, CloseUi).value)
  {
    hide Reachable, T.Requests, T.Answers, Books.Ok, Books.AllAsked;
    var w' := Next(w, CloseUi).value;
    RequestsAppend(w.history, w.chan);
    assert w.history + [] == w.history;
    BooksForget(BooksOf(w), T.Requests(w.history));
    assert BooksOf(w') == BooksOf(w).(made := T.Requests(w.history));
  }

  /** Handling a message makes no request. */
  lemma HandleMade(w: World)
    requires CanHandle(w)
    ensures Made(HandleNext(w)) == Made(w)
  {
    hide T.Requests, T.Answers, T.Answered, T.After;
    var (w', msg) := (HandleNext(w), w.chan[0]);
    var log := T.Log("Client downloading");
    OneRequest(log);
    RequestsAppend(w.history + w.chan, [log]);
    assert w'.chan == w.chan[1..] + [log] ==> w'.history + w'.chan == (w.history + w.chan) + [log];
    assert w'.chan == w.chan[1..] + [] ==> w'.history + w'.chan == w.history + w.chan;
  }

  /** Whoever is answered is waiting: its request was made, and its reply channel is empty. */
  lemma AnsweredIsWaiting(history: seq<T.TermMsg>, msg: T.TermMsg, b: Books)
    requires b.Ok() && T.Requests(history) <= b.made && T.Answers(history) == b.answers
    requires T.Answered(T.After(history), msg).Some?
    ensures var a := T.Answered(T.After(history), msg).value;
            a.request in b.made && a.request.reply !in b.replies
  {
    var t := T.After(history);
    var (place, r) := (t.selected.value, T.Answered(t, msg).value.request);
    assert r == t.clients[place];
    hide T.Requests, T.Answers, T.After, T.Answered, Books.VerdictsOk;
    var done := T.RequestsOf(b.answers);
    T.DistinctPrefix(T.Requests(history), b.made);
    T.OneAnswerEach(history);
    T.AskedIsWaitingOrAnswered(history, r);
    forall k | 0 <= k < |b.answers|
      ensures b.answers[k].request.reply != r.reply
    {
      assert (t.clients + done)[|t.clients| + k] == done[k] && (t.clients + done)[place] == r;
    }
  }

  lemma HandleEffect(w: World)
    requires CanHandle(w)
    ensures var (w', given) := (HandleNext(w), T.AnswersOf(T.After(w.history), w.chan[0]));
            && w' == w.(chan := w'.chan, history := w.history + [w.chan[0]], ended := T.Quits(w.chan[0]),
                        replies := w'.replies)
            && T.Answers(w'.history) == T.Answers(w.history) + given
            && (given == [] ==> w'.replies == w.replies)
            && (given != [] ==> given == [given[0]])
            && (given != [] && given[0].request.reply !in w.replies ==>
                  w'.replies == w.replies[given[0].request.reply := given[0].approved])
  {
  }

  /** The books after the interface gave `given`, one answer or none. */
  function Answering(b: Books, given: seq<T.Answer>): Books {
    if given == [] then b
    else b.(answers := b.answers + [given[0]], replies := b.replies[given[0].request.reply := given[0].approved])
  }

  lemma BooksHandle(b: Books, history: seq<T.TermMsg>, msg: T.TermMsg)
    requires b.Ok() && b.AllAsked() && T.Requests(history) <= b.made && T.Answers(history) == b.answers
    ensures var given := T.AnswersOf(T.After(history), msg);
            && Answering(b, given).Ok() && Answering(b, given).AllAsked()
            && (given != [] ==> given[0].request.reply !in b.replies)
  {
    var given := T.AnswersOf(T.After(history), msg);
    if given != [] {
      AnsweredIsWaiting(history, msg, b);
    }
    hide T.Requests, T.Answers, T.After, T.Answered, Books.Ok, Books.AllAsked;
    if given != [] {
      BooksAnswer(b, given[0]);
    }
    SameAsked(b, Answering(b, given));
  }

  lemma HandleBooks(w: World)
    requires BooksOf(w).Ok() && BooksOf(w).AllAsked() && CanHandle(w)
    ensures BooksOf(HandleNext(w)).Ok() && BooksOf(HandleNext(w)).AllAsked()
  {
    var (w', b) := (HandleNext(w), BooksOf(w));
    HandleMade(w);
    HandleEffect(w);
    RequestsAppend(w.history, w.chan);
    assert T.Requests(w.history) <= b.made;
    hide HandleNext, Made, T.Requests, T.Answers, T.After, T.AnswersOf, T.Answered, Books.Ok, Books.AllAsked,
         Stages, Verdicts, Ids, Stage, PublicKey;
    BooksHandle(b, w.history, w.chan[0]);
    assert BooksOf(w') == Answering(b, T.AnswersOf(T.After(w.history), w.chan[0]));
  }

  lemma HandleInv(w: World)
    requires WorldInv(w) && CanHandle(w)
    ensures WorldInv(HandleNext(w))
  {
    HandleBooks(w);
    HandleEffect(w);
    hide HandleNext, Reachable, BooksOf, T.Answers, T.AnswersOf;
  }

  lemma SameAsked(b: Books, b': Books)
    requires b.ids == b'.ids && b.stages == b'.stages && b.made == b'.made && b.AllAsked()
    ensures b'.AllAsked()
  {
  }

  lemma NextInv(w: World, step: WorldStep)
    requires WorldInv(w) && Next(w, step).Some?
    ensures WorldInv(Next(w, step).value)
  {
    hide WorldInv, Local, HandleNext;
    match step
    case Accept(cfg) => AcceptInv(w, cfg);
    case ConnStep(i, local) => LocalInv(w, i, local);
    case SubmitRequest(i) => SubmitInv(w, i);
    case SubmitFails(i) => LocalInv(w, i, ApproverError);
    case TakeReply(i) => TakeReplyInv(w, i);
    case NoReply(i) => LocalInv(w, i, ApproverError);
    case Send(msg) => SendInv(w, msg);
    case Handle => HandleInv(w);
    case CloseUi => CloseInv(w);
  }

  lemma {:induction false} RunInv(w: World, steps: seq<WorldStep>)
    requires WorldInv(w) && Run(w, steps).Some?
    ensures WorldInv(Run(w, steps).value)
    decreases |steps|
  {
    hide WorldInv, Next;
    if steps == [] {
    } else {
      NextInv(w, steps[0]);
      RunInv(Next(w, steps[0]).value, steps[1..]);
    }
  }

  lemma StartInv(info: DataSrvInfo, file: seq<byte>)
    requires info.dataLength == |file|
    ensures WorldInv(Start(info, file))
  {
  }

  // ----- what holds of every run of the server -----

  /** `w` can be reached by some run of a server for this file. */
  ghost predicate Reached(w: World) {
    w.info.dataLength == |w.file| && exists steps :: Run(Start(w.info, w.file), steps) == Some(w)
  }

  lemma ReachedInv(w: World)
    requires Reached(w)
    ensures WorldInv(w)
  {
    hide WorldInv, Run;
    var steps :| Run(Start(w.info, w.file), steps) == Some(w);
    StartInv(w.info, w.file);
    RunInv(Start(w.info, w.file), steps);
  }

  /** The operator gave connection `i` this answer: some key did it (Enter or 'n') at a moment when the
      request of this very connection, in the name of its client's key, was the selected one. */
  ghost predicate OperatorAnswered(w: World, i: nat, approved: bool)
    requires i < |w.conns|
  {
    var answer := T.Answer(T.Request(PublicKey(w.conns[i].cfg.keys.sc), i), approved);
    T.Pressed(w.history, answer)
  }

  lemma VerdictIsTheOperators(w: World, i: nat)
    requires WorldInv(w) && i < |w.conns| && w.conns[i].cfg.info.encrypted
    ensures (w.Server(i).pc == SendingVerdict || w.Server(i).pc == Copying) ==>
              OperatorAnswered(w, i, w.Server(i).approved)
    ensures forall v :: OperatorAnswered(w, i, v) && (w.Server(i).pc == SendingVerdict || w.Server(i).pc == Copying) ==>
              v == w.Server(i).approved
  {
    var b := BooksOf(w);
    ColumnsUpdate(w.conns, i, w.conns[i]);
    assert (w.Server(i).pc == SendingVerdict || w.Server(i).pc == Copying) <==> b.stages[i] == 2;
    hide Reachable, Made, T.Answers, T.After, T.Pressed, Stages, Verdicts, Ids, PublicKey, ConnsInv;
    forall v
      ensures OperatorAnswered(w, i, v) <==> T.Answer(b.RequestOf(i), v) in b.answers
    {
      T.AnswersComeFromKeys(w.history, T.Answer(b.RequestOf(i), v));
    }
  }

  lemma ConnReachable(w: World, i: nat)
    requires WorldInv(w) && i < |w.conns|
    ensures var c := w.conns[i];
            c.cfg.info == w.info && c.cfg.file == w.file && c.cfg.Valid() && Reachable(c.cfg, c.session)
  {
  }

  /** More than the header, the reply and the verdict has gone out to this client. */
  predicate FileOctetsOut(c: Conn) {
    |c.session.down| > |HeaderBytes(c.cfg.info)| + 99
  }

  /** From the operator's keys to the bytes on a client's disk, for every connection in every run of
      the server, whatever the other connections do: what the client received is a prefix of the
      served file (without encryption, if the header went out whole); over an encrypted connection, no
      octet of the file goes out and no download file is created unless the operator pressed Enter on
      this connection's own request, and nothing ever after 'n'; and a finished download has the
      announced length, the received prefix, and zeros. */
  lemma EndToEnd(w: World, i: nat)
    requires Reached(w) && i < |w.conns|
    ensures var (c, cl) := (w.conns[i], w.conns[i].session.client);
            && (w.info.encrypted || c.session.short == None ==> cl.received <= w.file)
            && (w.info.encrypted && (FileOctetsOut(c) || cl.received != [] || cl.disk.Some?) ==>
                  OperatorAnswered(w, i, true) && !OperatorAnswered(w, i, false))
            && (cl.status == Finished && (w.info.encrypted || c.session.short == None) ==>
                  && cl.disk.Some? && |cl.disk.value| == |w.file|
                  && Kept(cl) <= w.file && Kept(cl) <= cl.disk.value
                  && forall j :: |Kept(cl)| <= j < |w.file| ==> cl.disk.value[j] == 0)
  {
    ReachedInv(w);
    ConnReachable(w, i);
    hide WorldInv, Reached, Reachable, OperatorAnswered, Kept;
    var (cfg, s) := (w.conns[i].cfg, w.conns[i].session);
    if w.info.encrypted || s.short == None {
      ReceivedIsPrefix(cfg, s);
      if s.client.status == Finished {
        DownloadedFile(cfg, s);
      }
    }
    if w.info.encrypted && (FileOctetsOut(w.conns[i]) || s.client.received != [] || s.client.disk.Some?) {
      CopyingNeeded(cfg, s);
      VerdictIsTheOperators(w, i);
    }
  }

  lemma CopyingNeeded(cfg: Config, s: Session)
    requires cfg.Valid() && cfg.info.encrypted && Reachable(cfg, s)
    requires |s.down| > |HeaderBytes(cfg.info)| + 99 || s.client.received != [] || s.client.disk.Some?
    ensures s.server.pc == Copying && s.server.approved
  {
    FileOctetsNeedApproval(cfg, s);
    ReachableInv(cfg, s);
    hide ScriptOf, Works, ServerReads, ServerScript, ClientReads, ClientScript, ClientHasPolls, Reachable;
  }

  /** A request that was made and has no reply is still in the queue, or on the way to it. */
  lemma UnansweredIsQueued(history: seq<T.TermMsg>, chan: seq<T.TermMsg>, b: Books, r: T.Request)
    requires b.Ok() && b.made == T.Requests(history + chan) && b.answers == T.Answers(history)
    requires r in b.made && r.reply !in b.replies
    ensures r in T.After(history).clients || r in T.Requests(chan)
  {
    RequestsAppend(history, chan);
    T.AskedIsWaitingOrAnswered(history, r);
    hide T.Requests, T.Answers, T.After, Books.RequestsOk, Books.VerdictsOk;
    var done := T.RequestsOf(b.answers);
    forall k | 0 <= k < |done|
      ensures done[k] != r
    {
      assert b.answers[k] in b.answers;
    }
  }

  lemma CanTakeReply(w: World, i: nat)
    requires i < |w.conns| && w.Server(i).pc == Awaiting && w.Server(i).status == Running
    ensures i in w.replies ==> Next(w, TakeReply(i)).Some?
    ensures i !in w.replies && !w.open ==> Next(w, NoReply(i)).Some?
  {
  }

  /** A connection that waits for its approval does not wait in vain: it has its answer and can take
      it; or the interface is gone and it can fail; or its request is before the operator, in the
      queue or on the way to it. */
  lemma WaitingIsAccountedFor(w: World, i: nat)
    requires Reached(w) && i < |w.conns| && w.Server(i).pc == Awaiting && w.Server(i).status == Running
    ensures var r := T.Request(PublicKey(w.conns[i].cfg.keys.sc), i);
            if i in w.replies then Next(w, TakeReply(i)).Some?
            else if !w.open then Next(w, NoReply(i)).Some?
            else r in T.After(w.history).clients || r in T.Requests(w.chan)
  {
    ReachedInv(w);
    ConnReachable(w, i);
    HandshakeIsEncrypted(w.conns[i].cfg, w.conns[i].session);
    ColumnsUpdate(w.conns, i, w.conns[i]);
    CanTakeReply(w, i);
    var b := BooksOf(w);
    assert b.stages[i] == 1 && b.RequestOf(i) == T.Request(PublicKey(w.conns[i].cfg.keys.sc), i);
    hide Reachable, ConnsInv, T.Requests, T.Answers, T.After, Stages, Verdicts, Ids, PublicKey, Stage, Books.Ok, Next;
    if w.open && i !in w.replies {
      UnansweredIsQueued(w.history, w.chan, b, b.RequestOf(i));
    }
  }
}
