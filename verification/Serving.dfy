/** The interactive server serves whomever it can: as long as somebody sits at the interface, every
    connection on which nothing has failed can be brought to its end, with the verdict of the operator's
    choice, by keys that are not yet pressed and steps of its own. */
module Serving {
  import opened Wrappers
  import opened Bytes
  import opened Noise
  import opened Session
  import opened SessionSafety
  import opened ShortHeader
  import opened SessionDelivery
  import opened SessionProgress
  import opened Hub

  /** The interface's loop is in, and nothing that quits it is on the way. */
  predicate Attended(w: World) {
    w.open && !w.ended && forall msg :: msg in w.chan ==> !T.Quits(msg)
  }

  /** A key of the operator's, a message handled by the interface, or a step of connection `i`. */
  predicate HelpsOnly(i: nat, step: WorldStep) {
    match step
    case ConnStep(j, _) => j == i
    case SubmitRequest(j) => j == i
    case TakeReply(j) => j == i
    case Send(msg) => msg.Input? && msg.event.Key? && !T.Quits(msg)
    case Handle => true
    case _ => false
  }

  ghost predicate Leads(w: World, i: nat, steps: seq<WorldStep>, w': World) {
    Run(w, steps) == Some(w') && forall step :: step in steps ==> HelpsOnly(i, step)
  }

  lemma {:induction false} LeadsOn(w: World, i: nat, a: seq<WorldStep>, w1: World, b: seq<WorldStep>, w2: World)
    requires Leads(w, i, a, w1) && Leads(w1, i, b, w2)
    ensures Leads(w, i, a + b, w2)
    decreases |a|
  {
    hide Next, HelpsOnly;
    if a == [] {
      assert a + b == b;
    } else {
      assert (a + b)[1..] == a[1..] + b;
      LeadsOn(Next(w, a[0]).value, i, a[1..], w1, b, w2);
    }
  }

  lemma Leads1(w: World, i: nat, step: WorldStep)
    requires Next(w, step).Some? && HelpsOnly(i, step)
    ensures Leads(w, i, [step], Next(w, step).value)
  {
    assert Run(Next(w, step).value, []) == Some(Next(w, step).value);
  }

  // ----- the interface -----

  /** The interface gets through what is in its channel. */
  lemma {:induction false} HandleAll(w: World, i: nat, msgs: seq<T.TermMsg>) returns (steps: seq<WorldStep>, w': World)
    requires WorldInv(w) && Attended(w) && msgs <= w.chan
    ensures Leads(w, i, steps, w') && WorldInv(w') && Attended(w')
    ensures w'.conns == w.conns && w'.history == w.history + msgs
    decreases |msgs|
  {
    hide WorldInv, HandleNext;
    if msgs == [] {
      steps, w' := [], w;
    } else {
      var w1 := HandleNext(w);
      HandleInv(w);
      HandledOne(w);
      Leads1(w, i, Handle);
      var more;
      more, w' := HandleAll(w1, i, msgs[1..]);
      LeadsOn(w, i, [Handle], w1, more, w');
      steps := [Handle] + more;
      assert w.history + [msgs[0]] + msgs[1..] == w.history + msgs;
    }
  }

  lemma HandledOne(w: World)
    requires Attended(w) && w.chan != []
    ensures var w' := HandleNext(w);
            && Attended(w') && w'.conns == w.conns && w'.history == w.history + [w.chan[0]] && w.chan[1..] <= w'.chan
  {
    hide T.After, T.Answered;
  }

  lemma {:induction false} Press(w: World, i: nat, keys: seq<T.TermMsg>) returns (steps: seq<WorldStep>, w': World)
    requires WorldInv(w) && Attended(w) && T.OnlyKeys(keys)
    ensures Leads(w, i, steps, w') && WorldInv(w') && Attended(w') && w' == w.(chan := w.chan + keys)
    decreases |keys|
  {
    hide WorldInv;
    if keys == [] {
      steps, w' := [], w;
    } else {
      var w1 := w.(chan := w.chan + [keys[0]]);
      assert keys[0] in keys;
      assert Next(w, Send(keys[0])) == Some(w1);
      SendInv(w, keys[0]);
      Leads1(w, i, Send(keys[0]));
      hide Next, Leads;
      var more;
      more, w' := Press(w1, i, keys[1..]);
      LeadsOn(w, i, [Send(keys[0])], w1, more, w');
      steps := [Send(keys[0])] + more;
      assert w.chan + [keys[0]] + keys[1..] == w.chan + keys;
    }
  }

  /** The answer that connection `i` has, or will have from keys already pressed; `choice` if there is none. */
  function Answer(w: World, i: nat, choice: bool): bool
    requires i < |w.conns|
  {
    var (r, given) := (T.Request(PublicKey(w.conns[i].cfg.keys.sc), i), T.Answers(w.history + w.chan));
    if T.Answer(r, true) in given then true
    else if T.Answer(r, false) in given then false
    else choice
  }

  /** Whoever waits can be answered, and as one chooses if nobody has chosen yet. */
  lemma AnswerComes(w: World, i: nat, choice: bool) returns (steps: seq<WorldStep>, w': World)
    requires WorldInv(w) && Attended(w) && i < |w.conns| && w.Server(i).pc == Awaiting
    ensures Leads(w, i, steps, w') && WorldInv(w') && Attended(w') && w'.conns == w.conns
    ensures i in w'.replies && w'.replies[i] == Answer(w, i, choice)
  {
    var all := w.history + w.chan;
    var r := T.Request(PublicKey(w.conns[i].cfg.keys.sc), i);
    HasAsked(w, i);
    T.AskedIsWaitingOrAnswered(all, r);
    hide WorldInv, T.After, T.Answers, T.Requests, Leads, PublicKey;
    var v := Answer(w, i, choice);
    if r in T.After(all).clients && T.Answer(r, true) !in T.Answers(all) && T.Answer(r, false) !in T.Answers(all) {
      steps, w' := AnswerNow(w, i, r, v);
    } else {
      WasAnswered(all, r);
      assert T.Answer(r, v) in T.Answers(all);
      hide Answer;
      steps, w' := HandleAll(w, i, w.chan);
    }
    AnswerIsReply(w', i, T.Answer(r, v));
  }

  /** The operator answers a request that will be in the queue. */
  lemma AnswerNow(w: World, i: nat, r: T.Request, choice: bool) returns (steps: seq<WorldStep>, w': World)
    requires WorldInv(w) && Attended(w) && r in T.After(w.history + w.chan).clients
    ensures Leads(w, i, steps, w') && WorldInv(w') && Attended(w') && w'.conns == w.conns
    ensures T.Answer(r, choice) in T.Answers(w'.history)
  {
    hide WorldInv, T.After, T.Answers, T.OnlyKeys, Leads, Attended;
    var all := w.history + w.chan;
    var place :| 0 <= place < |T.After(all).clients| && T.After(all).clients[place] == r;
    var keys := T.AnyoneCanBeAnswered(all, place, choice);
    var a, w1 := Press(w, i, keys);
    var b;
    b, w' := HandleAll(w1, i, w1.chan);
    LeadsOn(w, i, a, w1, b, w');
    steps := a + b;
    assert w'.history == all + keys;
  }

  lemma WasAnswered(msgs: seq<T.TermMsg>, r: T.Request)
    requires r in T.RequestsOf(T.Answers(msgs)) || T.Answer(r, true) in T.Answers(msgs) || T.Answer(r, false) in T.Answers(msgs)
    ensures T.Answer(r, true) in T.Answers(msgs) || T.Answer(r, false) in T.Answers(msgs)
  {
    hide T.Answers;
    var given := T.Answers(msgs);
    if k :| 0 <= k < |given| && given[k].request == r {
      assert given[k] == T.Answer(r, given[k].approved) && given[k] in given;
    }
  }

  lemma HasAsked(w: World, i: nat)
    requires WorldInv(w) && w.open && i < |w.conns| && w.Server(i).pc == Awaiting
    ensures T.Request(PublicKey(w.conns[i].cfg.keys.sc), i) in T.Requests(w.history + w.chan)
  {
    ConnReachable(w, i);
    HandshakeIsEncrypted(w.conns[i].cfg, w.conns[i].session);
    ColumnsUpdate(w.conns, i, w.conns[i]);
    var b := BooksOf(w);
    assert b.stages[i] == 1 && b.RequestOf(i) == T.Request(PublicKey(w.conns[i].cfg.keys.sc), i);
    hide Reachable, ConnsInv, T.Requests, T.Answers, Stages, Verdicts, Ids, PublicKey, Stage, Books.Ok;
  }

  lemma AnswerIsReply(w: World, i: nat, a: T.Answer)
    requires WorldInv(w) && a in T.Answers(w.history) && a.request.reply == i
    ensures i in w.replies && w.replies[i] == a.approved
  {
    hide ConnsInv, T.Answers, Made, Stages, Verdicts, Ids;
  }

  // ----- the connection -----

  /** Connection `i` can still be brought to its proper end. */
  ghost predicate CanBeServed(w: World, i: nat) {
    && WorldInv(w) && Attended(w) && i < |w.conns|
    && Sound(w.conns[i].cfg) && w.conns[i].session.short == None
    && Unharmed(w.conns[i].cfg, w.conns[i].session)
  }

  /** Whether connection `i` gets the file in the end. */
  function Served(w: World, i: nat, choice: bool): bool
    requires i < |w.conns|
  {
    match Stage(w.conns[i].cfg, w.Server(i))
    case 2 => w.Server(i).approved
    case _ => !w.info.encrypted || Answer(w, i, choice)
  }

  lemma CleanKeeps(cfg: Config, s: Session, step: Step)
    requires Sound(cfg) && Reachable(cfg, s) && s.short == None && Unharmed(cfg, s)
    requires Apply(cfg, s, step).Some? && Clean(cfg, s, step)
    ensures var s' := Apply(cfg, s, step).value;
            && s'.short == None && Unharmed(cfg, s') && 0 <= Work(cfg, s') < Work(cfg, s)
  {
    var x := ScriptOf(cfg);
    ReachableInv(cfg, s);
    ShortSticks(cfg, s, step);
    ScriptWorks(cfg);
    assert Shape(cfg, x) && s.short == None ==> Inv(cfg, x, s);
    hide ScriptOf, Inv, Works, Reachable, Unharmed, Work, Apply, Shape;
    CleanStep(cfg, x, s, step);
    WorkLeft(cfg, x, Apply(cfg, s, step).value);
  }

  /** A clean step of the connection's own. */
  lemma OwnStep(w: World, i: nat, choice: bool, step: Step) returns (w': World)
    requires CanBeServed(w, i) && !AsksApprover(step)
    requires Apply(w.conns[i].cfg, w.conns[i].session, step).Some? && Clean(w.conns[i].cfg, w.conns[i].session, step)
    ensures Leads(w, i, [ConnStep(i, step)], w') && CanBeServed(w', i) && Served(w', i, choice) == Served(w, i, choice)
    ensures w' == w.Update(i, Apply(w.conns[i].cfg, w.conns[i].session, step).value)
    ensures 0 <= Work(w.conns[i].cfg, w'.conns[i].session) < Work(w.conns[i].cfg, w.conns[i].session)
  {
    var (cfg, s) := (w.conns[i].cfg, w.conns[i].session);
    w' := Local(w, i, step).value;
    ConnReachable(w, i);
    CleanKeeps(cfg, s, step);
    hide WorldInv, Reachable, Unharmed, Sound, Apply, Clean, Work, Stage, Run, Answer;
    assert Next(w, ConnStep(i, step)) == Some(w');
    StageKept(cfg, s, step);
    LocalInv(w, i, step);
    Leads1(w, i, ConnStep(i, step));
    SameAnswer(w, w', i, choice);
  }

  lemma SameAnswer(w: World, w': World, i: nat, choice: bool)
    requires i < |w.conns| && i < |w'.conns| && w'.conns[i].cfg == w.conns[i].cfg
    requires T.Answers(w'.history + w'.chan) == T.Answers(w.history + w.chan)
    ensures Answer(w', i, choice) == Answer(w, i, choice)
  {
  }

  lemma AskFor(w: World, i: nat, choice: bool) returns (w': World)
    requires CanBeServed(w, i) && Apply(w.conns[i].cfg, w.conns[i].session, Submit).Some?
    ensures Leads(w, i, [SubmitRequest(i)], w') && CanBeServed(w', i) && Served(w', i, choice) == Served(w, i, choice)
    ensures w'.conns == w.conns[i := Conn(w.conns[i].cfg, Apply(w.conns[i].cfg, w.conns[i].session, Submit).value)]
    ensures 0 <= Work(w.conns[i].cfg, w'.conns[i].session) < Work(w.conns[i].cfg, w.conns[i].session)
  {
    var (cfg, s) := (w.conns[i].cfg, w.conns[i].session);
    ConnReachable(w, i);
    CleanKeeps(cfg, s, Submit);
    HandshakeIsEncrypted(cfg, s);
    ApproverSteps(cfg, s, false);
    SubmitIsNext(w, i);
    w' := Next(w, SubmitRequest(i)).value;
    hide WorldInv, Reachable, Unharmed, Sound, Apply, Work, Stage, Run, Answer, Next;
    SubmitInv(w, i);
    Leads1(w, i, SubmitRequest(i));
    var ask := T.ClientRequest(T.Request(s.server.noise.rs, i));
    assert w'.history + w'.chan == w.history + w.chan + [ask];
    AskedIsNoAnswer(w.history + w.chan, ask);
    SameAnswer(w, w', i, choice);
  }

  lemma SubmitIsNext(w: World, i: nat)
    requires w.open && i < |w.conns| && Apply(w.conns[i].cfg, w.conns[i].session, Submit).Some?
    ensures var s' := Apply(w.conns[i].cfg, w.conns[i].session, Submit).value;
            Next(w, SubmitRequest(i)) ==
              Some(w.(conns := w.conns[i := Conn(w.conns[i].cfg, s')],
                      chan := w.chan + [T.ClientRequest(T.Request(w.Server(i).noise.rs, i))]))
    ensures w.Server(i).pc == Submitting
  {
  }

  lemma AskedIsNoAnswer(msgs: seq<T.TermMsg>, ask: T.TermMsg)
    requires ask.ClientRequest?
    ensures T.Answers(msgs + [ask]) == T.Answers(msgs)
  {
    T.OneKey(msgs, ask);
    assert T.Answers(msgs) + [] == T.Answers(msgs);
  }

  lemma BeAnswered(w: World, i: nat, choice: bool) returns (steps: seq<WorldStep>, w': World)
    requires CanBeServed(w, i) && w.Server(i).pc == Awaiting && w.Server(i).status == Running
    ensures Leads(w, i, steps, w') && CanBeServed(w', i) && Served(w', i, choice) == Served(w, i, choice)
    ensures |w'.conns| == |w.conns| && w'.conns == w.conns[i := w'.conns[i]] && w'.conns[i].cfg == w.conns[i].cfg
    ensures w'.info == w.info && w'.file == w.file
    ensures 0 <= Work(w.conns[i].cfg, w'.conns[i].session) < Work(w.conns[i].cfg, w.conns[i].session)
  {
    ConnReachable(w, i);
    HandshakeIsEncrypted(w.conns[i].cfg, w.conns[i].session);
    WaitsUnanswered(w, i, choice);
    var a, w1 := AnswerComes(w, i, choice);
    hide WorldInv, Reachable, Unharmed, Sound, Work, Leads, Attended, Answer, Stage;
    w' := TakeAnswer(w1, i);
    LeadsOn(w, i, a, w1, [TakeReply(i)], w');
    steps := a + [TakeReply(i)];
  }

  lemma WaitsUnanswered(w: World, i: nat, choice: bool)
    requires WorldInv(w) && i < |w.conns| && w.Server(i).pc == Awaiting && w.conns[i].cfg.info.encrypted
    ensures Served(w, i, choice) == Answer(w, i, choice)
  {
    hide Answer;
  }

  lemma TakeAnswer(w: World, i: nat) returns (w': World)
    requires CanBeServed(w, i) && w.Server(i).pc == Awaiting && w.Server(i).status == Running && i in w.replies
    requires w.conns[i].cfg.info.encrypted
    ensures Leads(w, i, [TakeReply(i)], w') && CanBeServed(w', i)
    ensures forall choice :: Served(w', i, choice) == w.replies[i]
    ensures w' == w.(conns := w.conns[i := w'.conns[i]]) && w'.conns[i].cfg == w.conns[i].cfg
    ensures 0 <= Work(w.conns[i].cfg, w'.conns[i].session) < Work(w.conns[i].cfg, w.conns[i].session)
  {
    var (cfg, s) := (w.conns[i].cfg, w.conns[i].session);
    ConnReachable(w, i);
    CanTakeReply(w, i);
    ApproverSteps(cfg, s, w.replies[i]);
    w' := Next(w, TakeReply(i)).value;
    CleanKeeps(cfg, s, Verdict(w.replies[i]));
    TakeReplyInv(w, i);
    Leads1(w, i, TakeReply(i));
    hide WorldInv, Reachable, Unharmed, Sound, Work, Leads, Answer, Stage, Apply;
  }

  /** One step nearer to the end. */
  lemma Advance(w: World, i: nat, choice: bool) returns (steps: seq<WorldStep>, w': World)
    requires CanBeServed(w, i)
    requires w.Server(i).status == Running || w.conns[i].session.client.status == Running
    ensures Leads(w, i, steps, w') && CanBeServed(w', i) && Served(w', i, choice) == Served(w, i, choice)
    ensures |w'.conns| == |w.conns| && w'.conns == w.conns[i := w'.conns[i]] && w'.conns[i].cfg == w.conns[i].cfg
    ensures w'.info == w.info && w'.file == w.file
    ensures 0 <= Work(w.conns[i].cfg, w'.conns[i].session) < Work(w.conns[i].cfg, w.conns[i].session)
  {
    var (cfg, s) := (w.conns[i].cfg, w.conns[i].session);
    ConnReachable(w, i);
    var step := NextClean(cfg, s);
    hide CanBeServed, Reachable, Unharmed, Sound, Work, Leads, Served, Next, Run;
    if step.Submit? {
      w' := AskFor(w, i, choice);
      steps := [SubmitRequest(i)];
    } else if step.Verdict? {
      steps, w' := BeAnswered(w, i, choice);
    } else {
      hide Apply;
      w' := OwnStep(w, i, choice, step);
      steps := [ConnStep(i, step)];
    }
  }

  lemma NextClean(cfg: Config, s: Session) returns (step: Step)
    requires Sound(cfg) && Reachable(cfg, s) && s.short == None && Unharmed(cfg, s)
    requires s.server.status == Running || s.client.status == Running
    ensures Apply(cfg, s, step).Some? && Clean(cfg, s, step) && !step.ApproverError?
  {
    assert cfg.Valid();
    hide ScriptOf, Inv, Works, Reachable, Unharmed, Apply, Sound;
    WholeInv(cfg, s);
    step := SomeStep(cfg, ScriptOf(cfg), s);
  }

  /** The proper end of a connection: the file is on the client's disk, or both sides know of the refusal. */
  predicate Ended(s: Session, file: seq<byte>, served: bool) {
    var (sv, cl) := (s.server, s.client);
    if served then sv.status == cl.status == Finished && cl.received == file && cl.disk == Some(file)
    else sv.status == cl.status == Refused && cl.received == [] && cl.disk == None
  }

  lemma ProperlyEnded(w: World, i: nat, choice: bool)
    requires CanBeServed(w, i) && w.Server(i).status != Running && w.conns[i].session.client.status != Running
    ensures Ended(w.conns[i].session, w.file, Served(w, i, choice))
  {
    var (cfg, s) := (w.conns[i].cfg, w.conns[i].session);
    ConnReachable(w, i);
    ReachableInv(cfg, s);
    var x := ScriptOf(cfg);
    ScriptWorks(cfg);
    assert Inv(cfg, x, s);
    hide ScriptOf, Works, Reachable, Unharmed, Sound, Apply, WorldInv, Answer;
    ProperEnd(cfg, x, s);
    StageAtEnd(cfg, x, s);
  }

  lemma StageAtEnd(cfg: Config, x: Script, s: Session)
    requires Inv(cfg, x, s) && (s.server.status == Finished || s.server.status == Refused)
    ensures cfg.info.encrypted ==> Stage(cfg, s.server) == 2 && (s.server.approved <==> s.server.pc == Copying)
    ensures !cfg.info.encrypted ==> s.server.pc == Copying
  {
    hide ClientInv, ServerReads, ServerScript;
  }

  /** As long as somebody sits at the interface: for every connection on which nothing has failed, whatever
      is going on elsewhere, some keys, messages handled, and steps of that connection bring it to its end;
      with the answer it already has, or that keys already pressed will give it, and the one the operator
      likes otherwise. The other connections stay as they are. */
  lemma {:induction false} Serve(w: World, i: nat, choice: bool) returns (steps: seq<WorldStep>, w': World)
    requires CanBeServed(w, i)
    ensures Leads(w, i, steps, w')
    ensures |w'.conns| == |w.conns| && w'.conns == w.conns[i := w'.conns[i]]
    ensures w'.info == w.info && w'.file == w.file && Ended(w'.conns[i].session, w.file, Served(w, i, choice))
    decreases Work(w.conns[i].cfg, w.conns[i].session)
  {
    if w.Server(i).status == Running || w.conns[i].session.client.status == Running {
      var a, w1 := Advance(w, i, choice);
      var b;
      b, w' := Serve(w1, i, choice);
      hide Leads;
      LeadsOn(w, i, a, w1, b, w');
      steps := a + b;
    } else {
      steps, w' := [], w;
      ProperlyEnded(w, i, choice);
    }
  }
}
