/** What a read poll that is pending costs an encrypted download once it has taken something. `poll_read`
    drops what it read, and the next poll takes what comes behind that for the start of a frame. */
module PendingReads {
  import opened Wrappers
  import opened Noise
  import opened EncryptedStream
  import opened Session
  import opened SessionSafety
  import opened SessionLosses
  import opened ShortHeader
  import opened SessionDelivery
  import opened SessionProgress
  import opened PendingWrites

  // ----- for good -----

  lemma DroppedStep(cfg: Config, s: Session, step: Step)
    requires Apply(cfg, s, step).Some?
    ensures Apply(cfg, s, step).value.client.dropped >= s.client.dropped
    ensures s.client.dropped <= s.client.lost ==>
              Apply(cfg, s, step).value.client.dropped <= Apply(cfg, s, step).value.client.lost
  {
    hide ReadMessage, WriteMessage, SealedFrame, DecodePoll, TakenByPoll, Resize, Kept;
    if OfServer(step) {
      ClientLeftAlone(cfg, s, step);
    }
  }

  lemma ClientLeftAlone(cfg: Config, s: Session, step: Step)
    requires OfServer(step) && Apply(cfg, s, step).Some?
    ensures Apply(cfg, s, step).value.client == s.client
  {
    hide ReadMessage, WriteMessage, SealedFrame;
  }

  lemma {:induction false} DroppedStays(cfg: Config, s: Session, steps: seq<Step>)
    requires Exec(cfg, s, steps).Some?
    ensures Exec(cfg, s, steps).value.client.dropped >= s.client.dropped
    ensures s.client.dropped <= s.client.lost ==>
              Exec(cfg, s, steps).value.client.dropped <= Exec(cfg, s, steps).value.client.lost
    decreases |steps|
  {
    if steps == [] {
    } else {
      DroppedStep(cfg, s, steps[0]);
      hide Apply;
      DroppedStays(cfg, Apply(cfg, s, steps[0]).value, steps[1..]);
    }
  }

  /** Once a read poll has dropped octets, the client never has the file, whatever happens later. */
  lemma DroppedIsForGood(cfg: Config, s: Session, steps: seq<Step>)
    requires cfg.Valid() && cfg.info.encrypted && Reachable(cfg, s) && s.client.dropped > 0
    requires Exec(cfg, s, steps).Some?
    ensures Exec(cfg, s, steps).value.client.received != cfg.file
  {
    hide Reachable, Exec;
    var s' := Exec(cfg, s, steps).value;
    ReachableRun(cfg, s, steps);
    DroppedStays(cfg, s, steps);
    if s'.client.pc != Draining {
      NotDropped(cfg, s');
      assert false;
    } else if s'.client.received == cfg.file {
      WholeFileLosesNothing(cfg, s');
      DrainedLosses(cfg, s');
      assert false;
    }
  }

  lemma DrainedLosses(cfg: Config, s: Session)
    requires cfg.Valid() && cfg.info.encrypted && Reachable(cfg, s) && s.client.pc == Draining
    ensures s.client.dropped <= s.client.lost
  {
    if s.short.Some? {
      ShortEncrypted(cfg, s);
    } else {
      ReachableLosses(cfg, s);
    }
  }

  /** Octets dropped are octets lost, and only a download loses any. */
  lemma NotDropped(cfg: Config, s: Session)
    requires cfg.Valid() && cfg.info.encrypted && Reachable(cfg, s) && s.client.pc != Draining
    ensures s.client.dropped == 0
  {
    var steps :| Exec(cfg, Initial(cfg), steps) == Some(s);
    assert Initial(cfg).client.dropped == Initial(cfg).client.lost == 0;
    hide Exec, Initial;
    DroppedStays(cfg, Initial(cfg), steps);
    ReachableInv(cfg, s);
    hide Reachable, ScriptOf, Works;
    NothingLost(cfg, ScriptOf(cfg), s);
  }

  lemma NothingLost(cfg: Config, x: Script, s: Session)
    requires AnyInv(cfg, x, s) && cfg.info.encrypted && s.client.pc != Draining
    ensures s.client.lost == 0
  {
  }

  // ----- it happens -----

  /** Nothing stands in the way of the file: the server copies it, or will approve. */
  predicate Willing(s: Session) {
    s.server.pc == Copying || Approving(s)
  }

  lemma WillingKept(cfg: Config, x: Script, s: Session, step: Step)
    requires Inv(cfg, x, s) && Unharmed(cfg, s) && Willing(s) && Apply(cfg, s, step).Some? && step != Verdict(false)
    requires Unharmed(cfg, Apply(cfg, s, step).value) && Inv(cfg, x, Apply(cfg, s, step).value)
    ensures Willing(Apply(cfg, s, step).value)
  {
    if s.server.pc != Copying {
      ApprovingKept(cfg, x, s, step);
    } else {
      hide Inv, Unharmed;
      CopyingStays(cfg, s, step);
    }
  }

  lemma CopyingStays(cfg: Config, s: Session, step: Step)
    requires s.server.pc == Copying && Apply(cfg, s, step).Some?
    ensures Apply(cfg, s, step).value.server.pc == Copying
  {
    hide ReadMessage, WriteMessage, SealedFrame;
    if !OfServer(step) && !step.Cut? {
      ClientStepFrame(cfg, ScriptOf(cfg), s, step);
    }
  }

  /** A connection on which nothing fails comes to where all of the file is on the wire and the client is
      about to take it. */
  lemma {:induction false} UntilDraining(cfg: Config, x: Script, s: Session) returns (s': Session)
    requires Sound(cfg) && Works(cfg, x) && Inv(cfg, x, s) && Unharmed(cfg, s) && Reachable(cfg, s)
    requires Willing(s) && s.client.pc != Draining && s.client.dropped == 0
    ensures Reachable(cfg, s') && Inv(cfg, x, s') && Unharmed(cfg, s')
    ensures s'.client.pc == Draining && s'.client.received == [] && s'.server.status == Finished
    ensures s'.client.status == Running && s'.client.dropped == 0
    decreases Work(cfg, s)
  {
    assert Shape(cfg, x) && cfg.Valid();
    hide Works, Shape, Work, Reachable, Inv, Unharmed, Sound, Apply, Clean, Willing, ServerWaits;
    ClientRuns(cfg, x, s);
    var step := SomeStep(cfg, x, s);
    if step.Verdict? {
      AlsoTrue(cfg, s, step.approved);
      step := Verdict(true);
    }
    s' := Apply(cfg, s, step).value;
    CleanStep(cfg, x, s, step);
    ReachableStep(cfg, s, step);
    WillingKept(cfg, x, s, step);
    if s'.client.pc != Draining {
      StillNone(cfg, s, step);
      WorkLeft(cfg, x, s');
      s' := UntilDraining(cfg, x, s');
    } else {
      JustDraining(cfg, x, s, step);
    }
  }

  lemma AlsoTrue(cfg: Config, s: Session, approved: bool)
    requires Apply(cfg, s, Verdict(approved)).Some?
    ensures Apply(cfg, s, Verdict(true)).Some? && Clean(cfg, s, Verdict(true))
  {
  }

  lemma ClientRuns(cfg: Config, x: Script, s: Session)
    requires Inv(cfg, x, s) && Unharmed(cfg, s) && Willing(s) && Shape(cfg, x) && s.client.pc != Draining
    ensures s.client.status == Running
  {
    hide ServerReads, ServerCopies, ClientScript, Wire;
    DownFollowsScript(cfg, x, s);
  }

  lemma JustDraining(cfg: Config, x: Script, s: Session, step: Step)
    requires Inv(cfg, x, s) && Unharmed(cfg, s) && s.client.pc != Draining && Apply(cfg, s, step).Some?
    requires OfServer(step) <==> s.server.status == Running && !ServerWaits(s)
    requires var s' := Apply(cfg, s, step).value; Inv(cfg, x, s') && Unharmed(cfg, s') && s'.client.pc == Draining
    requires s.client.status == Running && s.client.dropped == 0
    ensures var s' := Apply(cfg, s, step).value;
            && s'.client.received == [] && s'.server.status == Finished
            && s'.client.status == Running && s'.client.dropped == 0
  {
    if OfServer(step) {
      ClientLeftAlone(cfg, s, step);
      assert false;
    } else if step.Cut? {
      assert false;
    } else {
      hide Inv, Unharmed, ServerWaits, ClientStep;
      ClientStepFrame(cfg, x, s, step);
      BeginsEmpty(cfg, s, step);
    }
    DrainedFromCopying(cfg, x, Apply(cfg, s, step).value);
  }

  lemma BeginsEmpty(cfg: Config, s: Session, step: Step)
    requires !OfServer(step) && !step.Cut? && ClientStep(cfg, s, step).Some? && s.client.pc != Draining
    requires ClientStep(cfg, s, step).value.client.pc == Draining
    ensures var cl := ClientStep(cfg, s, step).value.client;
            cl.received == s.client.received && cl.status == s.client.status && cl.dropped == s.client.dropped
  {
    hide ReadMessage, WriteMessage;
  }

  lemma DrainedFromCopying(cfg: Config, x: Script, s: Session)
    requires Inv(cfg, x, s) && Unharmed(cfg, s) && s.client.pc == Draining
    ensures s.server.pc == Copying && (s.server.status == Running || s.server.status == Finished)
  {
  }

  lemma StillNone(cfg: Config, s: Session, step: Step)
    requires Apply(cfg, s, step).Some? && s.client.pc != Draining
    ensures Apply(cfg, s, step).value.client.dropped == s.client.dropped
  {
    hide ReadMessage, WriteMessage, SealedFrame, DecodePoll, TakenByPoll, Resize, Kept;
    if OfServer(step) {
      ClientLeftAlone(cfg, s, step);
    }
  }

  /** There is something before a client that has just begun, when all of a file that is not empty is written. */
  lemma SomethingToRead(cfg: Config, x: Script, s: Session)
    requires Shape(cfg, x) && Inv(cfg, x, s) && Unharmed(cfg, s) && cfg.info.encrypted && cfg.file != []
    requires s.client.pc == Draining && s.client.received == [] && s.server.status == Finished
    ensures s.downPos < |s.down| && s.Limit() == |s.down| && s.client.info == Some(cfg.info)
  {
    WholeFile(cfg, x, s);
    FrameAhead(cfg, x, s);
  }

  lemma DropOne(cfg: Config, s: Session)
    requires s.client.pc == Draining && s.client.status == Running && s.client.info == Some(cfg.info)
    requires cfg.info.encrypted && s.downPos < |s.down| && s.Limit() == |s.down|
    ensures Apply(cfg, s, PollRead(1, false)) == Some(s.(downPos := s.downPos + 1, client :=
              s.client.(lost := s.client.lost + 1, dropped := s.client.dropped + 1)))
  {
    hide Open;
    assert |s.down[s.downPos..s.downPos + 1]| == 1;
  }

  /** Every encrypted download of a file that is not empty can meet a read poll that drops an octet. */
  lemma DroppingHappens(cfg: Config) returns (s: Session)
    requires Sound(cfg) && cfg.info.encrypted && cfg.file != []
    ensures Reachable(cfg, s) && s.client.dropped == 1 && s.client.status == Running
  {
    var x := ScriptOf(cfg);
    ScriptWorks(cfg);
    InitialInv(cfg);
    InitialReachable(cfg);
    assert Unharmed(cfg, Initial(cfg));
    hide Works, ScriptOf, Work, Reachable;
    var s0 := UntilDraining(cfg, x, Initial(cfg));
    SomethingToRead(cfg, x, s0);
    DropOne(cfg, s0);
    ReachableStep(cfg, s0, PollRead(1, false));
    s := Apply(cfg, s0, PollRead(1, false)).value;
  }
}
