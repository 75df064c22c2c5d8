/** What a write poll that is pending costs an encrypted download. `poll_write` has moved its nonce on, and
    the next poll seals the same bytes again. */
module PendingWrites {
  import opened Noise
  import opened EncryptedStream
  import opened Session
  import opened SessionSafety
  import opened SessionDelivery
  import opened SessionProgress

  // ----- for good -----

  lemma {:induction false} AttemptsStay(cfg: Config, s: Session, steps: seq<Step>)
    requires Exec(cfg, s, steps).Some?
    ensures s.server.attempts <= Exec(cfg, s, steps).value.server.attempts
    decreases |steps|
  {
    if steps == [] {
    } else {
      AttemptsStep(cfg, s, steps[0]);
      hide Apply;
      AttemptsStay(cfg, Apply(cfg, s, steps[0]).value, steps[1..]);
    }
  }

  lemma AttemptsStep(cfg: Config, s: Session, step: Step)
    requires Apply(cfg, s, step).Some?
    ensures s.server.attempts <= Apply(cfg, s, step).value.server.attempts
  {
    hide ReadMessage, WriteMessage, SealedFrame;
    if !OfServer(step) && !step.Cut? {
      ClientStepFrame(cfg, ScriptOf(cfg), s, step);
    }
  }

  lemma {:induction false} CarriedPrefix(polls: seq<Attempt>, m: nat)
    requires m <= |polls|
    ensures Carried(polls[..m]) <= Carried(polls)
    decreases |polls|
  {
    if m == |polls| {
      assert polls[..m] == polls;
    } else {
      assert polls[..|polls| - 1][..m] == polls[..m];
      CarriedPrefix(polls[..|polls| - 1], m);
    }
  }

  /** Once a write poll has not written all of its frame, the client never gets past that frame, whatever
      happens later: it has at most what the polls before it carried, and not the file. */
  lemma PendingIsForGood(cfg: Config, s: Session, k: nat, steps: seq<Step>)
    requires cfg.Valid() && cfg.info.encrypted && Reachable(cfg, s) && Exec(cfg, s, steps).Some?
    requires k < |s.server.attempts| && !s.server.attempts[k].Complete()
    ensures var s' := Exec(cfg, s, steps).value;
            && s'.client.nonce <= k && s'.client.received <= Carried(s.server.attempts[..k])
            && s'.client.received != cfg.file
  {
    hide Reachable, Exec;
    var (s', polls) := (Exec(cfg, s, steps).value, s.server.attempts);
    ReachableRun(cfg, s, steps);
    AttemptsStay(cfg, s, steps);
    NoncesInStep(cfg, s');
    var (polls', m) := (s'.server.attempts, s'.client.nonce);
    assert polls'[k] == polls[k] && polls'[..k] == polls[..k];
    assert polls[..k][..m] == polls'[..m];
    CarriedPrefix(polls[..k], m);
    NeverWhole(cfg, s', k);
  }

  lemma NeverWhole(cfg: Config, s: Session, k: nat)
    requires cfg.Valid() && cfg.info.encrypted && Reachable(cfg, s)
    requires k < |s.server.attempts| && !s.server.attempts[k].Complete()
    ensures s.client.received != cfg.file
  {
    hide Reachable;
    if s.client.received == cfg.file {
      if s.client.pc == Draining {
        WholeFileLosesNothing(cfg, s);
        assert false;
      } else {
        NotDraining(cfg, s, k);
        assert false;
      }
    }
  }

  lemma NotDraining(cfg: Config, s: Session, k: nat)
    requires cfg.Valid() && cfg.info.encrypted && Reachable(cfg, s) && s.client.pc != Draining
    requires k < |s.server.attempts|
    ensures s.client.received != cfg.file
  {
    if s.short.Some? {
      ShortEncrypted(cfg, s);
    } else {
      ReachableInv(cfg, s);
      hide ScriptOf, Works, ServerReads, ClientReads, ClientScript, ServerScript;
      NthPoll(cfg.file, s.server.attempts, k);
    }
  }

  // ----- it happens -----

  /** A verdict that is on its way, if there is one, is an approval. */
  predicate Approving(s: Session) {
    s.server.status == Running && (s.server.pc == SendingVerdict ==> s.server.approved)
  }

  lemma ApprovingKept(cfg: Config, x: Script, s: Session, step: Step)
    requires Inv(cfg, x, s) && Unharmed(cfg, s) && Approving(s) && s.server.pc != Copying
    requires Apply(cfg, s, step).Some? && step != Verdict(false)
    requires Unharmed(cfg, Apply(cfg, s, step).value) && Inv(cfg, x, Apply(cfg, s, step).value)
    ensures Approving(Apply(cfg, s, step).value)
  {
    var s' := Apply(cfg, s, step).value;
    if !OfServer(step) {
      if !step.Cut? {
        ClientStepFrame(cfg, x, s, step);
      }
    } else {
      if s'.server.pc == SendingVerdict {
        VerdictComes(cfg, s, step);
      }
      assert s'.server.status == Refused ==> s'.server.pc == SendingVerdict && !s'.server.approved;
      hide Apply, ClientInv, ServerReads, ServerScript, ServerCopies;
      if s'.server.status == Finished {
        FinishedWas(cfg, s, step);
      }
    }
  }

  lemma VerdictComes(cfg: Config, s: Session, step: Step)
    requires OfServer(step) && Apply(cfg, s, step).Some? && Apply(cfg, s, step).value.server.pc == SendingVerdict
    ensures var sv := Apply(cfg, s, step).value.server;
            || (s.server.pc == SendingVerdict && sv.approved == s.server.approved)
            || (step.Verdict? && sv.approved == step.approved)
  {
    hide ReadMessage, WriteMessage, SealedFrame;
  }

  lemma FinishedWas(cfg: Config, s: Session, step: Step)
    requires OfServer(step) && Apply(cfg, s, step).Some? && Apply(cfg, s, step).value.server.status == Finished
    ensures s.server.pc == Copying
  {
    hide ReadMessage, WriteMessage, SealedFrame;
  }

  lemma CopyingIsNew(cfg: Config, x: Script, s: Session, step: Step)
    requires Inv(cfg, x, s) && s.server.pc != Copying && Apply(cfg, s, step).Some?
    ensures var sv := Apply(cfg, s, step).value.server; sv.attempts == [] && sv.off == 0 && sv.chunk == []
  {
    assert ServerCopies(cfg, s.server);
    hide Inv, ServerStep, ClientStep;
    if OfServer(step) {
      NothingCopied(cfg, s, step);
    } else if !step.Cut? {
      ClientStepFrame(cfg, x, s, step);
    }
  }

  lemma NothingCopied(cfg: Config, s: Session, step: Step)
    requires ServerCopies(cfg, s.server) && s.server.pc != Copying && OfServer(step) && ServerStep(cfg, s, step).Some?
    ensures var sv := ServerStep(cfg, s, step).value.server; sv.attempts == [] && sv.off == 0 && sv.chunk == []
  {
    hide ReadMessage, WriteMessage, DoPollWrite;
  }

  /** A connection on which nothing fails comes to the file. */
  lemma {:induction false} UntilCopying(cfg: Config, x: Script, s: Session) returns (s': Session)
    requires Sound(cfg) && Works(cfg, x) && Inv(cfg, x, s) && Unharmed(cfg, s) && Reachable(cfg, s)
    requires s.server.pc != Copying && Approving(s)
    ensures Reachable(cfg, s') && s'.server.pc == Copying && s'.server.status == Running
    ensures s'.server.attempts == [] && s'.server.off == 0 && s'.server.chunk == []
    decreases Work(cfg, s)
  {
    var step := SomeStep(cfg, x, s);
    if step.Verdict? {
      step := Verdict(true);
    }
    s' := Apply(cfg, s, step).value;
    CleanStep(cfg, x, s, step);
    ReachableStep(cfg, s, step);
    ApprovingKept(cfg, x, s, step);
    CopyingIsNew(cfg, x, s, step);
    assert Shape(cfg, x);
    hide Inv, Works, Shape, Unharmed, Work, Apply, Reachable;
    if s'.server.pc != Copying {
      WorkLeft(cfg, x, s');
      s' := UntilCopying(cfg, x, s');
    }
  }

  /** Every encrypted download of a file that is not empty can meet a write poll that is pending, even one
      of which nothing went out. */
  lemma PendingHappens(cfg: Config) returns (s: Session)
    requires Sound(cfg) && cfg.info.encrypted && cfg.file != []
    ensures Reachable(cfg, s) && s.server.attempts == [Attempt(cfg.file[..1], 0)] && s.server.status == Running
  {
    var x := ScriptOf(cfg);
    ScriptWorks(cfg);
    InitialInv(cfg);
    InitialReachable(cfg);
    assert Unharmed(cfg, Initial(cfg));
    hide Works, Inv, ScriptOf, Unharmed, Work, Reachable;
    s := UntilCopying(cfg, x, Initial(cfg));
    ReachableStep(cfg, s, Fill(1));
    var s1 := Apply(cfg, s, Fill(1)).value;
    assert cfg.file[0..1] == cfg.file[..1];
    ReachableStep(cfg, s1, PollWrite(0));
    s := Apply(cfg, s1, PollWrite(0)).value;
  }
}
