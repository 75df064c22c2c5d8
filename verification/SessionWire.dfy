/** What exactly a connection puts on the wire, octet for octet, and that it uses no nonce twice. */
module SessionWire {
  import opened Wrappers
  import opened Noise
  import opened Framing
  import opened Models
  import opened Session
  import opened SessionSafety
  import opened ShortHeader
  import opened SessionDelivery

  /** The key of the file's frames: what Split() makes for the responder of the three shared secrets. */
  function FramesKey(k: Secrets): Key {
    ToInitiator([Shared({k.ec, k.es}), Shared({k.ec, k.ss}), Shared({k.sc, k.es})])
  }

  /** The ciphertexts of a list of polls: their chunks, sealed one after the other, under nonces from 0. */
  function Ciphertexts(key: Key, polls: seq<Attempt>): seq<seq<Octet>> {
    seq(|polls|, i requires 0 <= i < |polls| => Seal(key, i, [], Plain(polls[i].chunk)))
  }

  lemma {:induction false} FramesAppend(payloads: seq<seq<Octet>>, last: seq<Octet>)
    ensures Frames(payloads + [last]) == Frames(payloads) + Frame(last)
  {
    if payloads == [] {
      assert payloads + [last] == [last] && [last][1..] == [];
    } else {
      assert (payloads + [last])[1..] == payloads[1..] + [last];
      FramesAppend(payloads[1..], last);
    }
  }

  lemma {:induction false} WireIsFrames(key: Key, polls: seq<Attempt>)
    requires AllComplete(polls)
    ensures Wire(key, polls) == Frames(Ciphertexts(key, polls))
    decreases |polls|
  {
    if polls == [] {
    } else {
      var (before, last) := (polls[..|polls| - 1], polls[|polls| - 1]);
      WireIsFrames(key, before);
      var c := Seal(key, |before|, [], Plain(last.chunk));
      assert Ciphertexts(key, polls) == Ciphertexts(key, before) + [c];
      FramesAppend(Ciphertexts(key, before), c);
      assert Piece(key, |before|, last) == Frame(c);
    }
  }

  /** Octet for octet, what a server that copies the file has written, once every poll has completed: the
      header; with encryption, the frame of its handshake message, a one for the approval, and the frames of
      the chunks; and without, the file so far. */
  lemma WireExactly(cfg: Config, s: Session)
    requires cfg.Valid() && Reachable(cfg, s) && s.short == None && s.server.pc == Copying
    requires AllComplete(s.server.attempts)
    ensures s.server.off <= |cfg.file|
    ensures var header := Plain(HeaderBytes(cfg.info));
            s.down == if cfg.info.encrypted then
                        header + Frame(Write2(cfg.keys).out) + [Byte(1)]
                        + Frames(Ciphertexts(FramesKey(cfg.keys), s.server.attempts))
                      else header + Plain(cfg.file[..s.server.off])
  {
    ReachableInv(cfg, s);
    assert s.down + s.server.out == ServerScript(cfg, ScriptOf(cfg), s.server) && s.server.out == [];
    assert s.server.off <= |cfg.file|;
    NamesOfScript(cfg);
    HandshakeAgreement(cfg.keys);
    hide Reachable, Works, ScriptOf, Inv, Frames;
    assert s.down + [] == s.down;
    WireIsFrames(FramesKey(cfg.keys), s.server.attempts);
  }

  lemma {:induction false} WireSeals(key: Key, polls: seq<Attempt>, o: Octet)
    requires o in Wire(key, polls) && o.Cipher?
    ensures o.nonce < |polls| && o.key == key && o.ad == [] && o.plain == Plain(polls[o.nonce].chunk)
    decreases |polls|
  {
    var (before, last) := (polls[..|polls| - 1], polls[|polls| - 1]);
    if o in Piece(key, |before|, last) {
      FrameSeals(key, |before|, [], Plain(last.chunk), o);
    } else {
      WireSeals(key, before, o);
    }
  }

  lemma FrameSeals(key: Key, nonce: nat, ad: seq<Octet>, plain: seq<Octet>, o: Octet)
    requires o in Frame(Seal(key, nonce, ad, plain)) && o.Cipher?
    ensures o.key == key && o.nonce == nonce && o.ad == ad && o.plain == plain
  {
  }

  /** In no run is a nonce used twice with a key: octets of ciphertexts of a connection, either way, whose key
      and nonce agree, are of the same plaintext, sealed with the same associated data. */
  lemma NoncesUsedOnceInRuns(cfg: Config, s: Session, a: Octet, b: Octet)
    requires cfg.Valid() && cfg.info.encrypted && Reachable(cfg, s)
    requires a in s.down + s.up && b in s.down + s.up
    requires a.Cipher? && b.Cipher? && a.key == b.key && a.nonce == b.nonce
    ensures a.ad == b.ad && a.plain == b.plain
  {
    CipherOctets(cfg, s, a);
    CipherOctets(cfg, s, b);
    var (k, key) := (cfg.keys, FramesKey(cfg.keys));
    hide Reachable, Write1, Write2, Write3, Wire;
    if a in Wire(key, s.server.attempts) {
      WireSeals(key, s.server.attempts, a);
    } else if b in Wire(key, s.server.attempts) {
      WireSeals(key, s.server.attempts, b);
    }
    if a in Wire(key, s.server.attempts) && b in Wire(key, s.server.attempts) {
      WireSeals(key, s.server.attempts, b);
    } else if a !in Wire(key, s.server.attempts) && b !in Wire(key, s.server.attempts) {
      NoncesUsedOnce(k, a, b);
    } else if a in Wire(key, s.server.attempts) {
      NoncesUsedOnce(k, b, b);
    } else {
      NoncesUsedOnce(k, a, a);
    }
  }

  /** Where the ciphertext octets of a connection come from: its handshake, or the frames of its file. */
  lemma CipherOctets(cfg: Config, s: Session, o: Octet)
    requires cfg.Valid() && cfg.info.encrypted && Reachable(cfg, s) && o in s.down + s.up && o.Cipher?
    ensures var k := cfg.keys;
            || o in Write1(k).out + Write2(k).out + Write3(k).out
            || o in Wire(FramesKey(k), s.server.attempts)
  {
    ReachableInv(cfg, s);
    NamesOfScript(cfg);
    HandshakeAgreement(cfg.keys);
    var x := ScriptOf(cfg);
    hide Reachable, Works, ScriptOf, Wire, Write1, Write2, Write3;
    if s.short.Some? {
      ShortHasNoCiphers(cfg, x, s, s.short.value);
    } else {
      UpFollowsScript(cfg, x, s);
      DownFollows(cfg, x, s);
      hide Inv;
      FrameOctet(Write1(cfg.keys).out, o);
      FrameOctet(Write2(cfg.keys).out, o);
      FrameOctet(Write3(cfg.keys).out, o);
    }
  }

  lemma ShortHasNoCiphers(cfg: Config, x: Script, s: Session, n: nat)
    requires ShortInv(cfg, x, s, n) && cfg.info.encrypted
    ensures forall o :: o in s.down + s.up ==> o.Byte?
  {
  }

  lemma DownFollows(cfg: Config, x: Script, s: Session)
    requires Inv(cfg, x, s) && cfg.info.encrypted
    ensures forall o :: o in s.down ==>
              o in x.header || o in x.reply || o.Byte? || o in Wire(FileKey(x), s.server.attempts)
  {
    hide ClientInv, ServerReads, ServerCopies, Wire;
    assert forall o :: o in s.down ==> o in s.down + s.server.out;
  }

  lemma FrameOctet(payload: seq<Octet>, o: Octet)
    requires o.Cipher?
    ensures o in Frame(payload) ==> o in payload
  {
  }
}
