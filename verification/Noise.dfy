/** The Noise XX handshake and its transport ciphers (Noise Protocol Framework, revision 34), with
    symbolic cryptography: a public key and a ciphertext are runs of distinguishable octets, a
    Diffie-Hellman result is the pair of secrets that went into it, and hashing and key chaining
    keep the list of what was mixed in. */
module Noise {
  import opened Wrappers
  import opened Bytes

  const DH_LEN := 32
  const TAG_LEN := 16

  type SecretKey = nat

  datatype DhOut = Shared(secrets: set<SecretKey>) | Foreign(own: SecretKey, public: seq<Octet>)

  /** A cipher key: one of the handshake's, or one of the two that Split() makes. */
  datatype Key = Chained(ck: seq<DhOut>) | ToResponder(ck: seq<DhOut>) | ToInitiator(ck: seq<DhOut>)

  /** One octet on the wire: plain data, octet i of a public key, or octet i of a ciphertext. */
  datatype Octet =
    | Byte(b: byte)
    | Pub(sk: SecretKey, i: nat)
    | Cipher(key: Key, nonce: nat, ad: seq<Octet>, plain: seq<Octet>, i: nat)

  function Plain(s: seq<byte>): (o: seq<Octet>)
    ensures |o| == |s|
  {
    seq(|s|, i requires 0 <= i < |s| => Byte(s[i]))
  }

  function PublicKey(sk: SecretKey): (p: seq<Octet>)
    ensures |p| == DH_LEN
  {
    seq(DH_LEN, i => Pub(sk, if i < 0 then 0 else i))
  }

  function Dh(own: SecretKey, public: seq<Octet>): DhOut {
    if public != [] && public[0].Pub? && public == PublicKey(public[0].sk)
    then Shared({own, public[0].sk})
    else Foreign(own, public)
  }

  function Seal(key: Key, nonce: nat, ad: seq<Octet>, plain: seq<Octet>): (c: seq<Octet>)
    ensures |c| == |plain| + TAG_LEN
  {
    seq(|plain| + TAG_LEN, i => Cipher(key, nonce, ad, plain, if i < 0 then 0 else i))
  }

  function Open(key: Key, nonce: nat, ad: seq<Octet>, c: seq<Octet>): (plain: Option<seq<Octet>>)
    ensures forall p :: plain == Some(p) <==> c == Seal(key, nonce, ad, p)
  {
    if c != [] && c[0].Cipher? && c == Seal(key, nonce, ad, c[0].plain) then Some(c[0].plain)
    else
      assert forall p :: c == Seal(key, nonce, ad, p) ==> c[0] == Cipher(key, nonce, ad, p, 0);
      None
  }

  /** What was not sealed does not open. */
  lemma PlainDoesNotOpen(key: Key, nonce: nat, ad: seq<Octet>, c: seq<Octet>)
    requires c != [] ==> c[0].Byte?
    ensures Open(key, nonce, ad, c) == None
  {
  }

  // ----- the symmetric state of a handshake -----

  /** `ck` lists the Diffie-Hellman results mixed in (no key yet when it is empty), `n` is the
      nonce of the current key, and `h` is the transcript. */
  datatype Symmetric = Symmetric(ck: seq<DhOut>, n: nat, h: seq<Octet>) {
    function MixHash(data: seq<Octet>): Symmetric {
      this.(h := h + data)
    }

    function MixKey(d: DhOut): Symmetric {
      this.(ck := ck + [d], n := 0)
    }

    function Encrypt(p: seq<Octet>): seq<Octet> {
      if ck == [] then p else Seal(Chained(ck), n, h, p)
    }

    /** The state after `c` was written by EncryptAndHash or read by DecryptAndHash. */
    function After(c: seq<Octet>): Symmetric {
      MixHash(c).(n := if ck == [] then n else n + 1)
    }

    function Decrypt(c: seq<Octet>): Option<seq<Octet>> {
      if ck == [] then Some(c) else Open(Chained(ck), n, h, c)
    }

    /** The length of an encrypted static key. */
    function StaticLen(): nat {
      if ck == [] then DH_LEN else DH_LEN + TAG_LEN
    }
  }

  // ----- handshake messages -----

  datatype Token = E | S | EE | ES | SE

  const MSG1 := [E]
  const MSG2 := [E, EE, S, ES]
  const MSG3 := [S, SE]

  /** `re` and `rs` are the peer's public keys, empty until they are known. */
  datatype Handshake = Handshake(
    sym: Symmetric, initiator: bool, e: SecretKey, s: SecretKey, re: seq<Octet>, rs: seq<Octet>) {

    function Secret(t: Token): DhOut {
      match t
      case EE => Dh(e, re)
      case ES => if initiator then Dh(e, rs) else Dh(s, re)
      case _ => if initiator then Dh(s, re) else Dh(e, rs)
    }
  }

  function Start(initiator: bool, e: SecretKey, s: SecretKey): Handshake {
    Handshake(Symmetric([], 0, []), initiator, e, s, [], [])
  }

  datatype Written = Written(out: seq<Octet>, hs: Handshake)

  datatype Read = Read(rest: seq<Octet>, hs: Handshake)

  function WriteToken(hs: Handshake, t: Token): Written {
    match t
    case E => Written(PublicKey(hs.e), hs.(sym := hs.sym.MixHash(PublicKey(hs.e))))
    case S =>
      var c := hs.sym.Encrypt(PublicKey(hs.s));
      Written(c, hs.(sym := hs.sym.After(c)))
    case _ => Written([], hs.(sym := hs.sym.MixKey(hs.Secret(t))))
  }

  function ReadToken(hs: Handshake, t: Token, msg: seq<Octet>): Option<Read> {
    match t
    case E =>
      if |msg| < DH_LEN then None
      else Some(Read(msg[DH_LEN..], hs.(re := msg[..DH_LEN], sym := hs.sym.MixHash(msg[..DH_LEN]))))
    case S =>
      var n := hs.sym.StaticLen();
      if |msg| < n then None
      else
        (match hs.sym.Decrypt(msg[..n])
         case None => None
         case Some(key) => Some(Read(msg[n..], hs.(rs := key, sym := hs.sym.After(msg[..n])))))
    case _ => Some(Read(msg, hs.(sym := hs.sym.MixKey(hs.Secret(t)))))
  }

  /** A message is its tokens and then an empty payload, encrypted once there is a key. */
  function WriteMessage(hs: Handshake, tokens: seq<Token>): Written
    decreases |tokens|, hs
  {
    if tokens == [] then
      var c := hs.sym.Encrypt([]);
      Written(c, hs.(sym := hs.sym.After(c)))
    else
      var w := WriteToken(hs, tokens[0]);
      var rest := WriteMessage(w.hs, tokens[1..]);
      Written(w.out + rest.out, rest.hs)
  }

  /** `None` is the error snow reports for a message that is too short or does not decrypt. */
  function ReadMessage(hs: Handshake, tokens: seq<Token>, msg: seq<Octet>): Option<Handshake>
    decreases |tokens|, hs
  {
    if tokens == [] then
      if hs.sym.Decrypt(msg).None? then None else Some(hs.(sym := hs.sym.After(msg)))
    else
      match ReadToken(hs, tokens[0], msg)
      case None => None
      case Some(r) => ReadMessage(r.hs, tokens[1..], r.rest)
  }

  /** Octets that were never part of a handshake are not read as the second message. */
  lemma PlainReplyFails(hs: Handshake, msg: seq<Octet>)
    requires forall i :: 0 <= i < |msg| ==> msg[i].Byte?
    ensures ReadMessage(hs, MSG2, msg) == None
  {
    assert MSG2[1..] == [EE, S, ES] && [EE, S, ES][1..] == [S, ES];
    if |msg| >= DH_LEN {
      var h1 := ReadToken(hs, E, msg).value.hs;
      var h2 := ReadToken(h1, EE, msg[DH_LEN..]).value.hs;
      var rest := msg[DH_LEN..];
      assert h2.sym.ck != [];
      if |rest| >= DH_LEN + TAG_LEN {
        PlainDoesNotOpen(Chained(h2.sym.ck), h2.sym.n, h2.sym.h, rest[..DH_LEN + TAG_LEN]);
      }
      assert ReadToken(h2, S, rest) == None;
      assert ReadMessage(h2, [S, ES], rest) == None;
      assert ReadMessage(h1, [EE, S, ES], rest) == None;
    }
  }

  /** Nor as the third. */
  lemma PlainIdentityFails(hs: Handshake, msg: seq<Octet>)
    requires hs.sym.ck != [] && (msg != [] ==> msg[0].Byte?)
    ensures ReadMessage(hs, MSG3, msg) == None
  {
    if |msg| >= DH_LEN + TAG_LEN {
      PlainDoesNotOpen(Chained(hs.sym.ck), hs.sym.n, hs.sym.h, msg[..DH_LEN + TAG_LEN]);
    }
    assert ReadToken(hs, S, msg) == None;
  }

  // ----- agreement -----

  /** The two ends of one handshake: same symmetric state, opposite roles, and whatever one end
      holds of the other is the truth. */
  predicate Mirror(a: Handshake, b: Handshake) {
    && a.sym == b.sym
    && a.initiator != b.initiator
    && (a.re == [] || a.re == PublicKey(b.e)) && (b.re == [] || b.re == PublicKey(a.e))
    && (a.rs == [] || a.rs == PublicKey(b.s)) && (b.rs == [] || b.rs == PublicKey(a.s))
  }

  /** Both ends know the public keys that a Diffie-Hellman token uses. */
  predicate Ready(a: Handshake, b: Handshake, t: Token) {
    var (ini, res) := if a.initiator then (a, b) else (b, a);
    match t
    case EE => ini.re != [] && res.re != []
    case ES => ini.rs != [] && res.re != []
    case SE => ini.re != [] && res.rs != []
    case _ => true
  }

  /** Every Diffie-Hellman token of the message uses keys both ends know by then. */
  predicate Feasible(w: Handshake, r: Handshake, tokens: seq<Token>)
    decreases |tokens|
  {
    tokens == [] ||
    (Ready(w, r, tokens[0]) &&
     Feasible(w, r.(re := if tokens[0].E? then PublicKey(w.e) else r.re,
                    rs := if tokens[0].S? then PublicKey(w.s) else r.rs), tokens[1..]))
  }

  lemma {:induction false} FeasibleIgnoresState(w: Handshake, w': Handshake, r: Handshake, r': Handshake, tokens: seq<Token>)
    requires Feasible(w, r, tokens)
    requires w' == w.(sym := w'.sym) && r' == r.(sym := r'.sym)
    ensures Feasible(w', r', tokens)
    decreases |tokens|
  {
    if tokens == [] {
    } else {
      var learn := (x: Handshake) => x.(re := if tokens[0].E? then PublicKey(w.e) else x.re,
                                        rs := if tokens[0].S? then PublicKey(w.s) else x.rs);
      FeasibleIgnoresState(w, w', learn(r), learn(r'), tokens[1..]);
    }
  }

  lemma TokenAgrees(w: Handshake, r: Handshake, t: Token, tail: seq<Octet>)
    requires Mirror(w, r) && Ready(w, r, t)
    ensures var out := WriteToken(w, t);
            var got := ReadToken(r, t, out.out + tail);
            && got.Some? && got.value.rest == tail && Mirror(out.hs, got.value.hs)
            && out.hs == w.(sym := out.hs.sym)
            && got.value.hs == r.(sym := got.value.hs.sym,
                                  re := if t.E? then PublicKey(w.e) else r.re,
                                  rs := if t.S? then PublicKey(w.s) else r.rs)
  {
    var out := WriteToken(w, t).out;
    assert (out + tail)[..|out|] == out && (out + tail)[|out|..] == tail;
    match t
    case E =>
    case S =>
    case _ =>
      assert out + tail == tail;
      SameSecret(w.e, r.e);
      SameSecret(w.e, r.s);
      SameSecret(w.s, r.e);
      assert w.Secret(t) == r.Secret(t);
  }

  /** Diffie-Hellman commutes. */
  lemma SameSecret(a: SecretKey, b: SecretKey)
    ensures Dh(a, PublicKey(b)) == Dh(b, PublicKey(a)) == Shared({a, b})
  {
  }

  /** Whatever one end writes, the other end reads, and both are in the same state afterwards. */
  lemma {:induction false} MessageAgrees(w: Handshake, r: Handshake, tokens: seq<Token>)
    requires Mirror(w, r) && Feasible(w, r, tokens)
    ensures var out := WriteMessage(w, tokens);
            var got := ReadMessage(r, tokens, out.out);
            && got.Some? && Mirror(out.hs, got.value)
            && out.hs == w.(sym := out.hs.sym)
            && got.value == r.(sym := got.value.sym,
                               re := if E in tokens then PublicKey(w.e) else r.re,
                               rs := if S in tokens then PublicKey(w.s) else r.rs)
    decreases |tokens|
  {
    if tokens == [] {
    } else {
      var out := WriteToken(w, tokens[0]);
      var rest := WriteMessage(out.hs, tokens[1..]);
      TokenAgrees(w, r, tokens[0], rest.out);
      var got := ReadToken(r, tokens[0], out.out + rest.out).value;
      FeasibleIgnoresState(w, out.hs, got.hs.(sym := r.sym), got.hs, tokens[1..]);
      MessageAgrees(out.hs, got.hs, tokens[1..]);
      assert forall t :: t in tokens <==> t == tokens[0] || t in tokens[1..];
    }
  }

  // ----- the honest run of XX -----

  /** The ephemeral and static secrets of client and server. */
  datatype Secrets = Secrets(ec: SecretKey, sc: SecretKey, es: SecretKey, ss: SecretKey)

  function Client0(k: Secrets): Handshake { Start(true, k.ec, k.sc) }
  function Server0(k: Secrets): Handshake { Start(false, k.es, k.ss) }

  function Or(o: Option<Handshake>, otherwise: Handshake): Handshake {
    if o.Some? then o.value else otherwise
  }

  function Write1(k: Secrets): Written { WriteMessage(Client0(k), MSG1) }
  function Server1(k: Secrets): Handshake { Or(ReadMessage(Server0(k), MSG1, Write1(k).out), Server0(k)) }
  function Write2(k: Secrets): Written { WriteMessage(Server1(k), MSG2) }
  function Client2(k: Secrets): Handshake { Or(ReadMessage(Write1(k).hs, MSG2, Write2(k).out), Write1(k).hs) }
  function Write3(k: Secrets): Written { WriteMessage(Client2(k), MSG3) }
  function Server3(k: Secrets): Handshake { Or(ReadMessage(Write2(k).hs, MSG3, Write3(k).out), Write2(k).hs) }

  const LEN1 := 32
  const LEN2 := 96
  const LEN3 := 64

  lemma FirstMessage(k: Secrets)
    ensures Write1(k).out == PublicKey(k.ec)
    ensures ReadMessage(Server0(k), MSG1, Write1(k).out) == Some(Server1(k))
    ensures Mirror(Server1(k), Write1(k).hs)
    ensures Write1(k).hs == Client0(k).(sym := Write1(k).hs.sym) && Write1(k).hs.sym.ck == []
    ensures Server1(k) == Server0(k).(sym := Server1(k).sym, re := PublicKey(k.ec))
  {
    assert MSG1[1..] == [];
    assert Feasible(Client0(k), Server0(k), MSG1);
    MessageAgrees(Client0(k), Server0(k), MSG1);
  }

  lemma SecondMessage(k: Secrets)
    ensures |Write2(k).out| == LEN2
    ensures ReadMessage(Write1(k).hs, MSG2, Write2(k).out) == Some(Client2(k))
    ensures Mirror(Client2(k), Write2(k).hs)
    ensures Write2(k).hs == Server1(k).(sym := Write2(k).hs.sym)
    ensures Client2(k) == Client0(k).(sym := Client2(k).sym, re := PublicKey(k.es), rs := PublicKey(k.ss))
    ensures Client2(k).sym.ck == [Shared({k.ec, k.es}), Shared({k.ec, k.ss})]
  {
    FirstMessage(k);
    assert MSG2[1..] == [EE, S, ES] && [EE, S, ES][1..] == [S, ES] && [S, ES][1..] == [ES] && [ES][1..] == [];
    var (w, r) := (Server1(k), Write1(k).hs);
    FeasibleSecond(w, r);
    MessageAgrees(w, r, MSG2);
    var w1 := WriteToken(w, E).hs;
    var w2 := WriteToken(w1, EE).hs;
    var w3 := WriteToken(w2, S).hs;
    var w4 := WriteToken(w3, ES).hs;
    SameSecret(k.es, k.ec);
    SameSecret(k.ss, k.ec);
    assert WriteMessage(w4, []).hs.sym.ck == w4.sym.ck;
    assert WriteMessage(w3, [ES]) == Written(WriteToken(w3, ES).out + WriteMessage(w4, []).out, WriteMessage(w4, []).hs);
    assert WriteMessage(w2, [S, ES])
        == Written(WriteToken(w2, S).out + WriteMessage(w3, [ES]).out, WriteMessage(w3, [ES]).hs);
    assert WriteMessage(w1, [EE, S, ES])
        == Written(WriteToken(w1, EE).out + WriteMessage(w2, [S, ES]).out, WriteMessage(w2, [S, ES]).hs);
  }

  lemma FeasibleSecond(w: Handshake, r: Handshake)
    requires !w.initiator && w.re != []
    ensures Feasible(w, r, MSG2)
  {
  }

  lemma ThirdAgrees(k: Secrets)
    ensures ReadMessage(Write2(k).hs, MSG3, Write3(k).out) == Some(Server3(k))
    ensures Write3(k).hs.sym == Server3(k).sym
    ensures Server3(k).rs == PublicKey(k.sc) && Write3(k).hs.rs == PublicKey(k.ss)
  {
    SecondMessage(k);
    var (w, r) := (Client2(k), Write2(k).hs);
    assert PublicKey(w.s) != [] && PublicKey(k.ss) != [] && PublicKey(k.es) != [];
    assert MSG3[1..] == [SE] && [SE][1..] == [];
    assert Feasible(w, r.(rs := PublicKey(w.s)), [SE]);
    MessageAgrees(w, r, MSG3);
  }

  lemma WriteThird(w: Handshake)
    requires w.sym.ck != [] && w.initiator
    ensures |WriteMessage(w, MSG3).out| == LEN3
    ensures WriteMessage(w, MSG3).hs.sym.ck == w.sym.ck + [Dh(w.s, w.re)]
  {
    assert MSG3[1..] == [SE] && [SE][1..] == [];
    var w1 := WriteToken(w, S).hs;
    var w2 := WriteToken(w1, SE).hs;
    assert WriteMessage(w1, [SE]) == Written(WriteToken(w1, SE).out + WriteMessage(w2, []).out, WriteMessage(w2, []).hs);
  }

  lemma ThirdMessage(k: Secrets)
    ensures |Write3(k).out| == LEN3
    ensures ReadMessage(Write2(k).hs, MSG3, Write3(k).out) == Some(Server3(k))
    ensures Write3(k).hs.sym == Server3(k).sym
    ensures Server3(k).rs == PublicKey(k.sc) && Write3(k).hs.rs == PublicKey(k.ss)
    ensures Server3(k).sym.ck == [Shared({k.ec, k.es}), Shared({k.ec, k.ss}), Shared({k.sc, k.es})]
  {
    SecondMessage(k);
    WriteThird(Client2(k));
    SameSecret(k.sc, k.es);
    ThirdAgrees(k);
  }

  /** XX between honest ends: all three messages are accepted, they have 32, 96 and 64 octets, both
      ends split the same chaining key made of the ee, es and se results, and each holds the
      other's static public key. */
  lemma HandshakeAgreement(k: Secrets)
    ensures |Write1(k).out| == LEN1 && |Write2(k).out| == LEN2 && |Write3(k).out| == LEN3
    ensures ReadMessage(Server0(k), MSG1, Write1(k).out) == Some(Server1(k))
    ensures ReadMessage(Write1(k).hs, MSG2, Write2(k).out) == Some(Client2(k))
    ensures ReadMessage(Write2(k).hs, MSG3, Write3(k).out) == Some(Server3(k))
    ensures Write3(k).hs.sym == Server3(k).sym
    ensures Server3(k).sym.ck == [Shared({k.ec, k.es}), Shared({k.ec, k.ss}), Shared({k.sc, k.es})]
    ensures Server3(k).rs == PublicKey(k.sc) && Write3(k).hs.rs == PublicKey(k.ss)
  {
    FirstMessage(k);
    SecondMessage(k);
    ThirdMessage(k);
  }

  // ----- what exactly goes over the wire -----

  /** The chaining keys of XX between honest ends, by which secrets went in: ephemeral with ephemeral, then
      the client's ephemeral with the server's static, then the client's static with the server's
      ephemeral. */
  function KeyEe(k: Secrets): Key { Chained([Shared({k.ec, k.es})]) }
  function KeyEs(k: Secrets): Key { Chained([Shared({k.ec, k.es}), Shared({k.ec, k.ss})]) }
  function KeySe(k: Secrets): Key { Chained([Shared({k.ec, k.es}), Shared({k.ec, k.ss}), Shared({k.sc, k.es})]) }

  lemma FirstWritten(w: Handshake)
    requires w.sym == Symmetric([], 0, [])
    ensures WriteMessage(w, MSG1) == Written(PublicKey(w.e), w.(sym := Symmetric([], 0, PublicKey(w.e))))
  {
    assert MSG1[1..] == [];
    var w1 := WriteToken(w, E).hs;
    assert [] + PublicKey(w.e) == PublicKey(w.e) == PublicKey(w.e) + [];
    assert w1.sym == Symmetric([], 0, PublicKey(w.e));
    assert WriteMessage(w1, []) == Written([], w1);
  }

  /** The end of the second and of the third message: a sealed static key, one more secret, and a sealed
      empty payload. */
  lemma StaticWritten(w: Handshake, t: Token, ck: seq<DhOut>, n: nat, h: seq<Octet>)
    requires (t == ES || t == SE) && ck != [] && w.sym == Symmetric(ck, n, h)
    ensures var ck' := ck + [w.Secret(t)];
            var id := Seal(Chained(ck), n, h, PublicKey(w.s));
            var payload := Seal(Chained(ck'), 0, h + id, []);
            WriteMessage(w, [S, t]) == Written(id + payload, w.(sym := Symmetric(ck', 1, h + (id + payload))))
  {
    assert [S, t][1..] == [t] && [t][1..] == [];
    var ck' := ck + [w.Secret(t)];
    var id := Seal(Chained(ck), n, h, PublicKey(w.s));
    var payload := Seal(Chained(ck'), 0, h + id, []);
    hide PublicKey, Dh, Seal;
    var w1 := w.(sym := Symmetric(ck, n + 1, h + id));
    var w2 := w.(sym := Symmetric(ck', 0, h + id));
    assert WriteToken(w, S) == Written(id, w1) && WriteToken(w1, t) == Written([], w2);
    var end := w.(sym := Symmetric(ck', 1, h + id + payload));
    assert WriteMessage(w2, []) == Written(payload, end);
    hide WriteToken;
    assert WriteMessage(w1, [t]) == Written([] + payload, end);
    assert h + id + payload == h + (id + payload);
  }

  lemma SecondWritten(w: Handshake, h: seq<Octet>)
    requires !w.initiator && w.sym == Symmetric([], 0, h)
    ensures var (ck1, ck2) := ([Dh(w.e, w.re)], [Dh(w.e, w.re), Dh(w.s, w.re)]);
            var id := Seal(Chained(ck1), 0, h + PublicKey(w.e), PublicKey(w.s));
            var payload := Seal(Chained(ck2), 0, h + PublicKey(w.e) + id, []);
            WriteMessage(w, MSG2) == Written(PublicKey(w.e) + id + payload,
                                             w.(sym := Symmetric(ck2, 1, h + (PublicKey(w.e) + id + payload))))
  {
    assert MSG2[1..] == [EE, S, ES] && [EE, S, ES][1..] == [S, ES];
    var (ck1, ck2, pub) := ([Dh(w.e, w.re)], [Dh(w.e, w.re), Dh(w.s, w.re)], PublicKey(w.e));
    hide PublicKey, Dh, Seal;
    var w1 := w.(sym := Symmetric([], 0, h + pub));
    var w2 := w.(sym := Symmetric(ck1, 0, h + pub));
    assert [] + [Dh(w.e, w.re)] == ck1 && ck1 + [w2.Secret(ES)] == ck2;
    assert WriteToken(w, E) == Written(pub, w1) && WriteToken(w1, EE) == Written([], w2);
    StaticWritten(w2, ES, ck1, 0, h + pub);
    var tail := WriteMessage(w2, [S, ES]);
    hide WriteToken;
    assert WriteMessage(w1, [EE, S, ES]) == Written([] + tail.out, tail.hs);
    assert WriteMessage(w, MSG2) == Written(pub + ([] + tail.out), tail.hs);
    var id := Seal(Chained(ck1), 0, h + pub, PublicKey(w.s));
    var payload := Seal(Chained(ck2), 0, h + pub + id, []);
    assert pub + ([] + (id + payload)) == pub + id + payload;
    assert h + pub + (id + payload) == h + (pub + id + payload);
  }

  /** The three messages, octet for octet. In the first the client's ephemeral key goes in clear; in the
      second the server's, then its static key and an empty payload, each sealed; in the third the client's
      static key and an empty payload. Each seal has all that was sent before it as associated data, and
      the third message goes on with the key that the second ended with, under the next nonce. */
  lemma HandshakeTranscript(k: Secrets)
    ensures Write1(k).out == PublicKey(k.ec)
    ensures var sent := PublicKey(k.ec) + PublicKey(k.es);
            var id := Seal(KeyEe(k), 0, sent, PublicKey(k.ss));
            Write2(k).out == PublicKey(k.es) + id + Seal(KeyEs(k), 0, sent + id, [])
    ensures var sent := Write1(k).out + Write2(k).out;
            var id := Seal(KeyEs(k), 1, sent, PublicKey(k.sc));
            Write3(k).out == id + Seal(KeySe(k), 0, sent + id, [])
  {
    HandshakeAgreement(k);
    FirstWritten(Client0(k));
    FirstMessage(k);
    var pub := PublicKey(k.ec);
    assert Server1(k) == Server0(k).(sym := Symmetric([], 0, pub), re := pub);
    SameSecret(k.es, k.ec);
    SameSecret(k.ss, k.ec);
    SameSecret(k.sc, k.es);
    SecondMessage(k);
    hide PublicKey, Dh, Seal, WriteMessage, ReadMessage;
    SecondWritten(Server1(k), pub);
    var ck := [Shared({k.ec, k.es}), Shared({k.ec, k.ss})];
    assert Client2(k).sym == Symmetric(ck, 1, pub + Write2(k).out);
    StaticWritten(Client2(k), SE, ck, 1, pub + Write2(k).out);
    assert ck + [Shared({k.sc, k.es})] == [Shared({k.ec, k.es}), Shared({k.ec, k.ss}), Shared({k.sc, k.es})];
  }

  /** Every octet of a seal says what was sealed, and how. */
  lemma InSeal(o: Octet, key: Key, nonce: nat, ad: seq<Octet>, plain: seq<Octet>)
    requires o in Seal(key, nonce, ad, plain)
    ensures o.Cipher? && o.key == key && o.nonce == nonce && o.ad == ad && o.plain == plain
  {
  }

  /** What a ciphertext octet of the handshake says: it is of one of the four seals. */
  lemma SealsOfHandshake(k: Secrets, o: Octet)
    requires o in Write1(k).out + Write2(k).out + Write3(k).out && o.Cipher?
    ensures var (sent1, sent2) := (PublicKey(k.ec) + PublicKey(k.es), Write1(k).out + Write2(k).out);
            var (id1, id2) := (Seal(KeyEe(k), 0, sent1, PublicKey(k.ss)), Seal(KeyEs(k), 1, sent2, PublicKey(k.sc)));
            || (o.key == KeyEe(k) && o.nonce == 0 && o.ad == sent1 && o.plain == PublicKey(k.ss))
            || (o.key == KeyEs(k) && o.nonce == 0 && o.ad == sent1 + id1 && o.plain == [])
            || (o.key == KeyEs(k) && o.nonce == 1 && o.ad == sent2 && o.plain == PublicKey(k.sc))
            || (o.key == KeySe(k) && o.nonce == 0 && o.ad == sent2 + id2 && o.plain == [])
  {
    HandshakeTranscript(k);
    var (sent1, sent2) := (PublicKey(k.ec) + PublicKey(k.es), Write1(k).out + Write2(k).out);
    var (id1, id2) := (Seal(KeyEe(k), 0, sent1, PublicKey(k.ss)), Seal(KeyEs(k), 1, sent2, PublicKey(k.sc)));
    assert o !in PublicKey(k.ec) && o !in PublicKey(k.es);
    hide PublicKey, Seal, KeyEe, KeyEs, KeySe, Write1, Write2, Write3;
    if o in id1 {
      InSeal(o, KeyEe(k), 0, sent1, PublicKey(k.ss));
    } else if o in Seal(KeyEs(k), 0, sent1 + id1, []) {
      InSeal(o, KeyEs(k), 0, sent1 + id1, []);
    } else if o in id2 {
      InSeal(o, KeyEs(k), 1, sent2, PublicKey(k.sc));
    } else {
      InSeal(o, KeySe(k), 0, sent2 + id2, []);
    }
  }

  /** Nowhere in a handshake is a nonce used twice with a key. */
  lemma NoncesUsedOnce(k: Secrets, a: Octet, b: Octet)
    requires var sent := Write1(k).out + Write2(k).out + Write3(k).out; a in sent && b in sent
    requires a.Cipher? && b.Cipher? && a.key == b.key && a.nonce == b.nonce
    ensures a.ad == b.ad && a.plain == b.plain
    ensures a.key.Chained?
  {
    SealsOfHandshake(k, a);
    SealsOfHandshake(k, b);
    DifferentKeys(k);
    hide PublicKey, Seal, KeyEe, KeyEs, KeySe, Write1, Write2, Write3;
  }

  lemma DifferentKeys(k: Secrets)
    ensures KeyEe(k) != KeyEs(k) && KeyEs(k) != KeySe(k) && KeyEe(k) != KeySe(k)
    ensures KeyEe(k).Chained? && KeyEs(k).Chained? && KeySe(k).Chained?
  {
    assert |KeyEe(k).ck| == 1 && |KeyEs(k).ck| == 2 && |KeySe(k).ck| == 3;
  }
}
