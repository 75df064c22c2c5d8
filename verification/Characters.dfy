/** What UTF-8 strings are made of: a byte string is accepted as a string if and only if it encodes some
    characters. */
module Characters {
  import opened Bytes

  /** A character: any code point that is not a surrogate. */
  type Scalar = c: int | 0 <= c <= 0x10FFFF && !(0xD800 <= c <= 0xDFFF)

  /** Its encoding, as section 3 of RFC 3629 distributes its bits. */
  function EncodeScalar(c: Scalar): (s: seq<byte>)
    ensures s != []
  {
    if c < 0x80 then [c]
    else if c < 0x800 then [0xC0 + c / 0x40, 0x80 + c % 0x40]
    else if c < 0x10000 then [0xE0 + c / 0x1000, 0x80 + c / 0x40 % 0x40, 0x80 + c % 0x40]
    else [0xF0 + c / 0x40000, 0x80 + c / 0x1000 % 0x40, 0x80 + c / 0x40 % 0x40, 0x80 + c % 0x40]
  }

  function EncodeScalars(cs: seq<Scalar>): seq<byte> {
    if cs == [] then [] else EncodeScalar(cs[0]) + EncodeScalars(cs[1..])
  }

  /** How many bytes the character takes that starts with this byte. */
  function Width(first: byte): nat {
    if first < 0x80 then 1 else if first <= 0xDF then 2 else if first <= 0xEF then 3 else 4
  }

  lemma SixBits(hi: int, lo: int)
    requires 0 <= lo < 0x40
    ensures (hi * 0x40 + lo) / 0x40 == hi && (hi * 0x40 + lo) % 0x40 == lo
  {
  }

  lemma TwoByteScalar(a: byte, b: byte) returns (c: Scalar)
    requires 0xC2 <= a <= 0xDF && Tail(b)
    ensures EncodeScalar(c) == [a, b]
  {
    var (hi, lo) := (a as int - 0xC0, b as int - 0x80);
    SixBits(hi, lo);
    c := hi * 0x40 + lo;
  }

  lemma ThreeByteScalar(a: byte, b: byte, d: byte) returns (c: Scalar)
    requires 0xE0 <= a <= 0xEF && Tail(b) && Tail(d) && (a == 0xE0 ==> 0xA0 <= b) && (a == 0xED ==> b <= 0x9F)
    ensures EncodeScalar(c) == [a, b, d]
  {
    var (hi, mid, lo) := (a as int - 0xE0, b as int - 0x80, d as int - 0x80);
    SixBits(hi, mid);
    SixBits(hi * 0x40 + mid, lo);
    var n := (hi * 0x40 + mid) * 0x40 + lo;
    assert n / 0x1000 == hi && 0x800 <= n < 0x10000;
    c := n;
  }

  lemma FourByteScalar(a: byte, b: byte, d: byte, e: byte) returns (c: Scalar)
    requires 0xF0 <= a <= 0xF4 && Tail(b) && Tail(d) && Tail(e)
    requires (a == 0xF0 ==> 0x90 <= b) && (a == 0xF4 ==> b <= 0x8F)
    ensures EncodeScalar(c) == [a, b, d, e]
  {
    var (hi, up, mid, lo) := (a as int - 0xF0, b as int - 0x80, d as int - 0x80, e as int - 0x80);
    SixBits(hi, up);
    SixBits(hi * 0x40 + up, mid);
    SixBits((hi * 0x40 + up) * 0x40 + mid, lo);
    var n := ((hi * 0x40 + up) * 0x40 + mid) * 0x40 + lo;
    assert n / 0x1000 == hi * 0x40 + up && n / 0x40000 == hi && 0x10000 <= n <= 0x10FFFF;
    c := n;
  }

  lemma FirstScalar(s: seq<byte>) returns (c: Scalar)
    requires s != [] && ValidUtf8(s)
    ensures Width(s[0]) <= |s| && s[..Width(s[0])] == EncodeScalar(c) && ValidUtf8(s[Width(s[0])..])
  {
    hide EncodeScalar;
    if s[0] < 0x80 {
      c := s[0];
      assert EncodeScalar(c) == [s[0]] by {
        OneByteScalar(c);
      }
    } else if s[0] <= 0xDF {
      c := TwoByteScalar(s[0], s[1]);
    } else if s[0] <= 0xEF {
      c := ThreeByteScalar(s[0], s[1], s[2]);
    } else {
      c := FourByteScalar(s[0], s[1], s[2], s[3]);
    }
  }

  lemma OneByteScalar(c: Scalar)
    requires c < 0x80
    ensures EncodeScalar(c) == [c]
  {
  }

  /** A string is valid exactly if it is the encoding of some characters. */
  lemma ValidUtf8Exactly(s: seq<byte>)
    ensures ValidUtf8(s) <==> exists cs :: EncodeScalars(cs) == s
  {
    if ValidUtf8(s) {
      var cs := Scalars(s);
    }
    if cs :| EncodeScalars(cs) == s {
      EncodedIsValid(cs);
    }
  }

  lemma {:induction false} Scalars(s: seq<byte>) returns (cs: seq<Scalar>)
    requires ValidUtf8(s)
    ensures EncodeScalars(cs) == s
    decreases |s|
  {
    cs := [];
    if s != [] {
      var c := FirstScalar(s);
      hide ValidUtf8, EncodeScalar;
      var n := Width(s[0]);
      cs := Scalars(s[n..]);
      assert ([c] + cs)[1..] == cs && s[..n] + s[n..] == s;
      cs := [c] + cs;
    }
  }

  lemma {:induction false} EncodedIsValid(cs: seq<Scalar>)
    ensures ValidUtf8(EncodeScalars(cs))
  {
    if cs == [] {
    } else {
      EncodedIsValid(cs[1..]);
      ScalarIsValid(cs[0], EncodeScalars(cs[1..]));
    }
  }

  lemma ScalarIsValid(c: Scalar, tail: seq<byte>)
    requires ValidUtf8(tail)
    ensures ValidUtf8(EncodeScalar(c) + tail)
  {
    var e := EncodeScalar(c);
    ScalarBytes(c);
    hide EncodeScalar;
    assert (e + tail)[|e|..] == tail;
  }

  /** The bytes of a character are in the ranges of the table. */
  lemma ScalarBytes(c: Scalar)
    ensures var e := EncodeScalar(c);
            && 1 <= |e| <= 4
            && (|e| == 1 ==> e[0] < 0x80)
            && (|e| == 2 ==> 0xC2 <= e[0] <= 0xDF && Tail(e[1]))
            && (|e| == 3 ==>
                  && 0xE0 <= e[0] <= 0xEF && Tail(e[1]) && Tail(e[2])
                  && (e[0] == 0xE0 ==> 0xA0 <= e[1]) && (e[0] == 0xED ==> e[1] <= 0x9F))
            && (|e| == 4 ==>
                  && 0xF0 <= e[0] <= 0xF4 && Tail(e[1]) && Tail(e[2]) && Tail(e[3])
                  && (e[0] == 0xF0 ==> 0x90 <= e[1]) && (e[0] == 0xF4 ==> e[1] <= 0x8F))
  {
  }
}
