/** The failure-compatible datatypes the model uses, and the smaller of two numbers. */
module Wrappers {
  datatype Option<+T> = None | Some(value: T)

  datatype Result<+T, +E> = Ok(value: T) | Err(error: E)

  function Min(a: nat, b: nat): nat {
    if a < b then a else b
  }
}

/** Bytes, and the fixed-width little-endian integers of the bincode default layout. */
module Bytes {
  type byte = b: int | 0 <= b < 256

  const U16_SIZE := 0x1_0000
  const U64_SIZE := 0x1_0000_0000_0000_0000

  type u16 = n: int | 0 <= n < U16_SIZE
  type u64 = n: int | 0 <= n < U64_SIZE

  function Pow256(width: nat): (p: nat)
    ensures p >= 1
  {
    if width == 0 then 1 else 256 * Pow256(width - 1)
  }

  lemma Pow256Widths()
    ensures Pow256(2) == U16_SIZE && Pow256(8) == U64_SIZE
  {
  }

  function LittleEndian(n: nat, width: nat): (s: seq<byte>)
    ensures |s| == width
  {
    if width == 0 then [] else [n % 256] + LittleEndian(n / 256, width - 1)
  }

  function FromLittleEndian(s: seq<byte>): (n: nat)
    ensures n < Pow256(|s|)
  {
    if s == [] then 0 else s[0] + 256 * FromLittleEndian(s[1..])
  }

  lemma {:induction false} LittleEndianRoundTrip(n: nat, width: nat)
    requires n < Pow256(width)
    ensures FromLittleEndian(LittleEndian(n, width)) == n
  {
    if width == 0 {
    } else {
      LittleEndianRoundTrip(n / 256, width - 1);
      assert LittleEndian(n, width)[1..] == LittleEndian(n / 256, width - 1);
    }
  }

  lemma LowestByte(b: byte, n: nat)
    ensures (b + 256 * n) % 256 == b && (b + 256 * n) / 256 == n
  {
  }

  lemma {:induction false} LittleEndianOnto(s: seq<byte>)
    ensures LittleEndian(FromLittleEndian(s), |s|) == s
  {
    if s == [] {
    } else {
      var n := FromLittleEndian(s[1..]);
      LittleEndianOnto(s[1..]);
      LowestByte(s[0], n);
      assert LittleEndian(s[0] + 256 * n, |s|) == [s[0]] + LittleEndian(n, |s| - 1);
    }
  }

  /** A well-formed UTF-8 string, as the table of section 4 of RFC 3629 lists the byte ranges. */
  predicate ValidUtf8(s: seq<byte>) {
    if s == [] then true
    else if s[0] < 0x80 then ValidUtf8(s[1..])
    else if 0xC2 <= s[0] <= 0xDF then
      |s| >= 2 && Tail(s[1]) && ValidUtf8(s[2..])
    else if 0xE0 <= s[0] <= 0xEF then
      |s| >= 3 && Tail(s[1]) && Tail(s[2])
      && (s[0] == 0xE0 ==> 0xA0 <= s[1]) && (s[0] == 0xED ==> s[1] <= 0x9F)
      && ValidUtf8(s[3..])
    else if 0xF0 <= s[0] <= 0xF4 then
      |s| >= 4 && Tail(s[1]) && Tail(s[2]) && Tail(s[3])
      && (s[0] == 0xF0 ==> 0x90 <= s[1]) && (s[0] == 0xF4 ==> s[1] <= 0x8F)
      && ValidUtf8(s[4..])
    else false
  }

  predicate Tail(b: byte) {
    0x80 <= b <= 0xBF
  }

  /** A Rust `String`: valid UTF-8, and short enough for its length to be a `u64`. */
  type Utf8 = s: seq<byte> | ValidUtf8(s) && |s| < U64_SIZE witness []
}
