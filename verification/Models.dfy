/** src/models.rs: the two messages sent in clear, in bincode's default layout. */
module Models {
  import opened Wrappers
  import opened Bytes

  datatype DataSrvInfo = DataSrvInfo(tcpPort: u16, dataLength: u64, encrypted: bool, dataName: Utf8)

  datatype DiscoveryReply = DiscoveryReply(serverName: Utf8, tcpPort: u16)

  datatype DecodeError = UnexpectedEof | InvalidBool | InvalidUtf8

  /** What a decoder returns: the value, and the bytes it did not look at. */
  datatype Parsed<+T> = Parsed(value: T, rest: seq<byte>)

  // ----- the primitives of bincode -----

  function Uint(n: nat, width: nat): seq<byte> {
    LittleEndian(n, width)
  }

  function ParseUint(s: seq<byte>, width: nat): (r: Result<Parsed<nat>, DecodeError>)
    ensures r.Ok? ==> r.value.value < Pow256(width)
  {
    if |s| < width then Err(UnexpectedEof)
    else Ok(Parsed(FromLittleEndian(s[..width]), s[width..]))
  }

  function ParseBool(s: seq<byte>): Result<Parsed<bool>, DecodeError> {
    if s == [] then Err(UnexpectedEof)
    else if s[0] > 1 then Err(InvalidBool)
    else Ok(Parsed(s[0] == 1, s[1..]))
  }

  function Str(s: Utf8): seq<byte> {
    Uint(|s|, 8) + s
  }

  function ParseStr(s: seq<byte>): Result<Parsed<Utf8>, DecodeError> {
    Pow256Widths();
    match ParseUint(s, 8)
    case Err(e) => Err(e)
    case Ok(Parsed(n, rest)) =>
      if |rest| < n then Err(UnexpectedEof)
      else if !ValidUtf8(rest[..n]) then Err(InvalidUtf8)
      else Ok(Parsed(rest[..n], rest[n..]))
  }

  lemma UintThenTail(n: nat, width: nat, tail: seq<byte>)
    requires n < Pow256(width)
    ensures ParseUint(Uint(n, width) + tail, width) == Ok(Parsed(n, tail))
  {
    LittleEndianRoundTrip(n, width);
    assert (Uint(n, width) + tail)[..width] == Uint(n, width);
    assert (Uint(n, width) + tail)[width..] == tail;
  }

  lemma StrThenTail(s: Utf8, tail: seq<byte>)
    ensures ParseStr(Str(s) + tail) == Ok(Parsed(s, tail))
  {
    Pow256Widths();
    UintThenTail(|s|, 8, s + tail);
    assert Str(s) + tail == Uint(|s|, 8) + (s + tail);
    assert (s + tail)[..|s|] == s && (s + tail)[|s|..] == tail;
  }

  /** A string cut short is never decoded to a shorter string. */
  lemma StrCutShort(s: Utf8, k: nat)
    requires k < |Str(s)|
    ensures ParseStr(Str(s)[..k]) == Err(UnexpectedEof)
  {
    if k >= 8 {
      Pow256Widths();
      UintThenTail(|s|, 8, s[..k - 8]);
      assert Str(s)[..k] == Uint(|s|, 8) + s[..k - 8];
    }
  }

  // ----- DataSrvInfo -----

  /** The port, the length and the flag. */
  function FixedFields(info: DataSrvInfo): (s: seq<byte>)
    ensures |s| == 11
  {
    Uint(info.tcpPort, 2) + Uint(info.dataLength, 8) + [if info.encrypted then 1 else 0]
  }

  function SerializeInfo(info: DataSrvInfo): (s: seq<byte>)
    ensures |s| == 19 + |info.dataName|
  {
    FixedFields(info) + Str(info.dataName)
  }

  function DeserializeInfo(s: seq<byte>): Result<DataSrvInfo, DecodeError> {
    Pow256Widths();
    match ParseUint(s, 2)
    case Err(e) => Err(e)
    case Ok(Parsed(port, s1)) =>
      match ParseUint(s1, 8)
      case Err(e) => Err(e)
      case Ok(Parsed(length, s2)) =>
        match ParseBool(s2)
        case Err(e) => Err(e)
        case Ok(Parsed(encrypted, s3)) =>
          match ParseStr(s3)
          case Err(e) => Err(e)
          case Ok(Parsed(name, _)) =>
            Ok(DataSrvInfo(port, length, encrypted, name))
  }

  /** Decoding walks over the three fixed fields of an encoding and then reads the name. */
  lemma DeserializeReachesName(info: DataSrvInfo, name: seq<byte>)
    ensures DeserializeInfo(FixedFields(info) + name)
         == match ParseStr(name)
            case Err(e) => Err(e)
            case Ok(Parsed(n, _)) => Ok(info.(dataName := n))
  {
    Pow256Widths();
    var flag: seq<byte> := [if info.encrypted then 1 else 0];
    assert FixedFields(info) + name
        == Uint(info.tcpPort, 2) + (Uint(info.dataLength, 8) + (flag + name));
    UintThenTail(info.tcpPort, 2, Uint(info.dataLength, 8) + (flag + name));
    UintThenTail(info.dataLength, 8, flag + name);
    assert (flag + name)[1..] == name;
  }

  lemma InfoRoundTrip(info: DataSrvInfo, tail: seq<byte>)
    ensures DeserializeInfo(SerializeInfo(info) + tail) == Ok(info)
  {
    DeserializeReachesName(info, Str(info.dataName) + tail);
    StrThenTail(info.dataName, tail);
    assert SerializeInfo(info) + tail == FixedFields(info) + (Str(info.dataName) + tail);
  }

  lemma InfoCutShort(info: DataSrvInfo, k: nat)
    requires k < |SerializeInfo(info)|
    ensures DeserializeInfo(SerializeInfo(info)[..k]).Err?
  {
    var s := SerializeInfo(info)[..k];
    if k >= 11 {
      DeserializeReachesName(info, Str(info.dataName)[..k - 11]);
      StrCutShort(info.dataName, k - 11);
      assert s == FixedFields(info) + Str(info.dataName)[..k - 11];
    }
  }

  /** Two and eight bytes as a number, the least significant first. */
  function TwoBytes(s: seq<byte>): nat
    requires |s| == 2
  {
    s[0] as nat + 0x100 * s[1] as nat
  }

  function EightBytes(s: seq<byte>): nat
    requires |s| == 8
  {
    s[0] as nat + 0x100 * s[1] as nat + 0x1_0000 * s[2] as nat + 0x100_0000 * s[3] as nat
    + 0x1_0000_0000 * s[4] as nat + 0x100_0000_0000 * s[5] as nat
    + 0x1_0000_0000_0000 * s[6] as nat + 0x100_0000_0000_0000 * s[7] as nat
  }

  lemma UintLayout(n: nat)
    ensures n < U16_SIZE ==> TwoBytes(Uint(n, 2)) == n
    ensures n < U64_SIZE ==> EightBytes(Uint(n, 8)) == n
  {
    Pow256Widths();
    if n < U16_SIZE {
      LittleEndianRoundTrip(n, 2);
      var s := Uint(n, 2);
      assert s[1..][1..] == [];
    }
    if n < U64_SIZE {
      LittleEndianRoundTrip(n, 8);
      SumOfEight(Uint(n, 8));
    }
  }

  lemma SumOfEight(s: seq<byte>)
    requires |s| == 8
    ensures FromLittleEndian(s) == EightBytes(s)
  {
    var (s1, s2, s3, s4) := (s[1..], s[2..], s[3..], s[4..]);
    var (s5, s6, s7) := (s[5..], s[6..], s[7..]);
    assert s1[1..] == s2 && s2[1..] == s3 && s3[1..] == s4 && s4[1..] == s5 && s5[1..] == s6 && s6[1..] == s7;
    assert s7[1..] == [];
    assert FromLittleEndian(s7) == s[7] as nat + 256 * FromLittleEndian([]);
    assert FromLittleEndian(s6) == s[6] as nat + 256 * FromLittleEndian(s7);
    assert FromLittleEndian(s5) == s[5] as nat + 256 * FromLittleEndian(s6);
    assert FromLittleEndian(s4) == s[4] as nat + 256 * FromLittleEndian(s5);
    assert FromLittleEndian(s3) == s[3] as nat + 256 * FromLittleEndian(s4);
    assert FromLittleEndian(s2) == s[2] as nat + 256 * FromLittleEndian(s3);
    assert FromLittleEndian(s1) == s[1] as nat + 256 * FromLittleEndian(s2);
  }

  /** The header byte for byte: the length of its encoding modulo 256, the TCP port, the length of the file,
      a one or a zero for encryption, the length of the name, the name. */
  lemma HeaderLayout(info: DataSrvInfo)
    ensures var s := HeaderBytes(info);
            && |s| == 20 + |info.dataName|
            && s[0] == (19 + |info.dataName|) % 256
            && TwoBytes(s[1..3]) == info.tcpPort
            && EightBytes(s[3..11]) == info.dataLength
            && s[11] == (if info.encrypted then 1 else 0)
            && EightBytes(s[12..20]) == |info.dataName|
            && s[20..] == info.dataName
  {
    HeaderParts(info);
    hide HeaderBytes, LittleEndian, Uint, TwoBytes, EightBytes;
    UintLayout(info.tcpPort);
    UintLayout(info.dataLength);
    UintLayout(|info.dataName|);
  }

  lemma HeaderParts(info: DataSrvInfo)
    ensures var s := HeaderBytes(info);
            && s[0] == (19 + |info.dataName|) % 256
            && s[1..3] == Uint(info.tcpPort, 2) && s[3..11] == Uint(info.dataLength, 8)
            && s[11] == (if info.encrypted then 1 else 0)
            && s[12..20] == Uint(|info.dataName|, 8) && s[20..] == info.dataName
  {
    hide LittleEndian;
    var s := HeaderBytes(info);
    var ser := SerializeInfo(info);
    assert s[1..] == ser && ser[..11] == FixedFields(info) && ser[11..] == Str(info.dataName);
    assert s[1..3] == ser[..2] && s[3..11] == ser[2..10] && s[12..20] == ser[11..19] && s[20..] == ser[19..];
  }

  // ----- the header: one length byte, then the encoding -----

  /** The name length up to which the one-byte length in front of the header is right. */
  const MAX_NAME := 236

  function HeaderBytes(info: DataSrvInfo): (s: seq<byte>)
    ensures |s| == 20 + |info.dataName|
  {
    [|SerializeInfo(info)| % 256] + SerializeInfo(info)
  }

  /** How many bytes `read_from_stream` takes in all, once its first byte is known. */
  function HeaderNeed(first: byte): nat {
    1 + first
  }

  function ReadHeader(s: seq<byte>): Result<Parsed<DataSrvInfo>, DecodeError> {
    if s == [] || |s| < HeaderNeed(s[0]) then Err(UnexpectedEof)
    else
      match DeserializeInfo(s[1..HeaderNeed(s[0])])
      case Err(e) => Err(e)
      case Ok(info) => Ok(Parsed(info, s[HeaderNeed(s[0])..]))
  }

  /** Reading back what was written gives the same header exactly when the name has at most 236
      bytes; for a longer name the read fails, and never gives another header. */
  lemma HeaderRoundTripExact(info: DataSrvInfo, tail: seq<byte>)
    ensures |info.dataName| <= 236 <==> ReadHeader(HeaderBytes(info) + tail) == Ok(Parsed(info, tail))
    ensures |info.dataName| > 236 ==> ReadHeader(HeaderBytes(info) + tail).Err?
  {
    var ser := SerializeInfo(info);
    var all := HeaderBytes(info) + tail;
    var n := |ser| % 256;
    ReadHeaderOf(all, 1 + n);
    hide SerializeInfo, DeserializeInfo, ReadHeader, HeaderNeed;
    assert all[1..] == ser + tail;
    assert all[1..1 + n] == ser[..n];
    hide HeaderBytes;
    if n == |ser| {
      InfoRoundTrip(info, []);
      assert ser + [] == ser && ser[..n] == ser;
      assert all[1 + n..] == tail;
    } else {
      InfoCutShort(info, n);
    }
  }

  /** A header of which a part is all there is cannot be read. */
  lemma HeaderCutShort(info: DataSrvInfo, sent: nat)
    requires sent <= |HeaderBytes(info)|
    ensures ReadHeader(HeaderBytes(info)[..sent]) == Ok(Parsed(info, []))
       <==> sent == |HeaderBytes(info)| && |info.dataName| <= MAX_NAME
    ensures ReadHeader(HeaderBytes(info)[..sent]) != Ok(Parsed(info, []))
        ==> ReadHeader(HeaderBytes(info)[..sent]).Err?
  {
    var ser := SerializeInfo(info);
    var part := HeaderBytes(info)[..sent];
    if sent == |HeaderBytes(info)| {
      HeaderRoundTripExact(info, []);
      assert part + [] == HeaderBytes(info) + [] == HeaderBytes(info);
      assert part == HeaderBytes(info);
    } else if part != [] && |part| >= HeaderNeed(part[0]) {
      var n := |ser| % 256;
      assert part[0] == HeaderBytes(info)[0] == n && HeaderBytes(info)[1..] == ser;
      assert part[1..1 + n] == HeaderBytes(info)[1..][..n] == ser[..n];
      InfoCutShort(info, n);
    }
  }

  /** Decoding is strict: it gives a header exactly if the bytes start with that header's encoding. */
  lemma DecodedIsEncoded(s: seq<byte>, info: DataSrvInfo)
    ensures DeserializeInfo(s) == Ok(info) <==> SerializeInfo(info) <= s
  {
    if SerializeInfo(info) <= s {
      InfoRoundTrip(info, s[|SerializeInfo(info)|..]);
      assert SerializeInfo(info) + s[|SerializeInfo(info)|..] == s;
    }
    if DeserializeInfo(s) == Ok(info) {
      DecodedStarts(s, info);
    }
  }

  lemma DecodedStarts(s: seq<byte>, info: DataSrvInfo)
    requires DeserializeInfo(s) == Ok(info)
    ensures SerializeInfo(info) <= s
  {
    var p1 := ParseUint(s, 2).value;
    var p2 := ParseUint(p1.rest, 8).value;
    var p3 := ParseBool(p2.rest).value;
    var p4 := ParseStr(p3.rest).value;
    assert info == DataSrvInfo(p1.value, p2.value, p3.value, p4.value);
    hide DeserializeInfo, ParseUint, ParseStr;
    UintParsed(s, 2);
    UintParsed(p1.rest, 8);
    assert p2.rest == [if info.encrypted then 1 else 0] + p3.rest;
    StrParsed(p3.rest);
    hide ParseBool, Uint, Str;
    FourParts(s, Uint(p1.value, 2), p1.rest, Uint(p2.value, 8), p2.rest, [if info.encrypted then 1 else 0], p3.rest,
              Str(p4.value), p4.rest);
  }

  lemma FourParts(s: seq<byte>, a: seq<byte>, s1: seq<byte>, b: seq<byte>, s2: seq<byte>, c: seq<byte>, s3: seq<byte>,
                  d: seq<byte>, s4: seq<byte>)
    requires s == a + s1 && s1 == b + s2 && s2 == c + s3 && s3 == d + s4
    ensures a + b + c + d <= s
  {
    assert s == a + b + c + d + s4;
  }

  lemma UintParsed(s: seq<byte>, width: nat)
    requires ParseUint(s, width).Ok?
    ensures s == Uint(ParseUint(s, width).value.value, width) + ParseUint(s, width).value.rest
  {
    LittleEndianOnto(s[..width]);
  }

  lemma StrParsed(s: seq<byte>)
    requires ParseStr(s).Ok?
    ensures s == Str(ParseStr(s).value.value) + ParseStr(s).value.rest
  {
    UintParsed(s, 8);
  }

  /** The whole truth about reading a header, whatever is on the stream: the first byte says how many
      follow, and those must start with the encoding of the header that is returned. */
  lemma ReadHeaderExact(s: seq<byte>, info: DataSrvInfo, rest: seq<byte>)
    ensures ReadHeader(s) == Ok(Parsed(info, rest))
       <==> s != [] && |s| >= HeaderNeed(s[0])
            && SerializeInfo(info) <= s[1..HeaderNeed(s[0])] && rest == s[HeaderNeed(s[0])..]
  {
    if s != [] && |s| >= HeaderNeed(s[0]) {
      DecodedIsEncoded(s[1..HeaderNeed(s[0])], info);
    }
  }

  /** `write_to_stream` uses `write`, which may accept fewer bytes than it is given, and looks at no
      count. If only the first `sent` bytes of a header went out and `tail` follows on the stream, the
      missing bytes are taken from the tail. The header is then never read as it should be; another
      is read exactly if the bytes that fill it up complete that other header's encoding, and the
      reader is left behind those bytes in the tail. */
  lemma ShortHeaderWrite(info: DataSrvInfo, sent: nat, tail: seq<byte>, other: DataSrvInfo, rest: seq<byte>)
    requires 0 < sent < |HeaderBytes(info)|
    ensures var need := HeaderNeed(|SerializeInfo(info)| % 256);
            ReadHeader(HeaderBytes(info)[..sent] + tail) == Ok(Parsed(other, rest)) <==>
              && sent < need <= sent + |tail|
              && SerializeInfo(other) <= HeaderBytes(info)[1..sent] + tail[..need - sent]
              && rest == tail[need - sent..]
    ensures ReadHeader(HeaderBytes(info)[..sent] + tail) != Ok(Parsed(info, tail))
  {
    var (part, need) := (HeaderBytes(info)[..sent], HeaderNeed(|SerializeInfo(info)| % 256));
    var s := part + tail;
    ReadHeaderExact(s, other, rest);
    assert s[0] == HeaderBytes(info)[0];
    if need <= sent {
      HeaderPartFails(info, sent, tail);
    } else if need <= |s| {
      assert s[1..need] == part[1..] + tail[..need - sent];
      assert part[1..] == HeaderBytes(info)[1..sent];
      assert s[need..] == tail[need - sent..];
    }
    if need > sent {
      ReadHeaderExact(s, info, tail);
    }
  }

  lemma HeaderPartFails(info: DataSrvInfo, sent: nat, tail: seq<byte>)
    requires 0 < sent < |HeaderBytes(info)| && HeaderNeed(|SerializeInfo(info)| % 256) <= sent
    ensures ReadHeader(HeaderBytes(info)[..sent] + tail).Err?
  {
    var (part, n) := (HeaderBytes(info)[..sent], |SerializeInfo(info)| % 256);
    assert (part + tail)[1..1 + n] == SerializeInfo(info)[..n];
    InfoCutShort(info, n);
  }

  /** When only the name was cut, the first bytes of the tail complete it: the header read has that
      name, if it is one, and is the header sent in everything else. */
  lemma ShortNameWrite(info: DataSrvInfo, sent: nat, tail: seq<byte>)
    requires |info.dataName| <= MAX_NAME && 20 <= sent < |HeaderBytes(info)|
    ensures var missing := |HeaderBytes(info)| - sent;
            ReadHeader(HeaderBytes(info)[..sent] + tail) ==
              if |tail| < missing then Err(UnexpectedEof)
              else
                var name := info.dataName[..sent - 20] + tail[..missing];
                if !ValidUtf8(name) then Err(InvalidUtf8)
                else Ok(Parsed(info.(dataName := name), tail[missing..]))
  {
    var (s, missing) := (HeaderBytes(info)[..sent] + tail, |HeaderBytes(info)| - sent);
    StillNeeds(info, sent, tail);
    ReadHeaderOf(s, |HeaderBytes(info)|);
    assert |s| == sent + |tail|;
    hide HeaderBytes, DeserializeInfo, HeaderNeed, ValidUtf8, ReadHeader;
    if |tail| >= missing {
      var name := info.dataName[..sent - 20] + tail[..missing];
      assert |name| == |info.dataName|;
      FilledUp(info, sent, tail);
      NameInPlace(info, name);
      var field := Uint(|info.dataName|, 8) + name;
      assert s[1..|HeaderBytes(info)|] == FixedFields(info) + field;
      hide FixedFields, Uint;
    }
  }

  lemma ReadHeaderOf(s: seq<byte>, need: nat)
    requires s != [] && HeaderNeed(s[0]) == need
    ensures ReadHeader(s) ==
              if |s| < need then Err(UnexpectedEof)
              else
                match DeserializeInfo(s[1..need])
                case Err(e) => Err(e)
                case Ok(info) => Ok(Parsed(info, s[need..]))
  {
    hide DeserializeInfo;
  }

  lemma StillNeeds(info: DataSrvInfo, sent: nat, tail: seq<byte>)
    requires |info.dataName| <= MAX_NAME && 1 <= sent <= |HeaderBytes(info)|
    ensures HeaderNeed((HeaderBytes(info)[..sent] + tail)[0]) == |HeaderBytes(info)|
  {
    assert (HeaderBytes(info)[..sent] + tail)[0] == HeaderBytes(info)[0];
  }

  /** The encoding of a header with other bytes, as many, for its name. */
  lemma NameInPlace(info: DataSrvInfo, name: seq<byte>)
    requires |name| == |info.dataName|
    ensures DeserializeInfo(FixedFields(info) + (Uint(|info.dataName|, 8) + name))
         == if ValidUtf8(name) then Ok(info.(dataName := name)) else Err(InvalidUtf8)
  {
    hide DeserializeInfo, FixedFields, Uint, ParseStr, ValidUtf8;
    DeserializeReachesName(info, Uint(|info.dataName|, 8) + name);
    ParseName(|info.dataName|, name);
  }

  /** The parts of a stream that starts with a header whose name was cut. */
  lemma FilledUp(info: DataSrvInfo, sent: nat, tail: seq<byte>)
    requires 20 <= sent < |HeaderBytes(info)| && |HeaderBytes(info)| - sent <= |tail|
    ensures var (s, n) := (HeaderBytes(info)[..sent] + tail, |HeaderBytes(info)|);
            && s[1..n] == FixedFields(info) + (Uint(|info.dataName|, 8) + (info.dataName[..sent - 20] + tail[..n - sent]))
            && s[n..] == tail[n - sent..]
  {
    hide LittleEndian;
    var (part, n) := (HeaderBytes(info)[..sent], |HeaderBytes(info)|);
    assert part[1..] == FixedFields(info) + Uint(|info.dataName|, 8) + info.dataName[..sent - 20];
    assert (part + tail)[1..n] == part[1..] + tail[..n - sent];
  }

  lemma ParseName(n: nat, name: seq<byte>)
    requires n == |name| < U64_SIZE
    ensures ParseStr(Uint(n, 8) + name) == if ValidUtf8(name) then Ok(Parsed(name, [])) else Err(InvalidUtf8)
  {
    Pow256Widths();
    UintThenTail(n, 8, name);
    hide Uint, ValidUtf8;
    assert name[..n] == name && name[n..] == [];
  }

  // ----- DiscoveryReply -----

  function SerializeReply(r: DiscoveryReply): (s: seq<byte>)
    ensures |s| == 10 + |r.serverName|
  {
    Str(r.serverName) + Uint(r.tcpPort, 2)
  }

  function DeserializeReply(s: seq<byte>): Result<DiscoveryReply, DecodeError> {
    Pow256Widths();
    match ParseStr(s)
    case Err(e) => Err(e)
    case Ok(Parsed(name, s1)) =>
      match ParseUint(s1, 2)
      case Err(e) => Err(e)
      case Ok(Parsed(port, _)) => Ok(DiscoveryReply(name, port))
  }

  /** A reply byte for byte: the length of the server's name, the name, the TCP port. */
  lemma ReplyLayout(r: DiscoveryReply)
    ensures var (s, n) := (SerializeReply(r), |r.serverName|);
            && |s| == 10 + n
            && EightBytes(s[..8]) == n && s[8..8 + n] == r.serverName
            && TwoBytes(s[8 + n..]) == r.tcpPort
  {
    UintLayout(r.tcpPort);
    UintLayout(|r.serverName|);
    var (s, n) := (SerializeReply(r), |r.serverName|);
    hide LittleEndian, Uint, TwoBytes, EightBytes;
    assert s[..8] == Uint(n, 8) && s[8 + n..] == Uint(r.tcpPort, 2);
  }

  lemma ReplyRoundTrip(r: DiscoveryReply, tail: seq<byte>)
    ensures DeserializeReply(SerializeReply(r) + tail) == Ok(r)
  {
    Pow256Widths();
    StrThenTail(r.serverName, Uint(r.tcpPort, 2) + tail);
    UintThenTail(r.tcpPort, 2, tail);
    assert SerializeReply(r) + tail == Str(r.serverName) + (Uint(r.tcpPort, 2) + tail);
  }

  lemma ReplyCutShort(r: DiscoveryReply, k: nat)
    requires k < |SerializeReply(r)|
    ensures DeserializeReply(SerializeReply(r)[..k]).Err?
  {
    var n := |Str(r.serverName)|;
    if k < n {
      StrCutShort(r.serverName, k);
      assert SerializeReply(r)[..k] == Str(r.serverName)[..k];
    } else {
      StrThenTail(r.serverName, Uint(r.tcpPort, 2)[..k - n]);
      assert SerializeReply(r)[..k] == Str(r.serverName) + Uint(r.tcpPort, 2)[..k - n];
    }
  }

  /** Decoding is strict here too. */
  lemma DecodedReplyIsEncoded(s: seq<byte>, r: DiscoveryReply)
    ensures DeserializeReply(s) == Ok(r) <==> SerializeReply(r) <= s
  {
    if SerializeReply(r) <= s {
      ReplyRoundTrip(r, s[|SerializeReply(r)|..]);
      assert SerializeReply(r) + s[|SerializeReply(r)|..] == s;
    }
    if DeserializeReply(s) == Ok(r) {
      StrParsed(s);
      UintParsed(ParseStr(s).value.rest, 2);
      Pow256Widths();
    }
  }

  /** Bytes after the ones a decoder used do not change its result. */
  lemma ReplyIgnoresTail(s: seq<byte>, tail: seq<byte>)
    requires DeserializeReply(s).Ok?
    ensures DeserializeReply(s + tail) == DeserializeReply(s)
  {
    var n := FromLittleEndian(s[..8]);
    assert (s + tail)[..8] == s[..8];
    var rest := s[8..];
    assert (s + tail)[8..] == rest + tail;
    assert (rest + tail)[..n] == rest[..n];
    assert (rest + tail)[n..] == rest[n..] + tail;
    assert (rest[n..] + tail)[..2] == rest[n..][..2];
  }
}
