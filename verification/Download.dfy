/** src/filewriter.rs and the end of src/client.rs: the file a download ends up in. */
module Download {
  import opened Wrappers
  import opened Bytes
  import opened Session

  /** The decoded stream as the copy sees it: what it will still yield, and whether it then ends or
      fails (a frame that does not decrypt, a broken connection). */
  class Incoming {
    var rest: seq<byte>
    const fails: bool

    constructor (s: seq<byte>, fails: bool)
      ensures rest == s && this.fails == fails
    {
      rest := s;
      this.fails := fails;
    }

    /** One read: None for an error, an empty result at the end. */
    method Read() returns (r: Option<seq<byte>>)
      modifies this
      ensures old(rest) != [] ==> r.Some? && r.value != [] && r.value + rest == old(rest)
      ensures old(rest) == [] ==> rest == [] && r == if fails then None else Some([])
    {
      if rest == [] {
        return if fails then None else Some([]);
      }
      var k: nat :| 1 <= k <= |rest|;
      r := Some(rest[..k]);
      rest := rest[k..];
    }
  }

  /** The writer: its file, what the disk still has room for, and the counter it shares with the
      progress bar. */
  class AsyncFileWriter {
    var contents: seq<byte>
    var room: nat
    var bytesWritten: nat

    ghost predicate Valid()
      reads this
    {
      bytesWritten == |contents|
    }

    constructor (room: nat)
      ensures Valid() && contents == [] && this.room == room
    {
      contents, this.room, bytesWritten := [], room, 0;
    }

    /** `new`: None if the file cannot be created. */
    static method New(creatable: bool, room: nat) returns (r: Option<AsyncFileWriter>)
      ensures r.Some? <==> creatable
      ensures r.Some? ==> fresh(r.value) && r.value.Valid() && r.value.contents == [] && r.value.room == room
    {
      if !creatable {
        return None;
      }
      var writer := new AsyncFileWriter(room);
      return Some(writer);
    }

    /** The file takes some of the buffer, or none of it and fails; the counter follows the file. */
    method PollWrite(buf: seq<byte>) returns (r: Option<nat>)
      requires Valid()
      modifies this
      ensures Valid()
      ensures match r
              case Some(n) =>
                && n <= |buf| && (n == 0 <==> buf == [])
                && contents == old(contents) + buf[..n] && room == old(room) - n
              case None => buf != [] && old(room) == 0 && contents == old(contents) && room == old(room)
    {
      var n := 0;
      if buf != [] {
        if room == 0 {
          return None;
        }
        n :| 1 <= n <= |buf| && n <= room;
      }
      contents, room := contents + buf[..n], room - n;
      bytesWritten := bytesWritten + n;
      return Some(n);
    }

    /** `set_len` on the closed file; the file may have become unwritable. */
    method SetLen(length: nat) returns (ok: bool)
      modifies this
      ensures contents == if ok then Resize(old(contents), length) else old(contents)
    {
      ok := *;
      if ok {
        contents := Resize(contents, length);
      }
    }
  }

  /** How much of a stream reaches the file. */
  function Taken(stream: seq<byte>, room: nat): seq<byte> {
    if |stream| <= room then stream else stream[..room]
  }

  /** `drain_downloaded_to_stream`: reads a piece, and writes until the file has taken all of it. */
  method Drain(download: AsyncFileWriter, stream: Incoming) returns (ok: bool)
    requires download.Valid() && download.contents == []
    modifies download, stream
    ensures download.Valid()
    ensures download.contents == Taken(old(stream.rest), old(download.room))
    ensures ok <==> |old(stream.rest)| <= old(download.room) && !stream.fails
  {
    ghost var all := stream.rest;
    while true
      invariant download.Valid()
      invariant download.contents + stream.rest == all
      invariant |download.contents| + download.room == old(download.room)
      decreases |stream.rest|
    {
      var got := stream.Read();
      if got == None {
        return false;
      }
      if got.value == [] {
        return true;
      }
      var piece := got.value;
      ghost var rest := stream.rest;
      while piece != []
        invariant download.Valid()
        invariant stream.rest == rest && download.contents + piece + rest == all
        invariant |download.contents| + download.room == old(download.room)
        decreases |piece|
      {
        var n := download.PollWrite(piece);
        if n == None {
          assert download.contents <= all;
          return false;
        }
        assert piece[..n.value] + piece[n.value..] == piece;
        piece := piece[n.value..];
      }
    }
  }

  /** `download_to_file` from the drain on. The result of the drain is dropped by `select!`, so the
      file is cut or padded to the announced length however the stream and the disk have done. */
  method DrainAndCut(download: AsyncFileWriter, stream: Incoming, dataLength: nat) returns (ok: bool)
    requires download.Valid() && download.contents == []
    modifies download, stream
    ensures var kept := Taken(old(stream.rest), old(download.room));
            download.contents == if ok then Resize(kept, dataLength) else kept
    ensures ok ==> |download.contents| == dataLength
  {
    var _ := Drain(download, stream);
    ok := download.SetLen(dataLength);
  }

  /** The file is the first `dataLength` bytes of the stream exactly if the stream had that many, and
      the disk took them all or those it did not take were zeros, which is what they are padded with. */
  lemma FileExact(stream: seq<byte>, room: nat, dataLength: nat)
    ensures |stream| >= dataLength && Resize(Taken(stream, room), dataLength) == stream[..dataLength]
       <==> |stream| >= dataLength && (room >= dataLength || AllZero(stream[room..dataLength]))
  {
  }

  /** A stream that ends early leaves a file of the announced length all the same: what came, and
      zeros. */
  lemma ShortStreamIsPadded(stream: seq<byte>, room: nat, dataLength: nat)
    requires |stream| < dataLength && |stream| <= room
    ensures Resize(Taken(stream, room), dataLength)[..|stream|] == stream
    ensures AllZero(Resize(Taken(stream, room), dataLength)[|stream|..])
  {
  }
}
