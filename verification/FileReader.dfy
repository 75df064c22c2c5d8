/** src/filereader.rs: many readers of one file, each with a cursor of its own. */
module FileReader {
  import opened Wrappers
  import opened Bytes

  /** Which files there are, by path; that can change. */
  class Disk {
    var files: map<string, seq<byte>>

    constructor (files: map<string, seq<byte>>)
      ensures this.files == files
    {
      this.files := files;
    }
  }

  /** An open file stays readable whatever becomes of its path; its content is taken not to change. */
  class AsyncFileReader {
    const disk: Disk
    const origPath: string
    const content: seq<byte>
    const fileSize: nat
    var cursor: nat

    ghost predicate Valid()
      reads this
    {
      cursor <= |content|
    }

    /** What this reader has not yet yielded. */
    ghost function Rest(): seq<byte>
      requires Valid()
      reads this
    {
      content[cursor..]
    }

    constructor (disk: Disk, path: string, content: seq<byte>, fileSize: nat)
      ensures Valid() && this.disk == disk && origPath == path && this.fileSize == fileSize && Rest() == content
    {
      this.disk, origPath, this.content, this.fileSize, cursor := disk, path, content, fileSize, 0;
    }

    /** `new`: None if there is no such file. */
    static method Open(disk: Disk, path: string) returns (r: Option<AsyncFileReader>)
      ensures r.Some? <==> path in disk.files
      ensures r.Some? ==>
                && fresh(r.value) && r.value.Valid() && r.value.disk == disk && r.value.origPath == path
                && r.value.Rest() == disk.files[path] && r.value.fileSize == |disk.files[path]|
    {
      if path !in disk.files {
        return None;
      }
      var reader := new AsyncFileReader(disk, path, disk.files[path], |disk.files[path]|);
      return Some(reader);
    }

    /** The clone opens the path again: wherever this reader is, the clone is at the start of what is there
        by then. None is a panic: the file is gone. */
    method Clone() returns (c: Option<AsyncFileReader>)
      requires Valid()
      ensures c.Some? <==> origPath in disk.files
      ensures c.Some? ==>
                && fresh(c.value) && c.value.Valid() && c.value.disk == disk && c.value.origPath == origPath
                && c.value.fileSize == fileSize && c.value.Rest() == disk.files[origPath]
    {
      if origPath !in disk.files {
        return None;
      }
      var reader := new AsyncFileReader(disk, origPath, disk.files[origPath], fileSize);
      return Some(reader);
    }

    /** One read into a buffer of `size` bytes: nothing only at the end, or for want of room; None is an
        error, after which the reader is where it was. */
    method PollRead(size: nat) returns (r: Option<seq<byte>>)
      requires Valid()
      modifies this
      ensures Valid()
      ensures match r
              case None => Rest() == old(Rest())
              case Some(got) =>
                && |got| <= size && got + Rest() == old(Rest())
                && (got == [] <==> size == 0 || old(Rest()) == [])
    {
      var fails: bool := *;
      if fails {
        return None;
      }
      if size == 0 || cursor == |content| {
        return Some([]);
      }
      var k: nat :| 1 <= k <= size && cursor + k <= |content|;
      r := Some(content[cursor..cursor + k]);
      cursor := cursor + k;
    }
  }

  // ----- any number of readers in any order -----

  /** The readers of one file, by number: where each stands and what it has yielded. */
  datatype Reader = Reader(cursor: nat, yielded: seq<byte>)

  datatype Step = CloneOf(i: nat) | Read(i: nat, count: nat)

  const NEW_READER := Reader(0, [])

  function Advance(file: seq<byte>, r: Reader, count: nat): Reader {
    if r.cursor + count <= |file| then Reader(r.cursor + count, r.yielded + file[r.cursor..r.cursor + count]) else r
  }

  function Apply(file: seq<byte>, rs: seq<Reader>, step: Step): seq<Reader> {
    match step
    case CloneOf(i) => if i < |rs| then rs + [NEW_READER] else rs
    case Read(i, count) => if i < |rs| then rs[i := Advance(file, rs[i], count)] else rs
  }

  function Exec(file: seq<byte>, rs: seq<Reader>, steps: seq<Step>): seq<Reader>
    decreases |steps|
  {
    if steps == [] then rs else Exec(file, Apply(file, rs, steps[0]), steps[1..])
  }

  /** The reads of reader `i`, from the time that it is there; `n` readers are there at the start. */
  function Own(n: nat, steps: seq<Step>, i: nat): seq<nat>
    decreases |steps|
  {
    if steps == [] then []
    else
      match steps[0]
      case CloneOf(j) => Own(if j < n then n + 1 else n, steps[1..], i)
      case Read(j, count) => (if j == i && i < n then [count] else []) + Own(n, steps[1..], i)
  }

  function Alone(file: seq<byte>, r: Reader, counts: seq<nat>): Reader
    decreases |counts|
  {
    if counts == [] then r else Alone(file, Advance(file, r, counts[0]), counts[1..])
  }

  /** Where reader `i` stands and what it has yielded is what its own reads make of it, from where it was
      at the start, or from the start of the file if it is a clone made on the way. */
  lemma {:induction false} ReadersAreIndependent(file: seq<byte>, rs: seq<Reader>, steps: seq<Step>, i: nat)
    requires i < |Exec(file, rs, steps)|
    ensures Exec(file, rs, steps)[i] == Alone(file, if i < |rs| then rs[i] else NEW_READER, Own(|rs|, steps, i))
    decreases |steps|
  {
    if steps == [] {
    } else {
      var rs' := Apply(file, rs, steps[0]);
      var own := Own(|rs'|, steps[1..], i);
      assert Exec(file, rs, steps) == Exec(file, rs', steps[1..]);
      OneStep(file, rs, steps[0]);
      OwnFirst(|rs|, steps, i);
      hide Exec, Apply, Own, Advance;
      ReadersAreIndependent(file, rs', steps[1..], i);
      if i < |rs| && Reads(steps[0], i) {
        assert ([steps[0].count] + own)[1..] == own;
      } else {
        assert [] + own == own;
        hide Alone;
      }
    }
  }

  predicate Reads(step: Step, i: nat) {
    step.Read? && step.i == i
  }

  /** What a step does to the readers. */
  lemma OneStep(file: seq<byte>, rs: seq<Reader>, step: Step)
    ensures var rs' := Apply(file, rs, step);
            && |rs'| == |rs| + (if step.CloneOf? && step.i < |rs| then 1 else 0)
            && forall i :: 0 <= i < |rs'| ==>
                 rs'[i] == if i >= |rs| then NEW_READER
                           else if Reads(step, i) then Advance(file, rs[i], step.count) else rs[i]
  {
  }

  lemma OwnFirst(n: nat, steps: seq<Step>, i: nat)
    requires steps != []
    ensures var (first, more) := (steps[0], if steps[0].CloneOf? && steps[0].i < n then 1 else 0);
            Own(n, steps, i) == (if Reads(first, i) && i < n then [first.count] else []) + Own(n + more, steps[1..], i)
  {
    if steps[0].CloneOf? {
      var rest := Own(if steps[0].i < n then n + 1 else n, steps[1..], i);
      assert [] + rest == rest;
    }
  }

  function Sum(counts: seq<nat>): nat {
    if counts == [] then 0 else counts[0] + Sum(counts[1..])
  }

  /** Reads that the rest of the file is long enough for move a reader on by what they ask for, and yield the
      bytes that they pass. */
  lemma {:induction false} ReadsAddUp(file: seq<byte>, r: Reader, counts: seq<nat>)
    requires r.cursor + Sum(counts) <= |file|
    ensures var to := r.cursor + Sum(counts);
            Alone(file, r, counts) == Reader(to, r.yielded + file[r.cursor..to])
    decreases |counts|
  {
    if counts == [] {
      assert r.yielded + file[r.cursor..r.cursor] == r.yielded;
    } else {
      var (mid, to) := (r.cursor + counts[0], r.cursor + Sum(counts));
      ReadsAddUp(file, Advance(file, r, counts[0]), counts[1..]);
      assert r.yielded + file[r.cursor..mid] + file[mid..to] == r.yielded + file[r.cursor..to];
    }
  }

  predicate FromStart(file: seq<byte>, r: Reader) {
    r.cursor <= |file| && r.yielded == file[..r.cursor]
  }

  /** However many clones are made, of whichever readers and whenever, each yields the file from its
      start: at its end it has yielded the whole file, and not before. */
  lemma {:induction false} EachReadsFromStart(file: seq<byte>, rs: seq<Reader>, steps: seq<Step>)
    requires forall r :: r in rs ==> FromStart(file, r)
    ensures forall r :: r in Exec(file, rs, steps) ==> FromStart(file, r) && (r.yielded == file <==> r.cursor == |file|)
    decreases |steps|
  {
    if steps == [] {
      assert file[..|file|] == file;
    } else {
      var rs' := Apply(file, rs, steps[0]);
      forall r | r in rs'
        ensures FromStart(file, r)
      {
        if r !in rs && steps[0].Read? {
          var before := rs[steps[0].i];
          assert FromStart(file, before);
          assert file[..before.cursor] + file[before.cursor..r.cursor] == file[..r.cursor];
        }
      }
      EachReadsFromStart(file, rs', steps[1..]);
    }
  }
}
