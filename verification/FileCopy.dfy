/**
 * The copy loop of Tier::move_file, byte by byte, over descriptors with file positions. The kernel
 * may cut reads and writes short or fail reads, writes and seeks. The history field records the
 * backend after every write, so a crash at any point leaves one of the recorded states.
 */
module FileCopy {
  type Bytes = seq<bv8>

  datatype Path = Path(tier: nat, dir: string, name: string)

  // ----------------------------------------------------------- the kernel

  /** How one read call goes; a kernel with no more faults reads as much as it can. */
  datatype ReadFault = ShortRead(most: nat) | ReadError

  /** How one write call goes; noSpace is whether errno is ENOSPC. */
  datatype WriteFault = ShortWrite(most: nat) | WriteError(noSpace: bool)

  datatype Faults = Faults(
    openFails: bool, createFails: bool, closeFails: bool,
    readFaults: seq<ReadFault>, writeFaults: seq<WriteFault>, seekOks: seq<bool>)

  /** No fault that copying gives up on. */
  predicate Gentle(k: Faults) {
    && !k.openFails && !k.createFails && !k.closeFails
    && ReadError !in k.readFaults && false !in k.seekOks
  }

  function Min(a: nat, b: nat): nat {
    if a < b then a else b
  }

  /** Bytes returned by read(2) with `left` bytes before the end of the file; -1 is an error. */
  function ReadCount(count: nat, left: nat, readFaults: seq<ReadFault>): (n: int)
    ensures -1 <= n <= Min(count, left)
    ensures n == 0 <==> (readFaults == [] || readFaults[0] != ReadError) && (count == 0 || left == 0)
  {
    if readFaults == [] then Min(count, left)
    else match readFaults[0]
      case ReadError => -1
      case ShortRead(most) => if most == 0 then Min(1, Min(count, left)) else Min(most, Min(count, left))
  }

  function WriteCount(count: nat, writeFaults: seq<WriteFault>): (n: int)
    ensures -1 <= n <= count
    ensures writeFaults == [] ==> n == count
  {
    if writeFaults == [] then count
    else match writeFaults[0]
      case WriteError(_) => -1
      case ShortWrite(most) => Min(most, count)
  }

  /** write(2) at a position no further than the end of the file. */
  function WriteAt(data: Bytes, pos: nat, chunk: Bytes): (r: Bytes)
    requires pos <= |data|
    ensures pos == |data| ==> r == data + chunk
  {
    if pos + |chunk| <= |data| then data[..pos] + chunk + data[pos + |chunk|..] else data[..pos] + chunk
  }

  function Rest<T(==)>(s: seq<T>): (r: seq<T>)
    ensures forall x :: x in r ==> x in s
  {
    if s == [] then [] else s[1..]
  }

  const TWO_32 := 0x1_0000_0000

  /** Conversion of a wider integer to int: the value of its low 32 bits. */
  function ToInt(x: int): (r: int)
    ensures -0x8000_0000 <= r < 0x8000_0000 && (r - x) % TWO_32 == 0
  {
    var low := x % TWO_32;
    if low < 0x8000_0000 then low else low - TWO_32
  }

  /** An open descriptor with its file position. */
  class Descriptor {
    const path: Path
    var pos: nat

    constructor (path: Path)
      ensures this.path == path && pos == 0
    {
      this.path, pos := path, 0;
    }
  }

  // ------------------------------------------------- the loop as a function

  /** Both seeks succeed, and the converted result of neither is taken for an error. */
  predicate SeeksBack(offset: nat, seekOks: seq<bool>) {
    && (seekOks == [] || seekOks[0])
    && (Rest(seekOks) == [] || Rest(seekOks)[0])
    && ToInt(offset) != -1
  }

  /** Less than what was read has gone out. */
  predicate Retried(n: nat, k: Faults) {
    WriteCount(n, k.writeFaults) < n
  }

  function AfterTurn(n: nat, k: Faults): Faults {
    var k' := k.(writeFaults := Rest(k.writeFaults));
    if Retried(n, k) then k'.(seekOks := Rest(Rest(k.seekOks))) else k'
  }

  function NextOffset(offset: nat, n: nat, k: Faults): nat {
    if WriteCount(n, k.writeFaults) == -1 then offset else offset + WriteCount(n, k.writeFaults)
  }

  function AfterRead(k: Faults): Faults {
    k.(readFaults := Rest(k.readFaults))
  }

  /** How the loop ends, how far it got, and how often its body ran. */
  datatype CopyEnd = CopyEnd(ok: bool, offset: nat, turns: nat)

  /** The loop on a source of len bytes from a given offset. */
  function CopyRun(len: nat, buffSz: nat, offset: nat, k: Faults): (e: CopyEnd)
    requires offset <= len
    ensures offset <= e.offset <= len
    ensures e.ok ==> buffSz == 0 || e.offset == len
    decreases |k.writeFaults|, len - offset
  {
    var n, k' := ReadCount(buffSz, len - offset, k.readFaults), AfterRead(k);
    if n <= 0 then CopyEnd(n == 0, offset, 0)
    else
      var next := NextOffset(offset, n, k');
      if Retried(n, k') && !SeeksBack(next, k'.seekOks) then CopyEnd(false, next, 1)
      else
        var e := CopyRun(len, buffSz, next, AfterTurn(n, k'));
        e.(turns := e.turns + 1)
  }

  /** What a turn leaves to do is less, and a retry always has something left to copy. */
  lemma TurnShrinks(len: nat, buffSz: nat, offset: nat, k: Faults)
    requires offset <= len
    ensures var n, k' := ReadCount(buffSz, len - offset, k.readFaults), AfterRead(k);
      n > 0 ==>
        && var next, k'' := NextOffset(offset, n, k'), AfterTurn(n, k');
        && offset <= next <= len && (Retried(n, k') ==> buffSz > 0 && next < len)
        && (|k''.writeFaults| < |k.writeFaults| || (|k''.writeFaults| == |k.writeFaults| && offset < next))
  {
  }

  /** The run from (offset, k) takes the given number of turns to reach (now, after). */
  predicate RunsOn(len: nat, buffSz: nat, offset: nat, k: Faults, now: nat, after: Faults, turns: nat) {
    && offset <= len && now <= len
    && var rest := CopyRun(len, buffSz, now, after);
       CopyRun(len, buffSz, offset, k) == rest.(turns := rest.turns + turns)
  }

  lemma RunsOnOneTurn(len: nat, buffSz: nat, offset: nat, k: Faults, now: nat, after: Faults, turns: nat)
    requires RunsOn(len, buffSz, offset, k, now, after, turns)
    ensures var n, k' := ReadCount(buffSz, len - now, after.readFaults), AfterRead(after);
      if n <= 0 then CopyRun(len, buffSz, offset, k) == CopyEnd(n == 0, now, turns)
      else
        var next := NextOffset(now, n, k');
        if Retried(n, k') && !SeeksBack(next, k'.seekOks) then
          CopyRun(len, buffSz, offset, k) == CopyEnd(false, next, turns + 1)
        else RunsOn(len, buffSz, offset, k, next, AfterTurn(n, k'), turns + 1)
  {
  }

  // ------------------------------------------------------ the loop as code

  /** A state of the backend while the copy is growing. */
  ghost predicate PrefixCopy(now: map<Path, Bytes>, start: map<Path, Bytes>, from: Path, tmp: Path)
    requires from in start
  {
    exists n :: 0 <= n <= |start[from]| && now == start[tmp := start[from][..n]]
  }

  class Kernel {
    var files: map<Path, Bytes>
    var faults: Faults
    ghost var history: seq<map<Path, Bytes>>

    constructor (files: map<Path, Bytes>, faults: Faults)
      ensures this.files == files && this.faults == faults && history == [files]
    {
      this.files, this.faults := files, faults;
      history := [files];
    }

    method Set(files: map<Path, Bytes>)
      modifies this
      ensures this.files == files && history == old(history) + [files] && faults == old(faults)
    {
      this.files := files;
      history := history + [files];
    }

    /** read(2): from the position on, which advances by what is returned. */
    method Read(fd: Descriptor, count: nat) returns (n: int, buf: Bytes)
      requires fd.path in files && fd.pos <= |files[fd.path]|
      modifies this`faults, fd
      ensures n == ReadCount(count, |files[fd.path]| - old(fd.pos), old(faults).readFaults)
      ensures faults == AfterRead(old(faults))
      ensures n == -1 ==> fd.pos == old(fd.pos) && buf == []
      ensures n != -1 ==> fd.pos == old(fd.pos) + n && buf == files[fd.path][old(fd.pos)..fd.pos]
    {
      n, buf := ReadCount(count, |files[fd.path]| - fd.pos, faults.readFaults), [];
      faults := AfterRead(faults);
      if n != -1 {
        buf := files[fd.path][fd.pos..fd.pos + n];
        fd.pos := fd.pos + n;
      }
    }

    /** write(2): at the position, which advances by what went out. */
    method Write(fd: Descriptor, buf: Bytes) returns (n: int, noSpace: bool)
      requires fd.path in files && fd.pos <= |files[fd.path]|
      modifies this, fd
      ensures n == WriteCount(|buf|, old(faults).writeFaults)
      ensures faults == old(faults).(writeFaults := Rest(old(faults).writeFaults))
      ensures n == -1 ==> fd.pos == old(fd.pos) && files == old(files) && history == old(history)
      ensures n != -1 ==>
        && fd.pos == old(fd.pos) + n && history == old(history) + [files]
        && files == old(files)[fd.path := WriteAt(old(files)[fd.path], old(fd.pos), buf[..n])]
    {
      n := WriteCount(|buf|, faults.writeFaults);
      noSpace := n == -1 && faults.writeFaults[0].noSpace;
      if n != -1 {
        Set(files[fd.path := WriteAt(files[fd.path], fd.pos, buf[..n])]);
        fd.pos := fd.pos + n;
      }
      faults := faults.(writeFaults := Rest(faults.writeFaults));
    }

    /** lseek(2) with SEEK_SET. */
    method Lseek(fd: Descriptor, offset: nat) returns (r: int)
      modifies this`faults, fd
      ensures faults == old(faults).(seekOks := Rest(old(faults).seekOks))
      ensures if old(faults).seekOks == [] || old(faults).seekOks[0] then r == fd.pos == offset
              else r == -1 && fd.pos == old(fd.pos)
    {
      r := -1;
      if faults.seekOks == [] || faults.seekOks[0] {
        r, fd.pos := offset, offset;
      }
      faults := faults.(seekOks := Rest(faults.seekOks));
    }

    /** Both file positions and the length of the copy are the offset. */
    ghost predicate InStep(src: Descriptor, dst: Descriptor, offset: nat)
      reads this, src, dst
    {
      dst.path in files && src.pos == dst.pos == |files[dst.path]| == offset
    }

    /** The copy is the first offset bytes of the source, and nothing else has changed. */
    ghost predicate Copied(src: Descriptor, dst: Descriptor, offset: nat, start: map<Path, Bytes>)
      reads this, src, dst
    {
      && src.path in start && src.path != dst.path && offset <= |start[src.path]|
      && files == start[dst.path := start[src.path][..offset]]
    }

    /**
     * The body of the inner loop, tier.cpp:167-185. The read has left the source ahead of the
     * copy; after a short or failed write only the seeks bring them together again.
     */
    method CopyTurn(src: Descriptor, dst: Descriptor, offset: nat, buf: Bytes, ghost start: map<Path, Bytes>)
      returns (ok: bool, next: nat, outOfSpace: bool)
      requires src != dst && Copied(src, dst, offset, start) && dst.pos == offset
      requires src.pos == offset + |buf| <= |start[src.path]| && buf == start[src.path][offset..src.pos] != []
      modifies this, src, dst
      ensures next == NextOffset(offset, |buf|, old(faults)) && outOfSpace == Retried(|buf|, old(faults))
      ensures ok <==> !outOfSpace || SeeksBack(next, old(faults).seekOks)
      ensures Copied(src, dst, next, start)
      ensures ok ==> InStep(src, dst, next) && faults == AfterTurn(|buf|, old(faults))
      ensures history == old(history) || history == old(history) + [files]
      ensures faults.closeFails == old(faults).closeFails
    {
      var bytesRead := |buf|;
      ok, next, outOfSpace := true, offset, false;
      var bytesWritten, noSpace := Write(dst, buf);
      assert bytesWritten != -1 ==>
        start[src.path][..offset] + buf[..bytesWritten] == start[src.path][..offset + bytesWritten];
      if (bytesWritten == -1 && noSpace) || bytesWritten < bytesRead {
        if bytesWritten != -1 {
          next := next + bytesWritten;
        }
        outOfSpace := true;
        var r := Lseek(src, next);
        if ToInt(r) == -1 {
          ok := false;
        } else {
          r := Lseek(dst, next);
          ok := ToInt(r) != -1;
        }
      } else if bytesWritten != bytesRead {
        assert false;  // tier.cpp:182 gives up here; a write never returns more than it was given
      } else {
        next := next + bytesWritten;
      }
    }

    /** Every backend state since `begun` is a growing copy. */
    ghost predicate Logged(begun: seq<map<Path, Bytes>>, start: map<Path, Bytes>, from: Path, tmp: Path)
      requires from in start
      reads this
    {
      begun <= history && forall i :: |begun| <= i < |history| ==> PrefixCopy(history[i], start, from, tmp)
    }

    /** One read, with both files in step, and the body of the inner loop if anything was read. */
    method ReadAndWrite(src: Descriptor, dst: Descriptor, buffSz: nat, offset: nat, ghost start: map<Path, Bytes>,
                        ghost begun: seq<map<Path, Bytes>>)
      returns (bytesRead: int, ok: bool, next: nat, outOfSpace: bool)
      requires src != dst && Copied(src, dst, offset, start) && InStep(src, dst, offset)
      requires Logged(begun, start, src.path, dst.path)
      modifies this, src, dst
      ensures Copied(src, dst, next, start) && Logged(begun, start, src.path, dst.path)
      ensures ok ==> InStep(src, dst, next)
      ensures bytesRead == ReadCount(buffSz, |start[src.path]| - offset, old(faults).readFaults)
      ensures bytesRead <= 0 ==> next == offset && ok == (bytesRead == 0) && faults == AfterRead(old(faults))
      ensures bytesRead > 0 ==>
        && var k := AfterRead(old(faults));
        && next == NextOffset(offset, bytesRead, k) && outOfSpace == Retried(bytesRead, k)
        && (ok <==> !outOfSpace || SeeksBack(next, k.seekOks))
        && (ok ==> faults == AfterTurn(bytesRead, k))
      ensures faults.closeFails == old(faults).closeFails
    {
      var buf;
      bytesRead, buf := Read(src, buffSz);
      ok, next, outOfSpace := bytesRead == 0, offset, false;
      if bytesRead > 0 {
        ok, next, outOfSpace := CopyTurn(src, dst, offset, buf, start);
        assert files == start[dst.path := start[src.path][..next]];
      }
    }

    /** The inner loop, tier.cpp:166-188; every read finds both files in step with the offset. */
    method CopyUntilRead(src: Descriptor, dst: Descriptor, buffSz: nat, offset: nat, ghost start: map<Path, Bytes>,
                         ghost begun: seq<map<Path, Bytes>>)
      returns (ok: bool, end: nat, outOfSpace: bool, turns: nat)
      requires src != dst && Copied(src, dst, offset, start) && InStep(src, dst, offset)
      requires Logged(begun, start, src.path, dst.path)
      modifies this, src, dst
      ensures CopyEnd(ok, end, turns) == CopyRun(|start[src.path]|, buffSz, offset, old(faults))
      ensures Copied(src, dst, end, start) && Logged(begun, start, src.path, dst.path)
      ensures ok ==> InStep(src, dst, end) && !outOfSpace
      ensures faults.closeFails == old(faults).closeFails
    {
      end, outOfSpace, turns := offset, false, 0;
      while true
        invariant InStep(src, dst, end) && Copied(src, dst, end, start)
        invariant Logged(begun, start, src.path, dst.path)
        invariant faults.closeFails == old(faults).closeFails
        invariant outOfSpace ==> buffSz > 0 && end < |start[src.path]|
        invariant RunsOn(|start[src.path]|, buffSz, offset, old(faults), end, faults, turns)
        decreases |faults.writeFaults|, |start[src.path]| - end
      {
        TurnShrinks(|start[src.path]|, buffSz, end, faults);
        RunsOnOneTurn(|start[src.path]|, buffSz, offset, old(faults), end, faults, turns);
        var bytesRead, fine, next, retry := ReadAndWrite(src, dst, buffSz, end, start, begun);
        if bytesRead <= 0 {
          return fine, end, outOfSpace, turns;
        }
        end, outOfSpace, turns := next, retry, turns + 1;
        if !fine {
          return false, end, outOfSpace, turns;
        }
      }
    }

    /**
     * tier.cpp:165-189. ok is false where the code jumps to copy_error_out; rounds counts the
     * turns of the outer loop and turns those of the inner.
     */
    method CopyLoop(src: Descriptor, dst: Descriptor, buffSz: nat) returns (ok: bool, rounds: nat, turns: nat)
      requires src != dst && src.path != dst.path && src.path in files && dst.path in files
      requires files[dst.path] == [] && src.pos == dst.pos == 0
      modifies this, src, dst
      ensures dst.path in files && files == old(files)[dst.path := files[dst.path]] && rounds == 1
      ensures files[dst.path] <= files[src.path]
      ensures CopyEnd(ok, |files[dst.path]|, turns) == CopyRun(|files[src.path]|, buffSz, 0, old(faults))
      ensures ok ==> InStep(src, dst, src.pos) && files[dst.path] == if buffSz == 0 then [] else files[src.path]
      ensures Logged(old(history), old(files), src.path, dst.path)
      ensures faults.closeFails == old(faults).closeFails
    {
      ghost var start, begun := files, history;
      var offset, outOfSpace := 0, false;
      ok, rounds, turns := true, 0, 0;
      while rounds == 0 || (ok && outOfSpace)
        invariant rounds <= 1 && Copied(src, dst, offset, start)
        invariant rounds == 0 ==> offset == 0 && InStep(src, dst, 0) && faults == old(faults) && history == begun
        invariant rounds == 1 ==>
          CopyEnd(ok, offset, turns) == CopyRun(|start[src.path]|, buffSz, 0, old(faults))
        invariant rounds == 1 && ok ==> !outOfSpace && InStep(src, dst, offset)
        invariant Logged(begun, start, src.path, dst.path)
        invariant faults.closeFails == old(faults).closeFails
        decreases 1 - rounds
      {
        rounds := rounds + 1;
        ok, offset, outOfSpace, turns := CopyUntilRead(src, dst, buffSz, offset, start, begun);
      }
    }
  }

  // -------------------------------------------------- what the loop promises

  lemma FailedWriteIsRetried(len: nat, buffSz: nat, offset: nat, e: WriteFault, k: Faults)
    requires offset < len && buffSz > 0 && ToInt(offset) != -1
    requires k.readFaults == [] && k.seekOks == [] && e.WriteError?
    ensures var end := CopyRun(len, buffSz, offset, k);
      CopyRun(len, buffSz, offset, k.(writeFaults := [e] + k.writeFaults)) == end.(turns := end.turns + 1)
  {
    assert AfterTurn(Min(buffSz, len - offset), k.(writeFaults := [e] + k.writeFaults)) == k;
  }

  /** A run of n failed writes, whatever their errno, is n turns without progress. */
  lemma {:induction false} FailedWritesAreRetried(
      len: nat, buffSz: nat, offset: nat, errors: seq<WriteFault>, k: Faults)
    requires offset < len && buffSz > 0 && ToInt(offset) != -1
    requires k.readFaults == [] && k.seekOks == [] && forall w <- errors :: w.WriteError?
    ensures var end := CopyRun(len, buffSz, offset, k);
      CopyRun(len, buffSz, offset, k.(writeFaults := errors + k.writeFaults)) == end.(turns := end.turns + |errors|)
  {
    if errors == [] {
      assert errors + k.writeFaults == k.writeFaults;
    } else {
      FailedWritesAreRetried(len, buffSz, offset, errors[1..], k);
      var later := k.(writeFaults := errors[1..] + k.writeFaults);
      FailedWriteIsRetried(len, buffSz, offset, errors[0], later);
      assert errors + k.writeFaults == [errors[0]] + later.writeFaults;
    }
  }

  lemma {:induction false} ShortFileCopies(len: nat, buffSz: nat, offset: nat, k: Faults)
    requires offset <= len < TWO_32 && Gentle(k)
    ensures CopyRun(len, buffSz, offset, k).ok
    decreases |k.writeFaults|, len - offset
  {
    var n, k' := ReadCount(buffSz, len - offset, k.readFaults), AfterRead(k);
    if n > 0 {
      TurnShrinks(len, buffSz, offset, k);
      ShortFileCopies(len, buffSz, NextOffset(offset, n, k'), AfterTurn(n, k'));
    }
  }

  /** q full writes, and then one of only r bytes. */
  function FullThenShort(buffSz: nat, q: nat, r: nat): seq<WriteFault> {
    if q == 0 then [ShortWrite(r)] else [ShortWrite(buffSz)] + FullThenShort(buffSz, q - 1, r)
  }

  lemma {:induction false} StopsBefore4G(len: nat, buffSz: nat, offset: nat, q: nat, r: nat)
    requires TWO_32 <= len && r < buffSz && offset + q * buffSz + r == TWO_32 - 1
    ensures !CopyRun(len, buffSz, offset, Faults(false, false, false, [], FullThenShort(buffSz, q, r), [])).ok
    decreases q
  {
    var k := Faults(false, false, false, [], FullThenShort(buffSz, q, r), []);
    if q > 0 {
      assert q * buffSz == (q - 1) * buffSz + buffSz;
      StopsBefore4G(len, buffSz, offset + buffSz, q - 1, r);
      assert k.writeFaults[1..] == FullThenShort(buffSz, q - 1, r);
      assert AfterTurn(buffSz, k) == Faults(false, false, false, [], FullThenShort(buffSz, q - 1, r), []);
    } else {
      assert ToInt(TWO_32 - 1) == -1;
    }
  }

  /**
   * Copying survives every short or failed write exactly for files below 4 GiB: a retry at the last
   * byte before it seeks to an offset that, converted to int, is taken for a failed seek.
   */
  lemma GentleCopyIff(len: nat, buffSz: nat)
    ensures (forall k :: Gentle(k) ==> CopyRun(len, buffSz, 0, k).ok) <==> buffSz == 0 || len < TWO_32
  {
    if buffSz > 0 && len >= TWO_32 {
      var q, r := (TWO_32 - 1) / buffSz, (TWO_32 - 1) % buffSz;
      StopsBefore4G(len, buffSz, 0, q, r);
      assert Gentle(Faults(false, false, false, [], FullThenShort(buffSz, q, r), []));
    } else if buffSz > 0 {
      forall k | Gentle(k) ensures CopyRun(len, buffSz, 0, k).ok {
        ShortFileCopies(len, buffSz, 0, k);
      }
    }
  }
}
