/** The engine's spawned work (crates/envoy-files-io/src/engine.rs): reading a
    chunk through short reads, and opening a file with its first chunk. */
module EngineTasks {
  import opened Text
  import opened FilterModel

  /** How the disk answers positioned reads: for each call, an error, or how many
      bytes it would like to give.  A legal read gives at least one byte before
      the end of the file and never more than was asked for. */
  datatype Disposition = Disposition(answer: nat -> Option<nat>)

  function Available(content: Bytes, at: nat, want: nat): nat {
    if at < |content| then Min(want, |content| - at) else 0
  }

  /** What one positioned read returns. */
  function ReadOnce(content: Bytes, at: nat, want: nat, give: nat): (got: Bytes)
    ensures |got| <= want && got == ReadSlice(content, at, |got|)
    ensures got == [] <==> Available(content, at, want) == 0
  {
    var most := Available(content, at, want);
    var n := if most == 0 then 0 else if give == 0 then 1 else Min(give, most);
    content[Min(at, |content|)..Min(at, |content|) + n]
  }

  lemma SliceGrows(content: Bytes, offset: nat, done: nat, n: nat)
    ensures ReadSlice(content, offset, done) + ReadSlice(content, offset + done, n)
            == ReadSlice(content, offset, done + n)
  {
  }

  lemma SliceEnds(content: Bytes, offset: nat, done: nat, len: nat)
    requires done <= len && offset + done >= |content|
    ensures ReadSlice(content, offset, done) == ReadSlice(content, offset, len)
  {
  }

  /** One more read appended to what was read so far. */
  lemma OneMoreRead(content: Bytes, offset: nat, len: nat, buf: Bytes, give: nat)
    requires |buf| <= len && buf == ReadSlice(content, offset, |buf|)
    ensures var more := ReadOnce(content, offset + |buf|, len - |buf|, give);
            && |buf + more| <= len && buf + more == ReadSlice(content, offset, |buf + more|)
            && (more == [] ==> buf == ReadSlice(content, offset, len))
  {
    var more := ReadOnce(content, offset + |buf|, len - |buf|, give);
    SliceGrows(content, offset, |buf|, |more|);
    if more == [] && |buf| < len {
      SliceEnds(content, offset, |buf|, len);
    }
    hide ReadSlice, ReadOnce;
  }

  lemma FirstRead(content: Bytes, offset: nat, len: nat, give: nat)
    ensures var buf := ReadOnce(content, offset, len, give);
            buf == ReadSlice(content, offset, |buf|) && (buf == [] ==> buf == ReadSlice(content, offset, len))
  {
    assert ReadSlice(content, offset, 0) == [];
    OneMoreRead(content, offset, len, [], give);
    assert [] + ReadOnce(content, offset, len, give) == ReadOnce(content, offset, len, give);
  }

  /** The first `calls` reads of the disk all succeed. */
  predicate AllAnswered(disk: Disposition, calls: nat) {
    forall n :: 0 <= n < calls ==> disk.answer(n).Some?
  }

  /** `read_at`: whatever the pattern of short reads, a read gives exactly the
      requested bytes, cut off at the end of the file; it fails only when the
      file is closed or a read of the disk failed. */
  method ReadAt(file: Option<FileBytes>, offset: nat, len: nat, disk: Disposition)
    returns (result: ReadResult, calls: nat)
    ensures file.None? ==> result == ReadFails(IoError(NotFound, None)) && calls == 0
    ensures file.Some? && result.Got? ==> result.bytes == ReadSlice(file.value, offset, len)
    ensures file.Some? ==> (result.Got? <==> AllAnswered(disk, calls))
    ensures calls <= len + 1
  {
    if file.None? {
      return ReadFails(IoError(NotFound, None)), 0;
    }
    hide ReadSlice, ReadOnce;
    var content := file.value;
    calls := 1;
    if disk.answer(0).None? {
      return ReadFails(IoError(OtherKind, None)), calls;
    }
    var buf := ReadOnce(content, offset, len, disk.answer(0).value);
    FirstRead(content, offset, len, disk.answer(0).value);
    if |buf| == len || |buf| == 0 {
      return Got(buf), calls;
    }
    result, calls := ReadRest(content, offset, len, disk, buf);
  }

  /** The loop of `read_at`, after a first read that was short. */
  method ReadRest(content: FileBytes, offset: nat, len: nat, disk: Disposition, first: Bytes)
    returns (result: ReadResult, calls: nat)
    requires 0 < |first| < len && first == ReadSlice(content, offset, |first|) && AllAnswered(disk, 1)
    ensures result.Got? ==> result.bytes == ReadSlice(content, offset, len)
    ensures result.Got? <==> AllAnswered(disk, calls)
    ensures calls <= len + 1
  {
    hide ReadSlice, ReadOnce;
    calls := 1;
    var buf := first;
    while |buf| < len
      invariant |buf| <= len && buf == ReadSlice(content, offset, |buf|)
      invariant AllAnswered(disk, calls)
      invariant 1 <= calls <= |buf|
      decreases len - |buf|
    {
      var answer := disk.answer(calls);
      calls := calls + 1;
      if answer.None? {
        return ReadFails(IoError(OtherKind, None)), calls;
      }
      var more := ReadOnce(content, offset + |buf|, len - |buf|, answer.value);
      OneMoreRead(content, offset, len, buf, answer.value);
      if more == [] {
        return Got(buf), calls; // the end of the file: what there is
      }
      buf := buf + more;
    }
    result := Got(buf);
  }

  /** The end of `open_stat`, containment and symlinks already decided: the first chunk is read along with the open, a
      failed prefetch counts as none, and a file that is in hand entirely gets
      the inert handle.  The completion is one the filter's environment may see. */
  method OpenStat(id: nat, path: Bytes, ctx: OpenCtx, prefetchLen: nat, files: Disk, disk: Disposition)
    returns (ev: IoEvent, registered: bool)
    requires id != 0
    ensures Completes(files, OpenOp(path, ctx, prefetchLen), ev)
    ensures registered <==> ev.Opened? && ev.handle.id != 0
    ensures ev.Opened? && ev.handle.id != 0 ==> ev.handle.id == id
    ensures ev.Opened? && !ev.stat.isDir && prefetchLen > 0 && (forall n :: disk.answer(n).Some?) ==>
              ev.prefetch == ReadSlice(ev.handle.content, 0, prefetchLen)
  {
    var found := files.open(path);
    match found {
      case Fails(error) => return OpenError(error), false;
      case Directory(stat) =>
        return Opened(FileHandle(id, []), stat.(isDir := true), ctx, []), true;
      case Regular(content, secs, nanos) =>
        var stat := FileStat(|content|, secs, nanos, false);
        var want := Min(prefetchLen, |content|);
        var prefetch: Bytes := [];
        if want > 0 {
          var result, calls := ReadAt(Some(content), 0, want, disk);
          if result.Got? {
            prefetch := result.bytes;
            assert ReadSlice(content, 0, want) == content[..want] == ReadSlice(content, 0, prefetchLen);
          }
        } else {
          assert prefetchLen > 0 ==> ReadSlice(content, 0, prefetchLen) == [];
        }
        registered := |prefetch| != |content|;
        ev := Opened(FileHandle(if registered then id else 0, content), stat, ctx, prefetch);
    }
  }
}
