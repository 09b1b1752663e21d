/** The single-threaded scenario: file source, conversion and file sink run in turn on one thread,
    over the pools and queues made for threads, where a wait would never end. */
module Scenarios {
  import opened Options
  import opened Layout
  import opened BufSpec
  import opened Frames
  import opened FrameIo
  import opened BufQueues
  import opened BufPools
  import opened Pictures
  import opened ConvRows
  import opened Conversion
  import opened FileUnits
  import opened ConvUnits

  /** out is what a file of the conversion holds, if the file converted from starts with `bytes`. */
  ghost predicate Converts(bytes: seq<byte>, from: Params, out: seq<byte>, to: Params) {
    exists f: Picture, g: Picture ::
      && f.params == from && g.params == to && ConversionOf(f, g)
      && BodySize(f.planes, Used(f.planes)) <= |bytes|
      && Body(f.planes, f.data) == bytes[..BodySize(f.planes, Used(f.planes))]
      && Body(g.planes, g.data) == out
  }

  lemma ConvertsShots(bytes: seq<byte>, src: Framebuffer, dst: Framebuffer)
    requires src.data != null && dst.data != null && ConversionOf(Shot(src), Shot(dst))
    requires Size(src) <= |bytes| && BodyOf(src) == bytes[..Size(src)]
    ensures Converts(bytes, src.params, BodyOf(dst), dst.params)
  {
    var f, g := Shot(src), Shot(dst);
    assert Body(g.planes, g.data) == BodyOf(dst);
  }

  function Concat(parts: seq<seq<byte>>): seq<byte> {
    if parts == [] then [] else Concat(parts[..|parts| - 1]) + parts[|parts| - 1]
  }

  lemma ConcatGrows(was: seq<byte>, parts: seq<seq<byte>>, part: seq<byte>)
    ensures was + Concat(parts) + part == was + Concat(parts + [part])
    ensures |Concat(parts + [part])| == |Concat(parts)| + |part|
  {
    assert (parts + [part])[..|parts|] == parts;
  }

  /** A file with room left for some of a part ends as if it had been all written at once. */
  lemma TookRest(was: seq<byte>, done: seq<byte>, part: seq<byte>, room: nat)
    requires |done| <= room
    ensures was + done + Took(part, room - |done|) == was + Took(done + part, room)
  {
  }

  /** The frame can be read, and this is what a file of its conversion holds. */
  ghost predicate Converted(frame: Option<seq<byte>>, from: Params, out: seq<byte>, to: Params) {
    frame.Some? && Converts(frame.value, from, out, to)
  }

  /** The conversion of a frame that can be read; nothing for one that cannot. */
  ghost predicate Attempted(frame: Option<seq<byte>>, from: Params, out: seq<byte>, to: Params) {
    if Readable(frame, from) then Converted(frame, from, out, to) else out == []
  }

  /** A new file holds what its disk took of the bytes, unless it could not be opened. */
  ghost predicate Tried(file: Stream?, bytes: seq<byte>, disk: Option<nat>)
    reads file
  {
    if disk.None? then file == null else file != null && file.bytes == Took(bytes, disk.value)
  }

  /** Every part has a file of its own. */
  ghost predicate Hold(files: seq<Stream>, parts: seq<seq<byte>>)
    reads files
  {
    && |files| == |parts|
    && (forall i, j :: 0 <= i < j < |files| ==> files[i] != files[j])
    && (forall i | 0 <= i < |files| :: files[i].bytes == parts[i])
  }

  /** The file opens and holds a frame of the given parameters. */
  ghost predicate Readable(frame: Option<seq<byte>>, p: Params) {
    frame.Some? && FileSize(p) <= |frame.value|
  }

  /** A new file opens and takes a frame of the given parameters. */
  ghost predicate Roomy(disk: Option<nat>, p: Params) {
    disk.Some? && FileSize(p) <= disk.value
  }

  /** Every file of the set can be read, and every output file written: a new one each, or one for all. */
  ghost predicate Suffices(frames: seq<Option<seq<byte>>>, from: Params, split: bool, disks: seq<Option<nat>>,
                           room: nat, to: Params) {
    && (forall i | 0 <= i < |frames| :: Readable(frames[i], from))
    && (if split then forall i | 0 <= i < |disks| :: Roomy(disks[i], to) else FilesSize(|frames|, to) <= room)
  }

  /** The size of a file for n frames. */
  ghost function FilesSize(n: nat, p: Params): nat {
    n * FileSize(p)
  }

  lemma OneMoreFile(n: nat, p: Params)
    ensures FilesSize(0, p) == 0 && FilesSize(n + 1, p) == FilesSize(n, p) + FileSize(p)
  {
  }

  /** A single output file that has no room for frame i has none for all. */
  lemma {:induction false} MoreFilesMoreRoom(i: nat, n: nat, p: Params)
    requires i <= n
    ensures FilesSize(i, p) <= FilesSize(n, p)
    decreases n - i
  {
    if i < n {
      OneMoreFile(i, p);
      MoreFilesMoreRoom(i + 1, n, p);
    }
  }

  lemma TookWhole(out: seq<byte>, space: Option<nat>, to: Params)
    requires Roomy(space, to) && |out| == FileSize(to)
    ensures space.Some? && Took(out, space.value) == out
  {
  }

  /** The first i frames can be read, and their new files, if each has one, written. */
  ghost predicate Passed(i: nat, frames: seq<Option<seq<byte>>>, from: Params, split: bool, disks: seq<Option<nat>>,
                         to: Params)
    requires i <= |frames| == |disks|
  {
    forall k | 0 <= k < i :: Readable(frames[k], from) && (split ==> Roomy(disks[k], to))
  }

  lemma PassMore(i: nat, frames: seq<Option<seq<byte>>>, from: Params, split: bool, disks: seq<Option<nat>>, to: Params)
    requires i < |frames| == |disks| && Passed(i, frames, from, split, disks, to)
    requires Readable(frames[i], from) && (split ==> Roomy(disks[i], to))
    ensures Passed(i + 1, frames, from, split, disks, to)
  {
  }

  lemma AllPass(frames: seq<Option<seq<byte>>>, from: Params, split: bool, disks: seq<Option<nat>>, room: nat,
                to: Params)
    requires |disks| == |frames| && Passed(|frames|, frames, from, split, disks, to)
    requires !split ==> FilesSize(|frames|, to) <= room
    ensures Suffices(frames, from, split, disks, room, to)
  {
  }

  /** A frame that does not go through. */
  lemma FailsAt(i: nat, frames: seq<Option<seq<byte>>>, from: Params, split: bool, disks: seq<Option<nat>>,
                room: nat, to: Params)
    requires i < |frames| == |disks| && (!split ==> FilesSize(i, to) <= room)
    requires !Readable(frames[i], from) || !Roomy(if split then disks[i] else Some(room - FilesSize(i, to)), to)
    ensures !Suffices(frames, from, split, disks, room, to)
  {
    OneMoreFile(i, to);
    MoreFilesMoreRoom(i + 1, |frames|, to);
  }

  class Scenario {
    const poolIn: BufPool
    const poolOut: BufPool
    const q0: BufQueue
    const q1: BufQueue
    const fileIn: FileUnit
    const conv: ConversionUnit
    const fileOut: FileUnit
    ghost const slots: nat

    constructor (fileIn: FileUnit, conv: ConversionUnit, fileOut: FileUnit, q0: BufQueue, q1: BufQueue,
                 ghost slots: nat)
      ensures this.fileIn == fileIn && this.conv == conv && this.fileOut == fileOut
      ensures this.q0 == q0 && this.q1 == q1 && this.slots == slots
      ensures poolIn == conv.srcPool && poolOut == conv.pool
    {
      this.fileIn, this.conv, this.fileOut, this.q0, this.q1 := fileIn, conv, fileOut, q0, q1;
      this.poolIn, this.poolOut := conv.srcPool, conv.pool;
      this.slots := slots;
    }

    /** The units share the pools as the scenario runner configures them, and nothing else is shared. */
    ghost predicate Wired() {
      && fileIn.pool == conv.srcPool == poolIn && fileOut.pool == conv.pool == poolOut
      && fileIn.mode == In && fileOut.mode == Out && fileIn.frames == fileOut.frames
      && fileIn != fileOut && poolIn != poolOut && poolIn.inUse != poolOut.inUse
      && q0 != q1 && q0.slots != q1.slots
      && 1 <= slots <= MAX_SLOTS == |poolIn.slots| == |poolOut.slots|
      && poolIn.slots[0] != poolOut.slots[0]
    }

    /** Full pools and empty queues. */
    ghost predicate Idle()
      reads poolIn, poolIn.inUse, poolOut, poolOut.inUse, q0, q0.slots, q1, q1.slots
    {
      && PoolHas(poolIn, slots, Range(slots)) && PoolHas(poolOut, slots, Range(slots))
      && QueueHas(q0, []) && QueueHas(q1, [])
    }

    /** The frames match the conversion, and no reference is counted. */
    ghost predicate Ready()
      requires Wired()
      reads poolIn.slots[0], poolOut.slots[0], conv.ctx
    {
      && poolIn.slots[0].Allocated() && poolOut.slots[0].Allocated() && poolIn.slots[0].refCount == 0
      && poolIn.slots[0].data != poolOut.slots[0].data
      && conv.Matched(poolIn.slots[0], poolOut.slots[0])
    }

    /** vf_pipeline_run_once over the three units. It never waits; a run that succeeds writes the
        conversion of the current frame, and whatever fails, pools end full and queues empty. */
    method RunOnce(disk: Option<nat>) returns (err: VfErr, waits: bool, ghost out: seq<byte>)
      requires Wired() && Idle() && Ready()
      requires fileIn.frameIdx == fileOut.frameIdx < |fileIn.frames| && (!fileOut.split ==> fileOut.file != null)
      modifies fileIn, conv`inFb, conv`outFb, fileOut, fileOut.Target()
      modifies poolIn`available, poolIn.inUse, poolOut`available, poolOut.inUse, q0, q0.slots, q1, q1.slots
      modifies {poolIn.slots[0] as Framebuffer}`refCount, poolIn.slots[0].data, poolOut.slots[0].data
      ensures !waits && Idle() && Ready()
      ensures err == if && Readable(fileIn.frames[old(fileIn.frameIdx)], poolIn.slots[0].params)
                        && Roomy(old(fileOut.Space(disk)), poolOut.slots[0].params)
                     then SUCCESS else FILE_ERR
      ensures err == SUCCESS ==> fileIn.frameIdx == fileOut.frameIdx == old(fileIn.frameIdx) + 1
      ensures err == SUCCESS ==> |out| == FileSize(poolOut.slots[0].params)
      ensures Attempted(fileIn.frames[old(fileIn.frameIdx)], poolIn.slots[0].params, out, poolOut.slots[0].params)
      ensures !fileOut.split ==>
        && fileOut.file == old(fileOut.file)
        && fileOut.file.bytes == old(fileOut.file.bytes) + Took(out, old(fileOut.file.room))
        && (err == SUCCESS ==> fileOut.file.room + |out| == old(fileOut.file.room))
      ensures fileOut.split ==>
        if Readable(fileIn.frames[old(fileIn.frameIdx)], poolIn.slots[0].params)
        then Tried(fileOut.file, out, disk) && (fileOut.file != null ==> fresh(fileOut.file))
        else fileOut.file == old(fileOut.file)
    {
      hide PoolHas, QueueHas, Converted, BodyOf, FileSize, Range, ConversionUnit.Matched, Framebuffer.Allocated;
      out := [];
      err, waits := ConvertNext();
      if err != SUCCESS {
        return;
      }
      out := BodyOf(poolOut.slots[0]);
      err, waits := fileOut.RunOutIdle(q1, disk, slots);
    }

    /** The first two units of a run: the conversion of the current frame is queued for the sink, or the frame
        cannot be read and nothing is. */
    method ConvertNext() returns (err: VfErr, waits: bool)
      requires Wired() && Idle() && Ready() && fileIn.frameIdx < |fileIn.frames|
      modifies fileIn, conv`inFb, conv`outFb
      modifies poolIn`available, poolIn.inUse, poolOut`available, poolOut.inUse, q0, q0.slots, q1, q1.slots
      modifies {poolIn.slots[0] as Framebuffer}`refCount, poolIn.slots[0].data, poolOut.slots[0].data
      ensures !waits && Ready()
      ensures err == if Readable(fileIn.frames[old(fileIn.frameIdx)], poolIn.slots[0].params) then SUCCESS else FILE_ERR
      ensures err != SUCCESS ==> Idle()
      ensures err == SUCCESS ==>
        && PoolHas(poolIn, slots, Range(slots)) && QueueHas(q0, [])
        && PoolHas(poolOut, slots, Range(slots) - {0}) && QueueHas(q1, [poolOut.slots[0]])
        && fileIn.frameIdx == old(fileIn.frameIdx) + 1
        && poolOut.slots[0].data != null && |BodyOf(poolOut.slots[0])| == FileSize(poolOut.slots[0].params)
        && Converted(fileIn.frames[old(fileIn.frameIdx)], poolIn.slots[0].params, BodyOf(poolOut.slots[0]),
                     poolOut.slots[0].params)
    {
      hide PoolHas, QueueHas, ConversionOf, Converts, BodyOf, Size;
      hide FileSize, Shot, Range, ConversionUnit.Matched, Framebuffer.Allocated;
      ghost var src, dst := poolIn.slots[0], poolOut.slots[0];
      SizeOfBody(src);
      err, waits := fileIn.RunInIdle(q0, slots);
      if err != SUCCESS {
        return;
      }
      err, waits := conv.RunIdle(q0, q1, slots);
      ConvertsShots(fileIn.frames[old(fileIn.frameIdx)].value, src, dst);
      SizeOfBody(dst);
    }

    /** The first frames are all converted, to these. */
    ghost predicate AllConverted(outs: seq<seq<byte>>, from: Params, to: Params)
      requires |outs| <= |fileIn.frames|
    {
      forall i | 0 <= i < |outs| :: Converted(fileIn.frames[i], from, outs[i], to)
    }

    lemma NonePassed(disks: seq<Option<nat>>, from: Params, to: Params)
      requires |disks| == |fileIn.frames|
      ensures AllConverted([], from, to) && Passed(0, fileIn.frames, from, fileOut.split, disks, to)
    {
    }

    lemma ConvertedMore(outs: seq<seq<byte>>, out: seq<byte>, from: Params, to: Params)
      requires |outs| < |fileIn.frames| && AllConverted(outs, from, to) && Readable(fileIn.frames[|outs|], from)
      requires Attempted(fileIn.frames[|outs|], from, out, to)
      ensures AllConverted(outs + [out], from, to)
    {
    }

    /** Where a run over the set stands after the frames of outs: pools and queues at rest, and what went through
        in its files. A single file held `was` before, and had that much room. */
    ghost predicate Through(disks: seq<Option<nat>>, from: Params, to: Params, was: seq<byte>, room: nat,
                            files: seq<Stream>, outs: seq<seq<byte>>)
      requires Wired() && |disks| == |fileIn.frames|
      reads poolIn, poolIn.inUse, poolOut, poolOut.inUse, q0, q0.slots, q1, q1.slots
      reads poolIn.slots[0], poolOut.slots[0], conv.ctx, fileIn, fileOut, fileOut.file, files
    {
      && Idle() && Ready()
      && |outs| == fileIn.frameIdx == fileOut.frameIdx <= |fileIn.frames|
      && from == poolIn.slots[0].params && to == poolOut.slots[0].params
      && AllConverted(outs, from, to)
      && Passed(|outs|, fileIn.frames, from, fileOut.split, disks, to)
      && if fileOut.split then Hold(files, outs)
         else
           && fileOut.file != null && fileOut.file.bytes == was + Concat(outs)
           && |Concat(outs)| == FilesSize(|outs|, to) && fileOut.file.room + FilesSize(|outs|, to) == room
    }

    /** Where it stands when the frame after those of outs did not go through. */
    ghost predicate Stopped(disks: seq<Option<nat>>, from: Params, to: Params, was: seq<byte>, room: nat,
                            files: seq<Stream>, outs: seq<seq<byte>>, last: seq<byte>)
      requires |disks| == |fileIn.frames|
      reads fileOut, fileOut.file, files
    {
      && |outs| < |fileIn.frames| && AllConverted(outs, from, to)
      && Attempted(fileIn.frames[|outs|], from, last, to)
      && !Suffices(fileIn.frames, from, fileOut.split, disks, room, to)
      && if fileOut.split then
           && Hold(files, outs)
           && (Readable(fileIn.frames[|outs|], from) ==>
                 Tried(fileOut.file, last, disks[|outs|]) && fileOut.file !in files)
         else fileOut.file != null && fileOut.file.bytes == was + Took(Concat(outs) + last, room)
    }

    /** The next run of the set. */
    method RunNext(disks: seq<Option<nat>>, ghost from: Params, ghost to: Params, ghost was: seq<byte>, ghost room: nat,
                   ghost files: seq<Stream>, ghost outs: seq<seq<byte>>)
      returns (err: VfErr, waits: bool, ghost out: seq<byte>, ghost all: seq<Stream>)
      requires Wired() && |disks| == |fileIn.frames| && |outs| < |disks|
      requires Through(disks, from, to, was, room, files, outs)
      modifies fileIn, conv`inFb, conv`outFb, fileOut, fileOut.Target()
      modifies poolIn`available, poolIn.inUse, poolOut`available, poolOut.inUse, q0, q0.slots, q1, q1.slots
      modifies {poolIn.slots[0] as Framebuffer}`refCount, poolIn.slots[0].data, poolOut.slots[0].data
      ensures !waits && Idle() && Ready() && (err == SUCCESS || err == FILE_ERR)
      ensures if err == SUCCESS then Through(disks, from, to, was, room, all, outs + [out])
              else Stopped(disks, from, to, was, room, files, outs, out)
      ensures !fileOut.split ==> fileOut.file == old(fileOut.file)
    {
      hide Scenario.Idle, Scenario.Ready, Scenario.AllConverted, Converts, Converted, Readable, Roomy, Attempted;
      hide Passed, FileSize, FilesSize, Concat, Took, Hold, Suffices;
      ghost var i := |outs|;
      ghost var space := if fileOut.split then disks[i] else Some(fileOut.file.room);
      OneMoreFile(i, to);
      err, waits, out := RunOnce(disks[fileIn.frameIdx]);
      all := files;
      if err != SUCCESS {
        if !fileOut.split {
          TookRest(was, Concat(outs), out, room);
        }
        FailsAt(i, fileIn.frames, from, fileOut.split, disks, room, to);
        return;
      }
      TookWhole(out, space, to);
      PassMore(i, fileIn.frames, from, fileOut.split, disks, to);
      ConvertedMore(outs, out, from, to);
      ConcatGrows(was, outs, out);
      if fileOut.split {
        HoldMore(files, outs, fileOut.file, out);
        all := files + [fileOut.file];
      }
    }

    lemma Starts(disks: seq<Option<nat>>, from: Params, to: Params, was: seq<byte>, room: nat)
      requires Wired() && Idle() && Ready() && |disks| == |fileIn.frames|
      requires fileIn.frameIdx == fileOut.frameIdx == 0
      requires from == poolIn.slots[0].params && to == poolOut.slots[0].params
      requires !fileOut.split ==> fileOut.file != null && fileOut.file.bytes == was && fileOut.file.room == room
      ensures Through(disks, from, to, was, room, [], [])
    {
      hide Scenario.Idle, Scenario.Ready, Converts, FileSize, FilesSize, Concat, Hold;
      OneMoreFile(0, to);
      NothingYet(was);
      NonePassed(disks, from, to);
    }

    lemma Ends(disks: seq<Option<nat>>, from: Params, to: Params, was: seq<byte>, room: nat,
               files: seq<Stream>, outs: seq<seq<byte>>)
      requires Wired() && |disks| == |fileIn.frames| == |outs| && Through(disks, from, to, was, room, files, outs)
      ensures Suffices(fileIn.frames, from, fileOut.split, disks, room, to)
      ensures !fileOut.split ==> Took(Concat(outs) + [], room) == Concat(outs)
    {
      hide Scenario.Idle, Scenario.Ready, Scenario.AllConverted, Passed, Suffices, FilesSize, Concat;
      AllPass(fileIn.frames, from, fileOut.split, disks, room, to);
    }

    /** One run per frame of the set, up to the first that fails. No run waits, and both units work on frame i
        in run i. outs are the conversions of the frames that went through, and last is that of the frame that
        did not, if it could be read. A sink that writes one file leaves in it, in order, what the disk took
        of these; one that splits leaves files[i] with outs[i], each a file of its own. */
    method RunPipelineForFrames(disks: seq<Option<nat>>)
      returns (err: VfErr, waits: bool, ghost files: seq<Stream>, ghost outs: seq<seq<byte>>, ghost last: seq<byte>)
      requires Wired() && Idle() && Ready() && |disks| == |fileIn.frames|
      requires fileIn.frameIdx == fileOut.frameIdx == 0 && (!fileOut.split ==> fileOut.file != null)
      modifies fileIn, conv`inFb, conv`outFb, fileOut, fileOut.Target()
      modifies poolIn`available, poolIn.inUse, poolOut`available, poolOut.inUse, q0, q0.slots, q1, q1.slots
      modifies {poolIn.slots[0] as Framebuffer}`refCount, poolIn.slots[0].data, poolOut.slots[0].data
      ensures !waits && Idle() && Ready()
      ensures err == if Suffices(fileIn.frames, poolIn.slots[0].params, fileOut.split, disks,
                                 if fileOut.split then 0 else old(fileOut.file.room), poolOut.slots[0].params)
                     then SUCCESS else FILE_ERR
      ensures |outs| <= |fileIn.frames| && AllConverted(outs, poolIn.slots[0].params, poolOut.slots[0].params)
      ensures if err == SUCCESS then |outs| == fileIn.frameIdx == fileOut.frameIdx == |fileIn.frames| && last == []
              else
                && |outs| < |fileIn.frames|
                && Attempted(fileIn.frames[|outs|], poolIn.slots[0].params, last, poolOut.slots[0].params)
      ensures !fileOut.split ==>
        && fileOut.file == old(fileOut.file)
        && fileOut.file.bytes == old(fileOut.file.bytes) + Took(Concat(outs) + last, old(fileOut.file.room))
      ensures err == SUCCESS && !fileOut.split ==> fileOut.file.bytes == old(fileOut.file.bytes) + Concat(outs)
      ensures fileOut.split ==> Hold(files, outs)
      ensures fileOut.split && err != SUCCESS && Readable(fileIn.frames[|outs|], poolIn.slots[0].params) ==>
        Tried(fileOut.file, last, disks[|outs|]) && fileOut.file !in files
    {
      hide Scenario.Idle, Scenario.Ready, Scenario.AllConverted, Attempted, Passed, Readable, Suffices, Concat, Took;
      hide Hold, FileSize, FilesSize, Converted, Tried;
      ghost var room := if fileOut.split then 0 else fileOut.file.room;
      ghost var from, to := poolIn.slots[0].params, poolOut.slots[0].params;
      ghost var was := if fileOut.split then [] else fileOut.file.bytes;
      files, outs, last := [], [], [];
      Starts(disks, from, to, was, room);
      var i := 0;
      while i < |fileIn.frames|
        invariant 0 <= i == |outs| <= |fileIn.frames| && last == []
        invariant Through(disks, from, to, was, room, files, outs)
        invariant poolIn.slots[0].data == old(poolIn.slots[0].data)
        invariant poolOut.slots[0].data == old(poolOut.slots[0].data)
        invariant !fileOut.split ==> fileOut.file == old(fileOut.file)
      {
        ghost var out, all;
        err, waits, out, all := RunNext(disks, from, to, was, room, files, outs);
        if err != SUCCESS {
          last := out;
          return;
        }
        files, outs := all, outs + [out];
        i := i + 1;
      }
      Ends(disks, from, to, was, room, files, outs);
      err, waits := SUCCESS, false;
    }
  }

  lemma NothingYet(was: seq<byte>)
    ensures Concat([]) == [] && was + Concat([]) == was && Hold([], [])
  {
  }

  lemma HoldMore(files: seq<Stream>, parts: seq<seq<byte>>, file: Stream, part: seq<byte>)
    requires Hold(files, parts) && file !in files && file.bytes == part
    ensures Hold(files + [file], parts + [part])
  {
  }
}
