/** Writing a frame to a file line by line and reading it back. */
module FrameIo {
  import opened Options
  import opened Layout
  import opened Frames

  /** An open file: its bytes, the read position, and how many more bytes the
      disk takes. */
  class Stream {
    var bytes: seq<byte>
    var pos: nat
    var room: nat

    constructor (bytes: seq<byte>, room: nat)
      ensures this.bytes == bytes && this.pos == 0 && this.room == room
    {
      this.bytes, this.pos, this.room := bytes, 0, room;
    }

    /** fwrite of one element: all of it, or as much as fits. An empty element counts as not written. */
    method Write(line: seq<byte>) returns (ok: bool)
      modifies this`bytes, this`room
      ensures ok <==> 0 < |line| <= old(room)
      ensures ok ==> bytes == old(bytes) + line && room == old(room) - |line|
      ensures !ok ==> bytes == old(bytes) + if line == [] then [] else line[..old(room)]
      ensures room + |bytes| == old(room) + |old(bytes)|
    {
      ok := 0 < |line| <= room;
      var n := if |line| <= room then |line| else room;
      bytes := bytes + line[..n];
      assert ok ==> line[..n] == line;
      room := room - n;
    }

    /** fread of one element into data at a position: all of it, or what is left of the file. */
    method ReadInto(data: array<byte>, at: nat, len: nat) returns (ok: bool)
      requires at + len <= data.Length
      modifies this`pos, data
      ensures ok <==> 0 < len <= |bytes| - old(pos)
      ensures pos == old(pos) + if ok then len else if len == 0 || old(pos) >= |bytes| then 0 else |bytes| - old(pos)
      ensures pos <= |bytes| ==> pos - old(pos) <= len && data[at..at + (pos - old(pos))] == bytes[old(pos)..pos]
      ensures forall i :: 0 <= i < data.Length && !(at <= i < at + len) ==> data[i] == old(data[i])
    {
      ok := 0 < len <= |bytes| - pos;
      var n := if len <= |bytes| - pos then len else if pos < |bytes| then |bytes| - pos else 0;
      forall i | 0 <= i < n { data[at + i] := bytes[pos + i]; }
      pos := pos + n;
    }
  }

  // --- The visible bytes of a frame, in file order

  function Slice(d: seq<byte>, at: nat, len: nat): seq<byte> {
    if at + len <= |d| then d[at..at + len] else []
  }

  /** The first j lines of plane k. */
  function LinesUpTo(planes: seq<Plane>, d: seq<byte>, k: nat, j: nat): seq<byte>
    requires k < |planes|
  {
    if j == 0 then []
    else LinesUpTo(planes, d, k, j - 1) + Slice(d, LineStart(planes, k, j - 1), planes[k].lineSize)
  }

  /** All lines of the first k planes. */
  function PlanesUpTo(planes: seq<Plane>, d: seq<byte>, k: nat): seq<byte>
    requires k <= |planes|
  {
    if k == 0 then [] else PlanesUpTo(planes, d, k - 1) + LinesUpTo(planes, d, k - 1, planes[k - 1].height)
  }

  /** What a file of this frame holds. */
  function Body(planes: seq<Plane>, d: seq<byte>): seq<byte> {
    PlanesUpTo(planes, d, Used(planes))
  }

  /** Line size times height, summed over the planes before the first empty one. */
  function BodySize(planes: seq<Plane>, k: nat): nat
    requires k <= |planes|
  {
    if k == 0 then 0 else BodySize(planes, k - 1) + planes[k - 1].lineSize * planes[k - 1].height
  }

  /** d is the memory of a frame with these planes. */
  ghost predicate Holds(planes: seq<Plane>, d: seq<byte>) {
    AllSound(planes) && TotalSize(planes) == |d|
  }

  lemma {:induction false} LinesSize(planes: seq<Plane>, d: seq<byte>, k: nat, j: nat)
    requires Holds(planes, d) && k < |planes| && j <= planes[k].height
    ensures |LinesUpTo(planes, d, k, j)| == j * planes[k].lineSize
  {
    if j > 0 {
      LinesSize(planes, d, k, j - 1);
      LineInPlane(planes, k, j - 1);
      assert j * planes[k].lineSize == (j - 1) * planes[k].lineSize + planes[k].lineSize;
    }
  }

  lemma {:induction false} PlanesSize(planes: seq<Plane>, d: seq<byte>, k: nat)
    requires Holds(planes, d) && k <= |planes|
    ensures |PlanesUpTo(planes, d, k)| == BodySize(planes, k)
  {
    hide Layout.AllSound, LinesUpTo;
    if k > 0 {
      PlanesSize(planes, d, k - 1);
      PlaneSize(planes, d, k - 1);
    }
  }

  lemma PlaneSize(planes: seq<Plane>, d: seq<byte>, k: nat)
    requires Holds(planes, d) && k < |planes|
    ensures |LinesUpTo(planes, d, k, planes[k].height)| == planes[k].lineSize * planes[k].height
  {
    LinesSize(planes, d, k, planes[k].height);
    Commute(planes[k].lineSize, planes[k].height);
  }

  lemma Commute(a: nat, b: nat)
    ensures a * b == b * a
  {
  }

  /** A loop over planes and lines passed n bytes and stopped before line j of plane k, the first that does not
      fit into room. */
  ghost predicate StopsAt(planes: seq<Plane>, d: seq<byte>, k: nat, j: nat, n: nat, room: nat) {
    && k < Used(planes) && j < planes[k].height
    && n == |Done(planes, d, k, j)| && n <= room < n + planes[k].lineSize
  }

  ghost predicate Stops(planes: seq<Plane>, d: seq<byte>, n: nat, room: nat) {
    exists k: nat, j: nat :: StopsAt(planes, d, k, j, n, room)
  }

  /** What a loop over planes and lines has passed before line j of plane k. */
  function Done(planes: seq<Plane>, d: seq<byte>, k: nat, j: nat): seq<byte>
    requires k < |planes|
  {
    PlanesUpTo(planes, d, k) + LinesUpTo(planes, d, k, j)
  }

  /** Before the first line and behind the last one of a plane. */
  lemma DoneAtEnds(planes: seq<Plane>, d: seq<byte>, k: nat)
    requires k < |planes|
    ensures LineStart(planes, k, 0) == Base(planes, k)
    ensures Done(planes, d, k, 0) == PlanesUpTo(planes, d, k)
    ensures Done(planes, d, k, planes[k].height) == PlanesUpTo(planes, d, k + 1)
  {
  }

  lemma DoneNext(planes: seq<Plane>, d: seq<byte>, k: nat, j: nat)
    requires Holds(planes, d) && k < |planes| && j < planes[k].height
    ensures LineStart(planes, k, j) + planes[k].lineSize <= |d|
    ensures LineStart(planes, k, j + 1) == LineStart(planes, k, j) + planes[k].stride
    ensures Done(planes, d, k, j + 1)
            == Done(planes, d, k, j) + d[LineStart(planes, k, j)..LineStart(planes, k, j) + planes[k].lineSize]
  {
    LineInPlane(planes, k, j);
    StrideStep(j, planes[k].stride);
    Associative(PlanesUpTo(planes, d, k), LinesUpTo(planes, d, k, j),
                Slice(d, LineStart(planes, k, j), planes[k].lineSize));
  }

  lemma Associative<T>(a: seq<T>, b: seq<T>, c: seq<T>)
    ensures a + (b + c) == a + b + c
  {
  }

  lemma StrideStep(j: nat, stride: nat)
    ensures (j + 1) * stride == j * stride + stride
  {
  }

  lemma {:induction false} UsedGoesOn(planes: seq<Plane>, i: nat)
    requires i <= Used(planes) && i < |planes| && planes[i].size != 0
    ensures i < Used(planes)
  {
    if i > 0 { UsedGoesOn(planes[1..], i - 1); }
  }

  lemma {:induction false} UsedStops(planes: seq<Plane>, i: nat)
    requires i <= Used(planes) && (i < |planes| ==> planes[i].size == 0)
    ensures i == Used(planes)
  {
    if i > 0 { UsedStops(planes[1..], i - 1); }
  }

  /** Everything passed is a prefix of the body. */
  lemma DoneInBody(planes: seq<Plane>, d: seq<byte>, k: nat, j: nat)
    requires k < Used(planes) && j <= planes[k].height
    ensures Done(planes, d, k, j) <= Body(planes, d)
  {
    LinesGrow(planes, d, k, j, planes[k].height);
    PlanesGrow(planes, d, k + 1, Used(planes));
    SamePrefix(PlanesUpTo(planes, d, k), LinesUpTo(planes, d, k, j), LinesUpTo(planes, d, k, planes[k].height));
    PrefixTrans(Done(planes, d, k, j), PlanesUpTo(planes, d, k + 1), Body(planes, d));
  }

  /** Where byte x of line j of plane k goes in a file: behind the planes and lines in front of it, which follow one
      another without padding. */
  function FileOffset(planes: seq<Plane>, k: nat, j: nat, x: nat): nat
    requires k < |planes|
  {
    BodySize(planes, k) + j * planes[k].lineSize + x
  }

  lemma BodyByte(planes: seq<Plane>, d: seq<byte>, k: nat, j: nat, x: nat)
    requires Holds(planes, d) && k < Used(planes) && j < planes[k].height && x < planes[k].lineSize
    ensures LineStart(planes, k, j) + x < |d| && FileOffset(planes, k, j, x) < |Body(planes, d)|
    ensures Body(planes, d)[FileOffset(planes, k, j, x)] == d[LineStart(planes, k, j) + x]
  {
    hide Layout.Base, Layout.LineStart, Layout.Used, Body, LinesUpTo, PlanesUpTo, Done, FileOffset;
    DoneNext(planes, d, k, j);
    DoneInBody(planes, d, k, j + 1);
    DoneSize(planes, d, k, j, x);
    var at := LineStart(planes, k, j);
    assert Done(planes, d, k, j + 1)[|Done(planes, d, k, j)| + x] == d[at..at + planes[k].lineSize][x];
  }

  lemma DoneSize(planes: seq<Plane>, d: seq<byte>, k: nat, j: nat, x: nat)
    requires Holds(planes, d) && k < |planes| && j <= planes[k].height
    ensures |Done(planes, d, k, j)| + x == FileOffset(planes, k, j, x)
  {
    PlanesSize(planes, d, k);
    LinesSize(planes, d, k, j);
  }

  lemma SamePrefix<T>(a: seq<T>, b: seq<T>, c: seq<T>)
    requires b <= c
    ensures a + b <= a + c
  {
  }

  lemma PrefixTrans<T>(a: seq<T>, b: seq<T>, c: seq<T>)
    requires a <= b && b <= c
    ensures a <= c
  {
  }

  lemma {:induction false} LinesGrow(planes: seq<Plane>, d: seq<byte>, k: nat, i: nat, j: nat)
    requires k < |planes| && i <= j
    ensures LinesUpTo(planes, d, k, i) <= LinesUpTo(planes, d, k, j)
    decreases j - i
  {
    if i < j { LinesGrow(planes, d, k, i, j - 1); }
  }

  lemma {:induction false} PlanesGrow(planes: seq<Plane>, d: seq<byte>, i: nat, j: nat)
    requires i <= j <= |planes|
    ensures PlanesUpTo(planes, d, i) <= PlanesUpTo(planes, d, j)
    decreases j - i
  {
    if i < j { PlanesGrow(planes, d, i, j - 1); }
  }

  lemma StopsHere(planes: seq<Plane>, d: seq<byte>, k: nat, j: nat, n: nat, room: nat)
    requires k < Used(planes) && j < planes[k].height
    requires n == |Done(planes, d, k, j)| && n <= room < n + planes[k].lineSize
    ensures Stops(planes, d, n, room)
  {
    assert StopsAt(planes, d, k, j, n, room);
  }

  // --- Writing

  /** What a disk with that much room takes. */
  function Took(bytes: seq<byte>, room: nat): seq<byte> {
    if |bytes| <= room then bytes else bytes[..room]
  }

  /** vf_framebuffer_write_to_fptr. When the disk fills up, the file ends with what fitted, and the count
      is that of the whole lines that did. */
  method WriteTo(fb: Framebuffer?, file: Stream?) returns (err: VfErr, written: nat)
    requires fb != null && fb.data != null ==> Holds(fb.planes, fb.data[..])
    modifies (if file == null then {} else {file})`bytes, (if file == null then {} else {file})`room
    ensures fb == null || file == null || fb.data == null ==> err == INVALID_PARAMETER
    ensures fb != null && file != null && fb.data != null ==>
      var body := Body(fb.planes, fb.data[..]);
      && err == (if |body| <= old(file.room) then SUCCESS else FILE_ERR)
      && file.bytes == old(file.bytes) + Took(body, old(file.room))
      && (err == SUCCESS ==> file.room + |body| == old(file.room) && written == |body|)
      && (err == FILE_ERR ==> Stops(fb.planes, fb.data[..], written, old(file.room)))
  {
    if fb == null || file == null {
      return INVALID_PARAMETER, 0;
    }
    if fb.data == null {
      return INVALID_PARAMETER, 0;
    }
    err, written := WritePlanes(fb.planes, fb.data, file);
  }

  method WritePlanes(planes: seq<Plane>, data: array<byte>, file: Stream) returns (err: VfErr, written: nat)
    requires Holds(planes, data[..])
    modifies file`bytes, file`room
    ensures var body := Body(planes, data[..]);
      && err == (if |body| <= old(file.room) then SUCCESS else FILE_ERR)
      && file.bytes == old(file.bytes) + Took(body, old(file.room))
      && (err == SUCCESS ==> file.room + |body| == old(file.room) && written == |body|)
      && (err == FILE_ERR ==> Stops(planes, data[..], written, old(file.room)))
  {
    hide Stops, Holds, LinesUpTo, Layout.Used;
    ghost var d, was, room := data[..], file.bytes, file.room;
    written := 0;
    var planeAt, i := 0, 0;
    while i < |planes|
      invariant 0 <= i <= Used(planes)
      invariant planeAt == Base(planes, i)
      invariant file.bytes == was + PlanesUpTo(planes, d, i)
      invariant written == |PlanesUpTo(planes, d, i)| && file.room + written == room
    {
      if planes[i].size == 0 {
        break;
      }
      UsedGoesOn(planes, i);
      var ok, n := WriteLines(planes, i, planeAt, data, file, was);
      written := written + n;
      if !ok {
        return FILE_ERR, written;
      }
      planeAt := planeAt + planes[i].size;
      i := i + 1;
    }
    UsedStops(planes, i);
    err := SUCCESS;
  }

  method WriteLines(planes: seq<Plane>, k: nat, planeAt: nat, data: array<byte>, file: Stream, ghost was: seq<byte>)
    returns (ok: bool, written: nat)
    requires Holds(planes, data[..]) && k < Used(planes) && planeAt == Base(planes, k)
    requires file.bytes == was + PlanesUpTo(planes, data[..], k)
    modifies file`bytes, file`room
    ensures var body := Body(planes, data[..]);
      var room := old(file.room) + |PlanesUpTo(planes, data[..], k)|;
      if ok then
        && file.bytes == was + PlanesUpTo(planes, data[..], k + 1)
        && written == |PlanesUpTo(planes, data[..], k + 1)| - |PlanesUpTo(planes, data[..], k)|
        && file.room + written == old(file.room)
      else
        && room < |body| && file.bytes == was + body[..room]
        && Stops(planes, data[..], |PlanesUpTo(planes, data[..], k)| + written, room)
  {
    hide Stops, StopsAt, Done, PlanesUpTo, Layout.AllSound, Layout.Base, Layout.LineStart;
    ghost var d := data[..];
    DoneAtEnds(planes, d, k);
    ghost var room := file.room + |PlanesUpTo(planes, d, k)|;
    var lineAt, j := planeAt, 0;
    written := 0;
    while j < planes[k].height
      invariant 0 <= j <= planes[k].height
      invariant lineAt == LineStart(planes, k, j)
      invariant file.bytes == was + Done(planes, d, k, j)
      invariant |Done(planes, d, k, j)| == |PlanesUpTo(planes, d, k)| + written
      invariant file.room + |Done(planes, d, k, j)| == room
    {
      ok := WriteLine(planes, k, j, lineAt, data, file, was);
      if !ok {
        StopsHere(planes, d, k, j, |PlanesUpTo(planes, d, k)| + written, room);
        return;
      }
      lineAt := lineAt + planes[k].stride;
      written := written + planes[k].lineSize;
      j := j + 1;
    }
    ok := true;
  }

  method WriteLine(planes: seq<Plane>, k: nat, j: nat, lineAt: nat, data: array<byte>, file: Stream,
                   ghost was: seq<byte>)
    returns (ok: bool)
    requires Holds(planes, data[..]) && k < Used(planes) && j < planes[k].height && lineAt == LineStart(planes, k, j)
    requires file.bytes == was + Done(planes, data[..], k, j)
    modifies file`bytes, file`room
    ensures LineStart(planes, k, j + 1) == lineAt + planes[k].stride
    ensures |Done(planes, data[..], k, j + 1)| == |Done(planes, data[..], k, j)| + planes[k].lineSize
    ensures ok ==>
      file.bytes == was + Done(planes, data[..], k, j + 1) && file.room == old(file.room) - planes[k].lineSize
    ensures !ok ==> old(file.room) < planes[k].lineSize
    ensures !ok ==>
      var room := |Done(planes, data[..], k, j)| + old(file.room);
      room < |Body(planes, data[..])| && file.bytes == was + Body(planes, data[..])[..room]
  {
    ghost var d := data[..];
    ghost var done, next, body := Done(planes, d, k, j), Done(planes, d, k, j + 1), Body(planes, d);
    assert planes[k].lineSize > 0;
    DoneNext(planes, d, k, j);
    DoneInBody(planes, d, k, j + 1);
    var line := data[lineAt..lineAt + planes[k].lineSize];
    assert done + line == next;
    ok := Extend(file, line, was, done, body);
  }

  method Extend(file: Stream, line: seq<byte>, ghost was: seq<byte>, ghost done: seq<byte>, ghost body: seq<byte>)
    returns (ok: bool)
    requires file.bytes == was + done && done + line <= body && line != []
    modifies file`bytes, file`room
    ensures ok ==> file.bytes == was + (done + line) && file.room == old(file.room) - |line|
    ensures !ok ==>
      old(file.room) < |line| && |done| + old(file.room) < |body| && file.bytes == was + body[..|done| + old(file.room)]
  {
    ghost var room := file.room;
    ok := file.Write(line);
    if ok {
      Associative(was, done, line);
    } else {
      CutShort(was, done, line, body, room);
    }
  }

  lemma CutShort<T>(was: seq<T>, done: seq<T>, line: seq<T>, body: seq<T>, room: nat)
    requires done + line <= body && room < |line|
    ensures |done| + room < |body| && was + done + line[..room] == was + body[..|done| + room]
  {
    assert (done + line)[..|done| + room] == done + line[..room];
  }

  // --- Reading

  lemma {:induction false} LinesSame(planes: seq<Plane>, d: seq<byte>, e: seq<byte>, k: nat, j: nat, lo: nat)
    requires Holds(planes, d) && |e| == |d| && k < |planes| && j <= planes[k].height
    requires LineStart(planes, k, j) <= lo <= |d| && d[..lo] == e[..lo]
    ensures LinesUpTo(planes, d, k, j) == LinesUpTo(planes, e, k, j)
  {
    hide Layout.AllSound, Layout.LineStart;
    if j > 0 {
      var at, len := LineStart(planes, k, j - 1), planes[k].lineSize;
      LineBelow(planes, k, j - 1, lo);
      LinesSame(planes, d, e, k, j - 1, lo);
      SliceSame(d, e, at, len, lo);
    }
  }

  /** A line in front of the start of the next one. */
  lemma LineBelow(planes: seq<Plane>, k: nat, j: nat, lo: nat)
    requires AllSound(planes) && k < |planes| && LineStart(planes, k, j + 1) <= lo
    ensures LineStart(planes, k, j) + planes[k].lineSize <= lo
  {
    StrideStep(j, planes[k].stride);
  }

  lemma SliceSame(d: seq<byte>, e: seq<byte>, at: nat, len: nat, lo: nat)
    requires at + len <= lo <= |d| == |e| && d[..lo] == e[..lo]
    ensures Slice(d, at, len) == Slice(e, at, len)
  {
    assert d[at..at + len] == d[..lo][at..at + len] == e[..lo][at..at + len] == e[at..at + len];
  }

  lemma {:induction false} PlanesSame(planes: seq<Plane>, d: seq<byte>, e: seq<byte>, k: nat, lo: nat)
    requires Holds(planes, d) && |e| == |d| && k <= |planes|
    requires Base(planes, k) <= lo <= |d| && d[..lo] == e[..lo]
    ensures PlanesUpTo(planes, d, k) == PlanesUpTo(planes, e, k)
  {
    if k > 0 {
      PlanesSame(planes, d, e, k - 1, lo);
      var h := planes[k - 1].height;
      assert h * planes[k - 1].stride == planes[k - 1].stride * h;
      LinesSame(planes, d, e, k - 1, h, lo);
    }
  }

  /** Bytes outside every line are as they were. */
  twostate predicate PaddingKept(planes: seq<Plane>, data: array<byte>)
    reads data
  {
    forall i: nat | i < data.Length && !Stored(planes, i) :: data[i] == old(data[i])
  }

  method ReadLine(planes: seq<Plane>, k: nat, j: nat, lineAt: nat, data: array<byte>, file: Stream,
                  ghost got: seq<byte>)
    returns (ok: bool)
    requires Holds(planes, data[..]) && k < Used(planes) && j < planes[k].height && lineAt == LineStart(planes, k, j)
    requires Done(planes, data[..], k, j) == got
    modifies file`pos, data
    ensures LineStart(planes, k, j + 1) == lineAt + planes[k].stride
    ensures ok <==> planes[k].lineSize <= |file.bytes| - old(file.pos)
    ensures ok ==> file.pos == old(file.pos) + planes[k].lineSize
    ensures ok ==> Done(planes, data[..], k, j + 1) == got + file.bytes[old(file.pos)..file.pos]
    ensures Done(planes, data[..], k, j) == got
    ensures PaddingKept(planes, data)
  {
    hide Done, Layout.Used, Layout.Base, Layout.LineStart;
    ghost var d := data[..];
    DoneNext(planes, d, k, j);
    ok := file.ReadInto(data, lineAt, planes[k].lineSize);
    ghost var e := data[..];
    assert d[..lineAt] == e[..lineAt];
    DoneSame(planes, d, e, k, j);
    DoneNext(planes, e, k, j);
    forall i: nat | i < data.Length && !Stored(planes, i) ensures data[i] == old(data[i]) {
      assert !InLine(planes, k, j, i);
    }
  }

  /** What was passed lies in front of the next line. */
  lemma DoneSame(planes: seq<Plane>, d: seq<byte>, e: seq<byte>, k: nat, j: nat)
    requires Holds(planes, d) && |e| == |d| && k < |planes| && j <= planes[k].height
    requires LineStart(planes, k, j) <= |d| && d[..LineStart(planes, k, j)] == e[..LineStart(planes, k, j)]
    ensures Done(planes, d, k, j) == Done(planes, e, k, j)
  {
    hide Layout.AllSound, LinesUpTo, PlanesUpTo, Layout.Base;
    PlanesSame(planes, d, e, k, LineStart(planes, k, j));
    LinesSame(planes, d, e, k, j, LineStart(planes, k, j));
  }

  /** A read gave n bytes in whole lines, from start on, before the line that is not all there. */
  ghost predicate EndsEarly(planes: seq<Plane>, d: seq<byte>, bytes: seq<byte>, start: nat, n: nat)
    requires start <= |bytes|
  {
    exists k: nat, j: nat ::
      StopsAt(planes, d, k, j, n, |bytes| - start) && Done(planes, d, k, j) == bytes[start..start + n]
  }

  lemma EndsHere(planes: seq<Plane>, d: seq<byte>, k: nat, j: nat, bytes: seq<byte>, start: nat, n: nat)
    requires start + n <= |bytes| && k < Used(planes) && j < planes[k].height
    requires Done(planes, d, k, j) == bytes[start..start + n] && |bytes| - start < n + planes[k].lineSize
    ensures EndsEarly(planes, d, bytes, start, n)
  {
    assert StopsAt(planes, d, k, j, n, |bytes| - start);
  }

  method ReadLines(planes: seq<Plane>, k: nat, planeAt: nat, data: array<byte>, file: Stream, ghost start: nat)
    returns (ok: bool, read: nat)
    requires Holds(planes, data[..]) && k < Used(planes) && planeAt == Base(planes, k)
    requires start <= file.pos <= |file.bytes| && PlanesUpTo(planes, data[..], k) == file.bytes[start..file.pos]
    modifies file`pos, data
    ensures file.pos <= |file.bytes| || !ok
    ensures ok <==> planes[k].lineSize * planes[k].height <= |file.bytes| - old(file.pos)
    ensures ok ==> read == planes[k].lineSize * planes[k].height && file.pos == old(file.pos) + read
    ensures ok ==> PlanesUpTo(planes, data[..], k + 1) == file.bytes[start..file.pos]
    ensures !ok ==> EndsEarly(planes, data[..], file.bytes, start, old(file.pos) - start + read)
    ensures PaddingKept(planes, data)
  {
    hide EndsEarly, StopsAt, Done, PlanesUpTo, Layout.AllSound, Layout.Stored, Layout.Base, Layout.LineStart;
    ghost var size, from := planes[k].lineSize, file.pos;
    var lineAt, j := planeAt, 0;
    read := 0;
    DoneAtEnds(planes, data[..], k);
    while j < planes[k].height
      invariant 0 <= j <= planes[k].height
      invariant lineAt == LineStart(planes, k, j)
      invariant read == size * j && file.pos == from + read <= |file.bytes|
      invariant Done(planes, data[..], k, j) == file.bytes[start..file.pos]
      invariant PaddingKept(planes, data)
    {
      ghost var at := file.pos;
      MoreLines(size, j, planes[k].height);
      ok := ReadLine(planes, k, j, lineAt, data, file, file.bytes[start..file.pos]);
      if !ok {
        EndsHere(planes, data[..], k, j, file.bytes, start, from - start + read);
        return;
      }
      Adjacent(file.bytes, start, at, file.pos);
      lineAt := lineAt + planes[k].stride;
      read := read + planes[k].lineSize;
      j := j + 1;
    }
    DoneAtEnds(planes, data[..], k);
    ok := true;
  }

  lemma Adjacent<T>(s: seq<T>, a: nat, b: nat, c: nat)
    requires a <= b <= c <= |s|
    ensures s[a..b] + s[b..c] == s[a..c]
  {
  }

  lemma MoreLines(size: nat, j: nat, height: nat)
    requires j < height
    ensures size * (j + 1) == size * j + size <= size * height
  {
    assert size * height == size * (j + 1) + size * (height - j - 1);
  }

  lemma {:induction false} BodyGrows(planes: seq<Plane>, k: nat, l: nat)
    requires k <= l <= |planes|
    ensures BodySize(planes, k) <= BodySize(planes, l)
    decreases l - k
  {
    if k < l { BodyGrows(planes, k, l - 1); }
  }

  /** vf_framebuffer_read_from_fptr. */
  method ReadPlanes(planes: seq<Plane>, data: array<byte>, file: Stream) returns (err: VfErr, read: nat)
    requires Holds(planes, data[..]) && file.pos <= |file.bytes|
    modifies file`pos, data
    ensures err == if BodySize(planes, Used(planes)) <= |file.bytes| - old(file.pos) then SUCCESS else FILE_ERR
    ensures err == SUCCESS ==>
      && read == BodySize(planes, Used(planes)) && file.pos == old(file.pos) + read
      && Body(planes, data[..]) == file.bytes[old(file.pos)..file.pos]
    ensures err == FILE_ERR ==> EndsEarly(planes, data[..], file.bytes, old(file.pos), read)
    ensures PaddingKept(planes, data)
  {
    hide EndsEarly, Layout.AllSound, Layout.Stored;
    ghost var start := file.pos;
    read := 0;
    var planeAt, i := 0, 0;
    while i < |planes|
      invariant 0 <= i <= Used(planes)
      invariant planeAt == Base(planes, i)
      invariant read == BodySize(planes, i) && file.pos == start + read <= |file.bytes|
      invariant PlanesUpTo(planes, data[..], i) == file.bytes[start..file.pos]
      invariant PaddingKept(planes, data)
    {
      if planes[i].size == 0 {
        break;
      }
      UsedGoesOn(planes, i);
      BodyGrows(planes, i + 1, Used(planes));
      var ok, n := ReadLines(planes, i, planeAt, data, file, start);
      read := read + n;
      if !ok {
        return FILE_ERR, read;
      }
      planeAt := planeAt + planes[i].size;
      i := i + 1;
    }
    UsedStops(planes, i);
    err := SUCCESS;
  }

  method ReadFrom(fb: Framebuffer?, file: Stream?) returns (err: VfErr, read: nat)
    requires fb != null && fb.data != null ==> Holds(fb.planes, fb.data[..])
    requires file != null ==> file.pos <= |file.bytes|
    modifies (if file == null then {} else {file})`pos, if fb == null || fb.data == null then {} else {fb.data}
    ensures fb == null || file == null || fb.data == null ==> err == INVALID_PARAMETER
    ensures fb != null && file != null && fb.data != null ==>
      && file.bytes == old(file.bytes)
      && err == (if BodySize(fb.planes, Used(fb.planes)) <= |file.bytes| - old(file.pos) then SUCCESS else FILE_ERR)
      && PaddingKept(fb.planes, fb.data)
      && (err == SUCCESS ==>
            && read == BodySize(fb.planes, Used(fb.planes)) && file.pos == old(file.pos) + read
            && Body(fb.planes, fb.data[..]) == file.bytes[old(file.pos)..file.pos])
      && (err == FILE_ERR ==> EndsEarly(fb.planes, fb.data[..], file.bytes, old(file.pos), read))
  {
    if fb == null || file == null {
      return INVALID_PARAMETER, 0;
    }
    if fb.data == null {
      return INVALID_PARAMETER, 0;
    }
    err, read := ReadPlanes(fb.planes, fb.data, file);
  }

  // --- Round trip

  lemma {:induction false} SameLinesSameBytes(planes: seq<Plane>, d: seq<byte>, e: seq<byte>, k: nat, j: nat, m: nat,
                                              i: nat)
    requires Holds(planes, d) && Holds(planes, e) && k < |planes| && m < j <= planes[k].height
    requires LinesUpTo(planes, d, k, j) == LinesUpTo(planes, e, k, j) && InLine(planes, k, m, i)
    ensures i < |d| && d[i] == e[i]
  {
    LineInPlane(planes, k, j - 1);
    LinesSize(planes, d, k, j - 1);
    LinesSize(planes, e, k, j - 1);
    var at, len := LineStart(planes, k, j - 1), planes[k].lineSize;
    var a, b := LinesUpTo(planes, d, k, j - 1), LinesUpTo(planes, e, k, j - 1);
    SplitEqual(a, Slice(d, at, len), b, Slice(e, at, len));
    if m == j - 1 {
      assert d[i] == Slice(d, at, len)[i - at];
      assert e[i] == Slice(e, at, len)[i - at];
    } else {
      SameLinesSameBytes(planes, d, e, k, j - 1, m, i);
    }
  }

  lemma SplitEqual<T>(a: seq<T>, b: seq<T>, c: seq<T>, d: seq<T>)
    requires a + b == c + d && |a| == |c|
    ensures a == c && b == d
  {
    assert a == (a + b)[..|a|] == (c + d)[..|c|] == c;
    assert b == (a + b)[|a|..] == (c + d)[|c|..] == d;
  }

  lemma {:induction false} SamePlanesSameBytes(planes: seq<Plane>, d: seq<byte>, e: seq<byte>, k: nat, l: nat,
                                               m: nat, i: nat)
    requires Holds(planes, d) && Holds(planes, e) && l < k <= |planes| && m < planes[l].height
    requires PlanesUpTo(planes, d, k) == PlanesUpTo(planes, e, k) && InLine(planes, l, m, i)
    ensures i < |d| && d[i] == e[i]
  {
    PlanesSize(planes, d, k - 1);
    PlanesSize(planes, e, k - 1);
    var h := planes[k - 1].height;
    SplitEqual(PlanesUpTo(planes, d, k - 1), LinesUpTo(planes, d, k - 1, h),
               PlanesUpTo(planes, e, k - 1), LinesUpTo(planes, e, k - 1, h));
    if l == k - 1 {
      SameLinesSameBytes(planes, d, e, l, h, m, i);
    } else {
      SamePlanesSameBytes(planes, d, e, k - 1, l, m, i);
    }
  }

  /** Two frames of one layout whose files agree agree on every visible byte. */
  lemma BodyDetermines(planes: seq<Plane>, d: seq<byte>, e: seq<byte>, i: nat)
    requires Holds(planes, d) && Holds(planes, e) && Body(planes, d) == Body(planes, e) && Stored(planes, i)
    ensures i < |d| && d[i] == e[i]
  {
    var k: nat, j: nat :| k < Used(planes) && j < planes[k].height && InLine(planes, k, j, i);
    SamePlanesSameBytes(planes, d, e, Used(planes), k, j, i);
  }

  /** Reading what was written restores every visible byte into a frame of the same parameters and
      leaves its padding alone; both calls report line size times height, summed over the planes. */
  method WriteThenRead(src: Framebuffer, dst: Framebuffer, file: Stream) returns (written: nat, read: nat)
    requires src.Allocated() && dst.Allocated() && src.params == dst.params && src.data != dst.data
    requires file.pos == |file.bytes| && file.room >= BodySize(src.planes, Used(src.planes))
    modifies file, dst.data
    ensures written == read == BodySize(src.planes, Used(src.planes))
    ensures forall i: nat | Visible(src.planes, i) ::
      i < dst.data.Length && i < src.data.Length && dst.data[i] == src.data[i]
    ensures forall i: nat | i < dst.data.Length && !Visible(src.planes, i) :: dst.data[i] == old(dst.data[i])
  {
    PlanesSound(src.params);
    PlanesSize(src.planes, src.data[..], Used(src.planes));
    var err;
    err, written := WriteTo(src, file);
    label between:
    err, read := ReadFrom(dst, file);
    assert file.bytes[old@between(file.pos)..file.pos] == Body(src.planes, src.data[..]);
    forall i: nat | Visible(src.planes, i)
      ensures i < dst.data.Length && i < src.data.Length && dst.data[i] == src.data[i]
    {
      VisibleIsStored(src.params, i);
      BodyDetermines(src.planes, src.data[..], dst.data[..], i);
    }
  }
}
