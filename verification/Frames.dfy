/** The framebuffer object: allocation, layout, release of its memory, reference count. */
module Frames {
  import opened Options
  import opened Layout

  class Framebuffer {
    var data: array?<byte>
    var totalSize: nat
    var ownsMemory: bool
    var params: Params
    var planes: seq<Plane>
    var refCount: nat
    ghost var frees: nat    // how often memory of this object was handed to free()

    /** A slot as it stands in zeroed memory. */
    constructor ()
      ensures Blank() && refCount == 0 && frees == 0
    {
      data := null;
      totalSize := 0;
      ownsMemory := false;
      params := Params(0, 0, UNKNOWN);
      planes := [NO_PLANE, NO_PLANE, NO_PLANE, NO_PLANE];
      refCount := 0;
      frees := 0;
    }

    /** No memory, no size, no format and four empty planes. */
    ghost predicate Blank()
      reads this
    {
      && data == null && totalSize == 0 && !ownsMemory && params == Params(0, 0, UNKNOWN)
      && planes == [Plane(0, 0, 0, 0, 0), Plane(0, 0, 0, 0, 0), Plane(0, 0, 0, 0, 0), Plane(0, 0, 0, 0, 0)]
    }

    /** memset over the object; memory it pointed to is lost. */
    method Wipe()
      modifies this
      ensures Blank() && refCount == 0
      ensures frees == old(frees)
    {
      data, totalSize, ownsMemory, params := null, 0, false, Params(0, 0, UNKNOWN);
      planes := [NO_PLANE, NO_PLANE, NO_PLANE, NO_PLANE];
      refCount := 0;
    }

    ghost predicate Allocated()
      reads `data, `ownsMemory, `params, `planes, `totalSize
    {
      && data != null && ownsMemory
      && PlanesOf(params) == Some(planes)
      && totalSize == TotalSize(planes) == data.Length
    }

    /** init_planes: a refused format leaves four empty planes. */
    method InitPlanes(p: Params) returns (err: VfErr)
      modifies this`planes, this`totalSize
      ensures err == (if PlanesOf(p).Some? then SUCCESS else INVALID_PARAMETER)
      ensures planes == (if PlanesOf(p).Some? then PlanesOf(p).value else [NO_PLANE, NO_PLANE, NO_PLANE, NO_PLANE])
      ensures totalSize == TotalSize(planes)
    {
      planes := [NO_PLANE, NO_PLANE, NO_PLANE, NO_PLANE];
      SumOfSizes(planes);
      totalSize := 0;
      err := SUCCESS;
      match p.format {
        case RGB888 => InitPlanesPacked(p);
        case BGR888 => InitPlanesPacked(p);
        case RGBA8888 => InitPlanesPacked(p);
        case RAW8 => InitPlanesPacked(p);
        case YUYV => InitPlanesPacked(p);
        case YUV420P => InitPlanesYuv420p(p);
        case NV12 => InitPlanesNv12(p);
        case _ => err := INVALID_PARAMETER;
      }
    }

    method SetPlane(k: nat, width: nat, height: nat, lineSize: nat)
      requires k < |planes|
      modifies this`planes
      ensures planes == old(planes)[k := PlaneOf(width, height, lineSize)]
    {
      var stride := Align(lineSize);
      planes := planes[k := Plane(width, height, lineSize, stride, stride * height)];
    }

    method InitPlanesPacked(p: Params)
      requires Bpp(p.format) != 0 && planes == [NO_PLANE, NO_PLANE, NO_PLANE, NO_PLANE]
      modifies this`planes, this`totalSize
      ensures PlanesOf(p) == Some(planes) && totalSize == TotalSize(planes)
    {
      SetPlane(0, p.width, p.height, p.width * Bpp(p.format) / 8);
      assert planes == PlanesOf(p).value;
      totalSize := planes[0].size;
      SumOfSizes(planes);
    }

    method InitPlanesYuv420p(p: Params)
      requires p.format == YUV420P && planes == [NO_PLANE, NO_PLANE, NO_PLANE, NO_PLANE]
      modifies this`planes, this`totalSize
      ensures PlanesOf(p) == Some(planes) && totalSize == TotalSize(planes)
    {
      SetPlane(0, p.width, p.height, p.width);
      SetPlane(1, p.width / 2, p.height / 2, p.width / 2);
      SetPlane(2, p.width / 2, p.height / 2, p.width / 2);
      assert planes == PlanesOf(p).value;
      totalSize := planes[0].size + planes[1].size + planes[2].size;
      SumOfSizes(planes);
    }

    method InitPlanesNv12(p: Params)
      requires p.format == NV12 && planes == [NO_PLANE, NO_PLANE, NO_PLANE, NO_PLANE]
      modifies this`planes, this`totalSize
      ensures PlanesOf(p) == Some(planes) && totalSize == TotalSize(planes)
    {
      SetPlane(0, p.width, p.height, p.width);
      SetPlane(1, p.width, p.height / 2, p.width);
      assert planes == PlanesOf(p).value;
      totalSize := planes[0].size + planes[1].size;
      SumOfSizes(planes);
    }

    /** memory says whether malloc finds room. */
    method Alloc(p: Params, memory: bool) returns (err: VfErr)
      modifies this
      ensures err == (if p.width == 0 || p.height == 0 || PlanesOf(p).None? then INVALID_PARAMETER
                      else if !memory then OOM else SUCCESS)
      ensures err == SUCCESS ==> Allocated() && fresh(data) && params == p && refCount == 0
      ensures err == SUCCESS ==> forall i :: 0 <= i < data.Length ==> data[i] == 0
      ensures p.width == 0 || p.height == 0 || p.format == UNKNOWN || p.format == LAST ==> unchanged(this)
      ensures err != SUCCESS && !(p.width == 0 || p.height == 0 || p.format == UNKNOWN || p.format == LAST) ==>
        data == null && !ownsMemory && params == p && refCount == 0
      ensures frees == old(frees)
    {
      if p.width == 0 || p.height == 0 {
        return INVALID_PARAMETER;
      }
      if p.format == UNKNOWN || p.format == LAST {
        return INVALID_PARAMETER;
      }
      data, ownsMemory, refCount := null, false, 0;
      params := p;
      err := InitPlanes(p);
      if err != SUCCESS {
        return;
      }
      if !memory {
        return OOM;
      }
      data := new byte[totalSize](_ => 0);
      ownsMemory := true;
    }

    method Free()
      modifies this
      ensures Blank()
      ensures frees == old(frees) + if old(data) != null && old(ownsMemory) then 1 else 0
      ensures refCount == old(refCount)
    {
      if data != null && ownsMemory {
        frees := frees + 1;
      }
      data := null;
      totalSize := 0;
      ownsMemory := false;
      params := Params(0, 0, UNKNOWN);
      planes := [NO_PLANE, NO_PLANE, NO_PLANE, NO_PLANE];
    }

    method Ref()
      modifies this`refCount
      ensures refCount == (old(refCount) + 1) % 0x1_0000_0000
    {
      refCount := (refCount + 1) % WORD;
    }

    /** The atomic part of an unref: the decrement, undone if the count was 0. */
    method Unref() returns (prev: nat)
      requires refCount < WORD
      modifies this`refCount
      ensures prev == old(refCount) && refCount == if prev == 0 then 0 else prev - 1
    {
      prev := refCount;
      refCount := (refCount + WORD - 1) % WORD;
      if prev == 0 {
        refCount := (refCount + 1) % WORD;
      }
    }
  }

  lemma SumOfSizes(planes: seq<Plane>)
    requires |planes| == MAX_PLANES
    ensures TotalSize(planes) == planes[0].size + planes[1].size + planes[2].size + planes[3].size
  {
    assert Base(planes, 4) == Base(planes, 3) + planes[3].size;
    assert Base(planes, 3) == Base(planes, 2) + planes[2].size;
    assert Base(planes, 2) == Base(planes, 1) + planes[1].size;
    assert Base(planes, 1) == Base(planes, 0) + planes[0].size;
  }
}
