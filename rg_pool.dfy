// The texture cache behind Build's instantiation step (g_cachedTextures and
// FindOrCreateTexture in Utils/RenderGraph/RenderGraph.cpp:15-68), and the
// rendering device it talks to.  The device is not part of this model: it is a
// recorded trace of the calls made to it, and the answers it gives are fixed in
// advance, indexed by the position of the call in the trace.

module RenderGraphTexturePool {

  import opened RenderFormats
  import opened RenderGraphTypes

  /** A call made to the rendering layer. */
  datatype DeviceCall =
    | CreateTextureCall(width: nat, height: nat, format: RenderFormat, flags: set<ViewKind>)
    | CreateViewsCall(tex: TextureHandle, flags: set<ViewKind>)
    | ReleaseCall(tex: TextureHandle)
    | CreateCommandListCall
    | InvokePassCall(callback: nat)
    | ExecuteCommandListCall

  /** The view of a texture the rendering layer reports for one view kind. */
  function ViewOf(tex: TextureHandle, kind: ViewKind): ViewHandle {
    TextureView(tex, kind)
  }

  /** The rendering layer: `createAnswer(n)` is the texture CreateTexture returns when it is
      call number n, and `viewsAnswer(n)` whether view creation succeeds as call number n. */
  class Device {
    const createAnswer: nat -> TextureHandle
    const viewsAnswer: nat -> bool
    var trace: seq<DeviceCall>

    constructor (createAnswer: nat -> TextureHandle, viewsAnswer: nat -> bool)
      ensures this.createAnswer == createAnswer && this.viewsAnswer == viewsAnswer
      ensures trace == []
    {
      this.createAnswer := createAnswer;
      this.viewsAnswer := viewsAnswer;
      trace := [];
    }

    method CreateTexture(width: nat, height: nat, format: RenderFormat, flags: set<ViewKind>) returns (t: TextureHandle)
      modifies this
      ensures t == createAnswer(|old(trace)|)
      ensures trace == old(trace) + [CreateTextureCall(width, height, format, flags)]
    {
      t := createAnswer(|trace|);
      trace := trace + [CreateTextureCall(width, height, format, flags)];
    }

    method CreateViewsForResourceFlags(tex: TextureHandle, flags: set<ViewKind>) returns (ok: bool)
      modifies this
      ensures ok == viewsAnswer(|old(trace)|)
      ensures trace == old(trace) + [CreateViewsCall(tex, flags)]
    {
      ok := viewsAnswer(|trace|);
      trace := trace + [CreateViewsCall(tex, flags)];
    }

    method Release(tex: TextureHandle)
      modifies this
      ensures trace == old(trace) + [ReleaseCall(tex)]
    {
      trace := trace + [ReleaseCall(tex)];
    }

    method Record(call: DeviceCall)
      modifies this
      ensures trace == old(trace) + [call]
    {
      trace := trace + [call];
    }
  }

  /** RGCachedTexture. */
  datatype CachedTexture = CachedTexture(format: RenderFormat, width: nat, height: nat, tex: TextureHandle)

  predicate Fits(e: CachedTexture, format: RenderFormat, width: nat, height: nat) {
    e.format == format && e.width == width && e.height == height
  }

  /** The index the search loop stops at: the first entry of the requested format and size,
      or the length of the cache when there is none. */
  function FirstMatch(entries: seq<CachedTexture>, format: RenderFormat, width: nat, height: nat): (i: nat)
    ensures i <= |entries|
    ensures i < |entries| ==> Fits(entries[i], format, width, height)
    ensures forall j :: 0 <= j < i ==> !Fits(entries[j], format, width, height)
    ensures i == |entries| <==> forall j :: 0 <= j < |entries| ==> !Fits(entries[j], format, width, height)
  {
    if entries == [] then 0
    else if Fits(entries[0], format, width, height) then 0
    else 1 + FirstMatch(entries[1..], format, width, height)
  }

  /** The cache, the device trace and the returned texture after one request. */
  datatype PoolStep = PoolStep(entries: seq<CachedTexture>, trace: seq<DeviceCall>, tex: TextureHandle)

  /** FindOrCreateTexture: a hit takes the matching entry out of the cache and returns it when
      the views it needs can be made (INVALID otherwise); a miss creates a new texture. */
  function FindOrCreate(entries: seq<CachedTexture>, trace: seq<DeviceCall>,
                        createAnswer: nat -> TextureHandle, viewsAnswer: nat -> bool,
                        format: RenderFormat, width: nat, height: nat, flags: set<ViewKind>): PoolStep
  {
    var i := FirstMatch(entries, format, width, height);
    if i < |entries| then
      var found := entries[i].tex;
      PoolStep(entries[..i] + entries[i + 1..], trace + [CreateViewsCall(found, flags)],
               if viewsAnswer(|trace|) then found else InvalidTexture)
    else
      PoolStep(entries, trace + [CreateTextureCall(width, height, format, flags)], createAnswer(|trace|))
  }

  /** On a hit exactly the first fitting entry leaves the cache, the others keep their order,
      and the request costs one view-creation call; the texture returned is that entry's when
      its views can be made and INVALID otherwise. */
  lemma FindOrCreateHit(entries: seq<CachedTexture>, trace: seq<DeviceCall>,
                        createAnswer: nat -> TextureHandle, viewsAnswer: nat -> bool,
                        format: RenderFormat, width: nat, height: nat, flags: set<ViewKind>, i: nat)
    requires i < |entries| && Fits(entries[i], format, width, height)
    requires forall j :: 0 <= j < i ==> !Fits(entries[j], format, width, height)
    ensures var st := FindOrCreate(entries, trace, createAnswer, viewsAnswer, format, width, height, flags);
      && |st.entries| == |entries| - 1
      && multiset(st.entries) + multiset{entries[i]} == multiset(entries)
      && (forall j :: 0 <= j < i ==> st.entries[j] == entries[j])
      && (forall j :: i <= j < |st.entries| ==> st.entries[j] == entries[j + 1])
      && st.trace == trace + [CreateViewsCall(entries[i].tex, flags)]
      && (viewsAnswer(|trace|) ==> st.tex == entries[i].tex)
      && (!viewsAnswer(|trace|) ==> st.tex == InvalidTexture)
  {
    assert FirstMatch(entries, format, width, height) == i;
    assert entries == entries[..i] + [entries[i]] + entries[i + 1..];
  }

  /** On a miss the cache is untouched and the request costs one texture creation with exactly the
      requested description and flags. */
  lemma FindOrCreateMiss(entries: seq<CachedTexture>, trace: seq<DeviceCall>,
                         createAnswer: nat -> TextureHandle, viewsAnswer: nat -> bool,
                         format: RenderFormat, width: nat, height: nat, flags: set<ViewKind>)
    requires forall j :: 0 <= j < |entries| ==> !Fits(entries[j], format, width, height)
    ensures var st := FindOrCreate(entries, trace, createAnswer, viewsAnswer, format, width, height, flags);
      && st.entries == entries
      && st.trace == trace + [CreateTextureCall(width, height, format, flags)]
      && st.tex == createAnswer(|trace|)
  {
  }

  /** Every request makes exactly one call to the device and never grows the cache. */
  lemma FindOrCreateOneCall(entries: seq<CachedTexture>, trace: seq<DeviceCall>,
                            createAnswer: nat -> TextureHandle, viewsAnswer: nat -> bool,
                            format: RenderFormat, width: nat, height: nat, flags: set<ViewKind>)
    ensures var st := FindOrCreate(entries, trace, createAnswer, viewsAnswer, format, width, height, flags);
      |st.trace| == |trace| + 1 && st.trace[..|trace|] == trace &&
      |st.entries| <= |entries| && multiset(st.entries) <= multiset(entries)
  {
    var i := FirstMatch(entries, format, width, height);
    if i < |entries| {
      FindOrCreateHit(entries, trace, createAnswer, viewsAnswer, format, width, height, flags, i);
    }
  }

  /** One release call per cached texture, in cache order. */
  function ReleaseCalls(entries: seq<CachedTexture>): (calls: seq<DeviceCall>)
    ensures |calls| == |entries|
    ensures forall k :: 0 <= k < |entries| ==> calls[k] == ReleaseCall(entries[k].tex)
  {
    if entries == [] then [] else ReleaseCalls(entries[..|entries| - 1]) + [ReleaseCall(entries[|entries| - 1].tex)]
  }

  /** g_cachedTextures. */
  class TexturePool {
    var entries: seq<CachedTexture>

    constructor ()
      ensures entries == []
    {
      entries := [];
    }

    /** The search loop, then the hit or the miss path. */
    method FindOrCreateTexture(device: Device, format: RenderFormat, width: nat, height: nat, flags: set<ViewKind>)
      returns (t: TextureHandle)
      modifies this, device
      ensures PoolStep(entries, device.trace, t) ==
              FindOrCreate(old(entries), old(device.trace), device.createAnswer, device.viewsAnswer, format, width, height, flags)
    {
      var idx := 0;
      while idx < |entries|
        invariant 0 <= idx <= |entries|
        invariant forall j :: 0 <= j < idx ==> !Fits(entries[j], format, width, height)
      {
        if entries[idx].format == format && entries[idx].width == width && entries[idx].height == height {
          break;
        }
        idx := idx + 1;
      }
      assert idx == FirstMatch(entries, format, width, height);
      if idx < |entries| {
        var found := entries[idx].tex;
        entries := entries[..idx] + entries[idx + 1..];
        var ok := device.CreateViewsForResourceFlags(found, flags);
        if ok {
          t := found;
        } else {
          t := InvalidTexture;
        }
      } else {
        t := device.CreateTexture(width, height, format, flags);
      }
    }

    /** The end of Build: release every cached texture, then empty the cache. */
    method ReleaseAll(device: Device)
      modifies this, device
      ensures entries == []
      ensures device.trace == old(device.trace) + ReleaseCalls(old(entries))
    {
      var k := 0;
      while k < |entries|
        invariant 0 <= k <= |entries| && entries == old(entries)
        invariant device.trace == old(device.trace) + ReleaseCalls(entries[..k])
      {
        device.Release(entries[k].tex);
        assert entries[..k + 1][..k] == entries[..k];
        k := k + 1;
      }
      assert entries[..k] == entries;
      entries := [];
    }
  }
}
