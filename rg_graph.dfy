// RenderGraph (Utils/RenderGraph/RenderGraph.h:97-169 and
// Utils/RenderGraph/RenderGraph.cpp:121-471): the registry, the pass list, and
// Build, which runs the planner's phases in order and realises the resources the
// surviving passes use.

module RenderGraphObject {

  import opened RenderGraphTypes
  import opened RenderGraphNodes
  import opened RenderGraphLiveness
  import opened RenderGraphFootprint
  import opened RenderGraphIslands
  import opened RenderGraphTexturePool
  import opened RenderGraphPass
  import opened RenderGraphBuild
  import opened RenderGraphRegistry
  import opened Wrappers

  /** The planner's view of a list of passes. */
  function InfosOf(ps: seq<RenderPass>): (infos: seq<PassInfo>)
    reads ps
    ensures |infos| == |ps|
    ensures forall k :: 0 <= k < |ps| ==> infos[k] == ps[k].Info()
  {
    if ps == [] then [] else InfosOf(ps[..|ps| - 1]) + [ps[|ps| - 1].Info()]
  }

  /** The callbacks invoked when the passes are run in order: one per pass up to the first pass
      without a callback, where calling the empty `std::function` throws and the run stops. */
  function Invocations(ps: seq<RenderPass>): (calls: seq<DeviceCall>)
    reads ps
    ensures |calls| <= |ps|
    ensures forall k :: 0 <= k < |calls| ==> ps[k].callback.Some? && calls[k] == InvokePassCall(ps[k].callback.value)
    ensures |calls| < |ps| ==> ps[|calls|].callback.None?
  {
    if ps == [] || ps[0].callback.None? then []
    else [InvokePassCall(ps[0].callback.value)] + Invocations(ps[1..])
  }

  /** Every pass has a callback exactly when the run invokes them all. */
  lemma InvocationsComplete(ps: seq<RenderPass>)
    ensures |Invocations(ps)| == |ps| <==> forall k :: 0 <= k < |ps| ==> ps[k].callback.Some?
  {
  }

  /** The destructor releases the texture of every record typed as a texture, in order. */
  function TextureReleases(res: seq<RealisedResource>): (calls: seq<DeviceCall>)
    ensures |calls| <= |res|
    ensures forall c :: c in calls ==> c.ReleaseCall? && exists k :: 0 <= k < |res| && res[k].rtype == Texture && c.tex == res[k].tex
    ensures forall k :: 0 <= k < |res| && res[k].rtype == Texture ==> ReleaseCall(res[k].tex) in calls
  {
    if res == [] then []
    else
      var p := TextureReleases(res[..|res| - 1]);
      var r := res[|res| - 1];
      p + (if r.rtype == Texture then [ReleaseCall(r.tex)] else [])
  }

  /** The passes at the given positions, in that order. */
  function Pick(ps: seq<RenderPass>, idx: seq<nat>): (r: seq<RenderPass>)
    requires forall t :: 0 <= t < |idx| ==> idx[t] < |ps|
    ensures |r| == |idx| && forall t :: 0 <= t < |idx| ==> r[t] == ps[idx[t]]
  {
    seq(|idx|, t requires 0 <= t < |idx| => ps[idx[t]])
  }

  lemma SurvivorsStep(ms: seq<Node>, i: nat)
    requires i < |ms|
    ensures Survivors(ms[..i + 1]) == Survivors(ms[..i]) + (if ms[i].contributes then [i] else [])
  {
    assert ms[..i + 1][..i] == ms[..i];
  }

  /** The analysis Build runs over the passes, up to the island masks. */
  function MarkedNodes(infos: seq<PassInfo>): seq<Node> {
    Marked(Nodes(infos, DenseOrder(infos)))
  }

  /** The analysis phases of Build, up to the island masks. */
  method Analyse(infos: seq<PassInfo>) returns (marked: seq<Node>, masks: seq<set<nat>>)
    requires |DenseOrder(infos)| < MAX_RESOURCES
    ensures marked == MarkedNodes(infos)
    ensures masks == Islands(Footprints(marked))
  {
    var nodes, unique := BuildNodes(infos);
    var rootCount;
    marked, rootCount := MarkContributors(nodes);
    var fps, aff := ComputeFootprints(marked, rootCount);
    masks := MergeIslands(fps);
  }

  class RenderGraph {
    var passes: seq<RenderPass>
    var consolidated: seq<RenderPass>
    var affinityMasks: seq<set<nat>>
    var registeredMap: map<string, Handle>
    var registered: seq<RegisteredResource>
    var resources: seq<RealisedResource>

    constructor ()
      ensures passes == [] && consolidated == [] && affinityMasks == []
      ensures registeredMap == map[] && registered == [] && resources == []
      ensures Valid()
    {
      passes := [];
      consolidated := [];
      affinityMasks := [];
      registeredMap := map[];
      registered := [];
      resources := [];
    }

    function State(): Registry
      reads this
    {
      Registry(registeredMap, registered, resources)
    }

    ghost predicate Valid()
      reads this
    {
      WellFormed(State()) && NoneExternal(resources) && forall p :: p in consolidated ==> p in passes
    }

    function GetResource(name: string): (h: Handle)
      reads this
      ensures h == Lookup(registeredMap, name)
    {
      if name in registeredMap then registeredMap[name] else NONE
    }

    method RegisterTexture(name: string, desc: TextureDesc) returns (h: Handle)
      requires Valid()
      modifies this
      ensures Valid()
      ensures Registration(State(), h) == RenderGraphRegistry.RegisterTexture(old(State()), name, desc)
      ensures passes == old(passes) && consolidated == old(consolidated) && affinityMasks == old(affinityMasks)
    {
      RegisterTextureMeaning(State(), name, desc);
      if GetResource(name) != NONE {
        h := NONE;
        return;
      }
      h := |registered|;
      registeredMap := registeredMap[name := h];
      registered := registered + [RegisteredResource(false, {}, Texture, desc.width, desc.height, desc.format)];
    }

    method AddExternalRTV(name: string, rtv: ViewHandle, width: nat, height: nat) returns (h: Handle)
      requires Valid()
      modifies this
      ensures Valid()
      ensures Registration(State(), h) == RenderGraphRegistry.AddExternalRTV(old(State()), name, rtv, width, height)
      ensures passes == old(passes) && consolidated == old(consolidated) && affinityMasks == old(affinityMasks)
    {
      AddExternalRTVMeaning(State(), name, rtv, width, height);
      if GetResource(name) != NONE {
        h := NONE;
        return;
      }
      h := |registered|;
      registeredMap := registeredMap[name := h];
      registered := registered + [DEFAULT_REGISTERED.(external := true)];
      if h >= |resources| {
        resources := Grow(resources, h);
        var last := resources[h];
        resources := resources[h := last.(rtv := rtv, dimensions := (width, height, last.dimensions.2))];
      }
    }

    /** AddPass: a new pass at the end of the list, handed back for the builder calls. */
    method AddPass(name: string, passType: PassType) returns (p: RenderPass)
      requires Valid()
      modifies this
      ensures Valid()
      ensures fresh(p) && p.name == name && p.passType == passType
      ensures p.resources == [] && !p.root && p.callback == None
      ensures passes == old(passes) + [p]
      ensures consolidated == old(consolidated) && affinityMasks == old(affinityMasks) && State() == old(State())
    {
      p := new RenderPass.Make(name, passType);
      passes := passes + [p];
    }

    function GetSRV(h: Handle): ViewHandle
      reads this
      requires h < |resources|
    {
      resources[h].srv
    }

    function GetRTV(h: Handle): ViewHandle
      reads this
      requires h < |resources|
    {
      resources[h].rtv
    }

    function GetDSV(h: Handle): ViewHandle
      reads this
      requires h < |resources|
    {
      resources[h].dsv
    }

    function GetUAV(h: Handle): ViewHandle
      reads this
      requires h < |resources|
    {
      resources[h].uav
    }

    function GetResourceDimensions(h: Handle): (nat, nat, nat)
      reads this
      requires h < |resources|
    {
      resources[h].dimensions
    }

    /** Build's "Remove non-contributing passes" loop. */
    method Consolidate(ms: seq<Node>)
      requires Valid() && |ms| == |passes|
      modifies this
      ensures Valid()
      ensures passes == old(passes) && affinityMasks == old(affinityMasks) && State() == old(State())
      ensures consolidated == old(consolidated) + Pick(passes, Survivors(ms))
      ensures InfosOf(passes) == old(InfosOf(passes))
    {
      var i := 0;
      while i < |passes|
        invariant 0 <= i <= |passes| && Valid()
        invariant passes == old(passes) && affinityMasks == old(affinityMasks) && State() == old(State())
        invariant consolidated == old(consolidated) + Pick(passes, Survivors(ms[..i]))
      {
        SurvivorsStep(ms, i);
        if ms[i].contributes {
          consolidated := consolidated + [passes[i]];
        }
        i := i + 1;
      }
      assert ms[..i] == ms;
    }

    /** Build's "Assign access flags" loop. */
    method AssignFlags(es: seq<PassResource>)
      requires Valid() && HandlesBelow(es, |registered|)
      modifies this
      ensures Valid()
      ensures registered == AccumulateFlags(old(registered), es)
      ensures registeredMap == old(registeredMap) && resources == old(resources)
      ensures passes == old(passes) && consolidated == old(consolidated) && affinityMasks == old(affinityMasks)
      ensures InfosOf(passes) == old(InfosOf(passes)) && InfosOf(consolidated) == old(InfosOf(consolidated))
    {
      var i := 0;
      while i < |es|
        invariant 0 <= i <= |es| && |registered| == |old(registered)|
        invariant HandlesBelow(es[..i], |old(registered)|)
        invariant registered == AccumulateFlags(old(registered), es[..i])
        invariant registeredMap == old(registeredMap) && resources == old(resources)
        invariant passes == old(passes) && consolidated == old(consolidated) && affinityMasks == old(affinityMasks)
      {
        var e := es[i];
        registered := registered[e.handle := registered[e.handle].(flags := registered[e.handle].flags + e.flags)];
        assert es[..i + 1][..i] == es[..i];
        i := i + 1;
      }
      assert es[..i] == es;
    }

    /** Build's instantiation loop. */
    method RealiseResources(used: seq<Handle>, pool: TexturePool, device: Device)
      requires Valid() && AllBelow(used, |registered|)
      modifies this, pool, device
      ensures Valid()
      ensures registered == old(registered) && registeredMap == old(registeredMap)
      ensures World(resources, pool.entries, device.trace) ==
              RealiseAll(registered, World(old(resources), old(pool.entries), old(device.trace)), used,
                         device.createAnswer, device.viewsAnswer)
      ensures passes == old(passes) && consolidated == old(consolidated) && affinityMasks == old(affinityMasks)
      ensures InfosOf(passes) == old(InfosOf(passes)) && InfosOf(consolidated) == old(InfosOf(consolidated))
    {
      var i := 0;
      ghost var w0 := World(resources, pool.entries, device.trace);
      while i < |used|
        invariant 0 <= i <= |used| && Valid()
        invariant AllBelow(used[..i], |registered|)
        invariant World(resources, pool.entries, device.trace) ==
                  RealiseAll(registered, w0, used[..i], device.createAnswer, device.viewsAnswer)
        invariant registered == old(registered) && registeredMap == old(registeredMap)
        invariant passes == old(passes) && consolidated == old(consolidated) && affinityMasks == old(affinityMasks)
      {
        assert used[..i + 1][..i] == used[..i];
        RealiseHandle(used[i], pool, device);
        i := i + 1;
      }
      assert used[..i] == used;
    }

    /** One turn of the instantiation loop. */
    method RealiseHandle(h: Handle, pool: TexturePool, device: Device)
      requires Valid() && h < |registered|
      modifies this, pool, device
      ensures Valid()
      ensures registered == old(registered) && registeredMap == old(registeredMap)
      ensures World(resources, pool.entries, device.trace) ==
              Realise(registered, World(old(resources), old(pool.entries), old(device.trace)), h,
                      device.createAnswer, device.viewsAnswer)
      ensures passes == old(passes) && consolidated == old(consolidated) && affinityMasks == old(affinityMasks)
    {
      RealiseStep(registered, World(resources, pool.entries, device.trace), h, device.createAnswer, device.viewsAnswer);
      if h >= |resources| {
        resources := Grow(resources, h);
      }
      var reg := registered[h];
      var res := resources[h];
      if res.external {
        return;
      }
      res := res.(rtype := reg.rtype);
      if reg.rtype == Texture {
        var t := pool.FindOrCreateTexture(device, reg.format, reg.width, reg.height, reg.flags);
        res := res.(tex := t, dimensions := (reg.width, reg.height, 1),
                    srv := ViewOf(t, SRV), rtv := ViewOf(t, RTV), dsv := ViewOf(t, DSV), uav := ViewOf(t, UAV));
      }
      resources := resources[h := res];
    }

    /** Build's texture phase: flags, the used-handle list, instantiation, and emptying the cache. */
    method BuildTextures(pool: TexturePool, device: Device)
      requires Valid()
      requires HandlesBelow(ConcatResources(InfosOf(consolidated)), |registered|)
      modifies this, pool, device
      ensures Valid()
      ensures passes == old(passes) && registeredMap == old(registeredMap)
      ensures consolidated == old(consolidated) && affinityMasks == old(affinityMasks)
      ensures InfosOf(passes) == old(InfosOf(passes))
      ensures var es := ConcatResources(InfosOf(consolidated));
              HandlesBelow(es, |old(registered)|) &&
              registered == AccumulateFlags(old(registered), es) &&
              var w := RealiseAll(registered, World(old(resources), old(pool.entries), old(device.trace)),
                                  UsedHandles(es), device.createAnswer, device.viewsAnswer);
              resources == w.resources && pool.entries == [] && device.trace == w.trace + ReleaseCalls(w.pool)
    {
      ghost var cinfos := InfosOf(consolidated);
      ghost var infos := InfosOf(passes);
      var es := ConcatResources(InfosOf(consolidated));
      AssignFlags(es);
      var used := UsedHandles(es);
      RealiseAndRelease(used, pool, device);
      assert InfosOf(consolidated) == cinfos && InfosOf(passes) == infos;
    }

    /** The instantiation loop over the used handles, then the emptying of the cache. */
    method RealiseAndRelease(used: seq<Handle>, pool: TexturePool, device: Device)
      requires Valid() && AllBelow(used, |registered|)
      modifies this, pool, device
      ensures Valid()
      ensures registered == old(registered) && registeredMap == old(registeredMap)
      ensures var w := RealiseAll(registered, World(old(resources), old(pool.entries), old(device.trace)),
                                  used, device.createAnswer, device.viewsAnswer);
              resources == w.resources && pool.entries == [] && device.trace == w.trace + ReleaseCalls(w.pool)
      ensures passes == old(passes) && consolidated == old(consolidated) && affinityMasks == old(affinityMasks)
      ensures InfosOf(passes) == old(InfosOf(passes)) && InfosOf(consolidated) == old(InfosOf(consolidated))
    {
      RealiseResources(used, pool, device);
      pool.ReleaseAll(device);
    }

    /** Build's analysis: the island masks are appended and the surviving passes consolidated. */
    method PlanPasses()
      requires Valid()
      requires |DenseOrder(InfosOf(passes))| < MAX_RESOURCES
      modifies this
      ensures Valid()
      ensures passes == old(passes) && State() == old(State())
      ensures InfosOf(passes) == old(InfosOf(passes))
      ensures var ms := MarkedNodes(InfosOf(passes));
              && consolidated == old(consolidated) + Pick(passes, Survivors(ms))
              && affinityMasks == old(affinityMasks) + Islands(Footprints(ms))
    {
      var marked, masks := Analyse(InfosOf(passes));
      AppendMasks(masks);
      Consolidate(marked);
    }

    /** Build's "affinityMasks.insert": the island masks go after those already present. */
    method AppendMasks(masks: seq<set<nat>>)
      requires Valid()
      modifies this
      ensures Valid()
      ensures affinityMasks == old(affinityMasks) + masks
      ensures passes == old(passes) && consolidated == old(consolidated) && State() == old(State())
      ensures InfosOf(passes) == old(InfosOf(passes))
    {
      affinityMasks := affinityMasks + masks;
    }

    /** Build: the node table, the liveness walk, the root trees and their islands, the surviving
        passes, their flags, and the realised resources; the cache is emptied at the end. */
    method Build(pool: TexturePool, device: Device)
      requires Valid()
      requires forall k :: 0 <= k < |passes| ==> HandlesBelow(passes[k].resources, |registered|)
      requires |DenseOrder(InfosOf(passes))| < MAX_RESOURCES
      requires RootCount(MarkedNodes(InfosOf(passes))) <= 64
      modifies this, pool, device
      ensures Valid()
      ensures passes == old(passes) && registeredMap == old(registeredMap)
      ensures var ms := MarkedNodes(InfosOf(passes));
              && consolidated == old(consolidated) + Pick(passes, Survivors(ms))
              && affinityMasks == old(affinityMasks) + Islands(Footprints(ms))
      ensures var es := ConcatResources(InfosOf(consolidated));
              HandlesBelow(es, |old(registered)|) &&
              registered == AccumulateFlags(old(registered), es) &&
              var w := RealiseAll(registered, World(old(resources), old(pool.entries), old(device.trace)),
                                  UsedHandles(es), device.createAnswer, device.viewsAnswer);
              resources == w.resources && pool.entries == [] && device.trace == w.trace + ReleaseCalls(w.pool)
    {
      ghost var infos, reg0, res0 := InfosOf(passes), registered, resources;
      PlanPasses();
      assert State().registered == reg0 && State().resources == res0;
      ghost var plan := (consolidated, affinityMasks);
      ConsolidatedHandlesBelow(consolidated, passes, |registered|);
      BuildTextures(pool, device);
      assert (consolidated, affinityMasks) == plan && InfosOf(passes) == infos;
    }

    /** Execute: one command list, every surviving pass's callback in order, then submission.
        Calling an empty callback throws `std::bad_function_call`: `thrown` reports that, the
        run stops at that pass and the command list is never submitted. */
    method Execute(device: Device) returns (thrown: bool)
      modifies device
      ensures thrown <==> exists k :: 0 <= k < |consolidated| && consolidated[k].callback.None?
      ensures !thrown ==> device.trace == old(device.trace) + [CreateCommandListCall] + Invocations(consolidated) + [ExecuteCommandListCall]
      ensures thrown ==> device.trace == old(device.trace) + [CreateCommandListCall] + Invocations(consolidated)
    {
      ghost var calls := Invocations(consolidated);
      device.Record(CreateCommandListCall);
      var k := 0;
      while k < |consolidated| && consolidated[k].callback.Some?
        invariant 0 <= k <= |calls|
        invariant device.trace == old(device.trace) + [CreateCommandListCall] + calls[..k]
      {
        device.Record(InvokePassCall(consolidated[k].callback.value));
        assert calls[..k + 1] == calls[..k] + [calls[k]];
        k := k + 1;
      }
      assert k == |calls|;
      assert calls[..k] == calls;
      if k < |consolidated| {
        thrown := true;
        return;
      }
      thrown := false;
      device.Record(ExecuteCommandListCall);
    }

    /** ~RenderGraph. */
    method Destroy(device: Device)
      modifies device
      ensures device.trace == old(device.trace) + TextureReleases(resources)
    {
      var k := 0;
      while k < |resources|
        invariant 0 <= k <= |resources|
        invariant device.trace == old(device.trace) + TextureReleases(resources[..k])
      {
        if resources[k].rtype == Texture {
          device.Release(resources[k].tex);
        }
        assert resources[..k + 1][..k] == resources[..k];
        k := k + 1;
      }
      assert resources[..k] == resources;
    }
  }

  /** Each consolidated pass is one of the graph's passes, so its entries' handles are in range too. */
  lemma ConsolidatedHandlesBelow(cs: seq<RenderPass>, ps: seq<RenderPass>, n: nat)
    requires forall p :: p in cs ==> p in ps
    requires forall k :: 0 <= k < |ps| ==> HandlesBelow(ps[k].resources, n)
    ensures HandlesBelow(ConcatResources(InfosOf(cs)), n)
  {
    var es := ConcatResources(InfosOf(cs));
    ConcatResourcesMembers(InfosOf(cs));
    forall i | 0 <= i < |es| ensures es[i].handle < n {
      assert es[i] in es;
      var k :| 0 <= k < |cs| && es[i] in InfosOf(cs)[k].resources;
      assert cs[k] in cs;
      var j :| 0 <= j < |ps| && ps[j] == cs[k];
      var e :| 0 <= e < |cs[k].resources| && cs[k].resources[e] == es[i];
    }
  }

  /** After Build the realised array reaches every handle the surviving passes use, and each such
      handle carries its registered type; a texture its size and its views, and anything else the
      views it had before (an external target keeps the view it was given). */
  lemma BuildRealises(reg: seq<RegisteredResource>, w: World, es: seq<PassResource>, h: Handle,
                      createAnswer: nat -> TextureHandle, viewsAnswer: nat -> bool)
    requires HandlesBelow(es, |reg|) && NoneExternal(w.resources)
    requires h < |w.resources| && exists i :: 0 <= i < |es| && es[i].handle == h
    ensures AllBelow(UsedHandles(es), |reg|)
    ensures var w' := RealiseAll(reg, w, UsedHandles(es), createAnswer, viewsAnswer);
      && h < |w'.resources|
      && w'.resources[h].rtype == reg[h].rtype
      && (reg[h].rtype == Texture ==> w'.resources[h].dimensions == (reg[h].width, reg[h].height, 1) &&
                                       w'.resources[h].rtv == ViewOf(w'.resources[h].tex, RTV))
      && (reg[h].rtype != Texture ==> w'.resources[h].rtv == w.resources[h].rtv &&
                                       w'.resources[h].dimensions == w.resources[h].dimensions)
  {
    var used := UsedHandles(es);
    UsedHandlesMembers(es);
    forall i | 0 <= i < |used| ensures used[i] < |reg| {
      assert used[i] in used;
      var j :| 0 <= j < |es| && es[j].handle == used[i];
    }
    RealiseAllMeaning(reg, w, used, createAnswer, viewsAnswer);
    assert h in used;
  }
}
