// The last two phases of Build (Utils/RenderGraph/RenderGraph.cpp:349-419): the
// contributing passes are kept in order, their view flags are accumulated
// into the registered records, and every handle they use is realised:
// textures come from the cache or are created, and take the views the
// rendering layer reports for them.

module RenderGraphBuild {

  import opened RenderFormats
  import opened RenderGraphTypes
  import opened RenderGraphNodes
  import opened RenderGraphTexturePool

  /** The indices of the passes the liveness walk flagged, in pass order. */
  function Survivors(ms: seq<Node>): (surv: seq<nat>)
    ensures forall t :: 0 <= t < |surv| ==> surv[t] < |ms| && ms[surv[t]].contributes
    ensures forall s, t :: 0 <= s < t < |surv| ==> surv[s] < surv[t]
    ensures forall k :: 0 <= k < |ms| && ms[k].contributes ==> k in surv
  {
    if ms == [] then []
    else
      var p := Survivors(ms[..|ms| - 1]);
      p + (if ms[|ms| - 1].contributes then [|ms| - 1] else [])
  }

  /** The entries of a list of passes, pass after pass. */
  function ConcatResources(infos: seq<PassInfo>): seq<PassResource> {
    if infos == [] then [] else ConcatResources(infos[..|infos| - 1]) + infos[|infos| - 1].resources
  }

  /** The concatenation holds exactly the entries of the passes. */
  lemma {:induction false} ConcatResourcesMembers(infos: seq<PassInfo>)
    ensures forall k, i :: 0 <= k < |infos| && 0 <= i < |infos[k].resources| ==> infos[k].resources[i] in ConcatResources(infos)
    ensures forall e :: e in ConcatResources(infos) ==> exists k :: 0 <= k < |infos| && e in infos[k].resources
  {
    if infos != [] {
      var q := infos[..|infos| - 1];
      ConcatResourcesMembers(q);
      assert forall k :: 0 <= k < |q| ==> q[k] == infos[k];
    }
  }

  predicate HandlesBelow(es: seq<PassResource>, n: nat) {
    forall i :: 0 <= i < |es| ==> es[i].handle < n
  }

  /** The flag-assignment loop: each entry ORs its view flags into its handle's registered record. */
  function AccumulateFlags(reg: seq<RegisteredResource>, es: seq<PassResource>): (r: seq<RegisteredResource>)
    requires HandlesBelow(es, |reg|)
    ensures |r| == |reg|
  {
    if es == [] then reg
    else
      var p := AccumulateFlags(reg, es[..|es| - 1]);
      var e := es[|es| - 1];
      p[e.handle := p[e.handle].(flags := p[e.handle].flags + e.flags)]
  }

  /** A registered record ends up with its own flags plus those of every entry naming it, and
      keeps everything else. */
  lemma {:induction false} AccumulateFlagsMeaning(reg: seq<RegisteredResource>, es: seq<PassResource>, h: nat, v: ViewKind)
    requires HandlesBelow(es, |reg|) && h < |reg|
    ensures AccumulateFlags(reg, es)[h] == reg[h].(flags := AccumulateFlags(reg, es)[h].flags)
    ensures v in AccumulateFlags(reg, es)[h].flags <==>
              v in reg[h].flags || exists i :: 0 <= i < |es| && es[i].handle == h && v in es[i].flags
  {
    if es != [] {
      var q := es[..|es| - 1];
      AccumulateFlagsMeaning(reg, q, h, v);
      assert forall i :: 0 <= i < |q| ==> q[i] == es[i];
      if v in AccumulateFlags(reg, q)[h].flags {
        if !(v in reg[h].flags) {
          var i :| 0 <= i < |q| && q[i].handle == h && v in q[i].flags;
          assert es[i].handle == h && v in es[i].flags;
        }
      }
    }
  }

  /** The handle list as the source builds it: every entry's handle, then std::unique, which
      only drops a handle equal to the one just before it. */
  function UsedAsWritten(es: seq<PassResource>): seq<Handle> {
    AdjacentUnique(HandlesOf(es))
  }

  /** The handle list with each handle once, in first-use order. */
  function UsedHandles(es: seq<PassResource>): (u: seq<Handle>)
    ensures NoDuplicates(u)
    ensures forall n: nat :: HandlesBelow(es, n) ==> AllBelow(u, n)
  {
    UsedHandlesMembers(es);
    var u := FirstSeen(HandlesOf(es));
    assert forall n: nat :: HandlesBelow(es, n) ==> AllBelow(u, n) by {
      forall n: nat, i | HandlesBelow(es, n) && 0 <= i < |u| ensures u[i] < n {
        assert u[i] in u;
        var j :| 0 <= j < |es| && es[j].handle == u[i];
      }
    }
    u
  }

  /** The corrected list names exactly the handles some entry names. */
  lemma UsedHandlesMembers(es: seq<PassResource>)
    ensures forall h :: h in FirstSeen(HandlesOf(es)) <==> exists i :: 0 <= i < |es| && es[i].handle == h
  {
    var hs := HandlesOf(es);
    forall h | h in hs ensures exists i :: 0 <= i < |es| && es[i].handle == h {
      var i :| 0 <= i < |hs| && hs[i] == h;
    }
  }

  /** Every handle the corrected list names, it names exactly once, so each is realised once. */
  lemma UsedOnce(es: seq<PassResource>, h: Handle)
    requires h in UsedHandles(es)
    ensures Count(UsedHandles(es), h) == 1
  {
    NoDuplicatesCount(UsedHandles(es), h);
  }

  // ---------------------------------------------------------------------------
  // Realising resources

  /** The state the instantiation loop works on: the realised resources, the cache and the device trace. */
  datatype World = World(resources: seq<RealisedResource>, pool: seq<CachedTexture>, trace: seq<DeviceCall>)

  /** `resize(handle + 1)` when the handle is past the end, filling with default records. */
  function Grow(res: seq<RealisedResource>, h: Handle): (r: seq<RealisedResource>)
    ensures |r| == if h < |res| then |res| else h + 1
    ensures forall k :: 0 <= k < |res| ==> r[k] == res[k]
    ensures forall k :: |res| <= k < |r| ==> r[k] == DEFAULT_REALISED
  {
    if h < |res| then res else res + seq(h + 1 - |res|, _ => DEFAULT_REALISED)
  }

  /** The body of the instantiation loop for one handle. */
  function Realise(reg: seq<RegisteredResource>, w: World, h: Handle,
                   createAnswer: nat -> TextureHandle, viewsAnswer: nat -> bool): World
    requires h < |reg|
  {
    var res := Grow(w.resources, h);
    var r := res[h];
    var rr := reg[h];
    if r.external then w.(resources := res)
    else if rr.rtype != Texture then w.(resources := res[h := r.(rtype := rr.rtype)])
    else
      var st := FindOrCreate(w.pool, w.trace, createAnswer, viewsAnswer, rr.format, rr.width, rr.height, rr.flags);
      var t := st.tex;
      World(res[h := r.(rtype := Texture, tex := t, dimensions := (rr.width, rr.height, 1),
                        srv := ViewOf(t, SRV), rtv := ViewOf(t, RTV), dsv := ViewOf(t, DSV), uav := ViewOf(t, UAV))],
            st.entries, st.trace)
  }

  predicate AllBelow(used: seq<Handle>, n: nat) {
    forall i :: 0 <= i < |used| ==> used[i] < n
  }

  /** The instantiation loop over a handle list. */
  function RealiseAll(reg: seq<RegisteredResource>, w: World, used: seq<Handle>,
                      createAnswer: nat -> TextureHandle, viewsAnswer: nat -> bool): World
    requires AllBelow(used, |reg|)
  {
    if used == [] then w
    else Realise(reg, RealiseAll(reg, w, used[..|used| - 1], createAnswer, viewsAnswer), used[|used| - 1],
                 createAnswer, viewsAnswer)
  }

  /** The number of list positions whose handle is registered as a texture: each is one cache request. */
  function TextureUses(reg: seq<RegisteredResource>, used: seq<Handle>): nat
    requires AllBelow(used, |reg|)
  {
    if used == [] then 0
    else TextureUses(reg, used[..|used| - 1]) + (if reg[used[|used| - 1]].rtype == Texture then 1 else 0)
  }

  /** No realised record is marked external.  Nothing in the graph sets that flag (AddExternalRTV
      marks the registered record), so the `continue` of the instantiation loop never fires. */
  predicate NoneExternal(res: seq<RealisedResource>) {
    forall k :: 0 <= k < |res| ==> !res[k].external
  }

  /** What realising handle h leaves at position h. */
  predicate Realised(reg: seq<RegisteredResource>, res: seq<RealisedResource>, h: Handle)
    requires h < |reg|
  {
    h < |res| && res[h].rtype == reg[h].rtype &&
    (reg[h].rtype == Texture ==>
       res[h].dimensions == (reg[h].width, reg[h].height, 1) &&
       res[h].srv == ViewOf(res[h].tex, SRV) && res[h].rtv == ViewOf(res[h].tex, RTV) &&
       res[h].dsv == ViewOf(res[h].tex, DSV) && res[h].uav == ViewOf(res[h].tex, UAV))
  }

  /** A handle that is not a texture only has its type set, so its views and dimensions stay, or
      are the defaults when the array had to grow. */
  predicate KeptAsIs(reg: seq<RegisteredResource>, before: seq<RealisedResource>, res: seq<RealisedResource>, h: Handle)
    requires h < |reg| && h < |res|
  {
    res[h] == (if h < |before| then before[h] else DEFAULT_REALISED).(rtype := reg[h].rtype)
  }

  /** One step: handle h is realised, the array only grows, every other position keeps its record
      (or is a default one when new), and exactly one device call is made when h is a texture. */
  lemma RealiseStep(reg: seq<RegisteredResource>, w: World, h: Handle,
                    createAnswer: nat -> TextureHandle, viewsAnswer: nat -> bool)
    requires h < |reg| && NoneExternal(w.resources)
    ensures var w' := Realise(reg, w, h, createAnswer, viewsAnswer);
      && NoneExternal(w'.resources)
      && |w.resources| <= |w'.resources|
      && Realised(reg, w'.resources, h)
      && (reg[h].rtype != Texture ==> KeptAsIs(reg, w.resources, w'.resources, h) && w'.trace == w.trace && w'.pool == w.pool)
      && (forall k :: 0 <= k < |w'.resources| && k != h ==>
            w'.resources[k] == if k < |w.resources| then w.resources[k] else DEFAULT_REALISED)
      && |w'.trace| == |w.trace| + (if reg[h].rtype == Texture then 1 else 0)
      && w.trace <= w'.trace
      && multiset(w'.pool) <= multiset(w.pool)
  {
    var res := Grow(w.resources, h);
    if reg[h].rtype == Texture {
      var rr := reg[h];
      FindOrCreateOneCall(w.pool, w.trace, createAnswer, viewsAnswer, rr.format, rr.width, rr.height, rr.flags);
    }
  }

  /** The whole loop: every listed handle is realised, unlisted positions keep their records (or
      are default ones when new), non-texture records only take their type, the trace grows by one
      call per texture use, and the cache never grows. */
  lemma {:induction false} RealiseAllMeaning(reg: seq<RegisteredResource>, w: World, used: seq<Handle>,
                                             createAnswer: nat -> TextureHandle, viewsAnswer: nat -> bool)
    requires AllBelow(used, |reg|) && NoneExternal(w.resources)
    ensures var w' := RealiseAll(reg, w, used, createAnswer, viewsAnswer);
      && NoneExternal(w'.resources)
      && |w.resources| <= |w'.resources|
      && (forall h :: h in used ==> Realised(reg, w'.resources, h))
      && (forall h :: h in used && reg[h].rtype != Texture ==> KeptAsIs(reg, w.resources, w'.resources, h))
      && (forall k :: 0 <= k < |w'.resources| && k !in used ==>
            w'.resources[k] == if k < |w.resources| then w.resources[k] else DEFAULT_REALISED)
      && |w'.trace| == |w.trace| + TextureUses(reg, used)
      && w.trace <= w'.trace
      && multiset(w'.pool) <= multiset(w.pool)
  {
    RealiseAllCalls(reg, w, used, createAnswer, viewsAnswer);
    if used != [] {
      var q := used[..|used| - 1];
      var x := used[|used| - 1];
      assert AllBelow(q, |reg|);
      RealiseAllMeaning(reg, w, q, createAnswer, viewsAnswer);
      var w1 := RealiseAll(reg, w, q, createAnswer, viewsAnswer);
      RealiseStep(reg, w1, x, createAnswer, viewsAnswer);
      var w' := Realise(reg, w1, x, createAnswer, viewsAnswer);
      assert forall h :: h in used <==> h in q || h == x;
      forall h | h in used && h != x ensures Realised(reg, w'.resources, h) {
        assert h in q;
      }
      forall h | h in used && reg[h].rtype != Texture ensures KeptAsIs(reg, w.resources, w'.resources, h) {
        if h != x {
          assert h in q;
        } else if x in q {
          assert KeptAsIs(reg, w.resources, w1.resources, x);
        }
      }
    }
  }

  /** The loop's calls: no record becomes external, the array only grows, the trace grows by one
      entry per texture use, and the cache only loses entries. */
  lemma {:induction false} RealiseAllCalls(reg: seq<RegisteredResource>, w: World, used: seq<Handle>,
                                           createAnswer: nat -> TextureHandle, viewsAnswer: nat -> bool)
    requires AllBelow(used, |reg|) && NoneExternal(w.resources)
    ensures var w' := RealiseAll(reg, w, used, createAnswer, viewsAnswer);
      && NoneExternal(w'.resources)
      && |w.resources| <= |w'.resources|
      && |w'.trace| == |w.trace| + TextureUses(reg, used)
      && w.trace <= w'.trace
      && multiset(w'.pool) <= multiset(w.pool)
  {
    if used != [] {
      var q := used[..|used| - 1];
      assert AllBelow(q, |reg|);
      RealiseAllCalls(reg, w, q, createAnswer, viewsAnswer);
      RealiseStep(reg, RealiseAll(reg, w, q, createAnswer, viewsAnswer), used[|used| - 1], createAnswer, viewsAnswer);
    }
  }

  /** With an empty cache every texture use is served by a new texture and the cache stays empty. */
  lemma {:induction false} EmptyPoolStaysEmpty(reg: seq<RegisteredResource>, w: World, used: seq<Handle>,
                                               createAnswer: nat -> TextureHandle, viewsAnswer: nat -> bool)
    requires AllBelow(used, |reg|) && w.pool == []
    ensures RealiseAll(reg, w, used, createAnswer, viewsAnswer).pool == []
    ensures forall k :: |w.trace| <= k < |RealiseAll(reg, w, used, createAnswer, viewsAnswer).trace| ==>
              RealiseAll(reg, w, used, createAnswer, viewsAnswer).trace[k].CreateTextureCall?
  {
    if used != [] {
      var q := used[..|used| - 1];
      assert AllBelow(q, |reg|);
      EmptyPoolStaysEmpty(reg, w, q, createAnswer, viewsAnswer);
    }
  }
}
