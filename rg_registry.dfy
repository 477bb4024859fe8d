// Resource registration (Utils/RenderGraph/RenderGraph.cpp:121-183): names map
// to handles, handles index the registered records, and an external render
// target is stored straight into the realised array.

module RenderGraphRegistry {

  import opened RenderGraphTypes
  import opened RenderGraphBuild

  /** GetResource: the handle bound to a name, or NONE. */
  function Lookup(names: map<string, Handle>, name: string): (h: Handle)
    ensures name in names ==> h == names[name]
    ensures name !in names ==> h == NONE
  {
    if name in names then names[name] else NONE
  }

  /** The three containers registration touches. */
  datatype Registry = Registry(names: map<string, Handle>, registered: seq<RegisteredResource>,
                               resources: seq<RealisedResource>)

  datatype Registration = Registration(registry: Registry, handle: Handle)

  /** Every name maps to a registered record and the realised array is no longer than the registered one. */
  predicate WellFormed(g: Registry) {
    (forall n :: n in g.names ==> g.names[n] < |g.registered|) && |g.resources| <= |g.registered|
  }

  /** RegisterTexture. */
  function RegisterTexture(g: Registry, name: string, desc: TextureDesc): Registration {
    if Lookup(g.names, name) != NONE then Registration(g, NONE)
    else
      var h := |g.registered|;
      Registration(g.(names := g.names[name := h],
                      registered := g.registered + [RegisteredResource(false, {}, Texture, desc.width, desc.height, desc.format)]),
                   h)
  }

  /** AddExternalRTV: the record is external with no type; the view and size go straight into the
      realised array, but only when that array has to grow to reach the new handle. */
  function AddExternalRTV(g: Registry, name: string, rtv: ViewHandle, width: nat, height: nat): Registration {
    if Lookup(g.names, name) != NONE then Registration(g, NONE)
    else
      var h := |g.registered|;
      var res := if h >= |g.resources| then
                   var grown := Grow(g.resources, h);
                   grown[h := grown[h].(rtv := rtv, dimensions := (width, height, grown[h].dimensions.2))]
                 else g.resources;
      Registration(Registry(g.names[name := h], g.registered + [DEFAULT_REGISTERED.(external := true)], res), h)
  }

  /** A name already bound to a handle other than NONE is refused and nothing changes; a name not
      yet bound gets the next handle, a texture record with the description and no flags, and
      nothing else moves. */
  lemma RegisterTextureMeaning(g: Registry, name: string, desc: TextureDesc)
    requires WellFormed(g)
    ensures var r := RegisterTexture(g, name, desc);
      && WellFormed(r.registry)
      && (Lookup(g.names, name) != NONE ==> r.registry == g && r.handle == NONE)
      && (Lookup(g.names, name) == NONE ==>
            && r.handle == |g.registered|
            && Lookup(r.registry.names, name) == r.handle
            && (forall n :: n != name ==> Lookup(r.registry.names, n) == Lookup(g.names, n))
            && r.registry.registered[..|g.registered|] == g.registered
            && r.registry.registered[r.handle] == RegisteredResource(false, {}, Texture, desc.width, desc.height, desc.format)
            && |r.registry.registered| == |g.registered| + 1
            && r.registry.resources == g.resources)
  {
    var r := RegisterTexture(g, name, desc);
    if Lookup(g.names, name) == NONE {
      assert r.registry.registered[..|g.registered|] == g.registered;
    }
  }

  /** A fresh external target gets the next handle and an external, untyped record; when the realised
      array stops short of the handle (as it always does while the array is no longer than the
      record list), it grows to reach it and that slot carries the view and the size. */
  lemma AddExternalRTVMeaning(g: Registry, name: string, rtv: ViewHandle, width: nat, height: nat)
    requires WellFormed(g)
    ensures var r := AddExternalRTV(g, name, rtv, width, height);
      && WellFormed(r.registry)
      && (Lookup(g.names, name) != NONE ==> r.registry == g && r.handle == NONE)
      && (Lookup(g.names, name) == NONE ==>
            && r.handle == |g.registered|
            && Lookup(r.registry.names, name) == r.handle
            && r.registry.registered[..|g.registered|] == g.registered
            && r.registry.registered[r.handle].external
            && r.registry.registered[r.handle].rtype == NoType
            && r.registry.registered[r.handle].flags == {}
            && |r.registry.resources| == r.handle + 1
            && r.registry.resources[..|g.resources|] == g.resources
            && r.registry.resources[r.handle].rtv == rtv
            && r.registry.resources[r.handle].dimensions == (width, height, 0)
            && !r.registry.resources[r.handle].external
            && (forall k :: |g.resources| <= k < r.handle ==> r.registry.resources[k] == DEFAULT_REALISED))
  {
    var r := AddExternalRTV(g, name, rtv, width, height);
    if Lookup(g.names, name) == NONE {
      assert r.registry.registered[..|g.registered|] == g.registered;
      assert r.registry.resources[..|g.resources|] == g.resources;
    }
  }

  /** The first handle handed out equals NONE, so registering the first name again is not caught:
      the name is rebound to a second record and the first one is left without a name. */
  lemma FirstNameRegisteredTwice(name: string, desc: TextureDesc)
    ensures var g0 := Registry(map[], [], []);
      var r1 := RegisterTexture(g0, name, desc);
      var r2 := RegisterTexture(r1.registry, name, desc);
      && r1.handle == 0 == NONE
      && r2.handle == 1
      && Lookup(r2.registry.names, name) == 1
      && |r2.registry.registered| == 2
  {
  }

  /** Any later name is caught: its handle is not NONE. */
  lemma LaterNameCaught(g: Registry, name: string, desc: TextureDesc)
    requires name in g.names && g.names[name] != NONE
    ensures RegisterTexture(g, name, desc) == Registration(g, NONE)
  {
  }
}
