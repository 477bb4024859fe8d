// RenderPass (Utils/RenderGraph/RenderGraph.h:61-88 and
// Utils/RenderGraph/RenderGraph.cpp:70-119): a named pass that collects the
// resources it touches through chained builder calls.

module RenderGraphPass {

  import opened RenderGraphTypes
  import opened RenderGraphNodes
  import opened Wrappers

  class RenderPass {
    var name: string
    var passType: PassType
    var resources: seq<PassResource>
    var root: bool
    /** The bound execute callback, identified by a number; None is the empty std::function. */
    var callback: Option<nat>

    /** RenderPass::Make. */
    constructor Make(name: string, passType: PassType)
      ensures this.name == name && this.passType == passType
      ensures resources == [] && !root && callback == None
    {
      this.name := name;
      this.passType := passType;
      resources := [];
      root := false;
      callback := None;
    }

    /** No two entries of the pass name the same resource, which AssertResourceUnique guards. */
    ghost predicate Valid()
      reads this
    {
      UniqueHandles(resources)
    }

    /** The entry list holds `h`: the test AssertResourceUnique makes. */
    predicate HasResource(h: Handle)
      reads this
    {
      h in HandlesOf(resources)
    }

    /** The planner's view of the pass. */
    function Info(): PassInfo
      reads this
    {
      PassInfo(resources, root)
    }

    method MakeRoot() returns (self: RenderPass)
      modifies this
      ensures self == this && root
      ensures name == old(name) && passType == old(passType) && resources == old(resources) && callback == old(callback)
    {
      root := true;
      self := this;
    }

    method SetExecuteCallback(f: nat) returns (self: RenderPass)
      modifies this
      ensures self == this && callback == Some(f)
      ensures name == old(name) && passType == old(passType) && resources == old(resources) && root == old(root)
    {
      callback := Some(f);
      self := this;
    }

    /** AddResource: a target entry, WRITE and also READ when the old contents are loaded. */
    method AddResource(h: Handle, access: OutputAccess, flags: set<ViewKind>) returns (self: RenderPass)
      requires !HasResource(h)
      requires Valid()
      modifies this
      ensures Valid()
      ensures self == this
      ensures resources == old(resources) + [PassResource(h, TargetAccess(access), flags)]
      ensures name == old(name) && passType == old(passType) && root == old(root) && callback == old(callback)
    {
      AppendKeepsUnique(resources, PassResource(h, TargetAccess(access), flags));
      resources := resources + [PassResource(h, TargetAccess(access), flags)];
      self := this;
    }

    method AddRenderTarget(h: Handle, access: OutputAccess) returns (self: RenderPass)
      requires !HasResource(h)
      requires Valid()
      modifies this
      ensures Valid()
      ensures self == this
      ensures resources == old(resources) + [PassResource(h, TargetAccess(access), {RTV})]
      ensures name == old(name) && passType == old(passType) && root == old(root) && callback == old(callback)
    {
      self := AddResource(h, access, {RTV});
    }

    method AddDepthTarget(h: Handle, access: OutputAccess) returns (self: RenderPass)
      requires !HasResource(h)
      requires Valid()
      modifies this
      ensures Valid()
      ensures self == this
      ensures resources == old(resources) + [PassResource(h, TargetAccess(access), {DSV})]
      ensures name == old(name) && passType == old(passType) && root == old(root) && callback == old(callback)
    {
      self := AddResource(h, access, {DSV});
    }

    method AddComputeTarget(h: Handle, access: OutputAccess) returns (self: RenderPass)
      requires !HasResource(h)
      requires Valid()
      modifies this
      ensures Valid()
      ensures self == this
      ensures resources == old(resources) + [PassResource(h, TargetAccess(access), {UAV})]
      ensures name == old(name) && passType == old(passType) && root == old(root) && callback == old(callback)
    {
      self := AddResource(h, access, {UAV});
    }

    /** ReadResource: a READ-only entry that wants a shader resource view. */
    method ReadResource(h: Handle) returns (self: RenderPass)
      requires !HasResource(h)
      requires Valid()
      modifies this
      ensures Valid()
      ensures self == this
      ensures resources == old(resources) + [PassResource(h, ACCESS_READ, {SRV})]
      ensures name == old(name) && passType == old(passType) && root == old(root) && callback == old(callback)
    {
      AppendKeepsUnique(resources, PassResource(h, ACCESS_READ, {SRV}));
      resources := resources + [PassResource(h, ACCESS_READ, {SRV})];
      self := this;
    }
  }

  /** Appending an entry for a handle the list does not yet name keeps the handles unique, and
      appending one it already names breaks uniqueness: the guard is exactly what uniqueness needs. */
  lemma AppendKeepsUnique(rs: seq<PassResource>, e: PassResource)
    requires UniqueHandles(rs)
    ensures UniqueHandles(rs + [e]) <==> e.handle !in HandlesOf(rs)
  {
    var hs := HandlesOf(rs);
    if e.handle in hs {
      var i :| 0 <= i < |hs| && hs[i] == e.handle;
      assert (rs + [e])[i].handle == (rs + [e])[|rs|].handle;
    } else {
      forall i | 0 <= i < |rs| ensures rs[i].handle != e.handle {
        assert hs[i] == rs[i].handle;
      }
    }
  }
}
