// Value types shared by the frame-graph planner: the enums and records declared
// in Utils/RenderGraph/RenderGraph.h, and the generic sequence helpers the
// planner's dense-index and de-duplication steps are specified with.

module RenderGraphTypes {

  import opened RenderFormats

  /** RenderPassType. */
  datatype PassType = Graphics | Compute

  /** RenderPassResourceAccess: a two-bit flag set. */
  type Access = bv2

  const ACCESS_NONE: Access := 0
  const ACCESS_READ: Access := 1
  const ACCESS_WRITE: Access := 2
  const ACCESS_READ_WRITE: Access := ACCESS_READ | ACCESS_WRITE

  predicate HasRead(a: Access) { a & ACCESS_READ != ACCESS_NONE }
  predicate HasWrite(a: Access) { a & ACCESS_WRITE != ACCESS_NONE }

  /** The READ and WRITE bits are distinct single bits and READ_WRITE carries both. */
  lemma AccessBits()
    ensures ACCESS_READ_WRITE == 3 && ACCESS_READ & ACCESS_WRITE == ACCESS_NONE
    ensures HasRead(ACCESS_READ_WRITE) && HasWrite(ACCESS_READ_WRITE)
    ensures HasRead(ACCESS_READ) && !HasWrite(ACCESS_READ)
    ensures !HasRead(ACCESS_WRITE) && HasWrite(ACCESS_WRITE)
    ensures !HasRead(ACCESS_NONE) && !HasWrite(ACCESS_NONE)
  {
  }

  /** RenderPassOutputAccess. */
  datatype OutputAccess = DontCare | Load | Clear

  /** RenderGraphResourceType. */
  datatype ResourceType = NoType | Texture | Buffer

  /** One bit of RenderResourceFlags; a flag set is a set of these. */
  datatype ViewKind = SRV | RTV | DSV | UAV

  /** RenderGraphResource_t: a handle is its numeric value. */
  type Handle = nat

  /** RenderGraphResource_t::NONE has value 0, the same value as the first handle handed out. */
  const NONE: Handle := 0

  /** Texture_t. */
  datatype TextureHandle = InvalidTexture | TextureRef(id: nat)

  /** The view handles a realised resource carries. */
  datatype ViewHandle = InvalidView | TextureView(tex: TextureHandle, kind: ViewKind) | ExternalView(id: nat)

  /** RenderPassResource: one declared access of a pass. */
  datatype PassResource = PassResource(handle: Handle, access: Access, flags: set<ViewKind>)

  /** RenderPassResource::operator== compares the handle only. */
  predicate SameResource(a: PassResource, b: PassResource) {
    a.handle == b.handle
  }

  /** The comparison ignores access and flags, and so is an equivalence that identifies entries by handle. */
  lemma SameResourceIgnoresAccess(a: PassResource, b: PassResource, acc: Access, fl: set<ViewKind>)
    ensures SameResource(a, b) <==> SameResource(a.(access := acc, flags := fl), b)
    ensures SameResource(a, a)
    ensures SameResource(a, b) ==> SameResource(b, a)
  {
  }

  /** The handles of a list of pass entries, in order. */
  function HandlesOf(rs: seq<PassResource>): (hs: seq<Handle>)
    ensures |hs| == |rs|
    ensures forall i :: 0 <= i < |rs| ==> hs[i] == rs[i].handle
  {
    if rs == [] then [] else HandlesOf(rs[..|rs| - 1]) + [rs[|rs| - 1].handle]
  }

  /** The access a target declaration records: WRITE, plus READ when the previous contents are loaded. */
  function TargetAccess(access: OutputAccess): (a: Access)
    ensures HasWrite(a)
    ensures HasRead(a) <==> access == Load
  {
    if access == Load then ACCESS_WRITE | ACCESS_READ else ACCESS_WRITE
  }

  /** RenderGraphTextureDesc, with its defaults 0, 0, UNKNOWN. */
  datatype TextureDesc = TextureDesc(width: nat, height: nat, format: RenderFormat)

  const DEFAULT_TEXTURE_DESC := TextureDesc(0, 0, UNKNOWN)

  /** RenderGraphRegisteredResource (texture member of its union). */
  datatype RegisteredResource = RegisteredResource(
    external: bool, flags: set<ViewKind>, rtype: ResourceType,
    width: nat, height: nat, format: RenderFormat)

  const DEFAULT_REGISTERED := RegisteredResource(false, {}, NoType, 0, 0, UNKNOWN)

  /** RenderGraphResource: the realised resource bound to a handle. */
  datatype RealisedResource = RealisedResource(
    external: bool, rtype: ResourceType,
    srv: ViewHandle, rtv: ViewHandle, dsv: ViewHandle, uav: ViewHandle,
    tex: TextureHandle, dimensions: (nat, nat, nat))

  const DEFAULT_REALISED := RealisedResource(false, NoType, InvalidView, InvalidView, InvalidView, InvalidView,
                                             InvalidTexture, (0, 0, 0))

  /** A fresh registered record is not external, has no flags and no type; a fresh texture description is empty. */
  lemma DefaultRecords()
    ensures !DEFAULT_REGISTERED.external && DEFAULT_REGISTERED.flags == {} && DEFAULT_REGISTERED.rtype == NoType
    ensures DEFAULT_TEXTURE_DESC.width == 0 && DEFAULT_TEXTURE_DESC.height == 0
    ensures DEFAULT_TEXTURE_DESC.format == UNKNOWN
  {
  }

  // ---------------------------------------------------------------------------
  // Sequence helpers

  /** The elements of `s` in first-occurrence order, each once. */
  function FirstSeen(s: seq<nat>): (u: seq<nat>)
    ensures forall x :: x in u <==> x in s
    ensures NoDuplicates(u)
    ensures |u| <= |s|
  {
    if s == [] then []
    else
      var p := FirstSeen(s[..|s| - 1]);
      var x := s[|s| - 1];
      assert forall y :: y in s <==> y in s[..|s| - 1] || y == x;
      if x in p then p else p + [x]
  }

  predicate NoDuplicates(s: seq<nat>) {
    forall i, j :: 0 <= i < j < |s| ==> s[i] != s[j]
  }

  /** The position of `x` in `s`. */
  function IndexOf(s: seq<nat>, x: nat): (i: nat)
    requires x in s
    ensures i < |s| && s[i] == x
    ensures forall j :: 0 <= j < i ==> s[j] != x
  {
    if s[0] == x then 0 else 1 + IndexOf(s[1..], x)
  }

  /** Appending elements does not move the ones already present. */
  lemma {:induction false} IndexOfStable(s: seq<nat>, t: seq<nat>, x: nat)
    requires x in s
    ensures x in s + t && IndexOf(s + t, x) == IndexOf(s, x)
  {
    if s[0] != x {
      assert (s + t)[1..] == s[1..] + t;
      IndexOfStable(s[1..], t, x);
    }
  }

  /** `std::unique`: removes each element equal to the one before it. */
  function AdjacentUnique(s: seq<nat>): (u: seq<nat>)
    ensures |u| <= |s|
    ensures forall x :: x in u <==> x in s
    ensures forall i :: 0 <= i < |u| - 1 ==> u[i] != u[i + 1]
    ensures |s| > 0 ==> |u| > 0 && u[|u| - 1] == s[|s| - 1] && u[0] == s[0]
  {
    if |s| <= 1 then s
    else
      var p := AdjacentUnique(s[..|s| - 1]);
      var x := s[|s| - 1];
      assert forall y :: y in s <==> y in s[..|s| - 1] || y == x;
      if x == s[|s| - 2] then p else p + [x]
  }

  /** Only adjacent repeats go: a sequence with no two equal neighbours is left as it is. */
  lemma {:induction false} AdjacentUniqueFixed(s: seq<nat>)
    requires forall i :: 0 <= i < |s| - 1 ==> s[i] != s[i + 1]
    ensures AdjacentUnique(s) == s
  {
    if |s| > 1 {
      var p := s[..|s| - 1];
      assert forall i :: 0 <= i < |p| - 1 ==> p[i] != p[i + 1] by {
        forall i | 0 <= i < |p| - 1 ensures p[i] != p[i + 1] {
          assert p[i] == s[i] && p[i + 1] == s[i + 1];
        }
      }
      AdjacentUniqueFixed(p);
      assert s == p + [s[|s| - 1]];
    }
  }

  /** Dropping one of two equal neighbours, anywhere in the sequence, leaves the result unchanged.
      With AdjacentUniqueFixed this determines the result on every input: it is the input with
      each run of equal neighbours cut down to one element, in order. */
  lemma {:induction false} AdjacentUniqueCollapse(a: seq<nat>, x: nat, b: seq<nat>)
    ensures AdjacentUnique(a + [x, x] + b) == AdjacentUnique(a + [x] + b)
    decreases |b|
  {
    var long, short := a + [x, x] + b, a + [x] + b;
    if b == [] {
      assert long[..|long| - 1] == short;
      assert long[|long| - 1] == long[|long| - 2];
    } else {
      var b', y := b[..|b| - 1], b[|b| - 1];
      AdjacentUniqueCollapse(a, x, b');
      var lp, sp := a + [x, x] + b', a + [x] + b';
      assert long[..|long| - 1] == lp && long[|long| - 1] == y;
      assert short[..|short| - 1] == sp && short[|short| - 1] == y;
      assert long[|long| - 2] == lp[|lp| - 1] && short[|short| - 2] == sp[|sp| - 1];
      assert lp[|lp| - 1] == sp[|sp| - 1];
    }
  }

  /** Number of occurrences of `x` in `s`. */
  function Count(s: seq<nat>, x: nat): nat {
    if s == [] then 0 else Count(s[..|s| - 1], x) + (if s[|s| - 1] == x then 1 else 0)
  }

  /** A duplicate-free sequence holds each of its elements once. */
  lemma {:induction false} NoDuplicatesCount(s: seq<nat>, x: nat)
    requires NoDuplicates(s) && x in s
    ensures Count(s, x) == 1
  {
    var p := s[..|s| - 1];
    if s[|s| - 1] == x {
      CountAbsent(p, x);
    } else {
      assert x in p;
      NoDuplicatesCount(p, x);
    }
  }

  lemma {:induction false} CountAbsent(s: seq<nat>, x: nat)
    requires x !in s
    ensures Count(s, x) == 0
  {
    if s != [] {
      CountAbsent(s[..|s| - 1], x);
    }
  }
}
