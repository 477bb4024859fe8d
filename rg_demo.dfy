// The frame the render-graph sample builds every iteration
// (RenderGraph/RenderGraphMain.cpp:328-507 and 569-647): a back buffer, a
// depth and a colour texture, and the Scene, Tonemap, Resolve and UI passes,
// with only UI a root.

module RenderGraphDemo {

  import opened RenderFormats
  import opened RenderGraphTypes
  import opened RenderGraphNodes
  import opened RenderGraphLiveness
  import opened RenderGraphFootprint
  import opened RenderGraphIslands
  import opened RenderGraphBuild
  import opened RenderGraphObject

  /** The handles in registration order: AddExternalRTV first, then the two textures. */
  const BACKBUFFER: Handle := 0
  const SCENE_DEPTH: Handle := 1
  const SCENE_COLOR: Handle := 2

  /** Scene clears colour and depth; Tonemap loads colour as a compute target; Resolve loads the
      back buffer and samples colour; UI loads the back buffer and is the root. */
  const SCENE := PassInfo([PassResource(SCENE_COLOR, ACCESS_WRITE, {RTV}),
                           PassResource(SCENE_DEPTH, ACCESS_WRITE, {DSV})], false)
  const TONEMAP := PassInfo([PassResource(SCENE_COLOR, ACCESS_READ_WRITE, {UAV})], false)
  const RESOLVE := PassInfo([PassResource(BACKBUFFER, ACCESS_READ_WRITE, {RTV}),
                             PassResource(SCENE_COLOR, ACCESS_READ, {SRV})], false)
  const UI := PassInfo([PassResource(BACKBUFFER, ACCESS_READ_WRITE, {RTV})], true)

  const DEMO_PASSES := [SCENE, TONEMAP, RESOLVE, UI]

  /** The entries are the ones the builder calls record. */
  lemma DemoEntries()
    ensures SCENE.resources[0].access == TargetAccess(Clear) && SCENE.resources[1].access == TargetAccess(Clear)
    ensures TONEMAP.resources[0].access == TargetAccess(Load)
    ensures RESOLVE.resources[0].access == TargetAccess(Load) && UI.resources[0].access == TargetAccess(Load)
  {
  }

  /** The registered records after AddExternalRTV and the two RegisterTexture calls. */
  function DemoRegistered(w: nat, h: nat): seq<RegisteredResource> {
    [DEFAULT_REGISTERED.(external := true),
     RegisteredResource(false, {}, Texture, w, h, D32_FLOAT),
     RegisteredResource(false, {}, Texture, w, h, R16G16B16A16_FLOAT)]
  }

  // ---------------------------------------------------------------------------
  // One step of each prefix recursion

  lemma FirstSeenStep(s: seq<nat>, k: nat, u: seq<nat>)
    requires 0 < k <= |s| && FirstSeen(s[..k - 1]) == u
    ensures FirstSeen(s[..k]) == if s[k - 1] in u then u else u + [s[k - 1]]
  {
    assert s[..k][..k - 1] == s[..k - 1];
  }

  lemma CountStep(s: seq<nat>, k: nat, y: nat, c: nat)
    requires 0 < k <= |s| && Count(s[..k - 1], y) == c
    ensures Count(s[..k], y) == c + if s[k - 1] == y then 1 else 0
  {
    assert s[..k][..k - 1] == s[..k - 1];
  }

  /** Counting texture uses position by position, for a list whose handles are below 3. */
  function Uses3(reg: seq<RegisteredResource>, s: seq<Handle>, k: nat): nat
    requires |reg| == 3 && k <= |s| && AllBelow(s, 3)
  {
    assert AllBelow(s[..k], 3) by {
      forall i | 0 <= i < k ensures s[..k][i] < 3 {
        assert s[..k][i] == s[i];
      }
    }
    TextureUses(reg, s[..k])
  }

  lemma TextureUsesStep(reg: seq<RegisteredResource>, s: seq<Handle>, k: nat, c: nat)
    requires |reg| == 3 && 0 < k <= |s| && AllBelow(s, 3) && Uses3(reg, s, k - 1) == c
    ensures Uses3(reg, s, k) == c + if reg[s[k - 1]].rtype == Texture then 1 else 0
  {
    assert s[..k][..k - 1] == s[..k - 1];
  }

  lemma AllHandlesStep(ps: seq<PassInfo>, k: nat)
    requires 0 < k <= |ps|
    ensures AllHandles(ps[..k]) == AllHandles(ps[..k - 1]) + HandlesOf(ps[k - 1].resources)
  {
    assert ps[..k][..k - 1] == ps[..k - 1];
  }

  /** Flattening the passes' entries and taking their handles gives the handles pass by pass. */
  lemma {:induction false} AllHandlesOfConcat(ps: seq<PassInfo>)
    ensures HandlesOf(ConcatResources(ps)) == AllHandles(ps)
  {
    if ps != [] {
      var q := ps[..|ps| - 1];
      AllHandlesOfConcat(q);
      HandlesOfAppend(ConcatResources(q), ps[|ps| - 1].resources);
    }
  }

  // ---------------------------------------------------------------------------
  // The plan of the frame

  predicate IsDemoPasses(ps: seq<PassInfo>) {
    |ps| == 4 && ps[0] == SCENE && ps[1] == TONEMAP && ps[2] == RESOLVE && ps[3] == UI
  }

  /** Colour, depth, colour, back buffer, colour, back buffer. */
  predicate IsDemoHandles(s: seq<nat>) {
    |s| == 6 && s[0] == 2 && s[1] == 1 && s[2] == 2 && s[3] == 0 && s[4] == 2 && s[5] == 0
  }

  lemma DemoHandlesOf(ps: seq<PassInfo>)
    requires IsDemoPasses(ps)
    ensures IsDemoHandles(AllHandles(ps))
  {
    DemoHandlesPrefix(ps);
    assert HandlesOf(UI.resources) == [0];
    AllHandlesStep(ps, 4);
    assert ps[..4] == ps;
    assert AllHandles(ps) == [2, 1, 2, 0, 2, 0];
  }

  /** The handles of the first three passes. */
  lemma DemoHandlesPrefix(ps: seq<PassInfo>)
    requires IsDemoPasses(ps)
    ensures AllHandles(ps[..3]) == [2, 1, 2, 0, 2]
  {
    assert ps[..0] == [];
    assert HandlesOf(SCENE.resources) == [2, 1];
    AllHandlesStep(ps, 1);
    assert AllHandles(ps[..1]) == [2, 1];
    assert HandlesOf(TONEMAP.resources) == [2];
    AllHandlesStep(ps, 2);
    assert AllHandles(ps[..2]) == [2, 1, 2];
    assert HandlesOf(RESOLVE.resources) == [0, 2];
    AllHandlesStep(ps, 3);
  }

  lemma DemoFirstSeenPrefix(s: seq<nat>)
    requires IsDemoHandles(s)
    ensures FirstSeen(s[..3]) == [2, 1]
  {
    assert s[..0] == [];
    assert FirstSeen(s[..1]) == [2] by { FirstSeenStep(s, 1, []); }
    assert FirstSeen(s[..2]) == [2, 1] by { FirstSeenStep(s, 2, [2]); }
    FirstSeenStep(s, 3, [2, 1]);
  }

  lemma DemoFirstSeen(s: seq<nat>)
    requires IsDemoHandles(s)
    ensures FirstSeen(s) == [2, 1, 0]
  {
    DemoFirstSeenPrefix(s);
    assert FirstSeen(s[..4]) == [2, 1, 0] by { FirstSeenStep(s, 4, [2, 1]); }
    assert FirstSeen(s[..5]) == [2, 1, 0] by { FirstSeenStep(s, 5, [2, 1, 0]); }
    assert FirstSeen(s[..6]) == [2, 1, 0] by { FirstSeenStep(s, 6, [2, 1, 0]); }
    assert s[..6] == s;
  }

  /** The first loop numbers colour 0, depth 1 and the back buffer 2. */
  lemma DemoDenseOrder()
    ensures DenseOrder(DEMO_PASSES) == [2, 1, 0]
  {
    DemoHandlesOf(DEMO_PASSES);
    DemoFirstSeen(AllHandles(DEMO_PASSES));
  }

  const DEMO_NODES := [Node({}, {0, 1}, false, false), Node({0}, {0}, false, false),
                       Node({2, 0}, {2}, false, false), Node({2}, {2}, true, false)]

  const DEMO_MARKED := [Node({}, {0, 1}, false, true), Node({0}, {0}, false, true),
                        Node({2, 0}, {2}, false, true), Node({2}, {2}, true, true)]

  predicate IsDenseOrder(u: seq<Handle>) {
    |u| == 3 && u[0] == 2 && u[1] == 1 && u[2] == 0
  }

  lemma DemoPositions(u: seq<Handle>)
    requires IsDenseOrder(u)
    ensures Position(u, 2) == 0 && Position(u, 1) == 1 && Position(u, 0) == 2
  {
    assert u[1..][0] == 1 && u[1..][1..][0] == 0;
  }

  lemma DemoNodeOfScene(u: seq<Handle>)
    requires IsDenseOrder(u)
    ensures NodeOf(SCENE.resources, false, u) == DEMO_NODES[0]
  {
    AccessBits();
    DemoPositions(u);
    var rs := SCENE.resources;
    assert rs[..1] == [rs[0]];
    assert NodeOf(rs[..1], false, u) == Node({}, {0}, false, false);
  }

  lemma DemoNodeOfResolve(u: seq<Handle>)
    requires IsDenseOrder(u)
    ensures NodeOf(RESOLVE.resources, false, u) == DEMO_NODES[2]
  {
    AccessBits();
    DemoPositions(u);
    var rs := RESOLVE.resources;
    assert rs[..1] == [rs[0]];
    assert NodeOf(rs[..1], false, u) == Node({2}, {2}, false, false);
  }

  lemma DemoNodeOfSingles(u: seq<Handle>)
    requires IsDenseOrder(u)
    ensures NodeOf(TONEMAP.resources, false, u) == DEMO_NODES[1]
    ensures NodeOf(UI.resources, true, u) == DEMO_NODES[3]
  {
    AccessBits();
    DemoPositions(u);
  }

  /** The node table of the frame: Scene writes colour and depth, Tonemap reads and writes colour,
      Resolve reads colour and the back buffer and writes the back buffer, and UI, the root,
      reads and writes the back buffer. */
  lemma DemoNodes()
    ensures Nodes(DEMO_PASSES, DenseOrder(DEMO_PASSES)) == DEMO_NODES
  {
    DemoDenseOrder();
    var u := DenseOrder(DEMO_PASSES);
    DemoNodeOfScene(u);
    DemoNodeOfResolve(u);
    DemoNodeOfSingles(u);
  }

  /** Reading backwards: UI keeps the back buffer live, Resolve adds colour, and colour stays live
      through Tonemap down to Scene. */
  lemma DemoLive(ns: seq<Node>)
    requires ns == DEMO_NODES
    ensures LiveAfter(ns, 1) == {0, 2}
    ensures LiveAfter(ns, 2) == {0, 2}
    ensures LiveAfter(ns, 3) == {2}
    ensures LiveAfter(ns, 4) == {}
  {
    assert LiveAfter(ns, 4) == {};
    assert ({} - ns[3].writeSet) + ns[3].readSet == {2};
    assert LiveAfter(ns, 3) == {2};
    assert 2 in ns[2].writeSet * {2};
    assert ({2} - ns[2].writeSet) + ns[2].readSet == {0, 2};
    assert LiveAfter(ns, 2) == {0, 2};
    assert 0 in ns[1].writeSet * {0, 2};
    assert ({0, 2} - ns[1].writeSet) + ns[1].readSet == {0, 2};
  }

  /** Every pass of the frame contributes and only UI is left a root. */
  lemma DemoMarked()
    ensures MarkedNodes(DEMO_PASSES) == DEMO_MARKED
  {
    DemoNodes();
    DemoLive(DEMO_NODES);
  }

  lemma DemoRootCount(ms: seq<Node>)
    requires ms == DEMO_MARKED
    ensures RootCount(ms) == 1
  {
    assert ms[1..][1..][1..] == [ms[3]];
    assert RootCount(ms[1..][1..][1..]) == 1;
  }

  /** When every pass contributes, every pass survives, in order. */
  lemma {:induction false} NothingCulled(ms: seq<Node>)
    requires forall k :: 0 <= k < |ms| ==> ms[k].contributes
    ensures Survivors(ms) == seq(|ms|, i => i)
  {
    if ms != [] {
      var q := ms[..|ms| - 1];
      NothingCulled(q);
      assert seq(|ms|, i => i) == seq(|q|, i => i) + [|q|];
    }
  }

  lemma DemoRootPositions(ms: seq<Node>)
    requires ms == DEMO_MARKED
    ensures RootPositions(ms) == [3]
  {
    assert RootPositionsFrom(ms, 4) == [];
    assert RootPositionsFrom(ms, 3) == [3];
    assert RootPositionsFrom(ms, 2) == [3];
    assert RootPositionsFrom(ms, 1) == [3];
  }

  /** A single root always makes a single island holding it. */
  lemma SingleRootOneIsland(fps: seq<Footprint>)
    requires |fps| == 1
    ensures Islands(fps) == [{0}]
  {
    var l0: seq<nat> := seq(|fps|, k => k);
    assert l0 == [0];
    assert MergeFrom(l0, fps, 1, 2) == l0;
    var lab := Labels(fps);
    assert lab == [0];
    FirstSeenStep(lab, 1, []);
    assert lab[..1] == lab;
    assert Members(lab, 0) == {0};
  }

  lemma FourSurvive(ms: seq<Node>)
    requires |ms| == 4 && ms[0].contributes && ms[1].contributes && ms[2].contributes && ms[3].contributes
    ensures Survivors(ms) == [0, 1, 2, 3]
  {
    NothingCulled(ms);
    assert seq(4, i => i) == [0, 1, 2, 3];
  }

  lemma DemoSurvivors()
    ensures Survivors(MarkedNodes(DEMO_PASSES)) == [0, 1, 2, 3]
  {
    DemoMarked();
    FourSurvive(MarkedNodes(DEMO_PASSES));
  }

  lemma DemoIslands()
    ensures Islands(Footprints(MarkedNodes(DEMO_PASSES))) == [{0}]
  {
    DemoMarked();
    DemoRootPositions(DEMO_MARKED);
    SingleRootOneIsland(Footprints(DEMO_MARKED));
  }

  /** The frame's plan: nothing is culled, all four passes are consolidated in order, UI is the
      single root, and its tree makes the single island, so the frame meets what Build asks of it. */
  lemma DemoPlan()
    ensures |DenseOrder(DEMO_PASSES)| < MAX_RESOURCES
    ensures RootCount(MarkedNodes(DEMO_PASSES)) == 1
    ensures Survivors(MarkedNodes(DEMO_PASSES)) == [0, 1, 2, 3]
    ensures Islands(Footprints(MarkedNodes(DEMO_PASSES))) == [{0}]
  {
    DemoDenseOrder();
    DemoMarked();
    DemoRootCount(DEMO_MARKED);
    DemoSurvivors();
    DemoIslands();
  }

  // ---------------------------------------------------------------------------
  // The handle list of the frame

  /** std::unique finds no two equal neighbours in the frame's list, so it keeps all six. */
  lemma DemoAdjacentUnique(s: seq<nat>)
    requires IsDemoHandles(s)
    ensures AdjacentUnique(s) == s
  {
    AdjacentUniqueFixed(s);
  }

  /** The frame's list names colour three times. */
  lemma DemoColourCount(s: seq<nat>)
    requires IsDemoHandles(s)
    ensures Count(s, SCENE_COLOR) == 3
  {
    assert s[..0] == [];
    assert Count(s[..1], 2) == 1 by { CountStep(s, 1, 2, 0); }
    assert Count(s[..2], 2) == 1 by { CountStep(s, 2, 2, 1); }
    assert Count(s[..3], 2) == 2 by { CountStep(s, 3, 2, 1); }
    assert Count(s[..4], 2) == 2 by { CountStep(s, 4, 2, 2); }
    assert Count(s[..5], 2) == 3 by { CountStep(s, 5, 2, 2); }
    assert Count(s[..6], 2) == 3 by { CountStep(s, 6, 2, 3); }
    assert s[..6] == s;
  }

  /** Four of the six positions name a texture. */
  lemma DemoTextureUsesAsWritten(reg: seq<RegisteredResource>, s: seq<Handle>)
    requires |reg| == 3 && reg[0].rtype != Texture && reg[1].rtype == Texture && reg[2].rtype == Texture
    requires IsDemoHandles(s)
    ensures AllBelow(s, 3)
    ensures TextureUses(reg, s) == 4
  {
    assert AllBelow(s, 3);
    assert s[..0] == [];
    assert Uses3(reg, s, 1) == 1 by { TextureUsesStep(reg, s, 1, 0); }
    assert Uses3(reg, s, 2) == 2 by { TextureUsesStep(reg, s, 2, 1); }
    assert Uses3(reg, s, 3) == 3 by { TextureUsesStep(reg, s, 3, 2); }
    assert Uses3(reg, s, 4) == 3 by { TextureUsesStep(reg, s, 4, 3); }
    assert Uses3(reg, s, 5) == 4 by { TextureUsesStep(reg, s, 5, 3); }
    assert Uses3(reg, s, 6) == 4 by { TextureUsesStep(reg, s, 6, 4); }
    assert s[..6] == s;
  }

  /** Two of the three positions name a texture. */
  lemma DemoTextureUsesCorrected(reg: seq<RegisteredResource>, u: seq<Handle>)
    requires |reg| == 3 && reg[0].rtype != Texture && reg[1].rtype == Texture && reg[2].rtype == Texture
    requires IsDenseOrder(u)
    ensures AllBelow(u, 3)
    ensures TextureUses(reg, u) == 2
  {
    assert AllBelow(u, 3);
    assert u[..0] == [];
    assert Uses3(reg, u, 1) == 1 by { TextureUsesStep(reg, u, 1, 0); }
    assert Uses3(reg, u, 2) == 2 by { TextureUsesStep(reg, u, 2, 1); }
    assert Uses3(reg, u, 3) == 2 by { TextureUsesStep(reg, u, 3, 2); }
    assert u[..3] == u;
  }

  /** The frame's handle list as written names colour three times; the corrected one names each
      of the three handles once. */
  lemma DemoUsedLists()
    ensures UsedAsWritten(ConcatResources(DEMO_PASSES)) == AllHandles(DEMO_PASSES)
    ensures IsDemoHandles(UsedAsWritten(ConcatResources(DEMO_PASSES)))
    ensures Count(UsedAsWritten(ConcatResources(DEMO_PASSES)), SCENE_COLOR) == 3
    ensures UsedHandles(ConcatResources(DEMO_PASSES)) == [2, 1, 0]
  {
    AllHandlesOfConcat(DEMO_PASSES);
    DemoHandlesOf(DEMO_PASSES);
    DemoAdjacentUnique(AllHandles(DEMO_PASSES));
    DemoColourCount(AllHandles(DEMO_PASSES));
    DemoFirstSeen(AllHandles(DEMO_PASSES));
  }

  /** Realising the frame's list as written from an empty cache makes four texture creations for
      the two textures the frame registers: colour is created three times, only the last of them
      is kept in the realised array, and the first two are never released.  The corrected list
      makes one creation per texture. */
  lemma DemoRealise(w: nat, h: nat, start: World, createAnswer: nat -> TextureHandle, viewsAnswer: nat -> bool)
    requires NoneExternal(start.resources) && start.pool == []
    ensures AllBelow(UsedAsWritten(ConcatResources(DEMO_PASSES)), 3)
    ensures AllBelow(UsedHandles(ConcatResources(DEMO_PASSES)), 3)
    ensures var w' := RealiseAll(DemoRegistered(w, h), start, UsedAsWritten(ConcatResources(DEMO_PASSES)), createAnswer, viewsAnswer);
      && |w'.trace| == |start.trace| + 4
      && w'.pool == []
      && forall k :: |start.trace| <= k < |w'.trace| ==> w'.trace[k].CreateTextureCall?
    ensures var w' := RealiseAll(DemoRegistered(w, h), start, UsedHandles(ConcatResources(DEMO_PASSES)), createAnswer, viewsAnswer);
      && |w'.trace| == |start.trace| + 2
      && w'.pool == []
      && forall k :: |start.trace| <= k < |w'.trace| ==> w'.trace[k].CreateTextureCall?
  {
    DemoUsedLists();
    var reg := DemoRegistered(w, h);
    var s := UsedAsWritten(ConcatResources(DEMO_PASSES));
    var u := UsedHandles(ConcatResources(DEMO_PASSES));
    DemoTextureUsesAsWritten(reg, s);
    DemoTextureUsesCorrected(reg, u);
    RealiseAllMeaning(reg, start, s, createAnswer, viewsAnswer);
    EmptyPoolStaysEmpty(reg, start, s, createAnswer, viewsAnswer);
    RealiseAllMeaning(reg, start, u, createAnswer, viewsAnswer);
    EmptyPoolStaysEmpty(reg, start, u, createAnswer, viewsAnswer);
  }

  // ---------------------------------------------------------------------------
  // The graph behind the island counterexample

  /** Four nodes with T, C, B and A numbered 0 to 3: W, not a root, writes T; the roots Ra
      (reads T, writes C), Rb (writes B) and Rc (reads T, writes A). */
  const CEX_NODES := [Node({}, {0}, false, false), Node({0}, {1}, true, false),
                      Node({}, {2}, true, false), Node({0}, {3}, true, false)]

  const CEX_MARKED := [Node({}, {0}, false, true), Node({0}, {1}, true, true),
                       Node({}, {2}, true, true), Node({0}, {3}, true, true)]

  /** Reading backwards: each root keeps T live and nothing reads what a root writes. */
  lemma CexLive(ns: seq<Node>)
    requires ns == CEX_NODES
    ensures LiveAfter(ns, 1) == {0} && LiveAfter(ns, 2) == {0} && LiveAfter(ns, 3) == {0}
  {
    assert LiveAfter(ns, 4) == {};
    assert ({} - ns[3].writeSet) + ns[3].readSet == {0};
    assert LiveAfter(ns, 3) == {0};
    assert ({0} - ns[2].writeSet) + ns[2].readSet == {0};
    assert LiveAfter(ns, 2) == {0};
    assert ({0} - ns[1].writeSet) + ns[1].readSet == {0};
  }

  /** Every node contributes, W because the roots read T, and all three roots stay roots. */
  lemma CexMarked()
    ensures Marked(CEX_NODES) == CEX_MARKED
  {
    CexLive(CEX_NODES);
    assert 0 in CEX_NODES[0].writeSet * LiveAfter(CEX_NODES, 1);
  }

  lemma CexRootPositions(ms: seq<Node>)
    requires ms == CEX_MARKED
    ensures RootPositions(ms) == [3, 2, 1]
  {
    assert ms[3].root && ms[2].root && ms[1].root && !ms[0].root;
    assert RootPositionsFrom(ms, 4) == [];
    assert RootPositionsFrom(ms, 3) == [] + [3];
    assert RootPositionsFrom(ms, 2) == [3] + [2];
    assert RootPositionsFrom(ms, 1) == [3, 2] + [1];
    assert RootPositionsFrom(ms, 0) == [3, 2, 1] + [];
  }

  /** The counterexample's footprints are those of this graph: W joins the trees of Rc and Ra,
      which read T, and not that of Rb. */
  lemma CexFootprints()
    ensures Footprints(Marked(CEX_NODES)) == CEX_FOOTPRINTS
  {
    CexMarked();
    var ms := CEX_MARKED;
    CexRootPositions(ms);
    assert Walk(ms, 3, 1) == Footprint({0}, {3});
    assert 0 in ms[0].writeSet * Walk(ms, 3, 1).readSet;
    assert Walk(ms, 3, 0) == Footprint({0}, {0, 3});
    assert Walk(ms, 2, 0) == Footprint({}, {2});
    assert 0 in ms[0].writeSet * Walk(ms, 1, 1).readSet;
    assert Walk(ms, 1, 0) == Footprint({0}, {0, 1});
  }
}
