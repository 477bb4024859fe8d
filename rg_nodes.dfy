// Build's first step (Utils/RenderGraph/RenderGraph.cpp:197-230): every handle a
// pass names is given a dense index in first-seen order, and each pass becomes
// a liveness node holding the dense indices it reads and writes.

module RenderGraphNodes {

  import opened RenderGraphTypes

  /** RG_MAX_RESOURCES, the size of the bit sets and of the dense-index table. */
  const MAX_RESOURCES: nat := 1024

  /** The parts of a RenderPass that Build looks at. */
  datatype PassInfo = PassInfo(resources: seq<PassResource>, root: bool)

  /** RGNode without its name; rootAffinity is kept beside the nodes (see RenderGraphIslands). */
  datatype Node = Node(readSet: set<nat>, writeSet: set<nat>, root: bool, contributes: bool)

  const EMPTY_NODE := Node({}, {}, false, false)

  /** Every handle the passes name, pass by pass and entry by entry. */
  function AllHandles(passes: seq<PassInfo>): seq<Handle> {
    if passes == [] then []
    else AllHandles(passes[..|passes| - 1]) + HandlesOf(passes[|passes| - 1].resources)
  }

  /** `uniqueResources[0..numResources)` at the end of the first loop. */
  function DenseOrder(passes: seq<PassInfo>): seq<Handle> {
    FirstSeen(AllHandles(passes))
  }

  /** Every handle named by some pass is in `u`. */
  predicate Covers(passes: seq<PassInfo>, u: seq<Handle>) {
    forall k, i :: 0 <= k < |passes| && 0 <= i < |passes[k].resources| ==> passes[k].resources[i].handle in u
  }

  /** std::bitset::set(pos, value). */
  function SetBit(s: set<nat>, i: nat, b: bool): set<nat> {
    if b then s + {i} else s - {i}
  }

  /** The dense index of `h` in the table `u`; a handle not in the table would be appended at `|u|`. */
  function Position(u: seq<Handle>, h: Handle): (i: nat)
    ensures i <= |u|
    ensures i < |u| <==> h in u
    ensures i < |u| ==> u[i] == h && forall j :: 0 <= j < i ==> u[j] != h
  {
    if h in u then IndexOf(u, h) else |u|
  }

  /** The node the first loop fills for a pass with entries `rs`: one bit per entry, and the
      pass's root flag copied only while visiting an entry. */
  function NodeOf(rs: seq<PassResource>, root: bool, u: seq<Handle>): Node {
    if rs == [] then EMPTY_NODE
    else
      var n := NodeOf(rs[..|rs| - 1], root, u);
      var r := rs[|rs| - 1];
      var idx := Position(u, r.handle);
      n.(readSet := SetBit(n.readSet, idx, HasRead(r.access)),
         writeSet := SetBit(n.writeSet, idx, HasWrite(r.access)),
         root := root)
  }

  function Nodes(passes: seq<PassInfo>, u: seq<Handle>): (nodes: seq<Node>)
    ensures |nodes| == |passes|
  {
    seq(|passes|, k requires 0 <= k < |passes| => NodeOf(passes[k].resources, passes[k].root, u))
  }

  /** No pass names a handle twice (RenderPass::AssertResourceUnique). */
  predicate UniqueHandles(rs: seq<PassResource>) {
    forall i, j :: 0 <= i < j < |rs| ==> rs[i].handle != rs[j].handle
  }

  // ---------------------------------------------------------------------------
  // Facts about the dense order

  lemma {:induction false} AllHandlesSplit(passes: seq<PassInfo>, p: nat)
    requires p <= |passes|
    ensures AllHandles(passes[..p]) + AllHandles(passes[p..]) == AllHandles(passes)
  {
    if p < |passes| {
      var n := |passes|;
      AllHandlesSplit(passes[..n - 1], p);
      assert passes[..n - 1][..p] == passes[..p];
      assert passes[..n - 1][p..] == passes[p..n - 1];
      assert passes[p..][..|passes[p..]| - 1] == passes[p..n - 1];
    } else {
      assert passes[..p] == passes;
    }
  }

  lemma {:induction false} AllHandlesCovers(passes: seq<PassInfo>)
    ensures forall k, i :: 0 <= k < |passes| && 0 <= i < |passes[k].resources| ==>
              passes[k].resources[i].handle in AllHandles(passes)
  {
    if passes != [] {
      var n := |passes|;
      AllHandlesCovers(passes[..n - 1]);
      var pre, last := AllHandles(passes[..n - 1]), HandlesOf(passes[n - 1].resources);
      assert AllHandles(passes) == pre + last;
      forall k, i | 0 <= k < n && 0 <= i < |passes[k].resources|
        ensures passes[k].resources[i].handle in pre + last
      {
        if k < n - 1 {
          assert passes[..n - 1][k] == passes[k];
          assert passes[k].resources[i].handle in pre;
        } else {
          assert last[i] == passes[k].resources[i].handle;
        }
      }
    }
  }

  /** The dense order holds every handle a pass names. */
  lemma DenseOrderCovers(passes: seq<PassInfo>)
    ensures Covers(passes, DenseOrder(passes))
  {
    AllHandlesCovers(passes);
  }

  /** Extending the scanned handles only appends to the first-seen order. */
  lemma {:induction false} FirstSeenPrefix(s: seq<nat>, t: seq<nat>)
    ensures FirstSeen(s) <= FirstSeen(s + t)
  {
    if t != [] {
      var t' := t[..|t| - 1];
      FirstSeenPrefix(s, t');
      assert (s + t)[..|s + t| - 1] == s + t';
    } else {
      assert s + t == s;
    }
  }

  lemma IndexOfPrefix(u: seq<nat>, d: seq<nat>, x: nat)
    requires u <= d && x in u
    ensures x in d && IndexOf(d, x) == IndexOf(u, x)
  {
    assert d == u + d[|u|..];
    IndexOfStable(u, d[|u|..], x);
  }

  /** NodeOf depends only on the positions of the handles the pass names. */
  lemma {:induction false} NodeOfPrefix(rs: seq<PassResource>, root: bool, u: seq<Handle>, d: seq<Handle>)
    requires u <= d
    requires forall i :: 0 <= i < |rs| ==> rs[i].handle in u
    ensures forall i :: 0 <= i < |rs| ==> rs[i].handle in d
    ensures NodeOf(rs, root, u) == NodeOf(rs, root, d)
  {
    forall i | 0 <= i < |rs| ensures rs[i].handle in d {
      IndexOfPrefix(u, d, rs[i].handle);
    }
    if rs != [] {
      NodeOfPrefix(rs[..|rs| - 1], root, u, d);
      IndexOfPrefix(u, d, rs[|rs| - 1].handle);
    }
  }

  /** With handles unique in the pass, index `x` is read (written) exactly when an entry for a
      handle at that index has the READ (WRITE) bit; the root flag is copied iff the pass has an entry. */
  lemma {:induction false} NodeOfMeaning(rs: seq<PassResource>, root: bool, u: seq<Handle>, x: nat)
    requires UniqueHandles(rs)
    requires forall i :: 0 <= i < |rs| ==> rs[i].handle in u
    ensures x in NodeOf(rs, root, u).readSet <==>
              exists i :: 0 <= i < |rs| && Position(u, rs[i].handle) == x && HasRead(rs[i].access)
    ensures x in NodeOf(rs, root, u).writeSet <==>
              exists i :: 0 <= i < |rs| && Position(u, rs[i].handle) == x && HasWrite(rs[i].access)
    ensures NodeOf(rs, root, u).root == (root && |rs| > 0)
    ensures !NodeOf(rs, root, u).contributes
  {
    if rs != [] {
      var p := rs[..|rs| - 1];
      var r := rs[|rs| - 1];
      NodeOfMeaning(p, root, u, x);
      var idx := Position(u, r.handle);
      if x == idx {
        // No earlier entry has the same handle, hence not the same index either.
        forall i | 0 <= i < |p| ensures Position(u, p[i].handle) != x {
          assert p[i].handle != r.handle;
        }
      }
      assert forall i :: 0 <= i < |p| ==> p[i] == rs[i];
    }
  }

  // ---------------------------------------------------------------------------
  // The loop

  /** One step of the first-seen order. */
  function SeenStep(u: seq<nat>, h: nat): seq<nat> {
    if h in u then u else u + [h]
  }

  lemma FirstSeenStep(s: seq<nat>, h: nat)
    ensures FirstSeen(s + [h]) == SeenStep(FirstSeen(s), h)
  {
    assert (s + [h])[..|s + [h]| - 1] == s;
  }

  /** The handles scanned after `r` entries of pass `p` are a prefix of all handles, so the
      table built so far is a prefix of the dense order. */
  lemma ScannedPrefix(passes: seq<PassInfo>, p: nat, r: nat)
    requires p < |passes| && r <= |passes[p].resources|
    ensures FirstSeen(AllHandles(passes[..p]) + HandlesOf(passes[p].resources[..r])) <= DenseOrder(passes)
  {
    var rs := passes[p].resources;
    ScanSplit(passes, p, r);
    PrefixOfDense(passes, AllHandles(passes[..p]) + HandlesOf(rs[..r]), HandlesOf(rs[r..]) + AllHandles(passes[p + 1..]));
  }

  /** All handles: those before pass p, those of p, those after. */
  lemma AroundPass(passes: seq<PassInfo>, p: nat)
    requires p < |passes|
    ensures AllHandles(passes) == (AllHandles(passes[..p]) + HandlesOf(passes[p].resources)) + AllHandles(passes[p + 1..])
  {
    AllHandlesSplit(passes, p + 1);
    assert passes[..p + 1][..p] == passes[..p];
  }

  lemma HandlesOfSplit(rs: seq<PassResource>, r: nat)
    requires r <= |rs|
    ensures HandlesOf(rs) == HandlesOf(rs[..r]) + HandlesOf(rs[r..])
  {
    var whole, left, right := HandlesOf(rs), HandlesOf(rs[..r]), HandlesOf(rs[r..]);
    forall i | 0 <= i < |rs| ensures whole[i] == (left + right)[i] {
      if i >= r {
        assert (left + right)[i] == right[i - r] == rs[r..][i - r].handle;
      }
    }
  }

  lemma PrefixOfDense(passes: seq<PassInfo>, s: seq<Handle>, t: seq<Handle>)
    requires AllHandles(passes) == s + t
    ensures FirstSeen(s) <= DenseOrder(passes)
  {
    FirstSeenPrefix(s, t);
  }

  /** All handles, cut inside pass p after r entries. */
  lemma ScanSplit(passes: seq<PassInfo>, p: nat, r: nat)
    requires p < |passes| && r <= |passes[p].resources|
    ensures AllHandles(passes) ==
            (AllHandles(passes[..p]) + HandlesOf(passes[p].resources[..r])) +
            (HandlesOf(passes[p].resources[r..]) + AllHandles(passes[p + 1..]))
  {
    var rs := passes[p].resources;
    var a, b, c, d := AllHandles(passes[..p]), HandlesOf(rs[..r]), HandlesOf(rs[r..]), AllHandles(passes[p + 1..]);
    AroundPass(passes, p);
    HandlesOfSplit(rs, r);
    Regroup(a, b, c, d);
  }

  lemma Regroup(a: seq<Handle>, b: seq<Handle>, c: seq<Handle>, d: seq<Handle>)
    ensures (a + (b + c)) + d == (a + b) + (c + d)
  {
  }

  /** The linear search of `uniqueResources`, appending `h` when it is absent. */
  method DenseIndex(table: array<Handle>, count: nat, h: Handle) returns (idx: nat, count': nat)
    requires count <= table.Length
    requires h !in table[..count] ==> count + 1 < table.Length
    modifies table
    ensures count' <= table.Length
    ensures table[..count'] == SeenStep(old(table[..count]), h)
    ensures h in table[..count'] && idx == IndexOf(table[..count'], h)
  {
    ghost var u := table[..count];
    idx := 0;
    while idx < count && table[idx] != h
      invariant 0 <= idx <= count
      invariant forall j :: 0 <= j < idx ==> table[j] != h
    {
      idx := idx + 1;
    }
    count' := count;
    if idx == count {
      table[idx] := h;
      count' := count + 1;
      assert table[..count'] == u + [h];
    } else {
      assert table[..count'][idx] == h;
    }
  }

  lemma HandlesOfStep(rs: seq<PassResource>, r: nat)
    requires r < |rs|
    ensures HandlesOf(rs[..r + 1]) == HandlesOf(rs[..r]) + [rs[r].handle]
  {
    assert rs[..r + 1][..r] == rs[..r];
  }

  lemma NodeOfStep(rs: seq<PassResource>, r: nat, root: bool, u: seq<Handle>)
    requires r < |rs|
    requires forall i :: 0 <= i < |rs| ==> rs[i].handle in u
    ensures NodeOf(rs[..r + 1], root, u) ==
      var n := NodeOf(rs[..r], root, u);
      var idx := Position(u, rs[r].handle);
      n.(readSet := SetBit(n.readSet, idx, HasRead(rs[r].access)),
         writeSet := SetBit(n.writeSet, idx, HasWrite(rs[r].access)),
         root := root)
  {
    assert rs[..r + 1][..r] == rs[..r];
    assert forall i :: 0 <= i < r + 1 ==> rs[..r + 1][i] == rs[i];
  }

  /** One iteration of the inner loop: look up (or add) the entry's handle and set its two bits. */
  method EntryStep(table: array<Handle>, count: nat, passes: seq<PassInfo>, p: nat, r: nat, node: Node)
    returns (node': Node, count': nat)
    requires p < |passes| && r < |passes[p].resources| && |DenseOrder(passes)| < table.Length
    requires Covers(passes, DenseOrder(passes))
    requires count <= table.Length
    requires table[..count] == FirstSeen(AllHandles(passes[..p]) + HandlesOf(passes[p].resources[..r]))
    requires node == NodeOf(passes[p].resources[..r], passes[p].root, DenseOrder(passes))
    modifies table
    ensures count' <= table.Length
    ensures table[..count'] == FirstSeen(AllHandles(passes[..p]) + HandlesOf(passes[p].resources[..r + 1]))
    ensures node' == NodeOf(passes[p].resources[..r + 1], passes[p].root, DenseOrder(passes))
  {
    var rs := passes[p].resources;
    ghost var dense := DenseOrder(passes);
    ghost var seen := AllHandles(passes[..p]) + HandlesOf(rs[..r]);
    var h := rs[r].handle;
    assert forall i :: 0 <= i < |rs| ==> rs[i].handle in dense;
    HandlesOfStep(rs, r);
    NodeOfStep(rs, r, passes[p].root, dense);
    assert seen + [h] == AllHandles(passes[..p]) + HandlesOf(rs[..r + 1]);
    FirstSeenStep(seen, h);
    ScannedPrefix(passes, p, r + 1);
    var idx;
    idx, count' := DenseIndex(table, count, h);
    IndexOfPrefix(table[..count'], dense, h);
    node' := node.(readSet := SetBit(node.readSet, idx, HasRead(rs[r].access)),
                   writeSet := SetBit(node.writeSet, idx, HasWrite(rs[r].access)),
                   root := passes[p].root);
  }

  /** The inner loop of the first step for one pass. */
  method PassNode(table: array<Handle>, count: nat, passes: seq<PassInfo>, p: nat) returns (node: Node, count': nat)
    requires p < |passes| && |DenseOrder(passes)| < table.Length
    requires count <= table.Length
    requires table[..count] == FirstSeen(AllHandles(passes[..p]))
    modifies table
    ensures count' <= table.Length
    ensures table[..count'] == FirstSeen(AllHandles(passes[..p + 1]))
    ensures Covers(passes, DenseOrder(passes))
    ensures node == NodeOf(passes[p].resources, passes[p].root, DenseOrder(passes))
  {
    DenseOrderCovers(passes);
    var rs := passes[p].resources;
    node := EMPTY_NODE;
    count' := count;
    var r := 0;
    assert rs[..0] == [];
    assert AllHandles(passes[..p]) + HandlesOf(rs[..0]) == AllHandles(passes[..p]);
    while r < |rs|
      invariant 0 <= r <= |rs|
      invariant count' <= table.Length
      invariant table[..count'] == FirstSeen(AllHandles(passes[..p]) + HandlesOf(rs[..r]))
      invariant node == NodeOf(rs[..r], passes[p].root, DenseOrder(passes))
    {
      node, count' := EntryStep(table, count', passes, p, r, node);
      r := r + 1;
    }
    assert rs[..r] == rs;
    assert passes[..p + 1][..p] == passes[..p];
  }

  /** The first loop of Build: a linear search of the dense-index table for each entry,
      appending unseen handles (RG_MAX_RESOURCES bounds the table), and one node per pass. */
  method BuildNodes(passes: seq<PassInfo>) returns (nodes: seq<Node>, unique: seq<Handle>)
    requires |DenseOrder(passes)| < MAX_RESOURCES
    ensures unique == DenseOrder(passes)
    ensures Covers(passes, unique)
    ensures nodes == Nodes(passes, unique)
  {
    DenseOrderCovers(passes);
    ghost var dense := DenseOrder(passes);
    var uniqueResources := new Handle[MAX_RESOURCES];
    var numResources: nat := 0;
    nodes := [];
    var p := 0;
    assert passes[..0] == [];
    while p < |passes|
      invariant 0 <= p <= |passes|
      invariant numResources <= MAX_RESOURCES
      invariant uniqueResources[..numResources] == FirstSeen(AllHandles(passes[..p]))
      invariant nodes == Nodes(passes, dense)[..p]
    {
      var node;
      node, numResources := PassNode(uniqueResources, numResources, passes, p);
      assert Nodes(passes, dense)[..p + 1] == Nodes(passes, dense)[..p] + [node];
      nodes := nodes + [node];
      p := p + 1;
    }
    assert passes[..p] == passes;
    unique := uniqueResources[..numResources];
  }

  lemma {:induction false} HandlesOfAppend(a: seq<PassResource>, b: seq<PassResource>)
    ensures HandlesOf(a + b) == HandlesOf(a) + HandlesOf(b)
  {
    if b != [] {
      HandlesOfAppend(a, b[..|b| - 1]);
      assert (a + b)[..|a + b| - 1] == a + b[..|b| - 1];
    } else {
      assert a + b == a;
    }
  }
}
