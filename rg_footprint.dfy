// Build's isolated-tree test (Utils/RenderGraph/RenderGraph.cpp:258-301): every
// remaining root, taken from the last to the first, grows a read/write footprint
// over the earlier non-root nodes that write something the footprint reads.

module RenderGraphFootprint {

  import opened RenderGraphNodes
  import opened RenderGraphLiveness

  /** Positions of the nodes at or after k flagged as roots, from the last to the first. */
  function RootPositionsFrom(ms: seq<Node>, k: nat): (rp: seq<nat>)
    requires k <= |ms|
    ensures forall t :: 0 <= t < |rp| ==> k <= rp[t] < |ms| && ms[rp[t]].root
    ensures forall s, t :: 0 <= s < t < |rp| ==> rp[s] > rp[t]
    ensures forall p :: k <= p < |ms| && ms[p].root ==> p in rp
    decreases |ms| - k
  {
    if k == |ms| then [] else RootPositionsFrom(ms, k + 1) + (if ms[k].root then [k] else [])
  }

  /** rootIndex t belongs to the root at RootPositions(ms)[t]. */
  function RootPositions(ms: seq<Node>): seq<nat> {
    RootPositionsFrom(ms, 0)
  }

  lemma {:induction false} RootPositionsCount(ms: seq<Node>, k: nat)
    requires k <= |ms|
    ensures |RootPositionsFrom(ms, k)| == RootCount(ms[k..])
    decreases |ms| - k
  {
    if k < |ms| {
      RootPositionsCount(ms, k + 1);
      assert ms[k..][1..] == ms[k + 1..];
    }
  }

  lemma {:induction false} RootPositionsPrefix(ms: seq<Node>, k: nat)
    requires k <= |ms|
    ensures RootPositionsFrom(ms, k) <= RootPositions(ms)
    decreases k
  {
    if k > 0 {
      RootPositionsPrefix(ms, k - 1);
    }
  }

  /** rootReads[rootIndex] and rootWrites[rootIndex]. */
  datatype Footprint = Footprint(readSet: set<nat>, writeSet: set<nat>)

  /** A non-root node joins a tree when it writes something the tree reads so far. */
  predicate Joins(n: Node, fp: Footprint) {
    !n.root && n.writeSet * fp.readSet != {}
  }

  /** The footprint of the root at r after the inner walk has visited r-1 down to pos. */
  function Walk(ms: seq<Node>, r: nat, pos: nat): Footprint
    requires pos <= r < |ms|
    decreases r - pos
  {
    if pos == r then Footprint(ms[r].readSet, ms[r].writeSet)
    else
      var fp := Walk(ms, r, pos + 1);
      if Joins(ms[pos], fp) then Footprint(fp.readSet + ms[pos].readSet, fp.writeSet + ms[pos].writeSet) else fp
  }

  /** Node m is in the tree of the root at r: the root itself, or an earlier node that joined. */
  predicate InTree(ms: seq<Node>, r: nat, m: nat)
    requires r < |ms| && m < |ms|
  {
    m == r || (m < r && Joins(ms[m], Walk(ms, r, m + 1)))
  }

  /** rootReads and rootWrites, indexed by rootIndex. */
  function Footprints(ms: seq<Node>): (fps: seq<Footprint>)
    ensures |fps| == |RootPositions(ms)|
  {
    var rp := RootPositions(ms);
    seq(|rp|, t requires 0 <= t < |rp| => Walk(ms, rp[t], 0))
  }

  /** The rootAffinity bits of node m once the first `count` roots are done. */
  function AffinityUpTo(ms: seq<Node>, m: nat, count: nat): set<nat>
    requires m < |ms|
  {
    var rp := RootPositions(ms);
    set t | 0 <= t < count && t < |rp| && InTree(ms, rp[t], m)
  }

  function Affinity(ms: seq<Node>, m: nat): set<nat>
    requires m < |ms|
  {
    AffinityUpTo(ms, m, |RootPositions(ms)|)
  }

  // ---------------------------------------------------------------------------
  // What a footprint is

  /** A footprint is the union of the accesses of the nodes in its tree. */
  lemma {:induction false} WalkIsTreeUnion(ms: seq<Node>, r: nat, pos: nat, x: nat)
    requires pos <= r < |ms|
    ensures x in Walk(ms, r, pos).readSet <==> exists m :: pos <= m <= r && InTree(ms, r, m) && x in ms[m].readSet
    ensures x in Walk(ms, r, pos).writeSet <==> exists m :: pos <= m <= r && InTree(ms, r, m) && x in ms[m].writeSet
    decreases r - pos
  {
    if pos == r {
      assert InTree(ms, r, r);
    } else {
      WalkIsTreeUnion(ms, r, pos + 1, x);
      assert InTree(ms, r, pos) == Joins(ms[pos], Walk(ms, r, pos + 1));
      if x in Walk(ms, r, pos + 1).readSet {
        var m :| pos + 1 <= m <= r && InTree(ms, r, m) && x in ms[m].readSet;
        assert pos <= m <= r;
      }
      if x in Walk(ms, r, pos + 1).writeSet {
        var m :| pos + 1 <= m <= r && InTree(ms, r, m) && x in ms[m].writeSet;
        assert pos <= m <= r;
      }
    }
  }

  /** A root is in no tree but its own, so its affinity is its own root index. */
  lemma RootAffinityIsOwnIndex(ms: seq<Node>, t: nat)
    requires t < |RootPositions(ms)|
    ensures Affinity(ms, RootPositions(ms)[t]) == {t}
  {
    var rp := RootPositions(ms);
    assert InTree(ms, rp[t], rp[t]);
    forall s | s in Affinity(ms, rp[t]) ensures s == t {
      assert InTree(ms, rp[s], rp[t]);
    }
  }

  // ---------------------------------------------------------------------------
  // The loops

  /** The inner walk for the root at r, with rootIndex `index`. */
  method GrowRoot(ms: seq<Node>, r: nat, index: nat, aff: seq<set<nat>>) returns (fp: Footprint, aff': seq<set<nat>>)
    requires r < |ms| == |aff|
    ensures fp == Walk(ms, r, 0)
    ensures |aff'| == |aff|
    ensures forall m :: 0 <= m < |aff| ==> aff'[m] == if m <= r && InTree(ms, r, m) then aff[m] + {index} else aff[m]
  {
    var read := ms[r].readSet;
    var write := ms[r].writeSet;
    aff' := aff[r := aff[r] + {index}];
    var n := r;
    while n > 0
      invariant 0 <= n <= r
      invariant Footprint(read, write) == Walk(ms, r, n)
      invariant |aff'| == |aff|
      invariant forall m :: 0 <= m < |aff| ==> aff'[m] == if n <= m <= r && InTree(ms, r, m) then aff[m] + {index} else aff[m]
    {
      n := n - 1;
      if !ms[n].root && ms[n].writeSet * read != {} {
        read := read + ms[n].readSet;
        write := write + ms[n].writeSet;
        aff' := aff'[n := aff'[n] + {index}];
      }
    }
    fp := Footprint(read, write);
  }

  lemma AffinityStep(ms: seq<Node>, k: nat, index: nat, aff0: seq<set<nat>>, aff: seq<set<nat>>)
    requires k < |ms| == |aff0| == |aff|
    requires index < |RootPositions(ms)| && RootPositions(ms)[index] == k
    requires forall m :: 0 <= m < |ms| ==> aff0[m] == AffinityUpTo(ms, m, index)
    requires forall m :: 0 <= m < |ms| ==> aff[m] == if m <= k && InTree(ms, k, m) then aff0[m] + {index} else aff0[m]
    ensures forall m :: 0 <= m < |ms| ==> aff[m] == AffinityUpTo(ms, m, index + 1)
  {
    forall m | 0 <= m < |ms| ensures aff[m] == AffinityUpTo(ms, m, index + 1) {
      if m <= k && InTree(ms, k, m) {
        assert AffinityUpTo(ms, m, index + 1) == AffinityUpTo(ms, m, index) + {index};
      } else {
        assert AffinityUpTo(ms, m, index + 1) == AffinityUpTo(ms, m, index);
      }
    }
  }

  /** The outer walk over the roots, from the last node to the first. */
  method ComputeFootprints(ms: seq<Node>, rootCount: nat) returns (fps: seq<Footprint>, aff: seq<set<nat>>)
    requires rootCount == RootCount(ms)
    ensures fps == Footprints(ms)
    ensures |aff| == |ms|
    ensures forall m :: 0 <= m < |ms| ==> aff[m] == Affinity(ms, m)
  {
    ghost var rp := RootPositions(ms);
    RootPositionsCount(ms, 0);
    assert ms[0..] == ms;
    fps := seq(rootCount, _ => Footprint({}, {}));
    aff := seq(|ms|, _ => {});
    var rootIndex := 0;
    var k := |ms|;
    while k > 0
      invariant 0 <= k <= |ms| && |aff| == |ms| && |fps| == rootCount == |rp|
      invariant rootIndex == |RootPositionsFrom(ms, k)| <= rootCount
      invariant RootPositionsFrom(ms, k) <= rp
      invariant forall t :: 0 <= t < rootIndex ==> fps[t] == Walk(ms, rp[t], 0)
      invariant forall m :: 0 <= m < |ms| ==> aff[m] == AffinityUpTo(ms, m, rootIndex)
    {
      k := k - 1;
      RootPositionsPrefix(ms, k);
      if ms[k].root {
        assert rp[rootIndex] == k;
        var fp;
        ghost var aff0 := aff;
        fp, aff := GrowRoot(ms, k, rootIndex, aff);
        fps := fps[rootIndex := fp];
        AffinityStep(ms, k, rootIndex, aff0, aff);
        rootIndex := rootIndex + 1;
      }
    }
    assert fps == Footprints(ms);
  }
}
