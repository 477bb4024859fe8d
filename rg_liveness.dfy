// Build's backward liveness walk (Utils/RenderGraph/RenderGraph.cpp:231-256): a
// pass contributes when it is a root or writes a resource that a later
// contributing pass reads before anything contributing rewrites it.

module RenderGraphLiveness {

  import opened RenderGraphNodes

  /** The walk's `reads` bits on arriving at node k from the end: resources read by a later
      contributing node and not rewritten by a contributing node in between. */
  function LiveAfter(nodes: seq<Node>, k: nat): set<nat>
    requires k <= |nodes|
    decreases |nodes| - k
  {
    if k == |nodes| then {}
    else
      var live := LiveAfter(nodes, k + 1);
      if Contributes(nodes[k], live) then (live - nodes[k].writeSet) + nodes[k].readSet else live
  }

  /** The test at the top of the walk: a root, or a node whose writes are read later. */
  predicate Contributes(n: Node, live: set<nat>) {
    n.root || n.writeSet * live != {}
  }

  predicate Survives(nodes: seq<Node>, k: nat)
    requires k < |nodes|
  {
    Contributes(nodes[k], LiveAfter(nodes, k + 1))
  }

  /** The node after the walk visits it: contributing nodes are flagged, and a root whose
      writes are read later loses its root status. */
  function Mark(n: Node, live: set<nat>): Node {
    if !Contributes(n, live) then n
    else n.(contributes := true, root := n.root && n.writeSet * live == {})
  }

  function Marked(nodes: seq<Node>): (ms: seq<Node>)
    ensures |ms| == |nodes|
  {
    seq(|nodes|, k requires 0 <= k < |nodes| => Mark(nodes[k], LiveAfter(nodes, k + 1)))
  }

  /** Number of nodes flagged as roots. */
  function RootCount(ms: seq<Node>): nat {
    if ms == [] then 0 else RootCount(ms[1..]) + (if ms[0].root then 1 else 0)
  }

  /** The walk, from the last node to the first; it returns the marked nodes and rootCount. */
  method MarkContributors(nodes: seq<Node>) returns (marked: seq<Node>, rootCount: nat)
    ensures marked == Marked(nodes)
    ensures rootCount == RootCount(marked)
  {
    var live: set<nat> := {};
    marked := nodes;
    rootCount := 0;
    var k := |nodes|;
    while k > 0
      invariant 0 <= k <= |nodes|
      invariant live == LiveAfter(nodes, k)
      invariant |marked| == |nodes|
      invariant forall i :: 0 <= i < k ==> marked[i] == nodes[i]
      invariant forall i :: k <= i < |nodes| ==> marked[i] == Marked(nodes)[i]
      invariant rootCount == RootCount(Marked(nodes)[k..])
    {
      k := k - 1;
      var n := marked[k];
      var writesAreRead := n.writeSet * live != {};
      if n.root || writesAreRead {
        live := (live - n.writeSet) + n.readSet;
        n := n.(contributes := true);
        if n.root && writesAreRead {
          n := n.(root := false);
        }
        if n.root {
          rootCount := rootCount + 1;
        }
        marked := marked[k := n];
      }
      assert Marked(nodes)[k..][1..] == Marked(nodes)[k + 1..];
    }
    assert marked == Marked(nodes);
  }

  // ---------------------------------------------------------------------------
  // What the walk computes

  /** Node m, after k, survives and reads r, and no surviving node strictly between them writes r. */
  predicate ReadAfter(nodes: seq<Node>, k: nat, r: nat, m: nat) {
    k < m < |nodes| && Survives(nodes, m) && r in nodes[m].readSet &&
    forall w :: k < w < m && Survives(nodes, w) ==> r !in nodes[w].writeSet
  }

  /** The live set seen by node k is exactly the set of resources some later survivor reads
      before a survivor rewrites them. */
  lemma {:induction false} LiveMeaning(nodes: seq<Node>, k: nat, r: nat)
    requires k < |nodes|
    ensures r in LiveAfter(nodes, k + 1) <==> exists m :: ReadAfter(nodes, k, r, m)
    decreases |nodes| - k
  {
    var j := k + 1;
    if j < |nodes| {
      LiveMeaning(nodes, j, r);
      if r in LiveAfter(nodes, j) {
        if Survives(nodes, j) && r in nodes[j].readSet {
          assert ReadAfter(nodes, k, r, j);
        } else {
          var m :| ReadAfter(nodes, j, r, m);
          assert ReadAfter(nodes, k, r, m);
        }
      }
      if m: nat :| ReadAfter(nodes, k, r, m) {
        if m > j {
          assert ReadAfter(nodes, j, r, m);
        }
      }
    }
  }

  /** A node survives exactly when it is a root, or one of its writes is read by a later
      survivor with no surviving writer of that resource in between. */
  lemma SurvivalCharacterisation(nodes: seq<Node>, k: nat)
    requires k < |nodes|
    ensures Survives(nodes, k) <==>
              nodes[k].root || exists r, m :: r in nodes[k].writeSet && ReadAfter(nodes, k, r, m)
  {
    if Survives(nodes, k) && !nodes[k].root {
      var r :| r in nodes[k].writeSet * LiveAfter(nodes, k + 1);
      LiveMeaning(nodes, k, r);
    }
    if r: nat, m: nat :| r in nodes[k].writeSet && ReadAfter(nodes, k, r, m) {
      LiveMeaning(nodes, k, r);
      assert r in nodes[k].writeSet * LiveAfter(nodes, k + 1);
    }
  }

  /** A root always survives. */
  lemma RootsSurvive(nodes: seq<Node>, k: nat)
    requires k < |nodes| && nodes[k].root
    ensures Survives(nodes, k)
  {
  }

  /** The producer of a resource that a survivor reads survives as well, when nothing between them writes it. */
  lemma ProducerSurvives(nodes: seq<Node>, a: nat, b: nat, r: nat)
    requires a < b < |nodes|
    requires r in nodes[a].writeSet && r in nodes[b].readSet && Survives(nodes, b)
    requires forall w :: a < w < b ==> r !in nodes[w].writeSet
    ensures Survives(nodes, a)
  {
    assert ReadAfter(nodes, a, r, b);
    SurvivalCharacterisation(nodes, a);
  }

  /** A non-root node none of whose writes any later node reads is culled. */
  lemma UnreadPassCulled(nodes: seq<Node>, k: nat)
    requires k < |nodes| && !nodes[k].root
    requires forall m, r :: k < m < |nodes| && r in nodes[k].writeSet ==> r !in nodes[m].readSet
    ensures !Survives(nodes, k)
  {
    SurvivalCharacterisation(nodes, k);
  }

  /** After the walk, a node is flagged contributing iff it survives, and flagged root iff it
      was a root none of whose writes a later survivor reads; its bits are unchanged. */
  lemma MarkedMeaning(nodes: seq<Node>, k: nat)
    requires k < |nodes| && !nodes[k].contributes
    ensures Marked(nodes)[k].contributes <==> Survives(nodes, k)
    ensures Marked(nodes)[k].root <==>
              nodes[k].root && forall r, m :: r in nodes[k].writeSet ==> !ReadAfter(nodes, k, r, m)
    ensures Marked(nodes)[k].readSet == nodes[k].readSet && Marked(nodes)[k].writeSet == nodes[k].writeSet
  {
    if nodes[k].root && forall r, m :: r in nodes[k].writeSet ==> !ReadAfter(nodes, k, r, m) {
      forall r | r in nodes[k].writeSet ensures r !in LiveAfter(nodes, k + 1) {
        LiveMeaning(nodes, k, r);
      }
    }
    if Marked(nodes)[k].root {
      assert nodes[k].writeSet * LiveAfter(nodes, k + 1) == {};
      forall r, m | r in nodes[k].writeSet ensures !ReadAfter(nodes, k, r, m) {
        assert r !in LiveAfter(nodes, k + 1) by {
          assert r !in nodes[k].writeSet * LiveAfter(nodes, k + 1);
        }
        LiveMeaning(nodes, k, r);
      }
    }
  }
}
