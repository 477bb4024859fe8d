// Build's island merge (Utils/RenderGraph/RenderGraph.cpp:303-345): roots whose
// footprints touch (one reads what the other writes) are combined, and one
// affinity mask per resulting island is recorded; the masks must be disjoint.
//
// MergeAsWritten follows the code as it stands; Islands is the corrected merge
// the rest of the model uses.

module RenderGraphIslands {

  import opened RenderGraphTypes
  import opened RenderGraphFootprint

  /** The test of the inner merge loop: i reads from j or j reads from i. */
  predicate Linked(fps: seq<Footprint>, i: nat, j: nat)
    requires i < |fps| && j < |fps|
  {
    fps[i].readSet * fps[j].writeSet != {} || fps[j].readSet * fps[i].writeSet != {}
  }

  // ---------------------------------------------------------------------------
  // Connectivity: the relation the merge is meant to compute

  /** A chain of roots, each linked to the next. */
  ghost predicate IsPath(fps: seq<Footprint>, p: seq<nat>) {
    |p| > 0 &&
    (forall t :: 0 <= t < |p| ==> p[t] < |fps|) &&
    forall t :: 0 < t < |p| ==> Linked(fps, p[t - 1], p[t])
  }

  ghost predicate Connected(fps: seq<Footprint>, a: nat, b: nat) {
    exists p :: IsPath(fps, p) && p[0] == a && p[|p| - 1] == b
  }

  lemma ConnectedRefl(fps: seq<Footprint>, a: nat)
    requires a < |fps|
    ensures Connected(fps, a, a)
  {
    assert IsPath(fps, [a]);
  }

  lemma LinkedConnected(fps: seq<Footprint>, a: nat, b: nat)
    requires a < |fps| && b < |fps| && Linked(fps, a, b)
    ensures Connected(fps, a, b)
  {
    assert IsPath(fps, [a, b]);
  }

  lemma ConnectedSym(fps: seq<Footprint>, a: nat, b: nat)
    requires Connected(fps, a, b)
    ensures Connected(fps, b, a)
  {
    var p :| IsPath(fps, p) && p[0] == a && p[|p| - 1] == b;
    var q := seq(|p|, t requires 0 <= t < |p| => p[|p| - 1 - t]);
    forall t | 0 < t < |q| ensures Linked(fps, q[t - 1], q[t]) {
      assert Linked(fps, p[|p| - 1 - t], p[|p| - t]);
    }
    assert IsPath(fps, q);
  }

  lemma ConnectedTrans(fps: seq<Footprint>, a: nat, b: nat, c: nat)
    requires Connected(fps, a, b) && Connected(fps, b, c)
    ensures Connected(fps, a, c)
  {
    var p :| IsPath(fps, p) && p[0] == a && p[|p| - 1] == b;
    var q :| IsPath(fps, q) && q[0] == b && q[|q| - 1] == c;
    var pq := p + q[1..];
    forall t | 0 < t < |pq| ensures Linked(fps, pq[t - 1], pq[t]) {
      if t >= |p| {
        assert pq[t - 1] == q[t - |p|] && pq[t] == q[t - |p| + 1];
      } else {
        assert pq[t - 1] == p[t - 1] && pq[t] == p[t];
      }
    }
    assert IsPath(fps, pq);
  }

  // ---------------------------------------------------------------------------
  // The merge as written

  /** subgraphId and subgraphIdIdx. */
  datatype MergeState = MergeState(ids: seq<set<nat>>, idx: seq<nat>)

  predicate StateOk(s: MergeState, n: nat) {
    |s.ids| == n && |s.idx| == n && forall k :: 0 <= k < n ==> s.idx[k] < n
  }

  function InitialState(n: nat): (s: MergeState)
    ensures StateOk(s, n)
  {
    MergeState(seq(n, i => {i}), seq(n, i => i))
  }

  /** One pair (i, j) of the nested loop: the combined mask is stored at the smaller of the
      two slots' indices, and only slot j's (or i's) index is redirected. */
  function MergePairAsWritten(s: MergeState, fps: seq<Footprint>, i: nat, j: nat): (s': MergeState)
    requires StateOk(s, |fps|) && i < j < |fps|
    ensures StateOk(s', |fps|)
  {
    if !Linked(fps, i, j) then s
    else
      var combined := s.ids[s.idx[j]] + s.ids[s.idx[i]];
      var idx' := if s.idx[i] <= s.idx[j] then s.idx[j := s.idx[i]] else s.idx[i := s.idx[j]];
      MergeState(s.ids[idx'[i] := combined], idx')
  }

  /** The nested loop from pair (i, j) on, in the loop's order. */
  function MergeFromAsWritten(s: MergeState, fps: seq<Footprint>, i: nat, j: nat): (s': MergeState)
    requires StateOk(s, |fps|) && i < j <= |fps| + 1
    ensures StateOk(s', |fps|)
    decreases |fps| - i, |fps| + 1 - j
  {
    if i >= |fps| then s
    else if j >= |fps| then MergeFromAsWritten(s, fps, i + 1, i + 2)
    else MergeFromAsWritten(MergePairAsWritten(s, fps, i, j), fps, i, j + 1)
  }

  /** The masks pushed to _affinityMasks: std::unique drops only adjacent repeats of an index. */
  function MergeAsWritten(fps: seq<Footprint>): seq<set<nat>> {
    var s := MergeFromAsWritten(InitialState(|fps|), fps, 0, 1);
    var keep := AdjacentUnique(s.idx);
    seq(|keep|, t requires 0 <= t < |keep| => if keep[t] < |s.ids| then s.ids[keep[t]] else {})
  }

  /** Three root footprints where only the first and the last are linked: root 0 and root 2
      both read resource 0, which both of them (through a shared producer) write. */
  const CEX_FOOTPRINTS := [Footprint({0}, {0, 3}), Footprint({}, {2}), Footprint({0}, {0, 1})]

  lemma CexLinks()
    ensures !Linked(CEX_FOOTPRINTS, 0, 1) && Linked(CEX_FOOTPRINTS, 0, 2) && !Linked(CEX_FOOTPRINTS, 1, 2)
  {
    var fps := CEX_FOOTPRINTS;
    assert 0 in fps[0].readSet * fps[2].writeSet;
    assert fps[0].readSet * fps[1].writeSet == {} && fps[1].readSet * fps[0].writeSet == {};
    assert fps[1].readSet * fps[2].writeSet == {} && fps[2].readSet * fps[1].writeSet == {};
  }

  /** The nested loop on the counterexample ends with index list [0, 1, 0]. */
  lemma CexMergeState()
    ensures MergeFromAsWritten(InitialState(3), CEX_FOOTPRINTS, 0, 1) == MergeState([{0, 2}, {1}, {2}], [0, 1, 0])
  {
    var fps := CEX_FOOTPRINTS;
    CexLinks();
    var s0 := InitialState(3);
    assert s0 == MergeState([{0}, {1}, {2}], [0, 1, 2]);
    var s1 := MergePairAsWritten(s0, fps, 0, 2);
    assert s0.ids[s0.idx[2]] + s0.ids[s0.idx[0]] == {0, 2};
    assert s0.idx[2 := 0] == [0, 1, 0];
    assert s0.ids[0 := {0, 2}] == [{0, 2}, {1}, {2}];
    assert s1 == MergeState([{0, 2}, {1}, {2}], [0, 1, 0]);
    assert MergePairAsWritten(s0, fps, 0, 1) == s0;
    assert MergePairAsWritten(s1, fps, 1, 2) == s1;
    assert MergeFromAsWritten(s1, fps, 2, 4) == s1;
    assert MergeFromAsWritten(s1, fps, 1, 3) == s1;
    assert MergeFromAsWritten(s1, fps, 1, 2) == s1;
    assert MergeFromAsWritten(s1, fps, 0, 3) == s1;
    assert MergeFromAsWritten(s0, fps, 0, 2) == s1;
  }

  /** On the counterexample the merge as written pushes the first island's mask twice, so the
      masks overlap and the independence assertion fails, although root 1 is connected to
      neither of the others. */
  lemma MergeAsWrittenOverlaps()
    ensures MergeAsWritten(CEX_FOOTPRINTS) == [{0, 2}, {1}, {0, 2}]
    ensures MergeAsWritten(CEX_FOOTPRINTS)[0] * MergeAsWritten(CEX_FOOTPRINTS)[2] != {}
    ensures Connected(CEX_FOOTPRINTS, 0, 2) && !Connected(CEX_FOOTPRINTS, 0, 1) && !Connected(CEX_FOOTPRINTS, 2, 1)
  {
    CexMasksAsWritten();
    var m: seq<set<nat>> := MergeAsWritten(CEX_FOOTPRINTS);
    assert 0 in m[0] * m[2];
    CexConnectivity();
  }

  lemma CexMasksAsWritten()
    ensures MergeAsWritten(CEX_FOOTPRINTS) == [{0, 2}, {1}, {0, 2}]
  {
    CexMergeState();
    CexIndexList();
  }

  /** std::unique keeps all of [0, 1, 0]. */
  lemma CexIndexList()
    ensures AdjacentUnique([0, 1, 0]) == [0, 1, 0]
  {
    var s: seq<nat> := [0, 1, 0];
    assert forall i :: 0 <= i < |s| - 1 ==> s[i] != s[i + 1];
    AdjacentUniqueFixed(s);
  }

  lemma CexConnectivity()
    ensures Connected(CEX_FOOTPRINTS, 0, 2) && !Connected(CEX_FOOTPRINTS, 0, 1) && !Connected(CEX_FOOTPRINTS, 2, 1)
  {
    CexLinks();
    LinkedConnected(CEX_FOOTPRINTS, 0, 2);
    NotConnectedToIsolated(CEX_FOOTPRINTS, 0, 1);
    NotConnectedToIsolated(CEX_FOOTPRINTS, 2, 1);
  }

  /** The corrected merge on the same footprints yields the two disjoint islands {0, 2} and {1}. */
  lemma IslandsOnCounterexample()
    ensures Islands(CEX_FOOTPRINTS) == [{0, 2}, {1}]
  {
    CexLabels();
    var l := Labels(CEX_FOOTPRINTS);
    assert FirstSeen(l) == [0, 1] by {
      assert l[..2] == [0, 1] && l[..2][..1] == [0];
    }
    assert Members(l, 0) == {0, 2};
    assert Members(l, 1) == {1};
  }

  lemma CexLabels()
    ensures Labels(CEX_FOOTPRINTS) == [0, 1, 0]
  {
    var fps := CEX_FOOTPRINTS;
    CexLinks();
    var id: seq<nat> := [0, 1, 2];
    assert seq(3, k => k) == id;
    var l := MergePair(id, fps, 0, 2);
    assert l == Relabel(id, 2, 0);
    assert l == [0, 1, 0];
    assert MergePair(l, fps, 1, 2) == l;
    assert MergeFrom(l, fps, 2, 4) == l;
    assert MergeFrom(l, fps, 1, 3) == l;
    assert MergeFrom(l, fps, 1, 2) == l;
    assert MergeFrom(l, fps, 0, 3) == l;
    assert MergeFrom(id, fps, 0, 2) == l;
    assert MergePair(id, fps, 0, 1) == id;
    assert MergeFrom(id, fps, 0, 1) == l;
  }

  /** Root 1 of the counterexample is linked to nothing, so no path reaches it from root 0. */
  lemma NotConnectedToIsolated(fps: seq<Footprint>, a: nat, b: nat)
    requires a != b && b < |fps|
    requires forall i :: 0 <= i < |fps| && i != b ==> !Linked(fps, i, b)
    ensures !Connected(fps, a, b)
  {
    if Connected(fps, a, b) {
      var p :| IsPath(fps, p) && p[0] == a && p[|p| - 1] == b;
      var t := LastDistinct(fps, p, a, b);
      assert false;
    }
  }

  /** On a path ending at b that starts elsewhere, some step enters b from another root. */
  lemma LastDistinct(fps: seq<Footprint>, p: seq<nat>, a: nat, b: nat) returns (t: nat)
    requires IsPath(fps, p) && p[0] == a && p[|p| - 1] == b && a != b
    ensures 0 < t < |p| && p[t] == b && p[t - 1] != b && Linked(fps, p[t - 1], p[t])
  {
    t := |p| - 1;
    while p[t - 1] == b
      invariant 0 < t < |p| && p[t] == b
      decreases t
    {
      t := t - 1;
    }
    assert Linked(fps, p[t - 1], p[t]);
  }

  // ---------------------------------------------------------------------------
  // The corrected merge: every member of the absorbed island takes the smaller label

  /** Slots labelled `from` are relabelled `to`. */
  function Relabel(lab: seq<nat>, from: nat, to: nat): (l: seq<nat>)
    ensures |l| == |lab|
  {
    seq(|lab|, k requires 0 <= k < |lab| => if lab[k] == from then to else lab[k])
  }

  function MergePair(lab: seq<nat>, fps: seq<Footprint>, i: nat, j: nat): (l: seq<nat>)
    requires |lab| == |fps| && i < j < |fps|
    ensures |l| == |lab|
  {
    if !Linked(fps, i, j) then lab
    else if lab[i] <= lab[j] then Relabel(lab, lab[j], lab[i])
    else Relabel(lab, lab[i], lab[j])
  }

  function MergeFrom(lab: seq<nat>, fps: seq<Footprint>, i: nat, j: nat): (l: seq<nat>)
    requires |lab| == |fps| && i < j <= |fps| + 1
    ensures |l| == |lab|
    decreases |fps| - i, |fps| + 1 - j
  {
    if i >= |fps| then lab
    else if j >= |fps| then MergeFrom(lab, fps, i + 1, i + 2)
    else MergeFrom(MergePair(lab, fps, i, j), fps, i, j + 1)
  }

  /** The island label of every root. */
  function Labels(fps: seq<Footprint>): (l: seq<nat>)
    ensures |l| == |fps|
  {
    MergeFrom(seq(|fps|, k => k), fps, 0, 1)
  }

  /** The roots labelled `label`. */
  function Members(lab: seq<nat>, id: nat): set<nat> {
    set k | 0 <= k < |lab| && lab[k] == id
  }

  /** One affinity mask per island, in order of each island's first root. */
  function Islands(fps: seq<Footprint>): seq<set<nat>> {
    var lab := Labels(fps);
    var reps := FirstSeen(lab);
    seq(|reps|, t requires 0 <= t < |reps| => Members(lab, reps[t]))
  }

  /** Equal labels only between connected roots. */
  ghost predicate Sound(lab: seq<nat>, fps: seq<Footprint>)
    requires |lab| == |fps|
  {
    forall a, b {:trigger SameLabel(lab, a, b)} :: SameLabel(lab, a, b) ==> Connected(fps, a, b)
  }

  predicate SameLabel(lab: seq<nat>, a: nat, b: nat) {
    a < |lab| && b < |lab| && lab[a] == lab[b]
  }

  /** Pair (a, b) comes before pair (i, j) in the loop's order. */
  predicate Before(a: nat, b: nat, i: nat, j: nat) {
    a < i || (a == i && b < j)
  }

  /** Every linked pair visited so far has equal labels. */
  predicate Done(lab: seq<nat>, fps: seq<Footprint>, i: nat, j: nat)
    requires |lab| == |fps|
  {
    forall a, b :: 0 <= a < b < |lab| && Before(a, b, i, j) && Linked(fps, a, b) ==> lab[a] == lab[b]
  }

  lemma MergePairSound(lab: seq<nat>, fps: seq<Footprint>, i: nat, j: nat)
    requires |lab| == |fps| && i < j < |fps| && Sound(lab, fps)
    ensures Sound(MergePair(lab, fps, i, j), fps)
  {
    var l := MergePair(lab, fps, i, j);
    if Linked(fps, i, j) {
      // lo keeps its label, and every slot labelled like hi takes it.
      var lo, hi := if lab[i] <= lab[j] then i else j, if lab[i] <= lab[j] then j else i;
      LinkedConnected(fps, i, j);
      ConnectedSym(fps, i, j);
      assert Connected(fps, lo, hi) && Connected(fps, hi, lo);
      forall a: nat, b: nat | SameLabel(l, a, b) ensures Connected(fps, a, b) {
        if lab[a] == lab[b] {
          assert SameLabel(lab, a, b);
        } else if lab[a] == lab[hi] {
          assert SameLabel(lab, a, hi) && SameLabel(lab, lo, b);
          ConnectedTrans(fps, a, hi, lo);
          ConnectedTrans(fps, a, lo, b);
        } else {
          assert SameLabel(lab, a, lo) && SameLabel(lab, hi, b);
          ConnectedTrans(fps, a, lo, hi);
          ConnectedTrans(fps, a, hi, b);
        }
      }
    }
  }

  lemma MergePairDone(lab: seq<nat>, fps: seq<Footprint>, i: nat, j: nat)
    requires |lab| == |fps| && i < j < |fps| && Done(lab, fps, i, j)
    ensures Done(MergePair(lab, fps, i, j), fps, i, j + 1)
  {
  }

  /** The invariant of the merge loops: connected labels only, and every visited linked pair merged. */
  ghost predicate MergeInv(lab: seq<nat>, fps: seq<Footprint>, i: nat, j: nat)
    requires |lab| == |fps|
  {
    Sound(lab, fps) && Done(lab, fps, i, j)
  }

  lemma {:induction false} MergeFromCorrect(lab: seq<nat>, fps: seq<Footprint>, i: nat, j: nat)
    requires |lab| == |fps| && i < j <= |fps| + 1
    requires MergeInv(lab, fps, i, j)
    ensures MergeInv(MergeFrom(lab, fps, i, j), fps, |fps|, |fps| + 1)
    decreases |fps| - i, |fps| + 1 - j
  {
    var r := MergeFrom(lab, fps, i, j);
    if i >= |fps| {
      LastRowDone(lab, fps, i, j);
    } else if j >= |fps| {
      RowDone(lab, fps, i, j);
      MergeFromCorrect(lab, fps, i + 1, i + 2);
      assert r == MergeFrom(lab, fps, i + 1, i + 2);
    } else {
      var next := MergePair(lab, fps, i, j);
      PairStep(lab, fps, i, j);
      MergeFromCorrect(next, fps, i, j + 1);
      assert r == MergeFrom(next, fps, i, j + 1);
    }
  }

  lemma LastRowDone(lab: seq<nat>, fps: seq<Footprint>, i: nat, j: nat)
    requires |lab| == |fps| && |fps| <= i < j <= |fps| + 1 && MergeInv(lab, fps, i, j)
    ensures MergeFrom(lab, fps, i, j) == lab
    ensures MergeInv(lab, fps, |fps|, |fps| + 1)
  {
    DoneMonotone(lab, fps, i, j, |fps|, |fps| + 1);
  }

  lemma RowDone(lab: seq<nat>, fps: seq<Footprint>, i: nat, j: nat)
    requires |lab| == |fps| && i < |fps| <= j <= |fps| + 1 && MergeInv(lab, fps, i, j)
    ensures MergeFrom(lab, fps, i, j) == MergeFrom(lab, fps, i + 1, i + 2)
    ensures MergeInv(lab, fps, i + 1, i + 2)
  {
    DoneMonotone(lab, fps, i, j, i + 1, i + 2);
  }

  lemma PairStep(lab: seq<nat>, fps: seq<Footprint>, i: nat, j: nat)
    requires |lab| == |fps| && i < j < |fps| && MergeInv(lab, fps, i, j)
    ensures MergeFrom(lab, fps, i, j) == MergeFrom(MergePair(lab, fps, i, j), fps, i, j + 1)
    ensures MergeInv(MergePair(lab, fps, i, j), fps, i, j + 1)
  {
    MergePairSound(lab, fps, i, j);
    MergePairDone(lab, fps, i, j);
  }

  /** Done at the end of a row is Done at the start of the next, and at the end of the loops. */
  lemma DoneMonotone(lab: seq<nat>, fps: seq<Footprint>, i: nat, j: nat, i': nat, j': nat)
    requires |lab| == |fps| && Done(lab, fps, i, j)
    requires j >= |fps| && (i' <= i || (i' == i + 1 && j' == i + 2))
    ensures Done(lab, fps, i', j')
  {
    forall a, b | 0 <= a < b < |lab| && Before(a, b, i', j') && Linked(fps, a, b) ensures lab[a] == lab[b] {
      assert Before(a, b, i, j);
    }
  }

  /** Connected roots end up with the same label, and roots with the same label are connected. */
  lemma LabelsMeaning(fps: seq<Footprint>, a: nat, b: nat)
    requires a < |fps| && b < |fps|
    ensures Labels(fps)[a] == Labels(fps)[b] <==> Connected(fps, a, b)
  {
    var id := seq(|fps|, k => k);
    assert Sound(id, fps) by {
      forall a': nat, b': nat | SameLabel(id, a', b') ensures Connected(fps, a', b') {
        ConnectedRefl(fps, a');
      }
    }
    MergeFromCorrect(id, fps, 0, 1);
    assert Done(Labels(fps), fps, |fps|, |fps| + 1);
    if Labels(fps)[a] == Labels(fps)[b] {
      assert SameLabel(Labels(fps), a, b);
    }
    if Connected(fps, a, b) {
      var p :| IsPath(fps, p) && p[0] == a && p[|p| - 1] == b;
      PathSameLabel(Labels(fps), fps, p);
    }
  }

  lemma {:induction false} PathSameLabel(lab: seq<nat>, fps: seq<Footprint>, p: seq<nat>)
    requires |lab| == |fps| && IsPath(fps, p) && Done(lab, fps, |fps|, |fps| + 1)
    ensures lab[p[0]] == lab[p[|p| - 1]]
  {
    if |p| > 1 {
      var q := p[..|p| - 1];
      assert IsPath(fps, q) by {
        forall t | 0 < t < |q| ensures Linked(fps, q[t - 1], q[t]) {
          assert q[t - 1] == p[t - 1] && q[t] == p[t];
        }
      }
      PathSameLabel(lab, fps, q);
      var x, y := p[|p| - 2], p[|p| - 1];
      assert Linked(fps, x, y);
      if x > y {
        assert Linked(fps, y, x);
      }
    }
  }

  /** The position in Islands(fps) of the island holding root k. */
  function IslandOf(fps: seq<Footprint>, k: nat): (t: nat)
    requires k < |fps|
    ensures t < |Islands(fps)|
  {
    IndexOf(FirstSeen(Labels(fps)), Labels(fps)[k])
  }

  /** The islands are disjoint and non-empty, hold only roots, cover every root, and two
      roots share an island exactly when a chain of linked roots joins them. */
  lemma IslandsMeaning(fps: seq<Footprint>)
    ensures forall s, t :: 0 <= s < t < |Islands(fps)| ==> Islands(fps)[s] * Islands(fps)[t] == {}
    ensures forall t :: 0 <= t < |Islands(fps)| ==> Islands(fps)[t] != {}
    ensures forall t, k :: 0 <= t < |Islands(fps)| && k in Islands(fps)[t] ==> k < |fps|
    ensures forall k :: 0 <= k < |fps| ==> k in Islands(fps)[IslandOf(fps, k)]
    ensures forall t, a, b :: 0 <= t < |Islands(fps)| && a in Islands(fps)[t] && b in Islands(fps)[t] ==> Connected(fps, a, b)
    ensures forall a, b :: 0 <= a < |fps| && 0 <= b < |fps| && Connected(fps, a, b) ==> IslandOf(fps, a) == IslandOf(fps, b)
  {
    var lab := Labels(fps);
    var reps := FirstSeen(lab);
    var isl := Islands(fps);
    forall t | 0 <= t < |isl| ensures isl[t] != {} {
      assert reps[t] in lab;
      var k := IndexOf(lab, reps[t]);
      assert k in isl[t];
    }
    forall t, a, b | 0 <= t < |isl| && a in isl[t] && b in isl[t] ensures Connected(fps, a, b) {
      LabelsMeaning(fps, a, b);
    }
    forall a, b | 0 <= a < |fps| && 0 <= b < |fps| && Connected(fps, a, b)
      ensures IslandOf(fps, a) == IslandOf(fps, b)
    {
      LabelsMeaning(fps, a, b);
    }
  }

  // ---------------------------------------------------------------------------
  // The loops

  /** The relabelling sweep of one merge. */
  method RelabelSweep(lab: seq<nat>, from: nat, to: nat) returns (l: seq<nat>)
    ensures l == Relabel(lab, from, to)
  {
    l := lab;
    var k := 0;
    while k < |l|
      invariant 0 <= k <= |l| == |lab|
      invariant forall x :: 0 <= x < |lab| ==> l[x] == if x < k && lab[x] == from then to else lab[x]
    {
      if l[k] == from {
        l := l[k := to];
      }
      k := k + 1;
    }
  }

  /** The merge loops, the island masks, and the independence check over them. */
  method MergeIslands(fps: seq<Footprint>) returns (masks: seq<set<nat>>)
    ensures masks == Islands(fps)
  {
    var lab := LabelIslands(fps);
    masks := CollectIslands(fps, lab);
  }

  /** The pairwise merge loops: every pair of linked roots ends up with one label. */
  method LabelIslands(fps: seq<Footprint>) returns (lab: seq<nat>)
    ensures lab == Labels(fps)
  {
    var n := |fps|;
    lab := seq(n, k => k);
    var i := 0;
    while i < n
      invariant 0 <= i <= n && |lab| == n
      invariant MergeFrom(lab, fps, i, i + 1) == Labels(fps)
    {
      var j := i + 1;
      while j < n
        invariant i < j <= n + 1 && |lab| == n
        invariant j <= n
        invariant MergeFrom(lab, fps, i, j) == Labels(fps)
      {
        if Linked(fps, i, j) {
          if lab[i] <= lab[j] {
            lab := RelabelSweep(lab, lab[j], lab[i]);
          } else {
            lab := RelabelSweep(lab, lab[i], lab[j]);
          }
        }
        j := j + 1;
      }
      i := i + 1;
    }
  }

  /** One mask per label, in order of first appearance, checked to be disjoint from the others. */
  method CollectIslands(fps: seq<Footprint>, lab: seq<nat>) returns (masks: seq<set<nat>>)
    requires lab == Labels(fps)
    ensures masks == Islands(fps)
  {
    var reps := FirstSeen(lab);
    masks := [];
    var check: set<nat> := {};
    IslandsMeaning(fps);
    var t := 0;
    while t < |reps|
      invariant 0 <= t <= |reps| && |masks| == t
      invariant forall s :: 0 <= s < t ==> masks[s] == Islands(fps)[s]
      invariant forall x :: x in check <==> exists s :: 0 <= s < t && x in masks[s]
    {
      var q := Members(lab, reps[t]);
      assert q == Islands(fps)[t];
      assert q * check == {};  // the independence check of the source holds
      masks := masks + [q];
      check := check + q;
      t := t + 1;
    }
  }
}
