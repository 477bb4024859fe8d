// FillInitData (Utils/DDSTextureLoader.cpp:350-442): walking the payload of a DDS file
// array item by array item and mip level by mip level, recording where each kept
// subresource starts and its row and slice pitch.

module DdsFill {

  import opened RenderFormats
  import opened DdsBytes

  /** What Textures_GetSurfaceInfo reports for one mip level: its size and its row pitch. */
  datatype SurfaceInfo = SurfaceInfo(numBytes: nat, rowBytes: nat)

  /** Textures_GetSurfaceInfo, which the device layer defines, as a parameter. */
  type SurfaceOracle = (nat, nat, RenderFormat) -> SurfaceInfo

  /** MipData: `offset` is the distance of the subresource from the start of the payload. */
  datatype MipData = MipData(offset: nat, rowPitch: nat, slicePitch: nat)

  datatype FillParams = FillParams(width: nat, height: nat, depth: nat, mipCount: nat, arraySize: nat,
                                   format: RenderFormat, maxSize: nat, bitSize: nat)

  /** The loop's variables: the read position, the records written, the top kept extent, the
      mips skipped on the first item, and whether the walk stopped with `false`. */
  datatype FillState = FillState(src: nat, entries: seq<MipData>, twidth: nat, theight: nat, tdepth: nat,
                                 skipMip: nat, failed: bool)

  const START: FillState := FillState(0, [], 0, 0, 0, 0, false)

  /** `x >> 1`, then 1 in place of 0. */
  function Half(x: nat): (y: nat)
    ensures y >= 1 && (x >= 2 ==> y == x / 2) && (x < 2 ==> y == 1)
  {
    if x / 2 == 0 then 1 else x / 2
  }

  /** The `(uint32_t)` casts on the extents handed to the device. */
  function Narrow(x: nat): nat {
    x % 0x1_0000_0000
  }

  /** Whether a mip level of this extent is kept. */
  predicate Keeps(p: FillParams, w: nat, h: nat, d: nat) {
    p.mipCount <= 1 || p.maxSize == 0 || (w <= p.maxSize && h <= p.maxSize && d <= p.maxSize)
  }

  /** One pass of the inner loop, for item `j` at extent (w, h, d). */
  function MipStep(p: FillParams, surface: SurfaceOracle, j: nat, w: nat, h: nat, d: nat, st: FillState): FillState {
    var si := surface(Narrow(w), Narrow(h), p.format);
    if si.numBytes > UINT32_MAX || si.rowBytes > UINT32_MAX then st.(failed := true)
    else
      var kept :=
        if Keeps(p, w, h, d) then
          var st1 := if st.twidth == 0 then st.(twidth := w, theight := h, tdepth := d) else st;
          st1.(entries := st1.entries + [MipData(st.src, si.rowBytes, si.numBytes)])
        else if j == 0 then st.(skipMip := st.skipMip + 1)
        else st;
      if kept.src + si.numBytes * d > p.bitSize then kept.(failed := true)
      else kept.(src := kept.src + si.numBytes * d)
  }

  /** The inner loop from mip `i` on. */
  function MipsFrom(p: FillParams, surface: SurfaceOracle, j: nat, i: nat, w: nat, h: nat, d: nat, st: FillState): FillState
    decreases p.mipCount - i
  {
    if st.failed || i >= p.mipCount then st
    else MipsFrom(p, surface, j, i + 1, Half(w), Half(h), Half(d), MipStep(p, surface, j, w, h, d, st))
  }

  /** The outer loop from item `j` on; every item starts again from the top extent. */
  function ItemsFrom(p: FillParams, surface: SurfaceOracle, j: nat, st: FillState): FillState
    decreases p.arraySize - j
  {
    if st.failed || j >= p.arraySize then st
    else ItemsFrom(p, surface, j + 1, MipsFrom(p, surface, j, 0, p.width, p.height, p.depth, st))
  }

  function Fill(p: FillParams, surface: SurfaceOracle): FillState {
    ItemsFrom(p, surface, 0, START)
  }

  /** FillInitData's result: the walk reached the end and recorded at least one subresource. */
  predicate FillSucceeds(p: FillParams, surface: SurfaceOracle) {
    !Fill(p, surface).failed && |Fill(p, surface).entries| > 0
  }

  // ---------------------------------------------------------------------------
  // What the walk fills in

  /** Every level is kept when there is no size cap or only one level. */
  predicate KeepsAll(p: FillParams) {
    p.maxSize == 0 || p.mipCount <= 1
  }

  lemma {:induction false} MipsKeepAll(p: FillParams, surface: SurfaceOracle, j: nat, i: nat, w: nat, h: nat, d: nat,
                                       st: FillState)
    requires KeepsAll(p) && i <= p.mipCount
    ensures var r := MipsFrom(p, surface, j, i, w, h, d, st);
      !r.failed ==> !st.failed && |r.entries| == |st.entries| + (p.mipCount - i) && r.skipMip == st.skipMip
    decreases p.mipCount - i
  {
    if !st.failed && i < p.mipCount {
      MipsKeepAll(p, surface, j, i + 1, Half(w), Half(h), Half(d), MipStep(p, surface, j, w, h, d, st));
    }
  }

  lemma {:induction false} ItemsKeepAll(p: FillParams, surface: SurfaceOracle, j: nat, st: FillState)
    requires KeepsAll(p) && j <= p.arraySize
    ensures var r := ItemsFrom(p, surface, j, st);
      !r.failed ==> |r.entries| == |st.entries| + (p.arraySize - j) * p.mipCount && r.skipMip == st.skipMip
    decreases p.arraySize - j
  {
    if !st.failed && j < p.arraySize {
      var m := MipsFrom(p, surface, j, 0, p.width, p.height, p.depth, st);
      MipsKeepAll(p, surface, j, 0, p.width, p.height, p.depth, st);
      ItemsKeepAll(p, surface, j + 1, m);
      assert (p.arraySize - j) * p.mipCount == p.mipCount + (p.arraySize - (j + 1)) * p.mipCount;
    }
  }

  /** Without a size cap (the only way DDSTextureLoader_Load calls it), a walk that reaches the end
      records every mip level of every array item and skips none. */
  lemma FillKeepsAll(p: FillParams, surface: SurfaceOracle)
    requires KeepsAll(p)
    ensures !Fill(p, surface).failed ==>
      |Fill(p, surface).entries| == p.mipCount * p.arraySize && Fill(p, surface).skipMip == 0
  {
    ItemsKeepAll(p, surface, 0, START);
  }

  lemma {:induction false} MipsAtMost(p: FillParams, surface: SurfaceOracle, j: nat, i: nat, w: nat, h: nat, d: nat,
                                      st: FillState)
    requires i <= p.mipCount
    ensures |MipsFrom(p, surface, j, i, w, h, d, st).entries| <= |st.entries| + (p.mipCount - i)
    decreases p.mipCount - i
  {
    if !st.failed && i < p.mipCount {
      MipsAtMost(p, surface, j, i + 1, Half(w), Half(h), Half(d), MipStep(p, surface, j, w, h, d, st));
    }
  }

  lemma {:induction false} ItemsAtMost(p: FillParams, surface: SurfaceOracle, j: nat, st: FillState)
    requires j <= p.arraySize
    ensures |ItemsFrom(p, surface, j, st).entries| <= |st.entries| + (p.arraySize - j) * p.mipCount
    decreases p.arraySize - j
  {
    if !st.failed && j < p.arraySize {
      var m := MipsFrom(p, surface, j, 0, p.width, p.height, p.depth, st);
      MipsAtMost(p, surface, j, 0, p.width, p.height, p.depth, st);
      ItemsAtMost(p, surface, j + 1, m);
      assert (p.arraySize - j) * p.mipCount == p.mipCount + (p.arraySize - (j + 1)) * p.mipCount;
    }
  }

  /** The walk never records more than one entry per subresource, so the record array of
      `mipCount * arraySize` cells always has room (the assertion at line 404). */
  lemma FillRecordsAtMost(p: FillParams, surface: SurfaceOracle)
    ensures |Fill(p, surface).entries| <= p.mipCount * p.arraySize
  {
    ItemsAtMost(p, surface, 0, START);
  }

  /** Once the top extent is recorded it stays. */
  lemma {:induction false} MipsTopStays(p: FillParams, surface: SurfaceOracle, j: nat, i: nat, w: nat, h: nat, d: nat,
                                        st: FillState)
    requires st.twidth != 0
    ensures var r := MipsFrom(p, surface, j, i, w, h, d, st);
      r.twidth == st.twidth && r.theight == st.theight && r.tdepth == st.tdepth
    decreases p.mipCount - i
  {
    if !st.failed && i < p.mipCount {
      MipsTopStays(p, surface, j, i + 1, Half(w), Half(h), Half(d), MipStep(p, surface, j, w, h, d, st));
    }
  }

  lemma {:induction false} ItemsTopStays(p: FillParams, surface: SurfaceOracle, j: nat, st: FillState)
    requires st.twidth != 0
    ensures var r := ItemsFrom(p, surface, j, st);
      r.twidth == st.twidth && r.theight == st.theight && r.tdepth == st.tdepth
    decreases p.arraySize - j
  {
    if !st.failed && j < p.arraySize {
      MipsTopStays(p, surface, j, 0, p.width, p.height, p.depth, st);
      ItemsTopStays(p, surface, j + 1, MipsFrom(p, surface, j, 0, p.width, p.height, p.depth, st));
    }
  }

  /** Without a size cap, the extent reported for the texture is the extent of its top level. */
  lemma FillTopExtent(p: FillParams, surface: SurfaceOracle)
    requires KeepsAll(p) && p.width >= 1 && p.mipCount >= 1 && p.arraySize >= 1
    ensures var r := Fill(p, surface);
      !r.failed ==> r.twidth == p.width && r.theight == p.height && r.tdepth == p.depth
  {
    var first := MipStep(p, surface, 0, p.width, p.height, p.depth, START);
    var m := MipsFrom(p, surface, 0, 1, Half(p.width), Half(p.height), Half(p.depth), first);
    assert MipsFrom(p, surface, 0, 0, p.width, p.height, p.depth, START) == m;
    assert Fill(p, surface) == ItemsFrom(p, surface, 1, m);
    if !first.failed {
      assert first.twidth == p.width && first.theight == p.height && first.tdepth == p.depth;
      MipsTopStays(p, surface, 0, 1, Half(p.width), Half(p.height), Half(p.depth), first);
      ItemsTopStays(p, surface, 1, m);
    } else {
      assert m == first;
      assert ItemsFrom(p, surface, 1, m) == first;
    }
  }

  /** Where the record after record `k` begins, or the read position after the last one. */
  function NextStart(st: FillState, k: nat): nat
    requires k < |st.entries|
  {
    if k + 1 < |st.entries| then st.entries[k + 1].offset else st.src
  }

  /** The records so far lie one after another, each ending no later than the next begins, and the
      last ending no later than the read position, which is within the payload. */
  ghost predicate Walked(p: FillParams, st: FillState) {
    st.src <= p.bitSize &&
    forall k {:trigger NextStart(st, k)} ::
      0 <= k < |st.entries| ==> st.entries[k].offset + st.entries[k].slicePitch <= NextStart(st, k)
  }

  lemma MipStepWalked(p: FillParams, surface: SurfaceOracle, j: nat, w: nat, h: nat, d: nat, st: FillState)
    requires d >= 1 && Walked(p, st)
    ensures var r := MipStep(p, surface, j, w, h, d, st); !r.failed ==> Walked(p, r)
  {
    var r := MipStep(p, surface, j, w, h, d, st);
    var si := surface(Narrow(w), Narrow(h), p.format);
    if !r.failed {
      assert r.src == st.src + si.numBytes * d && si.numBytes <= si.numBytes * d;
      if Keeps(p, w, h, d) {
        var e := MipData(st.src, si.rowBytes, si.numBytes);
        assert r.entries == st.entries + [e];
        forall k | 0 <= k < |r.entries| ensures r.entries[k].offset + r.entries[k].slicePitch <= NextStart(r, k) {
          if k + 1 < |st.entries| {
            assert NextStart(st, k) == NextStart(r, k);
          } else if k + 1 == |st.entries| {
            assert NextStart(st, k) == st.src == NextStart(r, k);
          }
        }
      } else {
        assert r.entries == st.entries;
        forall k | 0 <= k < |r.entries| ensures r.entries[k].offset + r.entries[k].slicePitch <= NextStart(r, k) {
          assert NextStart(st, k) <= NextStart(r, k);
        }
      }
    }
  }

  lemma {:induction false} MipsWalked(p: FillParams, surface: SurfaceOracle, j: nat, i: nat, w: nat, h: nat, d: nat,
                                      st: FillState)
    requires d >= 1 && !st.failed && Walked(p, st)
    ensures var r := MipsFrom(p, surface, j, i, w, h, d, st); !r.failed ==> Walked(p, r)
    decreases p.mipCount - i
  {
    if i < p.mipCount {
      var next := MipStep(p, surface, j, w, h, d, st);
      MipStepWalked(p, surface, j, w, h, d, st);
      if !next.failed {
        MipsWalked(p, surface, j, i + 1, Half(w), Half(h), Half(d), next);
      }
    }
  }

  lemma {:induction false} ItemsWalked(p: FillParams, surface: SurfaceOracle, j: nat, st: FillState)
    requires p.depth >= 1 && !st.failed && Walked(p, st)
    ensures var r := ItemsFrom(p, surface, j, st); !r.failed ==> Walked(p, r)
    decreases p.arraySize - j
  {
    if j < p.arraySize {
      var m := MipsFrom(p, surface, j, 0, p.width, p.height, p.depth, st);
      MipsWalked(p, surface, j, 0, p.width, p.height, p.depth, st);
      if !m.failed {
        ItemsWalked(p, surface, j + 1, m);
      }
    }
  }

  lemma {:induction false} WalkedEnd(p: FillParams, st: FillState, k: nat)
    requires Walked(p, st) && k < |st.entries|
    ensures st.entries[k].offset + st.entries[k].slicePitch <= st.src
    decreases |st.entries| - k
  {
    assert st.entries[k].offset + st.entries[k].slicePitch <= NextStart(st, k);
    if k + 1 < |st.entries| {
      WalkedEnd(p, st, k + 1);
      assert NextStart(st, k) == st.entries[k + 1].offset;
    }
  }

  /** A walk that reaches the end has recorded subresources that follow one another without
      overlapping and lie inside the payload (for a depth of at least one: a depth of zero
      consumes no bytes for the top level). */
  lemma FillWithinPayload(p: FillParams, surface: SurfaceOracle)
    requires p.depth >= 1
    ensures var r := Fill(p, surface);
      !r.failed ==> (r.src <= p.bitSize &&
        (forall k :: 0 <= k < |r.entries| ==> r.entries[k].offset + r.entries[k].slicePitch <= r.src) &&
        (forall k :: 0 <= k < |r.entries| - 1 ==> r.entries[k].offset + r.entries[k].slicePitch <= r.entries[k + 1].offset))
  {
    ItemsWalked(p, surface, 0, START);
    var r := Fill(p, surface);
    if !r.failed {
      forall k | 0 <= k < |r.entries| ensures r.entries[k].offset + r.entries[k].slicePitch <= r.src {
        WalkedEnd(p, r, k);
      }
      forall k | 0 <= k < |r.entries| - 1
        ensures r.entries[k].offset + r.entries[k].slicePitch <= r.entries[k + 1].offset
      {
        assert NextStart(r, k) == r.entries[k + 1].offset;
      }
    }
  }

  lemma CountBound(j: nat, i: nat, m: nat, n: nat)
    requires j < n && i < m
    ensures j * m + i < m * n
    ensures j * m + i + 1 <= (j + 1) * m
  {
    assert (j + 1) * m <= n * m;
  }

  /** The loop variables of FillInitData hold what the state `st` describes; the records so far
      are the first `index` cells of `initData`. */
  ghost predicate Mirrors(st: FillState, src: nat, index: nat, twidth: nat, theight: nat, tdepth: nat, skipMip: nat,
                          initData: array<MipData>)
    reads initData
  {
    st.src == src && |st.entries| == index && index <= initData.Length && initData[..index] == st.entries &&
    st.twidth == twidth && st.theight == theight && st.tdepth == tdepth && st.skipMip == skipMip
  }

  /** The inner loop of FillInitData: the mip levels of array item `j`. */
  method FillItem(p: FillParams, surface: SurfaceOracle, j: nat, initData: array<MipData>, ghost cur: FillState,
                  src0: nat, index0: nat, twidth0: nat, theight0: nat, tdepth0: nat, skipMip0: nat)
    returns (ghost res: FillState, failed: bool, src: nat, index: nat, twidth: nat, theight: nat, tdepth: nat,
             skipMip: nat)
    requires j < p.arraySize && initData.Length >= p.mipCount * p.arraySize
    requires !cur.failed && Mirrors(cur, src0, index0, twidth0, theight0, tdepth0, skipMip0, initData)
    requires index0 <= j * p.mipCount
    modifies initData
    ensures res == MipsFrom(p, surface, j, 0, p.width, p.height, p.depth, cur) && failed == res.failed
    ensures Mirrors(res, src, index, twidth, theight, tdepth, skipMip, initData)
    ensures index0 <= index && (!res.failed ==> index <= (j + 1) * p.mipCount)
    ensures forall k :: index <= k < initData.Length ==> initData[k] == old(initData[k])
  {
    src, index, twidth, theight, tdepth, skipMip := src0, index0, twidth0, theight0, tdepth0, skipMip0;
    res, failed := cur, false;
    var w, h, d := p.width, p.height, p.depth;
    var i := 0;
    while i < p.mipCount
      invariant 0 <= i <= p.mipCount
      invariant !res.failed && Mirrors(res, src, index, twidth, theight, tdepth, skipMip, initData)
      invariant MipsFrom(p, surface, j, 0, p.width, p.height, p.depth, cur) == MipsFrom(p, surface, j, i, w, h, d, res)
      invariant index0 <= index <= j * p.mipCount + i
      invariant forall k :: index <= k < initData.Length ==> initData[k] == old(initData[k])
      decreases p.mipCount - i
    {
      CountBound(j, i, p.mipCount, p.arraySize);
      var si := surface(Narrow(w), Narrow(h), p.format);
      var next := MipStep(p, surface, j, w, h, d, res);
      if si.numBytes > UINT32_MAX || si.rowBytes > UINT32_MAX {
        res, failed := next, true;
        return;
      }
      if Keeps(p, w, h, d) {
        if twidth == 0 {
          twidth, theight, tdepth := w, h, d;
        }
        initData[index] := MipData(src, si.rowBytes, si.numBytes);
        index := index + 1;
      } else if j == 0 {
        skipMip := skipMip + 1;
      }
      if src + si.numBytes * d > p.bitSize {
        res, failed := next, true;
        return;
      }
      src := src + si.numBytes * d;
      res := next;
      w, h, d := Half(w), Half(h), Half(d);
      i := i + 1;
    }
    assert j * p.mipCount + p.mipCount == (j + 1) * p.mipCount;
  }

  /** FillInitData.  `bitDataPresent` and a null `initData` stand for the two pointers the
      source checks first; the caller provides room for every subresource.  The four reference
      parameters come in as `twidth0` to `skipMip0` and go out as `twidth` to `skipMip`: a refused
      call returns before touching them. */
  method FillInitData(p: FillParams, surface: SurfaceOracle, bitDataPresent: bool, initData: array?<MipData>,
                      twidth0: nat, theight0: nat, tdepth0: nat, skipMip0: nat)
    returns (ok: bool, twidth: nat, theight: nat, tdepth: nat, skipMip: nat)
    requires initData != null ==> initData.Length >= p.mipCount * p.arraySize
    modifies initData
    ensures !bitDataPresent || initData == null ==>
      !ok && twidth == twidth0 && theight == theight0 && tdepth == tdepth0 && skipMip == skipMip0
    ensures bitDataPresent && initData != null ==>
      var st := Fill(p, surface);
      ok == FillSucceeds(p, surface) &&
      twidth == st.twidth && theight == st.theight && tdepth == st.tdepth && skipMip == st.skipMip &&
      |st.entries| <= initData.Length && initData[..|st.entries|] == st.entries &&
      (forall k :: |st.entries| <= k < initData.Length ==> initData[k] == old(initData[k]))
  {
    if !bitDataPresent || initData == null {
      return false, twidth0, theight0, tdepth0, skipMip0;
    }
    twidth, theight, tdepth, skipMip := 0, 0, 0, 0;
    var src: nat := 0;
    var index: nat := 0;
    ghost var cur := START;
    var j := 0;
    while j < p.arraySize
      invariant j <= p.arraySize
      invariant !cur.failed && Fill(p, surface) == ItemsFrom(p, surface, j, cur)
      invariant Mirrors(cur, src, index, twidth, theight, tdepth, skipMip, initData)
      invariant index <= j * p.mipCount
      invariant forall k :: index <= k < initData.Length ==> initData[k] == old(initData[k])
      decreases p.arraySize - j
    {
      var failed;
      cur, failed, src, index, twidth, theight, tdepth, skipMip :=
        FillItem(p, surface, j, initData, cur, src, index, twidth, theight, tdepth, skipMip);
      if failed {
        return false, twidth, theight, tdepth, skipMip;
      }
      j := j + 1;
    }
    ok := index > 0;
  }
}
