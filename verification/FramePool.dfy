/** The pool of ten fixed-size frame buffers and the move-only handles that own them. */
module FramePool {
  import opened Common

  const POOL_SIZE: nat := 10
  const SLOT_LEN: u32 := 2 * 1024 * 1024

  /** A handle as its owner stores it: `Moved` is the state a move leaves behind (null pool and
      frame pointers, index UINT32_MAX), which is also what an empty optional holds. */
  datatype FrameData = FrameData(idx: nat, frameLen: u32) | Moved {
    predicate IsValid() { FrameData? && idx < POOL_SIZE }

    function DataLen(): u32 { if FrameData? then frameLen else 0 }
  }

  // How often a handle owns pool index i: once or not at all.
  function Own(h: FrameData, i: nat): nat {
    if h.IsValid() && h.idx == i then 1 else 0
  }

  // How often the handles of a list own pool index i.
  ghost function Held(hs: seq<FrameData>, i: nat): nat {
    if hs == [] then 0 else Own(hs[0], i) + Held(hs[1..], i)
  }

  // How often pool index i is in a free list.
  ghost function Listed(free: seq<nat>, i: nat): nat { multiset(free)[i] }

  // How many handles of a list own a buffer.
  ghost function ValidCount(hs: seq<FrameData>): nat {
    if hs == [] then 0 else (if hs[0].IsValid() then 1 else 0) + ValidCount(hs[1..])
  }

  function Indices(n: nat): (s: seq<nat>)
    ensures |s| == n && forall k | 0 <= k < n :: s[k] == k
  {
    if n == 0 then [] else Indices(n - 1) + [n - 1]
  }

  lemma {:induction false} IndexCount(n: nat, i: nat)
    ensures Listed(Indices(n), i) == (if i < n then 1 else 0)
  {
    if n > 0 {
      IndexCount(n - 1, i);
      var rest: seq<nat> := Indices(n - 1);
      ListedAppend(rest, n - 1, i);
    }
  }

  lemma {:induction false} HeldConcat(a: seq<FrameData>, b: seq<FrameData>, i: nat)
    ensures Held(a + b, i) == Held(a, i) + Held(b, i)
    ensures ValidCount(a + b) == ValidCount(a) + ValidCount(b)
  {
    if a == [] {
      assert a + b == b;
    } else {
      assert (a + b)[1..] == a[1..] + b;
      HeldConcat(a[1..], b, i);
    }
  }

  lemma HeldSingle(h: FrameData, i: nat)
    ensures Held([h], i) == Own(h, i) && ValidCount([h]) == if h.IsValid() then 1 else 0
  {
    assert [h][1..] == [];
  }

  lemma HeldSplit(hs: seq<FrameData>, j: nat, i: nat)
    requires j < |hs|
    ensures Held(hs, i) == Held(hs[..j], i) + Own(hs[j], i) + Held(hs[j + 1..], i)
    ensures ValidCount(hs) == ValidCount(hs[..j]) + (if hs[j].IsValid() then 1 else 0) + ValidCount(hs[j + 1..])
  {
    var a, b := hs[..j + 1], hs[j + 1..];
    assert hs == a + b;
    HeldConcat(a, b, i);
    assert a == hs[..j] + [hs[j]];
    HeldConcat(hs[..j], [hs[j]], i);
    HeldSingle(hs[j], i);
  }

  lemma HeldUpdate(hs: seq<FrameData>, j: nat, h: FrameData, i: nat)
    requires j < |hs|
    ensures Held(hs[j := h], i) + Own(hs[j], i) == Held(hs, i) + Own(h, i)
    ensures ValidCount(hs[j := h]) + (if hs[j].IsValid() then 1 else 0) == ValidCount(hs) + if h.IsValid() then 1 else 0
  {
    HeldSplit(hs, j, i);
    HeldSplit(hs[j := h], j, i);
    assert hs[j := h][..j] == hs[..j] && hs[j := h][j + 1..] == hs[j + 1..];
  }

  lemma HeldRemoveAt(hs: seq<FrameData>, k: nat, i: nat)
    requires k < |hs|
    ensures Held(RemoveAt(hs, k), i) + Own(hs[k], i) == Held(hs, i)
    ensures ValidCount(RemoveAt(hs, k)) + (if hs[k].IsValid() then 1 else 0) == ValidCount(hs)
  {
    HeldSplit(hs, k, i);
    HeldConcat(hs[..k], hs[k + 1..], i);
  }

  lemma HeldIn(hs: seq<FrameData>, j: nat)
    requires j < |hs| && hs[j].IsValid()
    ensures Held(hs, hs[j].idx) >= 1
  {
    HeldSplit(hs, j, hs[j].idx);
  }

  // Two list positions owning the same index are counted twice.
  lemma HeldTwice(hs: seq<FrameData>, j: nat, k: nat)
    requires j < k < |hs| && hs[j].IsValid() && hs[k].IsValid() && hs[j].idx == hs[k].idx
    ensures Held(hs, hs[j].idx) >= 2
  {
    HeldSplit(hs, j, hs[j].idx);
    HeldIn(hs[j + 1..], k - j - 1);
  }

  lemma {:induction false} HeldNothing(hs: seq<FrameData>, i: nat)
    requires forall k | 0 <= k < |hs| :: !hs[k].IsValid()
    ensures Held(hs, i) == 0 && ValidCount(hs) == 0
  {
    if hs != [] {
      HeldNothing(hs[1..], i);
    }
  }

  lemma {:induction false} ValidCountBound(hs: seq<FrameData>)
    ensures ValidCount(hs) <= |hs|
  {
    if hs != [] {
      ValidCountBound(hs[1..]);
    }
  }

  lemma VacancyCount(hs: seq<FrameData>, j: nat)
    requires j < |hs| && !hs[j].IsValid()
    ensures ValidCount(hs) < |hs|
  {
    HeldSplit(hs, j, 0);
    ValidCountBound(hs[..j]);
    ValidCountBound(hs[j + 1..]);
  }

  lemma ListedAppend(free: seq<nat>, k: nat, i: nat)
    ensures Listed(free + [k], i) == Listed(free, i) + if k == i then 1 else 0
  {
  }

  lemma ListedRemoveAt(free: seq<nat>, k: nat, i: nat)
    requires k < |free|
    ensures Listed(RemoveAt(free, k), i) + (if free[k] == i then 1 else 0) == Listed(free, i)
  {
    RemoveAtMultiset(free, k);
    assert (multiset(RemoveAt(free, k)) + multiset{free[k]})[i] == multiset(free)[i];
  }

  class TFramePool {
    const poolData: seq<array<u8>>
    var freeIdxList: seq<nat>

    ghost predicate Valid()
      reads this
    {
      && |poolData| == POOL_SIZE
      && (forall i | 0 <= i < POOL_SIZE :: poolData[i].Length == SLOT_LEN)
      && (forall i, j | 0 <= i < j < POOL_SIZE :: poolData[i] != poolData[j])
      && (forall k | 0 <= k < |freeIdxList| :: freeIdxList[k] < POOL_SIZE)
    }

    ghost function Memory(): (m: seq<seq<u8>>)
      reads poolData
      ensures |m| == |poolData| && forall i | 0 <= i < |poolData| :: m[i] == poolData[i][..]
    {
      seq(|poolData|, i requires 0 <= i < |poolData| reads poolData => poolData[i][..])
    }

    constructor ()
      ensures Valid() && (forall a | a in poolData :: fresh(a))
      ensures freeIdxList == Indices(POOL_SIZE)
      ensures forall i, p | 0 <= i < POOL_SIZE && 0 <= p < SLOT_LEN :: poolData[i][p] == 0
    {
      var bufs: seq<array<u8>> := [];
      var free: seq<nat> := [];
      var i := 0;
      while i < POOL_SIZE
        invariant 0 <= i <= POOL_SIZE && |bufs| == i
        invariant forall k | 0 <= k < i :: fresh(bufs[k]) && bufs[k].Length == SLOT_LEN
        invariant forall j, k | 0 <= j < k < i :: bufs[j] != bufs[k]
        invariant forall k, p | 0 <= k < i && 0 <= p < SLOT_LEN :: bufs[k][p] == 0
        invariant free == Indices(i)
      {
        var buf := new u8[SLOT_LEN](_ => 0);
        bufs := bufs + [buf];
        free := free + [i];
        i := i + 1;
      }
      poolData := bufs;
      freeIdxList := free;
    }

    /** Dequeues one free index. The queue promises no order across producers, so which one
        comes out is the environment's choice: position `pick`, or the first. */
    method Acquire(pick: nat) returns (h: Option<FrameData>)
      requires Valid()
      modifies this
      ensures Valid()
      ensures h.None? <==> old(freeIdxList) == []
      ensures h.None? ==> freeIdxList == old(freeIdxList)
      ensures h.Some? ==>
        var k := if pick < |old(freeIdxList)| then pick else 0;
        h.value == FrameData(old(freeIdxList)[k], 0) && freeIdxList == RemoveAt(old(freeIdxList), k)
      ensures h.Some? ==> h.value.IsValid()
      ensures h.Some? ==> forall i :: Listed(freeIdxList, i) + Own(h.value, i) == Listed(old(freeIdxList), i)
    {
      if |freeIdxList| == 0 { return None; }
      var k := if pick < |freeIdxList| then pick else 0;
      forall i {
        ListedRemoveAt(freeIdxList, k, i);
      }
      h := Some(FrameData(freeIdxList[k], 0));
      freeIdxList := RemoveAt(freeIdxList, k);
    }

    method Restore(idx: nat) returns (ok: bool)
      requires Valid()
      modifies this
      ensures Valid() && ok == (idx < POOL_SIZE)
      ensures freeIdxList == old(freeIdxList) + if ok then [idx] else []
    {
      if idx >= POOL_SIZE { return false; }
      freeIdxList := freeIdxList + [idx];
      ok := true;
    }

    /** The handle's destructor: the index it owns, if any, goes back to the free list. */
    method Destroy(h: FrameData)
      requires Valid()
      modifies this
      ensures Valid()
      ensures freeIdxList == old(freeIdxList) + if h.IsValid() then [h.idx] else []
      ensures forall i :: Listed(freeIdxList, i) == Listed(old(freeIdxList), i) + Own(h, i)
    {
      if h.IsValid() {
        var _ := Restore(h.idx);
      }
    }

    /** Move assignment: the target's old index is restored, the source is left `Moved`. */
    method MoveAssign(dst: FrameData, src: FrameData) returns (dst': FrameData, src': FrameData)
      requires Valid()
      modifies this
      ensures Valid() && dst' == src && src' == Moved
      ensures freeIdxList == old(freeIdxList) + if dst.IsValid() then [dst.idx] else []
      ensures forall i :: Listed(freeIdxList, i) + Own(dst', i) + Own(src', i)
                       == Listed(old(freeIdxList), i) + Own(dst, i) + Own(src, i)
    {
      if dst.IsValid() {
        var _ := Restore(dst.idx);
      }
      dst', src' := src, Moved;
    }
  }
}
