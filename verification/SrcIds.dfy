/**
 * The allocator of route source ids (nest/rt-attr.c): a bitmap of 32-bit words searched from the
 * last place on, which grows when it is at least 7/8 full.
 */
module SrcIds {

  import opened Numbers

  type Word = w: seq<bool> | |w| == 32 witness seq(32, _ => false)

  const FULL: Word := seq(32, _ => true)
  const EMPTY: Word := seq(32, _ => false)
  // SRC_ID_INIT_SIZE
  const INIT_SIZE := 4
  // ids have 32 bits, so a word number has 27
  const MAX_WORDS := 0x8000000

  function Ones(w: seq<bool>): nat {
    if w == [] then 0 else (if w[0] then 1 else 0) + Ones(w[1..])
  }

  function Total(words: seq<Word>): nat {
    if words == [] then 0 else Ones(words[0]) + Total(words[1..])
  }

  lemma {:induction false} OnesPut(w: seq<bool>, j: nat, b: bool)
    requires j < |w|
    ensures Ones(w[j := b]) == Ones(w) - (if w[j] then 1 else 0) + (if b then 1 else 0)
  {
    if j > 0 {
      OnesPut(w[1..], j - 1, b);
      assert w[j := b][1..] == w[1..][j - 1 := b];
    }
  }

  lemma {:induction false} OnesBound(w: seq<bool>)
    ensures Ones(w) <= |w|
    ensures (forall j :: 0 <= j < |w| ==> w[j]) ==> Ones(w) == |w|
    ensures (forall j :: 0 <= j < |w| ==> !w[j]) ==> Ones(w) == 0
  {
    if w != [] {
      OnesBound(w[1..]);
    }
  }

  lemma {:induction false} TotalPut(words: seq<Word>, i: nat, w: Word)
    requires i < |words|
    ensures Total(words[i := w]) == Total(words) - Ones(words[i]) + Ones(w)
  {
    if i > 0 {
      TotalPut(words[1..], i - 1, w);
      assert words[i := w][1..] == words[1..][i - 1 := w];
    }
  }

  lemma {:induction false} TotalFull(words: seq<Word>)
    requires forall i :: 0 <= i < |words| ==> words[i] == FULL
    ensures Total(words) == 32 * |words|
  {
    if words != [] {
      OnesBound(words[0]);
      TotalFull(words[1..]);
    }
  }

  lemma {:induction false} TotalMore(words: seq<Word>, n: nat)
    ensures Total(words + seq(n, _ => EMPTY)) == Total(words)
    decreases |words| + n
  {
    var t := words + seq(n, _ => EMPTY);
    if words != [] {
      TotalMore(words[1..], n);
      assert t[0] == words[0] && t[1..] == words[1..] + seq(n, _ => EMPTY);
    } else if n > 0 {
      TotalMore([], n - 1);
      OnesBound(EMPTY);
      assert t[0] == EMPTY && t[1..] == [] + seq(n - 1, _ => EMPTY);
    }
  }

  predicate InUse(words: seq<Word>, id: nat) {
    id / 32 < |words| && words[id / 32][id % 32]
  }

  class SrcIdMap {
    var ids: seq<Word>
    var pos: nat
    var used: nat
    // the size is a power of two
    ghost var order: nat

    ghost predicate Valid()
      reads this
    {
      pos < |ids| && order <= 27 && |ids| == Pow2(order) && used == Total(ids)
    }

    // rte_src_init: id 0 is reserved
    constructor ()
      ensures Valid() && forall id :: InUse(ids, id) <==> id == 0
    {
      ids := [EMPTY[0 := true]] + seq(INIT_SIZE - 1, _ => EMPTY);
      pos, used, order := 0, 1, 2;
      new;
      OnesBound(EMPTY);
      OnesPut(EMPTY, 0, true);
      TotalMore([EMPTY[0 := true]], INIT_SIZE - 1);
      assert [EMPTY[0 := true]][1..] == [];
    }

    // Index of the first word from `lo` to `hi` that is not full, or hi.
    method FreeWord(lo: nat, hi: nat) returns (i: nat)
      requires lo <= hi <= |ids|
      ensures lo <= i <= hi && (i < hi ==> ids[i] != FULL) && forall k :: lo <= k < i ==> ids[k] == FULL
    {
      i := lo;
      while i < hi && ids[i] == FULL
        invariant lo <= i <= hi && forall k :: lo <= k < i ==> ids[k] == FULL
      {
        i := i + 1;
      }
    }

    // rte_src_alloc_id: there must be room for another id
    method AllocId() returns (id: nat)
      requires Valid() && used <= 28 * MAX_WORDS
      modifies this
      ensures Valid() && used == old(used) + 1 && id < 0x1_0000_0000
      ensures !InUse(old(ids), id) && forall x :: InUse(ids, x) <==> InUse(old(ids), x) || x == id
    {
      hide Total, Ones, InUse, Pow2;
      ghost var was := ids;
      var i := FreeWord(pos, |ids|);
      if i == |ids| {
        if used > |ids| * 28 {
          // at least 7/8 full: the map is doubled
          MayDouble(order);
          TotalMore(ids, |ids|);
          ids := ids + seq(|ids|, _ => EMPTY);
          order := order + 1;
          PowNext(order - 1);
          assert !ids[i][0];
        } else {
          i := FreeWord(0, pos);
          if i == pos {
            // not reached: all words would be full
            TotalFull(ids);
            assert false;
          }
        }
      }
      pos := i;
      var j := FirstFree(ids[i]);
      Taken(was, ids, i, j);
      OnesPut(ids[i], j, true);
      TotalPut(ids, i, ids[i][j := true]);
      ids := ids[i := ids[i][j := true]];
      used := used + 1;
      id := 32 * i + j;
      LargestSize();
      Pow2Mono(order, 27);
    }

    // rte_src_free_id, for an id in use
    method FreeId(id: nat)
      requires Valid() && InUse(ids, id)
      modifies this
      ensures Valid() && used == old(used) - 1
      ensures forall x :: InUse(ids, x) <==> InUse(old(ids), x) && x != id
    {
      var i, j := id / 32, id % 32;
      OnesPut(ids[i], j, false);
      TotalPut(ids, i, ids[i][j := false]);
      ghost var was := ids;
      ids := ids[i := ids[i][j := false]];
      used := used - 1;
      forall x: nat ensures InUse(ids, x) <==> InUse(was, x) && x != id {
        assert x == 32 * (x / 32) + x % 32;
      }
    }
  }

  // u32_cto: the number of trailing ones
  method FirstFree(w: Word) returns (j: nat)
    requires w != FULL
    ensures j < 32 && !w[j] && forall k :: 0 <= k < j ==> w[k]
  {
    j := 0;
    while j < 32 && w[j]
      invariant 0 <= j <= 32 && forall k :: 0 <= k < j ==> w[k]
    {
      j := j + 1;
    }
    assert j == 32 ==> w == FULL;
  }

  lemma Taken(was: seq<Word>, now: seq<Word>, i: nat, j: nat)
    requires i < |now| && j < 32 && !now[i][j]
    requires now == was || now == was + seq(|was|, _ => EMPTY)
    ensures !InUse(was, 32 * i + j)
    ensures forall x :: InUse(now[i := now[i][j := true]], x) <==> InUse(was, x) || x == 32 * i + j
  {
    assert (32 * i + j) / 32 == i && (32 * i + j) % 32 == j;
    forall x: nat ensures InUse(now[i := now[i][j := true]], x) <==> InUse(was, x) || x == 32 * i + j {
      assert x == 32 * (x / 32) + x % 32;
    }
  }

  lemma PowNext(n: nat)
    ensures Pow2(n + 1) == 2 * Pow2(n)
  {
  }

  lemma LargestSize()
    ensures Pow2(27) == MAX_WORDS
  {
    assert Pow2(5) == 32 && Pow2(10) == 1024 && Pow2(15) == 0x8000 && Pow2(20) == 0x10_0000 && Pow2(25) == 0x200_0000;
  }

  // A map smaller than the largest one may be doubled.
  lemma MayDouble(order: nat)
    requires order <= 27 && Pow2(order) < MAX_WORDS
    ensures order < 27
  {
    LargestSize();
  }
}
