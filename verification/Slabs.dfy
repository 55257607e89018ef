/**
 The slab allocator: per size class a free list and the unused tail of the newest slab, under a
 memory limit.  Addresses are integers; 0 is the null pointer.
 */
module Slabs {
  import opened Sequences
  import CacheSpec

  const POWER_SMALLEST := 1
  const POWER_LARGEST := CacheSpec.POWER_LARGEST
  const POWER_BLOCK := 1048576
  const CHUNK_ALIGN_BYTES := 8

  datatype SlabClass = SlabClass(
    size: nat, perslab: nat, slots: seq<int>, endPagePtr: int, endPageFree: nat, slabList: seq<int>)

  function Length(c: SlabClass): nat { c.size * c.perslab }

  /** Chunk k of slab b. */
  function Chunk(c: SlabClass, b: nat, k: nat): int
    requires b < |c.slabList|
  {
    c.slabList[b] + k * c.size
  }

  /** Chunks of the newest slab that were never handed out. */
  predicate InTail(c: SlabClass, b: nat, k: nat) { b == |c.slabList| - 1 && k >= c.perslab - c.endPageFree }

  /** All chunks that were handed out at some time. */
  ghost function Handed(c: SlabClass): set<int> {
    set b: nat, k: nat | b < |c.slabList| && k < c.perslab && !InTail(c, b, k) :: Chunk(c, b, k)
  }

  ghost function Free(c: SlabClass): set<int> { set p | p in c.slots }

  /** Two stretches of memory do not meet. */
  predicate Apart(p: int, m: int, q: int, n: int) { p + m <= q || q + n <= p }

  ghost predicate Separate(c: SlabClass) {
    forall b, d :: 0 <= b < d < |c.slabList| ==> Apart(c.slabList[b], Length(c), c.slabList[d], Length(c))
  }

  /**
   Handed-out chunks split into those in use and those on the free list, each listed once; the
   rest is the tail.  So in-use chunks, free slots and the tail partition the chunks of all slabs.
   */
  ghost predicate Partitioned(c: SlabClass, live: set<int>) {
    && c.size > 0 && c.perslab > 0 && Length(c) <= POWER_BLOCK
    && (forall b :: 0 <= b < |c.slabList| ==> c.slabList[b] > 0)
    && Separate(c)
    && Distinct(c.slots) && live !! Free(c) && live + Free(c) == Handed(c)
    && c.endPageFree <= c.perslab && (c.endPageFree > 0 ==> c.slabList != [])
    && c.endPagePtr == if c.endPageFree == 0 then 0 else Chunk(c, |c.slabList| - 1, c.perslab - c.endPageFree)
  }

  // ----- chunks of one class never meet

  lemma {:induction false} Multiples(i: nat, j: nat, n: nat)
    requires i < j
    ensures i * n + n <= j * n
    decreases j
  {
    assert j * n == (j - 1) * n + n;
    if i < j - 1 { Multiples(i, j - 1, n); }
  }

  lemma ChunkInside(c: SlabClass, b: nat, k: nat)
    requires b < |c.slabList| && k < c.perslab
    ensures c.slabList[b] <= Chunk(c, b, k) && Chunk(c, b, k) + c.size <= c.slabList[b] + Length(c)
  {
    Multiples(k, c.perslab, c.size);
    assert k * c.size >= 0;
  }

  lemma ChunksApart(c: SlabClass, b: nat, k: nat, d: nat, m: nat)
    requires Separate(c) && b < |c.slabList| && d < |c.slabList| && k < c.perslab && m < c.perslab && (b, k) != (d, m)
    ensures Apart(Chunk(c, b, k), c.size, Chunk(c, d, m), c.size)
  {
    if b == d {
      if k < m { Multiples(k, m, c.size); } else { Multiples(m, k, c.size); }
    } else {
      ChunkInside(c, b, k);
      ChunkInside(c, d, m);
      hide Chunk, Length;
      if b < d {
        assert Apart(c.slabList[b], Length(c), c.slabList[d], Length(c));
      } else {
        assert Apart(c.slabList[d], Length(c), c.slabList[b], Length(c));
      }
    }
  }

  // ----- the steps of one class

  /** The chunk at the end pointer leaves the tail. */
  function Bump(c: SlabClass): SlabClass
    requires c.endPageFree > 0
  {
    c.(endPageFree := c.endPageFree - 1, endPagePtr := if c.endPageFree == 1 then 0 else c.endPagePtr + c.size)
  }

  lemma BumpHanded(c: SlabClass, live: set<int>)
    requires Partitioned(c, live) && c.endPageFree > 0
    ensures c.endPagePtr !in Handed(c) && Handed(Bump(c)) == Handed(c) + {c.endPagePtr}
  {
    var t := Bump(c);
    var b, k := |c.slabList| - 1, c.perslab - c.endPageFree;
    if c.endPagePtr in Handed(c) {
      var d: nat, m: nat :| d < |c.slabList| && m < c.perslab && !InTail(c, d, m) && Chunk(c, d, m) == c.endPagePtr;
      ChunksApart(c, b, k, d, m);
    }
    assert Chunk(t, b, k) == c.endPagePtr && !InTail(t, b, k);
    forall p | p in Handed(t)
      ensures p in Handed(c) + {c.endPagePtr}
    {
      var d: nat, m: nat :| d < |t.slabList| && m < t.perslab && !InTail(t, d, m) && Chunk(t, d, m) == p;
      assert Chunk(c, d, m) == p;
      if (d, m) != (b, k) { assert !InTail(c, d, m); }
    }
    forall p | p in Handed(c)
      ensures p in Handed(t)
    {
      var d: nat, m: nat :| d < |c.slabList| && m < c.perslab && !InTail(c, d, m) && Chunk(c, d, m) == p;
      assert Chunk(t, d, m) == p && !InTail(t, d, m);
    }
  }

  lemma BumpPartitioned(c: SlabClass, live: set<int>)
    requires Partitioned(c, live) && c.endPageFree > 0
    ensures Partitioned(Bump(c), live + {c.endPagePtr})
  {
    hide Handed;
    BumpHanded(c, live);
    var b, k := |c.slabList| - 1, c.perslab - c.endPageFree;
    assert k * c.size + c.size == (k + 1) * c.size;
  }

  /** A new slab, all of it tail. */
  function Grown(c: SlabClass, ptr: int): SlabClass {
    c.(slabList := c.slabList + [ptr], endPagePtr := ptr, endPageFree := c.perslab)
  }

  lemma GrownHanded(c: SlabClass, ptr: int)
    requires c.endPageFree == 0
    ensures Handed(Grown(c, ptr)) == Handed(c)
  {
    var t := Grown(c, ptr);
    forall p | p in Handed(t)
      ensures p in Handed(c)
    {
      var d: nat, m: nat :| d < |t.slabList| && m < t.perslab && !InTail(t, d, m) && Chunk(t, d, m) == p;
      assert Chunk(c, d, m) == p && !InTail(c, d, m);
    }
    forall p | p in Handed(c)
      ensures p in Handed(t)
    {
      var d: nat, m: nat :| d < |c.slabList| && m < c.perslab && !InTail(c, d, m) && Chunk(c, d, m) == p;
      assert Chunk(t, d, m) == p && !InTail(t, d, m);
    }
  }

  lemma GrownPartitioned(c: SlabClass, live: set<int>, ptr: int)
    requires Partitioned(c, live) && c.endPageFree == 0 && ptr > 0
    requires forall b :: 0 <= b < |c.slabList| ==> Apart(c.slabList[b], Length(c), ptr, Length(c))
    ensures Partitioned(Grown(c, ptr), live)
  {
    hide Handed;
    GrownHanded(c, ptr);
    assert Chunk(Grown(c, ptr), |c.slabList|, 0) == ptr;
  }

  lemma PopPartitioned(c: SlabClass, live: set<int>)
    requires Partitioned(c, live) && c.slots != []
    ensures Partitioned(c.(slots := c.slots[..|c.slots| - 1]), live + {c.slots[|c.slots| - 1]})
    ensures c.slots[|c.slots| - 1] !in live
  {
    var t := c.(slots := c.slots[..|c.slots| - 1]);
    var p := c.slots[|c.slots| - 1];
    SameHanded(c, t);
    hide Handed;
    assert c.slots == t.slots + [p];
    assert Free(c) == Free(t) + {p};
    assert p in Free(c);
  }

  lemma PushPartitioned(c: SlabClass, live: set<int>, p: int)
    requires Partitioned(c, live) && p in live
    ensures Partitioned(c.(slots := c.slots + [p]), live - {p})
  {
    var t := c.(slots := c.slots + [p]);
    SameHanded(c, t);
    hide Handed;
    assert Free(t) == Free(c) + {p};
    assert forall q :: q in c.slots ==> q in Free(c);
  }

  lemma SameHanded(c: SlabClass, t: SlabClass)
    requires t == c.(slots := t.slots)
    ensures Handed(t) == Handed(c)
  {
    forall p | p in Handed(t)
      ensures p in Handed(c)
    {
      var d: nat, m: nat :| d < |t.slabList| && m < t.perslab && !InTail(t, d, m) && Chunk(t, d, m) == p;
      assert Chunk(c, d, m) == p && !InTail(c, d, m);
    }
    forall p | p in Handed(c)
      ensures p in Handed(t)
    {
      var d: nat, m: nat :| d < |c.slabList| && m < c.perslab && !InTail(c, d, m) && Chunk(c, d, m) == p;
      assert Chunk(t, d, m) == p && !InTail(t, d, m);
    }
  }

  // ----- all classes

  ghost predicate Sized(classes: seq<SlabClass>, largest: nat) {
    && |classes| == POWER_LARGEST + 1 && POWER_SMALLEST <= largest <= POWER_LARGEST
    && (forall c, d :: POWER_SMALLEST <= c <= d <= largest ==> classes[c].size <= classes[d].size)
    && classes[largest].size == POWER_BLOCK
  }

  /** Slabs of different classes do not meet either. */
  ghost predicate AllSeparate(classes: seq<SlabClass>) {
    forall c, d, b, e ::
      0 <= c < d < |classes| && 0 <= b < |classes[c].slabList| && 0 <= e < |classes[d].slabList| ==>
      Apart(classes[c].slabList[b], Length(classes[c]), classes[d].slabList[e], Length(classes[d]))
  }

  /** How many of the first n classes own a slab. */
  ghost function Owners(classes: seq<SlabClass>, n: nat): nat
    requires n <= |classes|
  {
    if n == 0 then 0 else Owners(classes, n - 1) + (if classes[n - 1].slabList == [] then 0 else 1)
  }

  ghost function Owned(classes: seq<SlabClass>, n: nat): nat
    requires n <= |classes|
  {
    if n == 0 then 0 else Owned(classes, n - 1) + |classes[n - 1].slabList| * Length(classes[n - 1])
  }

  lemma {:induction false} OwnersUpdate(classes: seq<SlabClass>, id: nat, c: SlabClass, n: nat)
    requires id < |classes| && n <= |classes|
    ensures Owners(classes[id := c], n) == Owners(classes, n) +
            (if id < n then (if c.slabList == [] then 0 else 1) - (if classes[id].slabList == [] then 0 else 1) else 0)
    ensures Owned(classes[id := c], n) == Owned(classes, n) +
            (if id < n then |c.slabList| * Length(c) - |classes[id].slabList| * Length(classes[id]) else 0)
  {
    if n > 0 { OwnersUpdate(classes, id, c, n - 1); }
  }

  ghost predicate Unused(c: SlabClass, live: set<int>) { c.slabList == [] && c.slots == [] && live == {} }

  /** All chunks of all classes, with the set of those in use per class. */
  ghost predicate Sound(classes: seq<SlabClass>, live: seq<set<int>>, largest: nat) {
    && Sized(classes, largest) && |live| == |classes|
    && (forall c :: POWER_SMALLEST <= c <= largest ==> Partitioned(classes[c], live[c]))
    && (forall c :: 0 <= c <= POWER_LARGEST && !(POWER_SMALLEST <= c <= largest) ==> Unused(classes[c], live[c]))
    && AllSeparate(classes)
  }

  /** The whole allocator. */
  ghost predicate Ok(classes: seq<SlabClass>, live: seq<set<int>>, largest: nat, limit: nat, malloced: nat) {
    && Sound(classes, live, largest)
    && malloced == Owned(classes, |classes|)
    && (limit != 0 ==> malloced <= limit + POWER_BLOCK * Owners(classes, |classes|))
  }

  /** A stretch of memory that meets no slab. */
  ghost predicate Untouched(classes: seq<SlabClass>, ptr: int, len: nat) {
    ptr > 0 && forall c, b :: 0 <= c < |classes| && 0 <= b < |classes[c].slabList| ==>
      Apart(classes[c].slabList[b], Length(classes[c]), ptr, len)
  }

  /** No two chunks in use ever overlap, whatever their classes. */
  lemma LiveApart(classes: seq<SlabClass>, live: seq<set<int>>, largest: nat, c: nat, p: int, d: nat, q: int)
    requires Sound(classes, live, largest)
    requires c < |live| && d < |live| && p in live[c] && q in live[d] && (c, p) != (d, q)
    ensures Apart(p, classes[c].size, q, classes[d].size)
  {
    hide Owned, Owners, Separate, Length;
    var b, k := WhereIs(classes[c], live[c], p);
    var e, m := WhereIs(classes[d], live[d], q);
    if c == d {
      ChunksApart(classes[c], b, k, e, m);
    } else {
      hide Chunk;
      ChunkInside(classes[c], b, k);
      ChunkInside(classes[d], e, m);
      if c < d {
        assert Apart(classes[c].slabList[b], Length(classes[c]), classes[d].slabList[e], Length(classes[d]));
      } else {
        assert Apart(classes[d].slabList[e], Length(classes[d]), classes[c].slabList[b], Length(classes[c]));
      }
    }
  }

  lemma WhereIs(c: SlabClass, live: set<int>, p: int) returns (b: nat, k: nat)
    requires Partitioned(c, live) || Unused(c, live)
    requires p in live
    ensures b < |c.slabList| && k < c.perslab && Chunk(c, b, k) == p && Separate(c)
  {
    assert p in Handed(c);
    b, k :| b < |c.slabList| && k < c.perslab && !InTail(c, b, k) && Chunk(c, b, k) == p;
  }

  /** Replacing a class by one with the same slabs changes neither the separation nor the totals. */
  lemma SameSlabs(classes: seq<SlabClass>, live: seq<set<int>>, largest: nat, limit: nat, malloced: nat, id: nat,
      t: SlabClass, inUse: set<int>)
    requires Ok(classes, live, largest, limit, malloced) && POWER_SMALLEST <= id <= largest
    requires Partitioned(t, inUse) && t.slabList == classes[id].slabList && t.size == classes[id].size &&
             t.perslab == classes[id].perslab
    ensures Ok(classes[id := t], live[id := inUse], largest, limit, malloced)
  {
    hide Partitioned, Unused, Apart;
    OwnersUpdate(classes, id, t, |classes|);
    assert Length(t) == Length(classes[id]);
  }

  lemma NewSlabOk(classes: seq<SlabClass>, live: seq<set<int>>, largest: nat, limit: nat, malloced: nat, id: nat,
      ptr: int)
    requires Ok(classes, live, largest, limit, malloced) && POWER_SMALLEST <= id <= largest &&
             classes[id].endPageFree == 0
    requires Untouched(classes, ptr, Length(classes[id]))
    requires limit == 0 || malloced + Length(classes[id]) <= limit || classes[id].slabList == []
    ensures Ok(classes[id := Grown(classes[id], ptr)], live, largest, limit, malloced + Length(classes[id]))
  {
    hide Partitioned, Unused, AllSeparate, Owned, Owners, Untouched, Length;
    var c := classes[id];
    var t := Grown(c, ptr);
    ClassFacts(classes, id, live[id], ptr);
    GrownPartitioned(c, live[id], ptr);
    SameLength(c, ptr);
    NewSlabSeparate(classes, id, ptr);
    OwnersUpdate(classes, id, t, |classes|);
    Once(|c.slabList|, Length(c));
  }

  lemma ClassFacts(classes: seq<SlabClass>, id: nat, live: set<int>, ptr: int)
    requires id < |classes| && Partitioned(classes[id], live) && Untouched(classes, ptr, Length(classes[id]))
    ensures Length(classes[id]) <= POWER_BLOCK && ptr > 0
    ensures forall b :: 0 <= b < |classes[id].slabList| ==>
            Apart(classes[id].slabList[b], Length(classes[id]), ptr, Length(classes[id]))
  {
  }

  lemma Once(n: nat, len: nat)
    ensures (n + 1) * len == n * len + len
  {
  }

  lemma NewSlabSeparate(classes: seq<SlabClass>, id: nat, ptr: int)
    requires AllSeparate(classes) && id < |classes| && Untouched(classes, ptr, Length(classes[id]))
    ensures AllSeparate(classes[id := Grown(classes[id], ptr)])
  {
    hide Length;
    var t := Grown(classes[id], ptr);
    var next := classes[id := t];
    assert Length(t) == Length(classes[id]) by { SameLength(classes[id], ptr); }
    forall c, d, b, e | 0 <= c < d < |next| && 0 <= b < |next[c].slabList| && 0 <= e < |next[d].slabList|
      ensures Apart(next[c].slabList[b], Length(next[c]), next[d].slabList[e], Length(next[d]))
    {
    }
  }

  lemma SameLength(c: SlabClass, ptr: int)
    ensures Length(Grown(c, ptr)) == Length(c)
  {
  }

  /** The smallest class whose chunks hold size bytes. */
  ghost predicate Fits(classes: seq<SlabClass>, largest: nat, size: nat, id: nat) {
    && POWER_SMALLEST <= id <= largest < |classes| && 0 < size <= classes[id].size
    && forall c :: POWER_SMALLEST <= c < id ==> classes[c].size < size
  }

  /** The chunk to hand out next: latest freed first, then the tail, then a new slab at ptr. */
  function Offer(c: SlabClass, ptr: int): int {
    if c.slots != [] then c.slots[|c.slots| - 1] else if c.endPagePtr != 0 then c.endPagePtr else ptr
  }

  /** The class has a slab already and another one would exceed the limit. */
  predicate OverLimit(c: SlabClass, limit: nat, malloced: nat) {
    limit != 0 && malloced + Length(c) > limit && c.slabList != []
  }

  /** Nothing is free, and a new slab is not to be had or is over the limit. */
  predicate Exhausted(c: SlabClass, ptr: int, limit: nat, malloced: nat) {
    c.slots == [] && c.endPagePtr == 0 && (ptr == 0 || OverLimit(c, limit, malloced))
  }

  /** The chunk is the first to be handed out again. */
  function Pushed(c: SlabClass, chunk: int): SlabClass { c.(slots := c.slots + [chunk]) }

  /** A chunk given back is the next to be handed out, and the class is then as before. */
  lemma LastFreedFirst(c: SlabClass, chunk: int, ptr: int, limit: nat, malloced: nat)
    ensures Offer(Pushed(c, chunk), ptr) == chunk && !Exhausted(Pushed(c, chunk), ptr, limit, malloced)
    ensures Pushed(c, chunk).(slots := Pushed(c, chunk).slots[..|c.slots|]) == c
  {
    assert (c.slots + [chunk])[..|c.slots|] == c.slots;
  }

  class Allocator {
    var classes: seq<SlabClass>
    var powerLargest: nat
    var memLimit: nat
    var memMalloced: nat
    ghost var live: seq<set<int>>

    ghost predicate Valid()
      reads this
    {
      Ok(classes, live, powerLargest, memLimit, memMalloced)
    }

    /** slabs_init: chunk sizes grow by the factor, rounded up to whole words, the last one is a block. */
    constructor (limit: nat, factor: real, chunkSize: nat)
      requires factor > 1.0
      ensures Valid() && memLimit == limit && memMalloced == 0
      ensures forall c :: 0 <= c < |live| ==> live[c] == {}
      ensures forall c :: POWER_SMALLEST <= c <= powerLargest ==> classes[c].size % CHUNK_ALIGN_BYTES == 0
      ensures |classes| == POWER_LARGEST + 1 && Geometric(classes, powerLargest, factor, FirstSize(factor, chunkSize))
      ensures LastSize(classes, powerLargest, factor, FirstSize(factor, chunkSize))
    {
      var table, largest := ChunkSizes(factor, chunkSize);
      classes, powerLargest, memLimit, memMalloced := table, largest, limit, 0;
      live := seq(POWER_LARGEST + 1, j => {});
      new;
      FreshOk(classes, live, powerLargest, limit);
      hide Ok;
    }

    /** The loop of slabs_init. */
    static method ChunkSizes(factor: real, chunkSize: nat) returns (table: seq<SlabClass>, largest: nat)
      requires factor > 1.0
      ensures Sized(table, largest)
      ensures forall c :: POWER_SMALLEST <= c <= largest ==> Fresh(table[c])
      ensures forall c :: 0 <= c <= POWER_LARGEST ==> table[c].slabList == [] && table[c].slots == []
      ensures Geometric(table, largest, factor, FirstSize(factor, chunkSize))
      ensures LastSize(table, largest, factor, FirstSize(factor, chunkSize))
    {
      hide Fresh, Sized, Geometric, Climbing, Align, NextSize;
      var size := CacheSpec.SIZEOF_ITEM + chunkSize;
      if factor == 2.0 && size < 128 {
        size := 128;
      }
      ghost var first := size;
      table := seq(POWER_LARGEST + 1, i => SlabClass(0, 0, [], 0, 0, []));
      var i := POWER_SMALLEST;
      ClimbNone(table, factor, first);
      while i < POWER_LARGEST && size <= POWER_BLOCK / 2
        invariant POWER_SMALLEST <= i <= POWER_LARGEST && size > 0 && |table| == POWER_LARGEST + 1
        invariant Climbing(table, i, size)
        invariant Geometric(table, i, factor, first) && size == NextSize(table, i, factor, first)
      {
        ghost var asked, were := size, table;
        size := Align(size);
        table := table[i := SlabClass(size, POWER_BLOCK / size, [], 0, 0, [])];
        GeometricMore(were, i, factor, first, asked, table[i]);
        Scales(size, factor);
        size := (size as real * factor).Floor;
        ClimbMore(were, i, factor, first, asked, size);
        i := i + 1;
      }
      GeometricSame(table, i, factor, first, SlabClass(POWER_BLOCK, 1, [], 0, 0, []));
      ClimbEnd(table, i, size);
      table := table[i := SlabClass(POWER_BLOCK, 1, [], 0, 0, [])];
      largest := i;
    }

    /** slabs_clsid: the smallest class that holds size bytes, 0 if none does or nothing is asked. */
    method SlabsClsid(size: nat) returns (id: nat)
      requires Valid()
      ensures id <= powerLargest && (id == 0 <==> size == 0 || size > POWER_BLOCK)
      ensures id > 0 ==> size <= classes[id].size && forall c :: POWER_SMALLEST <= c < id ==> classes[c].size < size
    {
      hide Partitioned, AllSeparate, Owned, Owners;
      var res := POWER_SMALLEST;
      if size == 0 {
        return 0;
      }
      while size > classes[res].size
        invariant POWER_SMALLEST <= res <= powerLargest
        invariant forall c :: POWER_SMALLEST <= c < res ==> classes[c].size < size
        decreases powerLargest - res
      {
        if res == powerLargest {
          return 0;
        }
        res := res + 1;
      }
      assert classes[res].size <= classes[powerLargest].size;
      return res;
    }

    /**
     do_slabs_newslab; ptr is the memory that was reserved, or 0 if there is none or the list of
     slabs cannot grow.
     */
    method NewSlab(id: nat, ptr: int) returns (ok: bool)
      requires Valid() && POWER_SMALLEST <= id <= powerLargest && classes[id].endPageFree == 0
      requires ptr != 0 ==> Untouched(classes, ptr, Length(classes[id]))
      modifies this`classes, this`memMalloced
      ensures Valid()
      ensures ok <==> ptr != 0 && !OverLimit(old(classes)[id], memLimit, old(memMalloced))
      ensures !ok ==> classes == old(classes) && memMalloced == old(memMalloced)
      ensures ok ==> classes == old(classes)[id := Grown(old(classes)[id], ptr)]
      ensures ok ==> memMalloced == old(memMalloced) + Length(old(classes)[id])
    {
      var p := classes[id];
      var len := p.size * p.perslab;
      if memLimit != 0 && memMalloced + len > memLimit && |p.slabList| > 0 {
        return false;
      }
      if ptr == 0 {
        return false;
      }
      NewSlabOk(classes, live, powerLargest, memLimit, memMalloced, id, ptr);
      hide Ok, Grown;
      GrownForm(p, ptr);
      p := p.(endPagePtr := ptr, endPageFree := p.perslab);
      p := p.(slabList := p.slabList + [ptr]);
      classes := classes[id := p];
      memMalloced := memMalloced + len;
      return true;
    }

    /** do_slabs_alloc: a chunk from the free list, else from the newest slab, else from a new slab. */
    method SlabsAlloc(size: nat, ptr: int) returns (chunk: int, ghost id: nat)
      requires Valid()
      requires ptr != 0 ==> forall c :: POWER_SMALLEST <= c <= powerLargest ==>
               Untouched(classes, ptr, Length(classes[c]))
      modifies this`classes, this`memMalloced, this`live
      ensures Valid()
      ensures chunk == 0 ==> live == old(live) && classes == old(classes) && memMalloced == old(memMalloced)
      ensures id == 0 <==> size == 0 || size > POWER_BLOCK
      ensures id == 0 ==> chunk == 0
      ensures id > 0 ==> Fits(old(classes), powerLargest, size, id) && id < |old(live)| && |classes| == |old(classes)|
      ensures id > 0 ==> (chunk == 0 <==> Exhausted(old(classes)[id], ptr, memLimit, old(memMalloced)))
      ensures chunk != 0 ==> chunk == Offer(old(classes)[id], ptr) && classes[id].size == old(classes)[id].size
      ensures chunk != 0 ==> chunk !in old(live)[id] && live == old(live)[id := old(live)[id] + {chunk}]
    {
      hide Partitioned, AllSeparate, Owned, Owners, Untouched, Length;
      var cls := SlabsClsid(size);
      id := cls;
      if cls < POWER_SMALLEST || cls > powerLargest {
        return 0, id;
      }
      assert Partitioned(classes[cls], live[cls]);
      EndPage(classes[cls], live[cls]);
      hide Ok;
      if classes[cls].endPagePtr == 0 && classes[cls].slots == [] {
        var ok := NewSlab(cls, ptr);
        if !ok {
          return 0, id;
        }
      }
      PartsOf(classes, live, powerLargest, memLimit, memMalloced, cls);
      EndPage(classes[cls], live[cls]);
      if classes[cls].slots != [] {
        chunk := Pop(cls);
      } else {
        chunk := TakeTail(cls);
      }
    }

    method Pop(id: nat) returns (chunk: int)
      requires Valid() && POWER_SMALLEST <= id <= powerLargest && classes[id].slots != []
      modifies this`classes, this`live
      ensures Valid() && chunk != 0 && chunk !in old(live)[id] && live == old(live)[id := old(live)[id] + {chunk}]
      ensures |classes| == |old(classes)| && forall c :: 0 <= c < |classes| ==> classes[c].size == old(classes)[c].size
      ensures chunk == old(classes)[id].slots[|old(classes)[id].slots| - 1]
    {
      PartsOf(classes, live, powerLargest, memLimit, memMalloced, id);
      hide Ok, Handed, Partitioned;
      var p := classes[id];
      var n := |p.slots| - 1;
      chunk := p.slots[n];
      PopPartitioned(p, live[id]);
      NotNull(p, live[id], chunk);
      SameSlabs(classes, live, powerLargest, memLimit, memMalloced, id, p.(slots := p.slots[..n]), live[id] + {chunk});
      classes := classes[id := p.(slots := p.slots[..n])];
      live := live[id := live[id] + {chunk}];
    }

    method TakeTail(id: nat) returns (chunk: int)
      requires Valid() && POWER_SMALLEST <= id <= powerLargest && classes[id].endPageFree > 0
      modifies this`classes, this`live
      ensures Valid() && chunk != 0 && chunk !in old(live)[id] && live == old(live)[id := old(live)[id] + {chunk}]
      ensures |classes| == |old(classes)| && forall c :: 0 <= c < |classes| ==> classes[c].size == old(classes)[c].size
      ensures chunk == old(classes)[id].endPagePtr
    {
      hide Ok, Handed, Partitioned, Bump;
      BumpOk(classes, live, powerLargest, memLimit, memMalloced, id);
      var p := classes[id];
      chunk := p.endPagePtr;
      p := p.(endPageFree := p.endPageFree - 1);
      if p.endPageFree != 0 {
        p := p.(endPagePtr := p.endPagePtr + p.size);
      } else {
        p := p.(endPagePtr := 0);
      }
      assert p == Bump(classes[id]) by { BumpForm(classes[id]); }
      classes := classes[id := p];
      live := live[id := live[id] + {chunk}];
    }

    /**
     do_slabs_free of a chunk obtained for the same size class.  If the free list has no room and does not
     get any, the chunk is dropped: no one has it, and it counts as in use for good.
     */
    method SlabsFree(chunk: int, size: nat, room: bool, ghost id: nat)
      requires Valid() && POWER_SMALLEST <= id <= powerLargest && chunk in live[id]
      requires 0 < size <= classes[id].size && forall c :: POWER_SMALLEST <= c < id ==> classes[c].size < size
      modifies this`classes, this`live
      ensures Valid() && live == if room then old(live)[id := old(live)[id] - {chunk}] else old(live)
      ensures classes == if room then old(classes)[id := Pushed(old(classes)[id], chunk)] else old(classes)
    {
      hide Partitioned, AllSeparate, Owned, Owners;
      assert classes[id].size <= classes[powerLargest].size;
      var cls := SlabsClsid(size);
      assert cls == id;
      if !room {
        return;
      }
      var p := classes[cls];
      PushPartitioned(p, live[cls], chunk);
      SameSlabs(classes, live, powerLargest, memLimit, memMalloced, cls, p.(slots := p.slots + [chunk]),
          live[cls] - {chunk});
      hide Ok;
      classes := classes[cls := p.(slots := p.slots + [chunk])];
      live := live[cls := live[cls] - {chunk}];
    }
  }

  /** A class as slabs_init leaves it. */
  ghost predicate Fresh(c: SlabClass) {
    && c.size > 0 && c.size % CHUNK_ALIGN_BYTES == 0 && c.perslab > 0 && Length(c) <= POWER_BLOCK
    && c.slots == [] && c.slabList == [] && c.endPageFree == 0 && c.endPagePtr == 0
  }

  /** The size that the first class is to hold. */
  function FirstSize(factor: real, chunkSize: nat): nat {
    if factor == 2.0 && CacheSpec.SIZEOF_ITEM + chunkSize < 128 then 128 else CacheSpec.SIZEOF_ITEM + chunkSize
  }

  /** The size that class i is to hold: that of the class before it times the factor. */
  function NextSize(table: seq<SlabClass>, i: nat, factor: real, first: nat): int
    requires POWER_SMALLEST <= i <= |table|
  {
    if i == POWER_SMALLEST then first else (table[i - 1].size as real * factor).Floor
  }

  /** The size asked for rounded up to whole words, with as many chunks as go into a block. */
  predicate AsSized(c: SlabClass, asked: int) {
    asked <= c.size < asked + 8 && c.size % 8 == 0 && c.size * c.perslab <= POWER_BLOCK < c.size * (c.perslab + 1)
  }

  /** Each class below n is of the size it is to hold. */
  ghost predicate Geometric(table: seq<SlabClass>, n: nat, factor: real, first: nat)
    requires n <= |table|
  {
    forall c :: POWER_SMALLEST <= c < n ==> AsSized(table[c], NextSize(table, c, factor, first))
  }

  /**
   The last class is one block; it comes when the next size would be over half a block, or at the
   end of the table.
   */
  ghost predicate LastSize(table: seq<SlabClass>, n: nat, factor: real, first: nat) {
    && POWER_SMALLEST <= n < |table| && table[n].size == POWER_BLOCK && table[n].perslab == 1
    && (n == POWER_LARGEST || NextSize(table, n, factor, first) > POWER_BLOCK / 2)
  }

  lemma GeometricNone(table: seq<SlabClass>, factor: real, first: nat)
    requires |table| >= POWER_SMALLEST
    ensures Geometric(table, POWER_SMALLEST, factor, first)
  {
  }

  lemma GeometricMore(table: seq<SlabClass>, i: nat, factor: real, first: nat, asked: nat, c: SlabClass)
    requires POWER_SMALLEST <= i < |table| && Geometric(table, i, factor, first)
    requires asked == NextSize(table, i, factor, first) && 0 < c.size == Align(asked) &&
             c.perslab == POWER_BLOCK / c.size
    ensures Geometric(table[i := c], i + 1, factor, first)
  {
    assert AsSized(c, asked) by { Divides(c.size); }
    hide AsSized, NextSize, Align;
    NextSame(table, i, factor, first, c);
  }

  lemma Divides(size: nat)
    requires size > 0
    ensures size * (POWER_BLOCK / size) <= POWER_BLOCK < size * (POWER_BLOCK / size + 1)
  {
  }

  lemma GeometricSame(table: seq<SlabClass>, i: nat, factor: real, first: nat, c: SlabClass)
    requires POWER_SMALLEST <= i < |table| && Geometric(table, i, factor, first)
    ensures Geometric(table[i := c], i, factor, first)
    ensures NextSize(table[i := c], i, factor, first) == NextSize(table, i, factor, first)
  {
    hide AsSized, NextSize;
    NextSame(table, i, factor, first, c);
  }

  lemma NextSame(table: seq<SlabClass>, i: nat, factor: real, first: nat, c: SlabClass)
    requires POWER_SMALLEST <= i < |table|
    ensures forall d :: POWER_SMALLEST <= d <= i ==>
              NextSize(table[i := c], d, factor, first) == NextSize(table, d, factor, first)
  {
    forall d | POWER_SMALLEST <= d <= i
      ensures NextSize(table[i := c], d, factor, first) == NextSize(table, d, factor, first)
    {
      assert d > POWER_SMALLEST ==> table[i := c][d - 1] == table[d - 1];
    }
  }

  lemma ClimbNone(table: seq<SlabClass>, factor: real, first: nat)
    requires |table| == POWER_LARGEST + 1 && forall c :: 0 <= c < |table| ==> table[c] == SlabClass(0, 0, [], 0, 0, [])
    ensures Climbing(table, POWER_SMALLEST, first) && Geometric(table, POWER_SMALLEST, factor, first)
    ensures NextSize(table, POWER_SMALLEST, factor, first) == first
  {
    hide Fresh;
    GeometricNone(table, factor, first);
  }

  lemma ClimbMore(table: seq<SlabClass>, i: nat, factor: real, first: nat, asked: nat, next: nat)
    requires POWER_SMALLEST <= i < POWER_LARGEST && Climbing(table, i, asked) && 0 < asked <= POWER_BLOCK / 2
    requires next == (Align(asked) as real * factor).Floor && Align(asked) <= next
    ensures var t := table[i := SlabClass(Align(asked), POWER_BLOCK / Align(asked), [], 0, 0, [])];
            Climbing(t, i + 1, next) && next == NextSize(t, i + 1, factor, first)
  {
    hide Fresh, Align;
    FreshClass(Align(asked));
  }

  lemma ClimbEnd(table: seq<SlabClass>, i: nat, size: nat)
    requires POWER_SMALLEST <= i <= POWER_LARGEST && Climbing(table, i, size)
    ensures var t := table[i := SlabClass(POWER_BLOCK, 1, [], 0, 0, [])];
            && Sized(t, i) && (forall c :: POWER_SMALLEST <= c <= i ==> Fresh(t[c]))
            && (forall c :: 0 <= c <= POWER_LARGEST ==> t[c].slabList == [] && t[c].slots == [])
  {
    hide Fresh;
    FreshClass(POWER_BLOCK);
  }

  /** Sizes rounded up to whole words. */
  function Align(size: nat): (r: nat)
    ensures size <= r < size + CHUNK_ALIGN_BYTES && r % CHUNK_ALIGN_BYTES == 0
  {
    if size % CHUNK_ALIGN_BYTES != 0 then size + (CHUNK_ALIGN_BYTES - size % CHUNK_ALIGN_BYTES) else size
  }

  /** Entries 1 .. i of the table are set, in rising order, none above the next size. */
  ghost predicate Climbing(table: seq<SlabClass>, i: nat, size: nat) {
    && |table| == POWER_LARGEST + 1
    && (forall c :: POWER_SMALLEST <= c < i <= POWER_LARGEST ==>
        Fresh(table[c]) && table[c].size <= size && table[c].size <= POWER_BLOCK)
    && (forall c, d :: POWER_SMALLEST <= c <= d < i <= POWER_LARGEST ==> table[c].size <= table[d].size)
    && (forall c :: 0 <= c <= POWER_LARGEST ==> table[c].slabList == [] && table[c].slots == [])
  }

  lemma FreshClass(size: nat)
    requires 0 < size <= POWER_BLOCK && size % CHUNK_ALIGN_BYTES == 0
    ensures POWER_BLOCK / size > 0 && Fresh(SlabClass(size, POWER_BLOCK / size, [], 0, 0, []))
  {
    BlockDivides(size);
  }

  lemma BlockDivides(size: nat)
    requires 0 < size <= POWER_BLOCK
    ensures POWER_BLOCK / size > 0 && size * (POWER_BLOCK / size) <= POWER_BLOCK
  {
  }

  lemma Scales(size: nat, factor: real)
    requires factor > 1.0
    ensures (size as real * factor).Floor >= size
  {
    assert size as real * factor >= size as real;
  }

  lemma FreshOk(classes: seq<SlabClass>, live: seq<set<int>>, largest: nat, limit: nat)
    requires Sized(classes, largest) && |live| == |classes|
    requires forall c :: 0 <= c < |live| ==> live[c] == {}
    requires forall c :: POWER_SMALLEST <= c <= largest ==> Fresh(classes[c])
    requires forall c :: 0 <= c <= POWER_LARGEST ==> classes[c].slabList == [] && classes[c].slots == []
    ensures Ok(classes, live, largest, limit, 0)
  {
    NoOwners(classes, |classes|);
    forall c | POWER_SMALLEST <= c <= largest
      ensures Partitioned(classes[c], live[c])
    {
      assert Fresh(classes[c]);
      assert Handed(classes[c]) == {};
    }
  }

  lemma {:induction false} NoOwners(classes: seq<SlabClass>, n: nat)
    requires n <= |classes| && forall c :: 0 <= c < |classes| ==> classes[c].slabList == []
    ensures Owners(classes, n) == 0 && Owned(classes, n) == 0
  {
    if n > 0 { NoOwners(classes, n - 1); }
  }

  lemma PartsOf(classes: seq<SlabClass>, live: seq<set<int>>, largest: nat, limit: nat, malloced: nat, id: nat)
    requires Ok(classes, live, largest, limit, malloced) && POWER_SMALLEST <= id <= largest
    ensures |classes| == |live| == POWER_LARGEST + 1 && largest <= POWER_LARGEST && Partitioned(classes[id], live[id])
  {
  }

  lemma TailUnused(c: SlabClass, live: set<int>)
    requires Partitioned(c, live) && c.endPageFree > 0
    ensures c.endPagePtr !in live
  {
    BumpHanded(c, live);
  }

  lemma BumpOk(classes: seq<SlabClass>, live: seq<set<int>>, largest: nat, limit: nat, malloced: nat, id: nat)
    requires Ok(classes, live, largest, limit, malloced) && POWER_SMALLEST <= id <= largest &&
             classes[id].endPageFree > 0
    ensures |classes| == |live| && id < |live| && classes[id].endPagePtr > 0 && classes[id].endPagePtr !in live[id]
    ensures Ok(classes[id := Bump(classes[id])], live[id := live[id] + {classes[id].endPagePtr}], largest, limit,
            malloced)
    ensures Bump(classes[id]).size == classes[id].size
  {
    PartsOf(classes, live, largest, limit, malloced, id);
    hide Ok, Handed, Partitioned;
    var c := classes[id];
    BumpPartitioned(c, live[id]);
    TailUnused(c, live[id]);
    TailNotNull(c, live[id]);
    SameSlabs(classes, live, largest, limit, malloced, id, Bump(c), live[id] + {c.endPagePtr});
  }

  lemma BumpForm(c: SlabClass)
    requires c.endPageFree > 0
    ensures c.endPageFree > 1 ==> Bump(c) == c.(endPageFree := c.endPageFree - 1).(endPagePtr := c.endPagePtr + c.size)
    ensures c.endPageFree == 1 ==> Bump(c) == c.(endPageFree := c.endPageFree - 1).(endPagePtr := 0)
  {
  }

  lemma GrownForm(c: SlabClass, ptr: int)
    ensures Grown(c, ptr) == c.(endPagePtr := ptr, endPageFree := c.perslab).(slabList := c.slabList + [ptr])
  {
  }

  lemma EndPage(c: SlabClass, live: set<int>)
    requires Partitioned(c, live)
    ensures c.endPagePtr == 0 <==> c.endPageFree == 0
  {
    if c.endPageFree > 0 { TailNotNull(c, live); }
  }

  lemma TailNotNull(c: SlabClass, live: set<int>)
    requires Partitioned(c, live) && c.endPageFree > 0
    ensures c.endPagePtr > 0
  {
    ChunkInside(c, |c.slabList| - 1, c.perslab - c.endPageFree);
  }

  lemma NotNull(c: SlabClass, live: set<int>, p: int)
    requires Partitioned(c, live) && p in c.slots
    ensures p > 0
  {
    assert p in Free(c);
    assert p in Handed(c);
    var b: nat, k: nat :| b < |c.slabList| && k < c.perslab && !InTail(c, b, k) && Chunk(c, b, k) == p;
    ChunkInside(c, b, k);
  }

  // ----- taking the chunks of one slab off the free list, as slabs reassign does

  predicate Inside(p: int, slab: int) { slab <= p < slab + POWER_BLOCK }

  function Outside(l: seq<int>, slab: int): seq<int> {
    if l == [] then [] else (if Inside(l[0], slab) then [] else [l[0]]) + Outside(l[1..], slab)
  }

  /** Half way: the first fi entries are untouched, the rest hold what of theirs lies outside the slab. */
  ghost predicate Purging(l: seq<int>, now: seq<int>, fi: nat, curr: nat, slab: int) {
    && fi <= curr <= |l| && |l| <= |now| && now[..fi] == l[..fi]
    && multiset(now[fi..curr]) == multiset(Outside(l[fi..], slab))
  }

  lemma PurgeStart(l: seq<int>, now: seq<int>, slab: int)
    requires |l| <= |now| && now[..|l|] == l
    ensures Purging(l, now, |l|, |l|, slab)
  {
    assert now[|l|..|l|] == [] && l[|l|..] == [] && l[..|l|] == l;
  }

  lemma PurgeHead(l: seq<int>, now: seq<int>, fi: nat)
    requires 0 < fi <= |l| && fi <= |now| && now[..fi] == l[..fi]
    ensures now[fi - 1] == l[fi - 1] && now[..fi - 1] == l[..fi - 1]
  {
    assert now[fi - 1] == now[..fi][fi - 1] && l[fi - 1] == l[..fi][fi - 1];
    assert now[..fi - 1] == now[..fi][..fi - 1] && l[..fi - 1] == l[..fi][..fi - 1];
  }

  lemma PurgeSkip(l: seq<int>, now: seq<int>, fi: nat, curr: nat, slab: int)
    requires fi > 0 && Purging(l, now, fi, curr, slab) && !Inside(now[fi - 1], slab)
    ensures Purging(l, now, fi - 1, curr, slab)
  {
    hide Outside;
    PurgeHead(l, now, fi);
    OutsideStep(l, fi - 1, slab);
    assert now[fi - 1..curr] == [now[fi - 1]] + now[fi..curr];
  }

  lemma PurgeFill(l: seq<int>, now: seq<int>, after: seq<int>, fi: nat, curr: nat, slab: int)
    requires Purging(l, now, fi + 1, curr + 1, slab) && Inside(now[fi], slab)
    requires after == if curr > fi then now[fi := now[curr]] else now
    ensures Purging(l, after, fi, curr, slab)
  {
    hide Outside;
    PurgeHead(l, now, fi + 1);
    Refill(now, after, fi, curr);
    OutsideInside(l, fi, slab);
  }

  lemma OutsideInside(l: seq<int>, fi: nat, slab: int)
    requires fi < |l| && Inside(l[fi], slab)
    ensures Outside(l[fi..], slab) == Outside(l[fi + 1..], slab)
  {
    assert l[fi..][1..] == l[fi + 1..];
  }

  /** The purge loop of do_slabs_reassign: holes are filled from the end of the list. */
  method Purge(slots: array<int>, slCurr: nat, slab: int) returns (curr: nat)
    requires slCurr <= slots.Length
    modifies slots
    ensures curr <= slCurr && multiset(slots[..curr]) == multiset(Outside(old(slots[..slCurr]), slab))
  {
    hide Purging, Outside;
    ghost var l := slots[..slCurr];
    curr := slCurr;
    var fi := slCurr;
    PurgeStart(l, slots[..], slab);
    while fi > 0
      invariant 0 <= fi <= curr <= slCurr && Purging(l, slots[..], fi, curr, slab)
    {
      fi := fi - 1;
      ghost var before := slots[..];
      if Inside(slots[fi], slab) {
        curr := curr - 1;
        if curr > fi {
          slots[fi] := slots[curr];
          assert slots[..] == before[fi := before[curr]];
        }
        PurgeFill(l, before, slots[..], fi, curr, slab);
      } else {
        PurgeSkip(l, before, fi + 1, curr, slab);
      }
    }
    PurgeEnd(l, slots[..], curr, slab);
    assert slots[..][..curr] == slots[..curr];
  }

  lemma PurgeEnd(l: seq<int>, now: seq<int>, curr: nat, slab: int)
    requires Purging(l, now, 0, curr, slab)
    ensures multiset(now[..curr]) == multiset(Outside(l, slab))
  {
    assert l[0..] == l && now[0..curr] == now[..curr];
  }

  lemma OutsideStep(l: seq<int>, fi: nat, slab: int)
    requires fi < |l|
    ensures multiset(Outside(l[fi..], slab)) ==
            multiset(Outside(l[fi + 1..], slab)) + (if Inside(l[fi], slab) then multiset{} else multiset{l[fi]})
  {
    assert l[fi..][1..] == l[fi + 1..];
  }

  lemma Refill(before: seq<int>, after: seq<int>, fi: nat, curr: nat)
    requires fi <= curr < |before|
    requires after == if curr > fi then before[fi := before[curr]] else before
    ensures after[..fi] == before[..fi] && multiset(after[fi..curr]) == multiset(before[fi + 1..curr + 1])
  {
    if curr > fi {
      assert after[fi..curr] == [before[curr]] + before[fi + 1..curr];
      assert before[fi + 1..curr + 1] == before[fi + 1..curr] + [before[curr]];
    }
  }

  // ----- moving a slab to another class, as slabs reassign does

  /** Slab b leaves: the last slab takes its place, and the free list is what the purge left of it. */
  function Shed(c: SlabClass, b: nat, slots: seq<int>): SlabClass
    requires b < |c.slabList|
  {
    var n := |c.slabList| - 1;
    c.(slabList := c.slabList[b := c.slabList[n]][..n], slots := slots)
  }

  /** Slab b of c shares no block of memory with another slab of c. */
  ghost predicate BlockApart(c: SlabClass, b: nat)
    requires b < |c.slabList|
  {
    forall d :: 0 <= d < |c.slabList| && d != b ==> Apart(c.slabList[b], POWER_BLOCK, c.slabList[d], POWER_BLOCK)
  }

  /** Where slab e of the class after the move stood before. */
  function Stood(c: SlabClass, b: nat, e: nat): nat
    requires c.slabList != []
  {
    if e == b then |c.slabList| - 1 else e
  }

  lemma ShedChunk(c: SlabClass, b: nat, slots: seq<int>, e: nat, k: nat)
    requires b < |c.slabList| && e < |c.slabList| - 1 && k < c.perslab
    ensures Chunk(Shed(c, b, slots), e, k) == Chunk(c, Stood(c, b, e), k) && Stood(c, b, e) != b
  {
  }

  lemma OutsideSlab(c: SlabClass, live: set<int>, b: nat, e: nat, k: nat)
    requires Partitioned(c, live) && b < |c.slabList| && BlockApart(c, b) && e < |c.slabList| && k < c.perslab
    ensures Inside(Chunk(c, e, k), c.slabList[b]) <==> e == b
  {
    ChunkInside(c, e, k);
    hide Chunk, Handed;
    assert e != b ==> Apart(c.slabList[b], POWER_BLOCK, c.slabList[e], POWER_BLOCK);
  }

  /** What was handed out of the other slabs. */
  lemma ShedHanded(c: SlabClass, live: set<int>, b: nat, slots: seq<int>)
    requires Partitioned(c, live) && b < |c.slabList| && BlockApart(c, b) && c.endPageFree == 0
    ensures Handed(Shed(c, b, slots)) == set p | p in Handed(c) && !Inside(p, c.slabList[b])
  {
    var t := Shed(c, b, slots);
    forall p | p in Handed(t)
      ensures p in Handed(c) && !Inside(p, c.slabList[b])
    {
      var d: nat, m: nat :| d < |t.slabList| && m < t.perslab && !InTail(t, d, m) && Chunk(t, d, m) == p;
      ShedChunk(c, b, slots, d, m);
      OutsideSlab(c, live, b, Stood(c, b, d), m);
      assert !InTail(c, Stood(c, b, d), m);
    }
    forall p | p in Handed(c) && !Inside(p, c.slabList[b])
      ensures p in Handed(t)
    {
      var d: nat, m: nat :| d < |c.slabList| && m < c.perslab && !InTail(c, d, m) && Chunk(c, d, m) == p;
      OutsideSlab(c, live, b, d, m);
      var e := if d == |c.slabList| - 1 then b else d;
      ShedChunk(c, b, slots, e, m);
      assert !InTail(t, e, m) && Chunk(t, e, m) == p;
    }
  }

  lemma ShedSeparate(c: SlabClass, b: nat, slots: seq<int>)
    requires Separate(c) && b < |c.slabList|
    ensures Separate(Shed(c, b, slots)) && forall x :: x in Shed(c, b, slots).slabList ==> x in c.slabList
  {
    var t := Shed(c, b, slots);
    forall d, e | 0 <= d < e < |t.slabList|
      ensures Apart(t.slabList[d], Length(t), t.slabList[e], Length(t))
    {
      var i, j := Stood(c, b, d), Stood(c, b, e);
      assert t.slabList[d] == c.slabList[i] && t.slabList[e] == c.slabList[j] && i != j;
    }
  }

  /** The class that gives up a slab with no chunk in use stays partitioned. */
  lemma ShedPartitioned(c: SlabClass, live: set<int>, b: nat, slots: seq<int>)
    requires Partitioned(c, live) && b < |c.slabList| && BlockApart(c, b) && c.endPageFree == 0
    requires forall p :: p in live ==> !Inside(p, c.slabList[b])
    requires multiset(slots) == multiset(Outside(c.slots, c.slabList[b]))
    ensures Partitioned(Shed(c, b, slots), live)
  {
    var t := Shed(c, b, slots);
    ShedHanded(c, live, b, slots);
    ShedSeparate(c, b, slots);
    PurgedSlots(c.slots, slots, c.slabList[b]);
    hide Handed, Separate, Distinct, Outside, Chunk;
    assert t.slots == slots;
    assert forall p :: p in Free(t) <==> p in Free(c) && !Inside(p, c.slabList[b]);
    forall p
      ensures p in live + Free(t) <==> p in Handed(t)
    {
      assert p in Handed(c) <==> p in live + Free(c);
    }
    assert forall e :: 0 <= e < |t.slabList| ==> t.slabList[e] in c.slabList;
  }

  /** The purged list holds each free chunk outside the slab, once. */
  lemma PurgedSlots(l: seq<int>, slots: seq<int>, slab: int)
    requires Distinct(l) && multiset(slots) == multiset(Outside(l, slab))
    ensures Distinct(slots) && forall p :: p in slots <==> p in l && !Inside(p, slab)
  {
    OutsideMembers(l, slab);
    hide Outside;
    forall p
      ensures p in slots <==> p in l && !Inside(p, slab)
    {
      assert p in slots <==> p in multiset(slots);
      assert p in Outside(l, slab) <==> p in multiset(Outside(l, slab));
    }
    forall i, j | 0 <= i < j < |slots|
      ensures slots[i] != slots[j]
    {
      if slots[i] == slots[j] {
        CountedTwice(slots, i, j);
        CountedOnce(Outside(l, slab), slots[i]);
      }
    }
  }

  lemma {:induction false} OutsideMembers(l: seq<int>, slab: int)
    requires Distinct(l)
    ensures Distinct(Outside(l, slab)) && forall p :: p in Outside(l, slab) <==> p in l && !Inside(p, slab)
  {
    if l != [] {
      OutsideMembers(l[1..], slab);
    }
  }

  lemma CountedTwice(l: seq<int>, i: nat, j: nat)
    requires i < j < |l| && l[i] == l[j]
    ensures multiset(l)[l[i]] >= 2
  {
    assert l == l[..i] + [l[i]] + l[i + 1..j] + [l[j]] + l[j + 1..];
  }

  lemma {:induction false} CountedOnce(l: seq<int>, p: int)
    requires Distinct(l)
    ensures multiset(l)[p] <= 1
  {
    if l != [] {
      assert l == [l[0]] + l[1..];
      CountedOnce(l[1..], p);
    }
  }

  /** The slab shares no block with a slab of any other class. */
  ghost predicate BlockAlone(classes: seq<SlabClass>, src: nat, slab: int) {
    forall c, d :: 0 <= c < |classes| && c != src && 0 <= d < |classes[c].slabList| ==>
      Apart(slab, POWER_BLOCK, classes[c].slabList[d], POWER_BLOCK)
  }

  /** Slab b of src becomes the tail of dst. */
  function Moved(classes: seq<SlabClass>, src: nat, dst: nat, b: nat, slots: seq<int>): seq<SlabClass>
    requires src < |classes| && dst < |classes| && b < |classes[src].slabList|
  {
    var shed := classes[src := Shed(classes[src], b, slots)];
    shed[dst := Grown(shed[dst], classes[src].slabList[b])]
  }

  /**
   What slabs reassign has made sure of: the slab shares no block, none of its chunks is in use,
   the free ones are purged.
   */
  ghost predicate Movable(classes: seq<SlabClass>, live: set<int>, src: nat, dst: nat, b: nat, slots: seq<int>) {
    && src < |classes| && dst < |classes| && b < |classes[src].slabList|
    && classes[src].endPageFree == 0 && classes[dst].endPageFree == 0
    && BlockApart(classes[src], b) && BlockAlone(classes, src, classes[src].slabList[b])
    && (forall p :: p in live ==> !Inside(p, classes[src].slabList[b]))
    && multiset(slots) == multiset(Outside(classes[src].slots, classes[src].slabList[b]))
  }

  /**
   The move at the end of do_slabs_reassign: slab b of class src, with no chunk in use and its free
   chunks purged, becomes the tail of class dst.  All classes stay partitioned and apart, so chunks in
   use still do not overlap; the memory they own changes as the slab counts for another class.
   */
  lemma MoveSound(classes: seq<SlabClass>, live: seq<set<int>>, largest: nat, src: nat, dst: nat, b: nat,
      slots: seq<int>)
    requires Sound(classes, live, largest) && POWER_SMALLEST <= src <= largest && POWER_SMALLEST <= dst <= largest
    requires Movable(classes, live[src], src, dst, b, slots)
    ensures var next := Moved(classes, src, dst, b, slots);
            && Sound(next, live, largest) && |next| == |classes|
            && Owned(next, |next|) == Owned(classes, |classes|) - Length(classes[src]) + Length(classes[dst])
  {
    hide Partitioned, Unused, AllSeparate, Owned, Untouched, Length, Movable, Shed, Apart;
    var t := ShedOf(classes, live, src, dst, b, slots);
    var shed := classes[src := t];
    var slab := classes[src].slabList[b];
    ShedAllSeparate(classes, src, b, slots);
    SlabUntouched(classes, live, largest, src, dst, b, slots);
    ClassFacts(shed, dst, live[dst], slab);
    GrownPartitioned(shed[dst], live[dst], slab);
    SameLength(shed[dst], slab);
    NewSlabSeparate(shed, dst, slab);
    MoveOwned(classes, src, dst, b, slots);
  }

  /** The memory owned counts the slab with its new class. */
  lemma MoveOwned(classes: seq<SlabClass>, src: nat, dst: nat, b: nat, slots: seq<int>)
    requires src < |classes| && dst < |classes| && b < |classes[src].slabList|
    ensures var next := Moved(classes, src, dst, b, slots);
            && |next| == |classes|
            && Owned(next, |next|) == Owned(classes, |classes|) - Length(classes[src]) + Length(classes[dst])
  {
    var c := classes[src];
    var t := Shed(c, b, slots);
    assert Length(t) == Length(c) && |t.slabList| + 1 == |c.slabList|;
    hide Owned, Owners, Length, Shed;
    var shed := classes[src := t];
    var d := shed[dst];
    SameLength(d, c.slabList[b]);
    OwnersUpdate(classes, src, t, |classes|);
    OwnersUpdate(shed, dst, Grown(d, c.slabList[b]), |classes|);
    Once(|d.slabList|, Length(d));
    Once(|t.slabList|, Length(t));
  }

  /** The class that gives up the slab, and what of it stays the same. */
  lemma ShedOf(classes: seq<SlabClass>, live: seq<set<int>>, src: nat, dst: nat, b: nat, slots: seq<int>)
    returns (t: SlabClass)
    requires src < |live| == |classes| && dst < |classes| && Partitioned(classes[src], live[src])
    requires Movable(classes, live[src], src, dst, b, slots)
    ensures b < |classes[src].slabList| && t == Shed(classes[src], b, slots) && Partitioned(t, live[src])
    ensures t.size == classes[src].size && t.perslab == classes[src].perslab && Length(t) == Length(classes[src])
    ensures |t.slabList| + 1 == |classes[src].slabList| && t.endPageFree == 0 && classes[dst].endPageFree == 0
  {
    hide Partitioned;
    t := Shed(classes[src], b, slots);
    ShedPartitioned(classes[src], live[src], b, slots);
  }

  lemma ShedAllSeparate(classes: seq<SlabClass>, src: nat, b: nat, slots: seq<int>)
    requires AllSeparate(classes) && src < |classes| && b < |classes[src].slabList|
    ensures AllSeparate(classes[src := Shed(classes[src], b, slots)])
  {
    var next := classes[src := Shed(classes[src], b, slots)];
    forall c, d, i, e | 0 <= c < d < |next| && 0 <= i < |next[c].slabList| && 0 <= e < |next[d].slabList|
      ensures Apart(next[c].slabList[i], Length(next[c]), next[d].slabList[e], Length(next[d]))
    {
      var i' := if c == src then Stood(classes[src], b, i) else i;
      var e' := if d == src then Stood(classes[src], b, e) else e;
      assert next[c].slabList[i] == classes[c].slabList[i'] && next[d].slabList[e] == classes[d].slabList[e'];
    }
  }

  /** Given up, the slab meets no slab of any class. */
  lemma SlabUntouched(classes: seq<SlabClass>, live: seq<set<int>>, largest: nat, src: nat, dst: nat, b: nat,
      slots: seq<int>)
    requires Sound(classes, live, largest) && POWER_SMALLEST <= src <= largest && POWER_SMALLEST <= dst <= largest
    requires Movable(classes, live[src], src, dst, b, slots)
    ensures Untouched(classes[src := Shed(classes[src], b, slots)], classes[src].slabList[b], Length(classes[dst]))
  {
    var slab := classes[src].slabList[b];
    var shed := classes[src := Shed(classes[src], b, slots)];
    assert Partitioned(classes[src], live[src]) && Partitioned(classes[dst], live[dst]);
    BlockLong(classes, live, largest);
    hide Sound, Partitioned;
    forall c, e | 0 <= c < |shed| && 0 <= e < |shed[c].slabList|
      ensures Apart(shed[c].slabList[e], Length(shed[c]), slab, Length(classes[dst]))
    {
      if c == src {
        var i := Stood(classes[src], b, e);
        assert shed[c].slabList[e] == classes[src].slabList[i] && i != b;
        assert Apart(slab, POWER_BLOCK, classes[src].slabList[i], POWER_BLOCK);
      } else {
        assert Apart(slab, POWER_BLOCK, classes[c].slabList[e], POWER_BLOCK);
      }
    }
  }

  /** No slab is longer than a block. */
  lemma BlockLong(classes: seq<SlabClass>, live: seq<set<int>>, largest: nat)
    requires Sound(classes, live, largest)
    ensures forall c :: 0 <= c < |classes| && classes[c].slabList != [] ==> Length(classes[c]) <= POWER_BLOCK
    ensures forall c :: POWER_SMALLEST <= c <= largest ==>
              Length(classes[c]) <= POWER_BLOCK && forall b :: 0 <= b < |classes[c].slabList| ==>
                  classes[c].slabList[b] > 0
  {
    forall c | 0 <= c < |classes| && classes[c].slabList != []
      ensures Length(classes[c]) <= POWER_BLOCK
    {
      assert Partitioned(classes[c], live[c]) || Unused(classes[c], live[c]);
    }
  }
}
