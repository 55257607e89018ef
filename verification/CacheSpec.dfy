/**
 The cache engine of memcached as a state machine over plain values: the hash index, one
 recency list per slab class, reference counts, delete locks, lazy expiry and running totals.
 One operation is one section under cache_lock.  Module Cache implements these operations on
 linked items and is proved to compute exactly these functions.
 */
module CacheSpec {
  import opened Sequences

  const LARGEST_ID := 255
  const POWER_LARGEST := 200
  const MAX_BYTES := 1048576
  const ITEM_UPDATE_INTERVAL := 60
  const EVICT_TRIES := 50
  const WRAP := 0x1_0000_0000
  const SIZEOF_ITEM := 120

  /** The fields of an item apart from its list links. */
  datatype Rec = Rec(
    key: string, flags: int, data: string, clsid: nat, time: nat, exptime: nat,
    refcount: nat, linked: bool, deleted: bool, casId: nat)

  /** One item of the cache, in the heap; only module Cache reads or writes it. */
  class Item {
    var next: Item?
    var prev: Item?
    var slabbed: bool
    var rec: Rec

    constructor (r: Rec)
      ensures rec == r && next == null && prev == null && !slabbed
    {
      next, prev, slabbed, rec := null, null, false, r;
    }
  }

  /**
   `items` are the items allocated and not yet freed; `refs` counts, for every item, the
   references that connections hold on it, the delete queue's own references not included;
   `lost` counts references that were taken and that nobody will give back.
   `born[x]` is the number of flush_all commands seen when x was last linked.  `behind` are the bytes
   that happen to lie behind the buffer in which keys are turned into numbers.
   */
  datatype State = State(
    items: map<Item, Rec>, lru: seq<seq<Item>>, index: map<nat, Item>,
    todelete: seq<Item>, refs: multiset<Item>, lost: multiset<Item>,
    now: nat, oldestLive: nat, epoch: nat, born: map<Item, nat>,
    currItems: int, currBytes: int, lastCas: nat, behind: string)

  // ----- keys and sizes

  predicate IsSpace(c: char) { c == ' ' || '\t' <= c <= '\r' }
  predicate IsDigit(c: char) { '0' <= c <= '9' }

  function DigitValue(c: char): nat
    requires IsDigit(c)
  {
    c as int - '0' as int
  }

  function Digits(s: string, acc: nat): nat {
    if s == [] || !IsDigit(s[0]) then acc else Digits(s[1..], 10 * acc + DigitValue(s[0]))
  }

  function Atol(s: string): int {
    if s == [] then 0
    else if IsSpace(s[0]) then Atol(s[1..])
    else if s[0] == '-' then 0 - Digits(s[1..], 0)
    else if s[0] == '+' then Digits(s[1..], 0)
    else Digits(s, 0)
  }

  /**
   The 64-bit number under which the hash table files a key.  The key is copied into a buffer that
   it fills without a terminator, so the reading may run on into whatever lies behind it.
   */
  function ConvertKey(key: string, behind: string): nat {
    Atol(key + behind) % 0x1_0000_0000_0000_0000
  }

  function DecimalLength(n: int): nat
    decreases if n < 0 then 1 - n else n
  {
    if n < 0 then 1 + DecimalLength(-n) else if n < 10 then 1 else 1 + DecimalLength(n / 10)
  }

  /** Bytes an item takes: header, key and its terminator, the " flags length\r\n" suffix, data. */
  function NTotal(key: string, flags: int, nbytes: nat): nat {
    SIZEOF_ITEM + |key| + 1 + (4 + DecimalLength(flags) + DecimalLength(nbytes - 2)) + nbytes
  }

  function Size(r: Rec): nat { NTotal(r.key, r.flags, |r.data|) }

  // ----- the invariant

  /** An item belongs to a real class and is under 1MB; a linked one ends in a line break. */
  predicate Sound(r: Rec) {
    0 < r.clsid <= POWER_LARGEST && |r.data| < MAX_BYTES && (r.linked ==> |r.data| >= 2)
  }

  ghost predicate Shaped(s: State) {
    |s.lru| == LARGEST_ID && forall x :: x in s.items ==> Sound(s.items[x])
  }

  /** LINKED means: exactly once on the list of its class, and on no other. */
  ghost predicate Placed(s: State)
    requires Shaped(s)
  {
    && (forall c :: 0 <= c < LARGEST_ID ==> Distinct(s.lru[c]))
    && (forall c, x :: 0 <= c < LARGEST_ID && x in s.lru[c] ==>
          x in s.items && s.items[x].linked && s.items[x].clsid == c)
    && (forall x :: x in s.items && s.items[x].linked ==> x in s.lru[s.items[x].clsid])
  }

  /** LINKED means: found by the index under its own key. */
  ghost predicate Indexed(s: State) {
    && (forall x :: x in s.items && s.items[x].linked ==>
          ConvertKey(s.items[x].key, s.behind) in s.index && s.index[ConvertKey(s.items[x].key, s.behind)] == x)
    && (forall k :: k in s.index ==>
          s.index[k] in s.items && s.items[s.index[k]].linked && ConvertKey(s.items[s.index[k]].key, s.behind) == k)
  }

  /** All references on x: those of connections, the lost ones and the delete queue's. */
  function References(s: State, x: Item): nat {
    s.refs[x] + s.lost[x] + (if x in s.todelete then 1 else 0)
  }

  /** A reference count is the number of references, and no item is kept without one unless it is linked. */
  ghost predicate Counted(s: State) {
    && (forall x :: x in s.items ==>
          s.items[x].refcount == References(s, x) && (s.items[x].linked || s.items[x].refcount > 0))
    && (forall x :: x in s.refs ==> x in s.items)
    && (forall x :: x in s.lost ==> x in s.items)
  }

  ghost predicate Deferred(s: State) {
    && Distinct(s.todelete)
    && (forall x :: x in s.todelete ==> x in s.items)
    && (forall x :: x in s.items ==> (s.items[x].deleted <==> x in s.todelete))
  }

  ghost function Weights(s: State): map<nat, nat>
    requires Indexed(s)
  {
    map k | k in s.index :: Size(s.items[s.index[k]])
  }

  ghost predicate Totalled(s: State)
    requires Indexed(s)
  {
    s.currItems == |s.index| && s.currBytes == Total(Weights(s))
  }

  /** Every list runs from newest to oldest, and no stamp lies in the future. */
  ghost predicate NewestFirst(s: State, l: seq<Item>) {
    && (forall x :: x in l ==> x in s.items)
    && forall i, j :: 0 <= i < j < |l| ==> s.items[l[i]].time >= s.items[l[j]].time
  }

  ghost predicate Ordered(s: State) {
    && (forall c :: 0 <= c < |s.lru| ==> NewestFirst(s, s.lru[c]))
    && (forall x :: x in s.items && s.items[x].linked ==> s.items[x].time <= s.now)
    && s.now < WRAP
  }

  ghost predicate Inv(s: State) {
    Shaped(s) && Placed(s) && Indexed(s) && Counted(s) && Deferred(s) && Totalled(s) && Ordered(s)
  }

  // ----- the elementary steps; on an item the state does not know they change nothing

  predicate Known(s: State, x: Item) { x in s.items && s.items[x].clsid < |s.lru| }

  /** do_item_link */
  function Link(s: State, x: Item): State {
    if !Known(s, x) then s else
    var r := s.items[x];
    s.(items := s.items[x := r.(linked := true, time := s.now, casId := s.lastCas + 1)],
       index := s.index[ConvertKey(r.key, s.behind) := x],
       lru := s.lru[r.clsid := [x] + s.lru[r.clsid]],
       born := s.born[x := s.epoch],
       currItems := s.currItems + 1, currBytes := s.currBytes + Size(r), lastCas := s.lastCas + 1)
  }

  /** do_item_unlink: nothing for an item that is not linked; freed at once if nobody holds it. */
  function Unlink(s: State, x: Item): State {
    if !Known(s, x) then s else
    var r := s.items[x];
    if !r.linked then s else
      s.(items := if r.refcount == 0 then s.items - {x} else s.items[x := r.(linked := false)],
         index := s.index - {ConvertKey(r.key, s.behind)},
         lru := s.lru[r.clsid := Without(s.lru[r.clsid], x)],
         currItems := s.currItems - 1, currBytes := s.currBytes - Size(r))
  }

  /** do_item_remove: a connection gives its reference back. */
  function Release(s: State, x: Item): State {
    if x !in s.items then s else
    var r := s.items[x];
    var n := if r.refcount == 0 then 0 else r.refcount - 1;
    s.(items := if n == 0 && !r.linked then s.items - {x} else s.items[x := r.(refcount := n)],
       refs := s.refs - multiset{x})
  }

  /** A lookup that hands out a reference. */
  function Take(s: State, x: Item): State {
    if x !in s.items then s else
    s.(items := s.items[x := s.items[x].(refcount := s.items[x].refcount + 1)], refs := s.refs + multiset{x})
  }

  /** The unsigned difference current_time - ITEM_UPDATE_INTERVAL. */
  function UpdateHorizon(now: nat): nat { (now - ITEM_UPDATE_INTERVAL) % WRAP }

  predicate Moves(s: State, x: Item) {
    Known(s, x) && s.items[x].time < UpdateHorizon(s.now) && s.items[x].linked
  }

  /** do_item_update */
  function Update(s: State, x: Item): State {
    if !Known(s, x) then s else
    var r := s.items[x];
    if !Moves(s, x) then s else
      s.(items := s.items[x := r.(time := s.now)],
         lru := s.lru[r.clsid := [x] + Without(s.lru[r.clsid], x)])
  }

  /** A freshly allocated item, with one reference for the caller. */
  function New(s: State, x: Item, r: Rec): State {
    s.(items := s.items[x := r], refs := s.refs + multiset{x})
  }

  /** A section returns without giving back the reference it took. */
  function Lose(s: State, x: Item): State { s.(refs := s.refs - multiset{x}, lost := s.lost + multiset{x}) }

  /** A cas command marks its item with the version the client named. */
  function Stamp(s: State, x: Item, id: nat): State {
    if x !in s.items then s else s.(items := s.items[x := s.items[x].(casId := id)])
  }

  function Tick(s: State, t: nat): State { s.(now := t) }

  /** Other bytes come to lie behind the key buffer. */
  function Behind(s: State, b: string): State { s.(behind := b) }

  // ----- every elementary step keeps the invariant

  /** The state may take x onto a list: it is not linked and its key is free. */
  ghost predicate Linkable(s: State, x: Item) {
    x in s.items && !s.items[x].linked && |s.items[x].data| >= 2 && ConvertKey(s.items[x].key, s.behind) !in s.index
  }

  lemma LinkInv(s: State, x: Item)
    requires Inv(s) && Linkable(s, x)
    ensures Inv(Link(s, x))
  {
    hide Placed, Indexed, Counted, Deferred, Totalled, Ordered, Linkable;
    LinkPlaced(s, x);
    LinkIndexed(s, x);
    LinkCounted(s, x);
    LinkTotalled(s, x);
    LinkOrdered(s, x);
  }

  lemma LinkPlaced(s: State, x: Item)
    requires Shaped(s) && Placed(s) && Linkable(s, x)
    ensures Shaped(Link(s, x)) && Placed(Link(s, x))
  {
    assert x !in s.lru[s.items[x].clsid];
  }

  lemma LinkIndexed(s: State, x: Item)
    requires Shaped(s) && Indexed(s) && Linkable(s, x)
    ensures Indexed(Link(s, x))
  {
    hide ConvertKey, Size;
  }

  lemma LinkCounted(s: State, x: Item)
    requires Shaped(s) && Counted(s) && Deferred(s) && Linkable(s, x)
    ensures Counted(Link(s, x)) && Deferred(Link(s, x))
  {
    hide ConvertKey, Size;
  }

  lemma LinkTotalled(s: State, x: Item)
    requires Shaped(s) && Indexed(s) && Totalled(s) && Linkable(s, x)
    requires Indexed(Link(s, x))
    ensures Totalled(Link(s, x))
  {
    hide ConvertKey, NTotal, Total, Indexed, Weights;
    WeightsLink(s, x);
    TotalInsert(Weights(s), ConvertKey(s.items[x].key, s.behind), Size(s.items[x]));
  }

  lemma WeightsLink(s: State, x: Item)
    requires Shaped(s) && Indexed(s) && Linkable(s, x) && Indexed(Link(s, x))
    ensures ConvertKey(s.items[x].key, s.behind) !in Weights(s)
    ensures Weights(Link(s, x)) == Weights(s)[ConvertKey(s.items[x].key, s.behind) := Size(s.items[x])]
  {
    hide ConvertKey, NTotal;
  }

  lemma LinkOrdered(s: State, x: Item)
    requires Shaped(s) && Placed(s) && Ordered(s) && Linkable(s, x)
    ensures Ordered(Link(s, x))
  {
    var t := Link(s, x);
    forall c | 0 <= c < |t.lru|
      ensures NewestFirst(t, t.lru[c])
    {
      assert NewestFirst(s, s.lru[c]);
    }
  }

  lemma UnlinkInv(s: State, x: Item)
    requires Inv(s) && x in s.items
    ensures Inv(Unlink(s, x))
  {
    if s.items[x].linked {
      hide Placed, Indexed, Counted, Deferred, Totalled, Ordered;
      UnlinkPlaced(s, x);
      UnlinkIndexed(s, x);
      UnlinkCounted(s, x);
      UnlinkTotalled(s, x);
      UnlinkOrdered(s, x);
    }
  }

  lemma UnlinkPlaced(s: State, x: Item)
    requires Shaped(s) && Placed(s) && x in s.items && s.items[x].linked
    ensures Shaped(Unlink(s, x)) && Placed(Unlink(s, x))
  {
    hide ConvertKey, Size, Without, Distinct;
    WithoutDistinct(s.lru[s.items[x].clsid], x);
  }

  lemma UnlinkIndexed(s: State, x: Item)
    requires Shaped(s) && Indexed(s) && x in s.items && s.items[x].linked
    ensures Indexed(Unlink(s, x))
  {
    hide ConvertKey, Size;
  }

  lemma UnlinkCounted(s: State, x: Item)
    requires Shaped(s) && Counted(s) && Deferred(s) && x in s.items && s.items[x].linked
    ensures Counted(Unlink(s, x)) && Deferred(Unlink(s, x))
  {
    UnlinkOnlyCounted(s, x);
    UnlinkOnlyDeferred(s, x);
    hide Counted, Deferred, Unlink;
  }

  lemma UnlinkOnlyCounted(s: State, x: Item)
    requires Shaped(s) && Counted(s) && x in s.items && s.items[x].linked
    ensures Counted(Unlink(s, x))
  {
    hide ConvertKey, Size, Without;
  }

  lemma UnlinkOnlyDeferred(s: State, x: Item)
    requires Shaped(s) && Counted(s) && Deferred(s) && x in s.items && s.items[x].linked
    ensures Deferred(Unlink(s, x))
  {
    hide ConvertKey, Size, Without, Distinct;
    assert x in s.todelete ==> s.items[x].refcount > 0;
  }

  lemma UnlinkTotalled(s: State, x: Item)
    requires Shaped(s) && Indexed(s) && Totalled(s) && x in s.items && s.items[x].linked
    requires Indexed(Unlink(s, x))
    ensures Totalled(Unlink(s, x))
  {
    hide ConvertKey, NTotal, Total, Indexed, Weights, Without;
    var k := ConvertKey(s.items[x].key, s.behind);
    WeightsUnlink(s, x);
    TotalRemove(Weights(s), k);
    RemoveSize(s.index, k);
  }

  lemma WeightsUnlink(s: State, x: Item)
    requires Shaped(s) && Indexed(s) && x in s.items && s.items[x].linked && Indexed(Unlink(s, x))
    ensures ConvertKey(s.items[x].key, s.behind) in Weights(s)
    ensures Weights(s)[ConvertKey(s.items[x].key, s.behind)] == Size(s.items[x])
    ensures Weights(Unlink(s, x)) == Weights(s) - {ConvertKey(s.items[x].key, s.behind)}
    ensures ConvertKey(s.items[x].key, s.behind) in s.index
  {
    hide ConvertKey, NTotal;
  }

  /** A list with one element taken out is still newest first. */
  lemma NewestFirstWithout(s: State, l: seq<Item>, x: Item)
    requires NewestFirst(s, l) && Distinct(l)
    ensures NewestFirst(s, Without(l, x))
  {
    hide Without, Distinct;
    if x in l {
      var k :| 0 <= k < |l| && l[k] == x;
      WithoutAt(l, k);
      NewestFirstCut(s, l, k);
    }
  }

  lemma NewestFirstCut(s: State, l: seq<Item>, k: nat)
    requires NewestFirst(s, l) && k < |l|
    ensures NewestFirst(s, l[..k] + l[k + 1..])
  {
    var m := l[..k] + l[k + 1..];
    assert forall i :: 0 <= i < |m| ==> m[i] == if i < k then l[i] else l[i + 1];
  }

  lemma UnlinkOrdered(s: State, x: Item)
    requires Shaped(s) && Placed(s) && Ordered(s) && x in s.items && s.items[x].linked
    ensures Ordered(Unlink(s, x))
  {
    hide ConvertKey, Size, Without, Distinct, NewestFirst;
    var t := Unlink(s, x);
    forall c | 0 <= c < |t.lru|
      ensures NewestFirst(t, t.lru[c])
    {
      NewestFirstWithout(s, s.lru[c], x);
      NewestFirstFrame(s, t, t.lru[c], x);
    }
  }

  /** Only the times of the items on it matter to a list. */
  lemma NewestFirstFrame(s: State, t: State, l: seq<Item>, x: Item)
    requires NewestFirst(s, l) && x !in l
    requires forall y :: y in s.items && y != x ==> y in t.items && t.items[y] == s.items[y]
    ensures NewestFirst(t, l)
  {
  }

  /** What of an item decides where it stands and how much it weighs. */
  function Placement(r: Rec): (Rec, nat) {
    (r.(refcount := 0, deleted := false, exptime := 0, casId := 0, data := []), |r.data|)
  }

  /** From s to t no linked item moved, was renamed or changed weight, and none was added or lost. */
  ghost predicate SamePlaces(s: State, t: State) {
    && s.lru == t.lru && s.index == t.index && s.behind == t.behind && (s.now == t.now || s.now <= t.now < WRAP)
    && s.currItems == t.currItems && s.currBytes == t.currBytes
    && (forall x :: x in s.items && s.items[x].linked ==>
        x in t.items && Placement(t.items[x]) == Placement(s.items[x]))
    && (forall x :: x in t.items && !(x in s.items && s.items[x].linked) ==>
          !t.items[x].linked && Sound(t.items[x]))
  }

  lemma SamePlacesInv(s: State, t: State)
    requires Shaped(s) && Placed(s) && Indexed(s) && Totalled(s) && Ordered(s) && SamePlaces(s, t)
    ensures Shaped(t) && Placed(t) && Indexed(t) && Totalled(t) && Ordered(t)
  {
    hide Placed, Indexed, Totalled, Ordered;
    SamePlacesPlaced(s, t);
    SamePlacesIndexed(s, t);
  }

  lemma SamePlacesPlaced(s: State, t: State)
    requires Shaped(s) && Placed(s) && Ordered(s) && SamePlaces(s, t)
    ensures Shaped(t) && Placed(t) && Ordered(t)
  {
    forall c | 0 <= c < |t.lru|
      ensures NewestFirst(t, t.lru[c])
    {
      assert NewestFirst(s, s.lru[c]);
    }
  }

  lemma SamePlacesIndexed(s: State, t: State)
    requires Indexed(s) && Totalled(s) && SamePlaces(s, t)
    ensures Indexed(t) && Totalled(t)
  {
    hide ConvertKey, NTotal, Total;
    assert Weights(t) == Weights(s);
  }

  lemma ReleaseInv(s: State, x: Item)
    requires Inv(s) && s.refs[x] > 0
    ensures x in s.items && Inv(Release(s, x))
  {
    hide Placed, Indexed, Totalled, Ordered, SamePlaces, Deferred;
    assert x in s.items;
    ReleaseCounted(s, x);
    ReleaseDeferred(s, x);
    SamePlacesInv(s, Release(s, x));
  }

  lemma ReleaseCounted(s: State, x: Item)
    requires Counted(s) && Deferred(s) && x in s.items && s.refs[x] > 0
    ensures Counted(Release(s, x))
  {
    hide Deferred;
    var t := Release(s, x);
    assert t.refs == s.refs - multiset{x};
    forall y | y in t.items
      ensures t.items[y].refcount == References(t, y)
      ensures t.items[y].linked || t.items[y].refcount > 0
    {
      assert y in s.items;
    }
  }

  lemma ReleaseDeferred(s: State, x: Item)
    requires Shaped(s) && Deferred(s) && x in s.items && s.refs[x] > 0
    requires s.items[x].refcount == References(s, x)
    ensures Deferred(Release(s, x)) && SamePlaces(s, Release(s, x))
  {
  }

  lemma TakeInv(s: State, x: Item)
    requires Inv(s) && x in s.items
    ensures Inv(Take(s, x))
  {
    hide Placed, Indexed, Totalled, Ordered, SamePlaces, Counted, Deferred;
    TakeCounted(s, x);
    SamePlacesInv(s, Take(s, x));
  }

  lemma TakeCounted(s: State, x: Item)
    requires Shaped(s) && Counted(s) && Deferred(s) && x in s.items
    ensures Counted(Take(s, x)) && Deferred(Take(s, x)) && SamePlaces(s, Take(s, x))
  {
    TakeOnlyCounted(s, x);
    TakeDeferred(s, x);
    hide Counted, Deferred, SamePlaces, Take;
  }

  lemma TakeOnlyCounted(s: State, x: Item)
    requires Counted(s) && x in s.items
    ensures Counted(Take(s, x))
  {
  }

  lemma TakeDeferred(s: State, x: Item)
    requires Shaped(s) && Deferred(s) && x in s.items
    ensures Deferred(Take(s, x)) && SamePlaces(s, Take(s, x))
  {
    hide Distinct;
  }

  lemma NewInv(s: State, x: Item, r: Rec)
    requires Inv(s) && x !in s.items && Sound(r)
    requires r.refcount == 1 && !r.linked && !r.deleted
    ensures Inv(New(s, x, r))
  {
    hide Placed, Indexed, Totalled, Ordered, SamePlaces, Counted, Deferred;
    NewCounted(s, x, r);
    SamePlacesInv(s, New(s, x, r));
  }

  lemma NewCounted(s: State, x: Item, r: Rec)
    requires Shaped(s) && Counted(s) && Deferred(s) && x !in s.items && Sound(r)
    requires r.refcount == 1 && !r.linked && !r.deleted
    ensures Counted(New(s, x, r)) && Deferred(New(s, x, r)) && SamePlaces(s, New(s, x, r))
  {
    NewOnlyCounted(s, x, r);
    NewDeferred(s, x, r);
    hide Counted, Deferred, SamePlaces, New;
  }

  lemma NewOnlyCounted(s: State, x: Item, r: Rec)
    requires Counted(s) && Deferred(s) && x !in s.items && r.refcount == 1
    ensures Counted(New(s, x, r))
  {
    hide Distinct;
    assert s.refs[x] == 0 && s.lost[x] == 0 && x !in s.todelete;
  }

  lemma NewDeferred(s: State, x: Item, r: Rec)
    requires Shaped(s) && Deferred(s) && x !in s.items && Sound(r) && !r.linked && !r.deleted
    ensures Deferred(New(s, x, r)) && SamePlaces(s, New(s, x, r))
  {
    hide Distinct;
  }

  lemma LoseInv(s: State, x: Item)
    requires Inv(s) && s.refs[x] > 0
    ensures Inv(Lose(s, x))
  {
    hide Placed, Indexed, Totalled, Ordered, SamePlaces, Counted, Deferred;
    LoseCounted(s, x);
    SamePlacesInv(s, Lose(s, x));
  }

  lemma LoseCounted(s: State, x: Item)
    requires Shaped(s) && Counted(s) && Deferred(s) && s.refs[x] > 0
    ensures Counted(Lose(s, x)) && Deferred(Lose(s, x)) && SamePlaces(s, Lose(s, x))
  {
    forall y
      ensures Lose(s, x).refs[y] + Lose(s, x).lost[y] == s.refs[y] + s.lost[y]
    {
    }
  }

  lemma StampInv(s: State, x: Item, id: nat)
    requires Inv(s) && x in s.items
    ensures Inv(Stamp(s, x, id))
  {
    hide Placed, Indexed, Totalled, Ordered, SamePlaces;
    assert SamePlaces(s, Stamp(s, x, id)) by { StampSame(s, x, id); }
    SamePlacesInv(s, Stamp(s, x, id));
  }

  lemma StampSame(s: State, x: Item, id: nat)
    requires Shaped(s) && x in s.items
    ensures SamePlaces(s, Stamp(s, x, id))
  {
  }

  lemma UpdateInv(s: State, x: Item)
    requires Inv(s) && x in s.items
    ensures Inv(Update(s, x))
  {
    if Moves(s, x) {
      hide Placed, Indexed, Counted, Deferred, Totalled, Ordered;
      UpdatePlaced(s, x);
      UpdateIndexed(s, x);
      UpdateCounted(s, x);
      UpdateOrdered(s, x);
    }
  }

  lemma UpdatePlaced(s: State, x: Item)
    requires Shaped(s) && Placed(s) && x in s.items && Moves(s, x)
    ensures Shaped(Update(s, x)) && Placed(Update(s, x))
  {
    WithoutDistinct(s.lru[s.items[x].clsid], x);
  }

  lemma UpdateIndexed(s: State, x: Item)
    requires Shaped(s) && Indexed(s) && Totalled(s) && x in s.items
    ensures Indexed(Update(s, x)) && Totalled(Update(s, x))
  {
    hide ConvertKey, NTotal, Total;
    assert Indexed(Update(s, x));
    assert Weights(Update(s, x)) == Weights(s);
  }

  lemma UpdateCounted(s: State, x: Item)
    requires Shaped(s) && Counted(s) && Deferred(s) && x in s.items
    ensures Counted(Update(s, x)) && Deferred(Update(s, x))
  {
  }

  lemma UpdateOrdered(s: State, x: Item)
    requires Shaped(s) && Placed(s) && Ordered(s) && x in s.items && Moves(s, x)
    ensures Ordered(Update(s, x))
  {
    hide Without, Distinct, NewestFirst;
    var t := Update(s, x);
    forall c | 0 <= c < |t.lru|
      ensures NewestFirst(t, t.lru[c])
    {
      NewestFirstWithout(s, s.lru[c], x);
      NewestFirstFrame(s, t, Without(s.lru[c], x), x);
      if c == s.items[x].clsid { NewestFirstFront(t, Without(s.lru[c], x), x); }
    }
  }

  lemma NewestFirstFront(t: State, l: seq<Item>, x: Item)
    requires NewestFirst(t, l) && x in t.items && forall y :: y in l ==> t.items[y].time <= t.items[x].time
    ensures NewestFirst(t, [x] + l)
  {
  }

  /** Every linked key spells the same number with b behind it. */
  ghost predicate ReadsSame(s: State, b: string) {
    forall x :: x in s.items && s.items[x].linked ==>
        ConvertKey(s.items[x].key, b) == ConvertKey(s.items[x].key, s.behind)
  }

  /** The index stays true to the keys exactly if they spell the same numbers as before. */
  lemma BehindExact(s: State, b: string)
    requires Inv(s)
    ensures Inv(Behind(s, b)) <==> ReadsSame(s, b)
  {
    hide ConvertKey, Placed, Counted, Deferred, Ordered, Size, Total;
    var t := Behind(s, b);
    BehindSame(s, b);
    if ReadsSame(s, b) {
      assert Indexed(t);
      assert Weights(t) == Weights(s);
    }
  }

  lemma BehindSame(s: State, b: string)
    requires Shaped(s) && Placed(s) && Counted(s) && Deferred(s) && Ordered(s)
    ensures var t := Behind(s, b); Shaped(t) && Placed(t) && Counted(t) && Deferred(t) && Ordered(t)
  {
    var t := Behind(s, b);
    forall c | 0 <= c < |t.lru|
      ensures NewestFirst(t, t.lru[c])
    {
      assert NewestFirst(s, s.lru[c]);
    }
  }
}
