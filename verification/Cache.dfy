/**
 The cache engine on linked items: every operation is proved to compute the function of the same
 name on the plain state of module CacheSpec.
 */
module Cache {
  import opened Wrappers
  import opened Sequences
  import opened CacheSpec
  import opened CacheCommands
  import opened CacheStore
  import opened CacheAlloc
  import opened CacheDelta
  import opened CacheNumber
  import opened CacheRuns
  import opened CacheFlush
  import opened CacheLife

  function Maybe(it: Item?): Option<Item> { if it == null then None else var x: Item := it; Some(x) }

  /**
   What a lookup from s to t returns, while touches follow their lookups: the item under the key exactly
   if it is alive; one whose time has come leaves the index.
   */
  ghost predicate Returned(s: State, k: nat, it: Item?, t: State) {
    FlushSafe(s, {}) ==>
      && it == (if k in s.index && Living(s, s.index[k]) then s.index[k] else null)
      && (k in s.index && Overdue(s, s.index[k]) ==> k !in t.index)
  }

  lemma ReturnedAlive(s: State, k: nat)
    requires Inv(s)
    ensures Returned(s, k, if Probe(s, k).Alive? then Probe(s, k).it else null, Get(s, k))
  {
    hide Inv, FlushSafe, Living, Overdue, Take, Unlink;
    if FlushSafe(s, {}) {
      if k in s.index { LookupNow(s, k, s.index[k]); }
      LookupRefs(s, k);
    }
  }

  /** Only a hit is counted. */
  lemma LookupRefs(s: State, k: nat)
    requires Inv(s)
    ensures Probe(s, k).Alive? ==>
            k in s.index && Probe(s, k).it == s.index[k] && Get(s, k).refs == s.refs + multiset{s.index[k]}
    ensures k in s.index && !Probe(s, k).Alive? ==> Get(s, k).refs != s.refs + multiset{s.index[k]}
  {
    hide Inv, Unlink;
    if Probe(s, k).Dead? { UnlinkOthers(s, Probe(s, k).it); }
    if k in s.index { CacheLife.OneMore(s.refs, s.index[k]); }
  }

  ghost function At(l: seq<Item>, i: int): Item? { if 0 <= i < |l| then l[i] else null }

  lemma CutDistinct(l: seq<Item>, k: nat)
    requires Distinct(l) && k < |l|
    ensures Distinct(l[..k] + l[k + 1..])
  {
    var m := l[..k] + l[k + 1..];
    assert forall i :: 0 <= i < |m| ==> m[i] == l[if i < k then i else i + 1];
  }

  /** Entry c of the arrays heads, tails and sizes: one doubly linked list, most recent first. */
  class Lru {
    var head: Item?
    var tail: Item?
    var size: nat
    ghost var items: seq<Item>

    constructor ()
      ensures Ok() && items == []
    {
      head, tail, size, items := null, null, 0, [];
    }

    ghost predicate Ok()
      reads this, items`next, items`prev
    {
      && Distinct(items)
      && (forall i {:trigger items[i].prev} :: 0 <= i < |items| ==> items[i].prev == At(items, i - 1))
      && (forall i {:trigger items[i].next} :: 0 <= i < |items| ==> items[i].next == At(items, i + 1))
      && head == At(items, 0)
      && tail == At(items, |items| - 1)
      && size == |items|
    }

    /** item_link_q, with the conditions it asserts. */
    method LinkQ(it: Item)
      requires Ok() && it !in items
      modifies this, it`next, it`prev, items`next, items`prev
      ensures Ok() && items == [it] + old(items)
    {
      assert it != head;
      assert (head != null && tail != null) || (head == null && tail == null);
      it.prev := null;
      it.next := head;
      if it.next != null { it.next.prev := it; }
      head := it;
      if tail == null { tail := it; }
      size := size + 1;
      items := [it] + items;
    }

    /** item_unlink_q for the item at position k, with the conditions it asserts. */
    method UnlinkAt(it: Item, ghost k: nat)
      requires Ok() && k < |items| && it == items[k]
      modifies this, items`next, items`prev
      ensures Ok() && items == old(items[..k] + items[k + 1..])
    {
      if head == it {
        assert it.prev == null;
        head := it.next;
      }
      if tail == it {
        assert it.next == null;
        tail := it.prev;
      }
      assert it.next != it && it.prev != it;
      if it.next != null { it.next.prev := it.prev; }
      if it.prev != null { it.prev.next := it.next; }
      size := size - 1;
      ghost var l := items;
      items := items[..k] + items[k + 1..];
      CutDistinct(l, k);
      assert head == At(items, 0) && tail == At(items, |items| - 1);
      forall i | 0 <= i < |items|
        ensures items[i].prev == At(items, i - 1) && items[i].next == At(items, i + 1)
      {
        var o := if i < k then i else i + 1;
        assert items[i] == l[o] && l[o] != it;
      }
    }

    method UnlinkQ(it: Item)
      requires Ok() && it in items
      modifies this, items`next, items`prev
      ensures Ok() && items == Without(old(items), it)
    {
      hide At, Without;
      ghost var k :| 0 <= k < |items| && items[k] == it;
      WithoutAt(items, k);
      UnlinkAt(it, k);
    }
  }

  ghost predicate Disjoint(lists: seq<seq<Item>>) {
    forall c, d, x :: 0 <= c < |lists| && 0 <= d < |lists| && x in lists[c] && x in lists[d] ==> c == d
  }

  ghost predicate OnNone(lists: seq<seq<Item>>, x: Item) {
    forall c :: 0 <= c < |lists| ==> x !in lists[c]
  }

  /** Taken off its own list, an item is on none. */
  lemma OffAll(lists: seq<seq<Item>>, x: Item)
    requires Disjoint(lists)
    ensures forall c :: 0 <= c < |lists| && x in lists[c] ==>
              Disjoint(lists[c := Without(lists[c], x)]) && OnNone(lists[c := Without(lists[c], x)], x)
  {
  }

  lemma ListFacts(s: State, x: Item)
    requires Inv(s) && x in s.items
    ensures |s.lru| == LARGEST_ID && Disjoint(s.lru) && Sound(s.items[x])
    ensures !s.items[x].linked ==> OnNone(s.lru, x)
    ensures s.items[x].linked ==> x in s.lru[s.items[x].clsid]
  {
    hide Indexed, Counted, Deferred, Totalled, Ordered;
    forall c, d, y | 0 <= c < |s.lru| && 0 <= d < |s.lru| && y in s.lru[c] && y in s.lru[d]
      ensures c == d
    {
      assert s.items[y].clsid == c;
    }
  }

  // the parts that do_item_link and do_item_update are made of

  function OnTop(s: State, x: Item): State {
    if !Known(s, x) then s else s.(lru := s.lru[s.items[x].clsid := [x] + s.lru[s.items[x].clsid]])
  }

  function OffList(s: State, x: Item): State {
    if !Known(s, x) then s else s.(lru := s.lru[s.items[x].clsid := Without(s.lru[s.items[x].clsid], x)])
  }

  function Timed(s: State, x: Item): State {
    if x !in s.items then s else s.(items := s.items[x := s.items[x].(time := s.now)])
  }

  function Marked(s: State, x: Item): State {
    if x !in s.items then s else
    s.(items := s.items[x := s.items[x].(linked := true, time := s.now, casId := s.lastCas + 1)],
       lastCas := s.lastCas + 1)
  }

  function Filed(s: State, x: Item): State {
    if x !in s.items then s else
    var r := s.items[x];
    s.(index := s.index[ConvertKey(r.key, s.behind) := x], born := s.born[x := s.epoch],
       currItems := s.currItems + 1, currBytes := s.currBytes + Size(r))
  }

  function Registered(s: State, x: Item): State { Filed(Marked(s, x), x) }

  lemma LinkInTwo(s: State, x: Item)
    requires Known(s, x)
    ensures Link(s, x) == OnTop(Registered(s, x), x)
  {
    hide ConvertKey, NTotal;
  }

  lemma UpdateInThree(s: State, x: Item)
    requires Moves(s, x)
    ensures Update(s, x) == OnTop(Timed(OffList(s, x), x), x)
  {
    hide Without;
    var l := s.lru[s.items[x].clsid];
    assert s.lru[s.items[x].clsid := Without(l, x)][s.items[x].clsid := [x] + Without(l, x)] ==
           s.lru[s.items[x].clsid := [x] + Without(l, x)];
  }

  lemma UnlinkForm(s: State, x: Item, t: State)
    requires Known(s, x) && s.items[x].linked
    requires t.items == if s.items[x].refcount == 0 then s.items - {x} else s.items[x := s.items[x].(linked := false)]
    requires t.index == s.index - {ConvertKey(s.items[x].key, s.behind)}
    requires t.lru == s.lru[s.items[x].clsid := Without(s.lru[s.items[x].clsid], x)]
    requires t.currItems == s.currItems - 1 && t.currBytes == s.currBytes - Size(s.items[x])
    requires t.born == s.born && t.lastCas == s.lastCas && t.behind == s.behind
    requires t.todelete == s.todelete && t.refs == s.refs && t.lost == s.lost && t.now == s.now &&
             t.oldestLive == s.oldestLive && t.epoch == s.epoch
    ensures t == Unlink(s, x)
  {
    hide ConvertKey, Size, Without;
  }

  lemma StaysPut(s: State, x: Item)
    ensures !Moves(s, x) ==> Update(s, x) == s
  {
  }

  lemma ReleaseForm(s: State, x: Item, t: State)
    requires x in s.items && s.items[x].refcount > 0
    requires var r := s.items[x].(refcount := s.items[x].refcount - 1);
             t == s.(items := if r.refcount == 0 && !r.linked then s.items - {x} else s.items[x := r],
                 refs := s.refs - multiset{x})
    ensures t == Release(s, x)
  {
  }

  /** After the search for memory the join can go on, or give up. */
  lemma JoinReady(s: State, prior: Item, it: Item, comm: Command, cfg: Config, a: Memory)
    requires Inv(s) && Configured(cfg) && FreshMemory(s, a) && Swappable(s, prior, it) && Joins(comm)
    ensures var data := Join(comm, s.items[prior].data, s.items[it].data);
            var (t, o) := Alloc(s, cfg, JoinRequest(comm, s.items[it], s.items[prior]), a);
            && t.refs[prior] > 0
            && (o.Some? ==>
                  && o.value in t.items && o.value != prior && t.refs[o.value] > 0
                  && |t.items[o.value].data| == |data| && Swappable(Fill(t, o.value, data), prior, o.value))
  {
    hide Inv, Alloc, ConvertKey, Contents, FreshMemory, Join;
    ReferenceFacts(s, prior);
    JoinLength(s, prior, comm, s.items[it].data);
    AllocEffect(s, cfg, JoinRequest(comm, s.items[it], s.items[prior]), a, prior);
  }

  lemma FillRefs(s: State, x: Item, data: string)
    ensures Fill(s, x, data).refs == s.refs
  {
  }

  lemma OneLess(refs: multiset<Item>, x: Item, y: Item)
    requires x != y && refs[y] > 0
    ensures (refs - multiset{x})[y] > 0
  {
  }

  ghost function NoMemory(s: State): (a: Memory)
    ensures FreshMemory(s, a)
  {
    Memory(None, None)
  }

  lemma TakeFresh(s: State, y: Item, a: Memory)
    requires FreshMemory(Take(s, y), a)
    ensures FreshMemory(s, a)
  {
  }

  /** What do_store_item knows after its lookup. */
  lemma GetFound(s: State, k: nat, x: Item)
    requires Inv(s) && Storable(s, x) && k == ConvertKey(s.items[x].key, s.behind)
    ensures x in Get(s, k).items && Get(s, k).items[x] == s.items[x] && Get(s, k).behind == s.behind
    ensures match Probe(s, k)
            case Missing => Get(s, k) == s && Linkable(s, x) && k !in s.index
            case Dead(_) => Linkable(Get(s, k), x)
            case Locked(y) =>
              && Get(s, k) == s && k in s.index && s.index[k] == y && y in s.items && Swappable(Take(s, y), y, x)
              && Take(s, y).items[y].casId == s.items[y].casId && Take(s, y).items[x] == s.items[x]
            case Alive(y) =>
              && Get(s, k) == Take(s, y) && y in s.items && Swappable(Take(s, y), y, x)
              && Take(s, y).items[y] == s.items[y].(refcount := s.items[y].refcount + 1)
  {
    hide Inv, ConvertKey, Contents, Unlink, Take, Linkable;
    match Probe(s, k)
    case Missing => GetMissing(s, k, x); InvIndexed(s); MissingKey(s, k);
    case Dead(_) => GetDead(s, k, x); LinkableKnown(Get(s, k), x);
    case Locked(y) => GetLocked(s, k, x); TakeEffect(s, y, x);
    case Alive(y) => GetLocked(s, k, x); TakeEffect(s, y, x);
  }

  lemma LinkedRec(s: State, x: Item)
    requires Known(s, x)
    ensures x in Link(s, x).items && Link(s, x).items[x].linked && Link(s, x).items[x].refcount == s.items[x].refcount
  {
    hide ConvertKey, Size;
  }

  lemma LinkableKnown(s: State, x: Item)
    requires Linkable(s, x)
    ensures x in s.items
  {
  }

  lemma MissingKey(s: State, k: nat)
    requires Indexed(s) && Probe(s, k).Missing?
    ensures k !in s.index
  {
    hide ConvertKey;
  }

  lemma ClaimFacts(s: State, x: Item)
    requires Inv(s) && x in s.todelete
    ensures x in s.items && s.items[x].refcount > 0 && s.items[x].deleted
    ensures x in Claim(s, x).items && Claim(s, x).refs[x] > 0
  {
    hide Placed, Indexed, Totalled, Ordered, Without;
  }

  lemma DeferFacts(s: State, x: Item, t: nat)
    requires Inv(s) && s.refs[x] > 0
    ensures x in s.items && Defer(s, x, t).todelete == s.todelete + [x]
  {
    hide Placed, Indexed, Deferred, Totalled, Ordered;
  }

  /** One turn of the sweep, with the entries kept so far in pre. */
  lemma SweepStep(s: State, pre: seq<Item>, l: seq<Item>, i: nat)
    requires Inv(s) && i < |l| && s.todelete == pre + l[i..]
    ensures l[i] in s.items && l[i] in s.todelete
    ensures Sweep(s, l[i..]) == Sweep(if LockOver(s, s.items[l[i]]) then SweepOne(s, l[i]) else s, l[i + 1..])
    ensures LockOver(s, s.items[l[i]]) ==> SweepOne(s, l[i]).todelete == pre + l[i + 1..]
    ensures pre + l[i..] == (pre + [l[i]]) + l[i + 1..]
  {
    hide Inv, SweepOne, Distinct, OnlyAt;
    var r := l[i..];
    assert r[1..] == l[i + 1..];
    assert l[i] == s.todelete[|pre|];
    Shift(pre, r);
    ClaimFacts(s, l[i]);
    QueueDistinct(s);
    DistinctHead(pre, r);
    SweepOneOthers(s, l[i]);
  }

  lemma SweepDone(s: State, l: seq<Item>, i: nat)
    requires i == |l|
    ensures Sweep(s, l[i..]) == s
  {
  }

  lemma LruCount(s: State)
    requires Inv(s)
    ensures |s.lru| == LARGEST_ID
  {
  }

  lemma IndexFacts(s: State, k: nat)
    requires Inv(s) && k in s.index
    ensures s.index[k] in s.items && s.items[s.index[k]].linked && ConvertKey(s.items[s.index[k]].key, s.behind) == k
  {
    hide Placed, Counted, Deferred, Totalled, Ordered, ConvertKey;
  }

  lemma VictimWhole(s: State, l: seq<Item>, tries: nat)
    ensures Victim(s, l, tries) == Victim(s, l[..|l|], tries)
  {
    assert l[..|l|] == l;
  }

  lemma VictimStep(s: State, l: seq<Item>, j: nat, tries: nat)
    requires 0 < j <= |l| && tries > 0 && l[j - 1] in s.items
    ensures Victim(s, l[..j], tries) == if s.items[l[j - 1]].refcount == 0 then Some(l[j - 1])
            else Victim(s, l[..j - 1], tries - 1)
  {
    assert l[..j][..j - 1] == l[..j - 1];
  }

  lemma VictimEnd(s: State, l: seq<Item>, tries: nat)
    requires l == [] || tries == 0
    ensures Victim(s, l, tries) == None
  {
  }

  lemma HeadFacts(s: State, c: nat)
    requires Inv(s) && c < LARGEST_ID && c < |s.lru| && s.lru[c] != []
    ensures var x := s.lru[c][0]; x in s.items && s.items[x].linked && s.items[x].clsid == c
  {
    hide Indexed, Counted, Deferred, Totalled, Ordered;
    assert s.lru[c][0] in s.lru[c];
  }

  /** Unlinking the head of a list makes its second item the head. */
  lemma UnlinkHead(s: State, c: nat)
    requires Inv(s) && c < LARGEST_ID && c < |s.lru| && s.lru[c] != []
    ensures var t := Unlink(s, s.lru[c][0]);
            |t.lru| == |s.lru| && t.lru[c] == s.lru[c][1..] && t.items.Keys <= s.items.Keys &&
                t.oldestLive == s.oldestLive
  {
    hide Indexed, Counted, Deferred, Totalled, Ordered, ConvertKey, Size, Without;
    HeadFacts(s, c);
    WithoutAt(s.lru[c], 0);
    assert s.lru[c][..0] + s.lru[c][1..] == s.lru[c][1..];
  }

  lemma FlushClassStep(s: State, c: nat)
    requires Inv(s) && c < LARGEST_ID && c < |s.lru| && s.lru[c] != [] && s.lru[c][0] in s.items
    ensures FlushClass(s, c) == if s.items[s.lru[c][0]].time >= s.oldestLive
            then FlushClass(Unlink(s, s.lru[c][0]), c) else s
  {
    hide Unlink;
    HeadFacts(s, c);
  }

  lemma FlushClassEnd(s: State, c: nat)
    requires c < |s.lru| && s.lru[c] == []
    ensures FlushClass(s, c) == s
  {
  }

  lemma FlushFromStep(s: State, c: nat)
    requires c < LARGEST_ID
    ensures FlushFrom(s, c) == FlushFrom(FlushClass(s, c), c + 1)
  {
  }

  lemma FlushFromEnd(s: State, c: nat)
    requires c >= LARGEST_ID
    ensures FlushFrom(s, c) == s
  {
  }

  /** The reference that goes back is not the delete queue's. */
  lemma ReferenceFacts(s: State, x: Item)
    requires Inv(s) && s.refs[x] > 0
    ensures x in s.items && s.items[x].refcount > 0
    ensures s.items[x].deleted ==> s.items[x].refcount > 1
  {
    hide Placed, Indexed, Totalled, Ordered;
  }

  /** A list none of whose links were written is still well formed. */
  twostate lemma Untouched(q: Lru)
    requires old(q.Ok()) && unchanged(q)
    requires forall x :: x in q.items ==> unchanged(x`next) && unchanged(x`prev)
    ensures q.Ok()
  {
    forall i | 0 <= i < |q.items|
      ensures q.items[i].prev == At(q.items, i - 1) && q.items[i].next == At(q.items, i + 1)
    {
      assert q.items[i] in q.items;
      assert old(q.items[i].prev) == At(q.items, i - 1) && old(q.items[i].next) == At(q.items, i + 1);
    }
  }

  class Engine {
    const queues: seq<Lru>
    var index: map<nat, Item>
    var now: nat
    var oldestLive: nat
    var currItems: int
    var currBytes: int
    var lastCas: nat
    var behind: string
    ghost var lists: seq<seq<Item>>
    ghost var deferred: seq<Item>
    ghost var live: set<Item>
    ghost var refs: multiset<Item>
    ghost var lost: multiset<Item>
    ghost var epoch: nat
    ghost var born: map<Item, nat>

    ghost predicate Rep()
      reads this`lists, this`live, queues, live`next, live`prev, live`slabbed
    {
      && |queues| == |lists| == LARGEST_ID
      && (forall c, x :: 0 <= c < LARGEST_ID && x in lists[c] ==> x in live)
      && (forall c, d :: 0 <= c < d < LARGEST_ID ==> queues[c] != queues[d])
      && (forall c :: 0 <= c < LARGEST_ID ==> queues[c].items == lists[c] && queues[c].Ok())
      && (forall x :: x in live ==> !x.slabbed)
    }

    /** item_init */
    constructor (now: nat, behind: string)
      ensures Rep() && Abs() == Initial(now, behind) && fresh(queues)
    {
      var qs: seq<Lru> := [];
      while |qs| < LARGEST_ID
        invariant |qs| <= LARGEST_ID
        invariant forall c :: 0 <= c < |qs| ==> qs[c].items == [] && qs[c].Ok() && fresh(qs[c])
        invariant Distinct(qs)
      {
        var q := new Lru();
        qs := qs + [q];
      }
      queues := qs;
      index, this.now, oldestLive, currItems, currBytes, lastCas := map[], now, 0, 0, 0, 0;
      this.behind := behind;
      lists, deferred, live, epoch, born := seq(LARGEST_ID, i => []), [], {}, 0, map[];
      refs, lost := multiset{}, multiset{};
    }

    ghost function Items(): map<Item, Rec>
      reads this`live, live`rec
    {
      map x | x in live :: x.rec
    }

    /** The plain state that this engine stands for. */
    ghost function Abs(): State
      reads this, live
    {
      State(Items(), lists, index, deferred, refs, lost, now, oldestLive, epoch, born, currItems, currBytes, lastCas,
          behind)
    }

    method PutFirst(it: Item)
      requires Rep() && Disjoint(lists) && it in live && it.rec.clsid < LARGEST_ID && OnNone(lists, it)
      modifies this`lists, queues, live`next, live`prev
      ensures Rep() && lists == old(lists)[it.rec.clsid := [it] + old(lists)[it.rec.clsid]] && Items() == old(Items())
    {
      var c := it.rec.clsid;
      hide Distinct, At;
      queues[c].LinkQ(it);
      lists := lists[c := [it] + lists[c]];
      forall d | 0 <= d < LARGEST_ID && d != c
        ensures queues[d].items == lists[d] && queues[d].Ok()
      {
        assert forall x :: x in lists[d] ==> x != it && x !in old(lists)[c];
        Untouched(queues[d]);
      }
    }

    method TakeOut(it: Item)
      requires Rep() && Disjoint(lists) && it in live && it.rec.clsid < LARGEST_ID && it in lists[it.rec.clsid]
      modifies this`lists, queues, live`next, live`prev
      ensures Rep() && lists == old(lists)[it.rec.clsid := Without(old(lists)[it.rec.clsid], it)] &&
              Items() == old(Items())
    {
      var c := it.rec.clsid;
      hide Distinct, At, Without;
      queues[c].UnlinkQ(it);
      lists := lists[c := Without(lists[c], it)];
      forall d | 0 <= d < LARGEST_ID && d != c
        ensures queues[d].items == lists[d] && queues[d].Ok()
      {
        assert forall x :: x in lists[d] ==> x !in old(lists)[c];
        Untouched(queues[d]);
      }
    }

    /** do_item_link */
    method ItemLink(it: Item)
      requires Rep() && Inv(Abs()) && Linkable(Abs(), it)
      modifies this, live, queues
      ensures Rep() && live == old(live)
      ensures Abs() == Link(old(Abs()), it) && Inv(Abs())
    {
      hide Inv, ConvertKey, NTotal, Rep, Items, Link, Registered, OnTop, Abs;
      ghost var s := Abs();
      ListFacts(s, it);
      AbsFacts(it);
      assert !it.rec.linked && |it.rec.data| < MAX_BYTES && ConvertKey(it.rec.key, behind) !in index;
      Register(it);
      PutOnTop(it);
      LinkInTwo(s, it);
      LinkInv(s, it);
    }

    lemma AbsFacts(x: Item)
      ensures Abs().index == index && Abs().lru == lists && Abs().behind == behind && (x in Abs().items <==> x in live)
      ensures x in live ==> Abs().items[x] == x.rec
    {
    }

    /** item_link_q, as the plain state sees it. */
    method PutOnTop(it: Item)
      requires Rep() && Disjoint(lists) && it in live && it.rec.clsid < LARGEST_ID && OnNone(lists, it)
      modifies this`lists, queues, live`next, live`prev
      ensures Rep() && Abs() == OnTop(old(Abs()), it)
    {
      hide Rep, Items, Disjoint, OnNone;
      ItemsAt(it);
      ListCount();
      PutFirst(it);
    }

    /** item_unlink_q, as the plain state sees it. */
    method TakeAway(it: Item)
      requires Rep() && Disjoint(lists) && it in live && it.rec.clsid < LARGEST_ID && it in lists[it.rec.clsid]
      modifies this`lists, queues, live`next, live`prev
      ensures Rep() && Abs() == OffList(old(Abs()), it)
      ensures Disjoint(lists) && OnNone(lists, it)
    {
      hide Rep, Items, Disjoint, OnNone, Without;
      ItemsAt(it);
      ListCount();
      OffAll(lists, it);
      TakeOut(it);
    }

    lemma ListCount()
      requires Rep()
      ensures |lists| == LARGEST_ID
    {
    }

    /** The flag that item_free sets is never seen on an item still in use. */
    lemma NotSlabbed(x: Item)
      requires Rep() && x in live
      ensures !x.slabbed
    {
    }

    lemma ItemsKeys()
      ensures Items().Keys == live
    {
    }

    lemma ItemsAt(x: Item)
      ensures x in Items() <==> x in live
      ensures x in live ==> Items()[x] == x.rec
    {
    }

    /** All of do_item_link but the list: flag, stamp, index, totals and version number. */
    method Register(it: Item)
      requires Rep() && it in live
      modifies this`index, this`currBytes, this`currItems, this`lastCas, this`born, it`rec
      ensures Rep() && Abs() == Registered(old(Abs()), it) && it.rec.clsid == old(it.rec.clsid)
    {
      hide ConvertKey, NTotal, Rep, Abs, Marked, Filed;
      Mark(it);
      File(it);
    }

    method Mark(it: Item)
      requires Rep() && it in live
      modifies this`lastCas, it`rec
      ensures Rep() && Abs() == Marked(old(Abs()), it)
      ensures it.rec.key == old(it.rec.key) && it.rec.clsid == old(it.rec.clsid)
    {
      hide Rep;
      it.rec := it.rec.(linked := true, time := now);
      lastCas := lastCas + 1;
      it.rec := it.rec.(casId := lastCas);
    }

    method File(it: Item)
      requires Rep() && it in live
      modifies this`index, this`currBytes, this`currItems, this`born
      ensures Rep() && Abs() == Filed(old(Abs()), it)
    {
      hide ConvertKey, NTotal, Rep, Items;
      ItemsAt(it);
      index := index[ConvertKey(it.rec.key, behind) := it];
      currBytes := currBytes + NTotal(it.rec.key, it.rec.flags, |it.rec.data|);
      currItems := currItems + 1;
      born := born[it := epoch];
    }

    /** item_free, with the conditions it asserts: the item leaves the pool of live items. */
    method ItemFree(it: Item)
      requires Rep() && it in live && it.rec.clsid < LARGEST_ID && OnNone(lists, it)
      requires !it.rec.linked && it.rec.refcount == 0
      modifies this`live, it`slabbed, it`rec
      ensures Rep() && live == old(live) - {it} && Items() == old(Items()) - {it}
    {
      assert it != queues[it.rec.clsid].head && it != queues[it.rec.clsid].tail;
      it.rec := it.rec.(clsid := 0);
      it.slabbed := true;
      live := live - {it};
    }

    /** The first half of do_item_unlink: flag, totals and index. */
    method Unregister(it: Item)
      requires it in live
      modifies this`index, this`currBytes, this`currItems, it`rec
      ensures index == old(index) - {ConvertKey(it.rec.key, behind)}
      ensures currItems == old(currItems) - 1 &&
              currBytes == old(currBytes) - NTotal(it.rec.key, it.rec.flags, |it.rec.data|)
      ensures it.rec == old(it.rec).(linked := false) && Items() == old(Items())[it := it.rec]
    {
      hide ConvertKey, NTotal;
      it.rec := it.rec.(linked := false);
      currBytes := currBytes - NTotal(it.rec.key, it.rec.flags, |it.rec.data|);
      currItems := currItems - 1;
      index := index - {ConvertKey(it.rec.key, behind)};
    }

    /** do_item_unlink */
    method ItemUnlink(it: Item)
      requires Rep() && Inv(Abs()) && it in live
      modifies this, live, queues
      ensures Rep() && live <= old(live)
      ensures Abs() == Unlink(old(Abs()), it) && Inv(Abs())
    {
      hide Inv, ConvertKey, NTotal, Rep, Items, Without;
      ItemsAt(it);
      if it.rec.linked {
        hide Unlink;
        ListFacts(Abs(), it);
        OffAll(lists, it);
        Unregister(it);
        assert Rep();
        TakeOut(it);
        if it.rec.refcount == 0 {
          ItemFree(it);
        }
        UnlinkForm(old(Abs()), it, Abs());
        UnlinkInv(old(Abs()), it);
      }
    }

    /** do_item_remove, with the conditions it asserts. */
    method ItemRemove(it: Item)
      requires Rep() && Inv(Abs()) && refs[it] > 0
      modifies this, live, queues
      ensures Rep() && live <= old(live)
      ensures Abs() == Release(old(Abs()), it) && Inv(Abs())
    {
      hide Inv, Rep, Items, Release;
      ReferenceFacts(Abs(), it);
      ItemsAt(it);
      ListFacts(Abs(), it);
      if it.rec.refcount != 0 {
        DropReference(it);
      }
      assert !it.rec.deleted || it.rec.refcount != 0;
      assert Rep();
      if it.rec.refcount == 0 && !it.rec.linked {
        ItemFree(it);
      }
      ReleaseForm(old(Abs()), it, Abs());
      ReleaseInv(old(Abs()), it);
    }

    method DropReference(it: Item)
      requires it in live && it.rec.refcount > 0
      modifies this`refs, it`rec
      ensures refs == old(refs) - multiset{it}
      ensures it.rec == old(it.rec).(refcount := old(it.rec.refcount) - 1) && Items() == old(Items())[it := it.rec]
    {
      it.rec := it.rec.(refcount := it.rec.refcount - 1);
      refs := refs - multiset{it};
    }

    /** do_item_update */
    method ItemUpdate(it: Item)
      requires Rep() && Inv(Abs()) && it in live
      modifies this, live, queues
      ensures Rep() && live == old(live)
      ensures Abs() == Update(old(Abs()), it) && Inv(Abs())
    {
      hide Inv, Rep, Items, Without, Update, UpdateHorizon;
      ItemsAt(it);
      ListFacts(Abs(), it);
      UpdateInv(Abs(), it);
      StaysPut(Abs(), it);
      if it.rec.time < UpdateHorizon(now) && it.rec.linked {
        MoveUp(it);
      }
    }

    method MoveUp(it: Item)
      requires Rep() && Disjoint(lists) && it in live && it.rec.clsid < LARGEST_ID && it in lists[it.rec.clsid]
      requires Moves(Abs(), it)
      modifies this`lists, queues, live
      ensures Rep() && Abs() == Update(old(Abs()), it)
    {
      hide Rep, Items, Update, UpdateHorizon, OnTop, OffList, Timed, Disjoint, OnNone, Abs;
      ghost var s := Abs();
      TakeAway(it);
      SetTime(it);
      PutOnTop(it);
      UpdateInThree(s, it);
    }

    method SetTime(it: Item)
      requires Rep() && it in live
      modifies it`rec
      ensures Rep() && Abs() == Timed(old(Abs()), it) && it.rec.clsid == old(it.rec.clsid)
    {
      hide Rep;
      it.rec := it.rec.(time := now);
    }

    method AddReference(it: Item)
      requires Rep() && it in live
      modifies this`refs, it`rec
      ensures Rep() && refs[it] > 0 && Abs() == Take(old(Abs()), it)
    {
      hide Rep;
      it.rec := it.rec.(refcount := it.rec.refcount + 1);
      refs := refs + multiset{it};
    }

    /** do_item_get_notedeleted */
    method ItemGet(key: string) returns (it: Item?, locked: bool)
      requires Rep() && Inv(Abs())
      modifies this, live, queues
      ensures Rep() && Inv(Abs()) && live <= old(live) && Abs() == Get(old(Abs()), ConvertKey(key, old(behind)))
      ensures var v := Probe(old(Abs()), ConvertKey(key, old(behind)));
              (locked <==> v.Locked?) && it == if v.Alive? then v.it else null
      ensures it != null ==> it in live && refs[it] > 0
      ensures Returned(old(Abs()), ConvertKey(key, old(behind)), it, Abs())
    {
      hide Inv, Rep, Items, Unlink, Take, ConvertKey, Returned;
      ghost var s := Abs();
      ghost var k := ConvertKey(key, behind);
      ReturnedAlive(s, k);
      locked := false;
      it := if ConvertKey(key, behind) in index then index[ConvertKey(key, behind)] else null;
      if it == null {
        return;
      }
      IndexFacts(s, k);
      ItemsAt(it);
      if it.rec.deleted && now < it.rec.exptime {
        locked := true;
        it := null;
        return;
      }
      if oldestLive != 0 && oldestLive <= now && it.rec.time <= oldestLive {
        ItemUnlink(it);
        it := null;
        return;
      }
      if it.rec.exptime != 0 && it.rec.exptime <= now {
        ItemUnlink(it);
        it := null;
        return;
      }
      TakeInv(s, it);
      AddReference(it);
    }

    /** do_item_get_nocheck */
    method ItemGetNoCheck(key: string) returns (it: Item?)
      requires Rep() && Inv(Abs())
      modifies this, live
      ensures Rep() && Inv(Abs()) && live == old(live) &&
              it == (if ConvertKey(key, old(behind)) in old(index) then old(index)[ConvertKey(key, old(behind))]
                  else null)
      ensures if it == null then Abs() == old(Abs()) else it in live && refs[it] > 0 && Abs() == Take(old(Abs()), it)
    {
      hide Inv, Rep, Items, Take, ConvertKey;
      it := if ConvertKey(key, behind) in index then index[ConvertKey(key, behind)] else null;
      if it != null {
        IndexFacts(Abs(), ConvertKey(key, behind));
        ItemsAt(it);
        TakeInv(Abs(), it);
        AddReference(it);
      }
    }

    /** The search of do_item_alloc for a victim, from the tail through at most 50 items. */
    method FindVictim(id: nat) returns (victim: Item?)
      requires Rep() && Inv(Abs()) && id < LARGEST_ID
      ensures match Victim(Abs(), lists[id], EVICT_TRIES) case None => victim == null case Some(x) => victim == x
      ensures victim != null ==> victim in live
    {
      hide Inv, Victim;
      ghost var s := Abs();
      ghost var l := lists[id];
      var tries := EVICT_TRIES;
      var search := queues[id].tail;
      ghost var j := |l|;
      VictimWhole(s, l, tries);
      while tries > 0 && search != null
        invariant 0 <= j <= |l| && search == At(l, j - 1) && 0 <= tries <= EVICT_TRIES
        invariant Victim(s, l, EVICT_TRIES) == Victim(s, l[..j], tries)
        decreases tries
      {
        assert search == l[j - 1] && search in lists[id];
        VictimStep(s, l, j, tries);
        if search.rec.refcount == 0 {
          return search;
        }
        tries := tries - 1;
        search := search.prev;
        j := j - 1;
      }
      VictimEnd(s, l[..j], tries);
      return null;
    }

    /** slabs_clsid of items.c */
    static method SlabsClsid(cfg: Config, size: nat) returns (id: nat)
      requires Configured(cfg)
      ensures id == ClassOf(cfg, size)
    {
      if size == 0 {
        return 0;
      }
      var res := 1;
      while size > cfg.slabSizes[res]
        invariant 0 < res <= POWER_LARGEST
        invariant ClassFrom(cfg, size, 1) == ClassFrom(cfg, size, res)
        decreases POWER_LARGEST - res
      {
        if res == POWER_LARGEST {
          return 0;
        }
        res := res + 1;
      }
      return res;
    }

    /** do_item_alloc; first and second say whether the pool has memory at each attempt. */
    method ItemAlloc(cfg: Config, q: Request, first: bool, second: bool) returns (it: Item?, ghost a: Memory)
      requires Rep() && Inv(Abs()) && Configured(cfg)
      modifies this, live, queues
      ensures FreshMemory(old(Abs()), a) && Rep() && Inv(Abs()) && fresh(live - old(live))
      ensures Abs() == Alloc(old(Abs()), cfg, q, a).0
      ensures match Alloc(old(Abs()), cfg, q, a).1 case None => it == null case Some(x) => it == x
      ensures it != null ==> fresh(it)
      ensures Answered(old(Abs()), cfg, q, first, second, Abs(), Maybe(it))
    {
      hide Inv, Rep, Items, Evict, NTotal, Blank, New, Answered;
      a := Memory(None, None);
      ItemsKeys();
      LruCount(Abs());
      var id := SlabsClsid(cfg, NTotal(q.key, q.flags, q.nbytes));
      if id == 0 {
        AllocAnswers(Abs(), cfg, q, a, first, second);
        return null, a;
      }
      ClassFromFits(cfg, NTotal(q.key, q.flags, q.nbytes), 1);
      if first {
        it := NewItem(NewRec(q, id));
        a := Memory(Some(it), None);
        AllocInv(old(Abs()), cfg, q, a);
        AllocAnswers(old(Abs()), cfg, q, a, first, second);
        return;
      }
      if !cfg.evictToFree || QueueEmpty(id) {
        AllocAnswers(Abs(), cfg, q, a, first, second);
        return null, a;
      }
      EvictOne(id);
      if second {
        it := NewItem(NewRec(q, id));
        a := Memory(None, Some(it));
      } else {
        it := null;
      }
      AllocInv(old(Abs()), cfg, q, a);
      AllocAnswers(old(Abs()), cfg, q, a, first, second);
    }

    method EvictOne(id: nat)
      requires Rep() && Inv(Abs()) && id < LARGEST_ID
      modifies this, live, queues
      ensures Rep() && live <= old(live) && Abs() == Evict(old(Abs()), id)
    {
      hide Inv, Rep, Items, Victim, Unlink;
      LruCount(Abs());
      var victim := FindVictim(id);
      if victim != null {
        ItemUnlink(victim);
      }
    }

    predicate QueueEmpty(id: nat)
      requires Rep() && id < LARGEST_ID
      reads this`lists, this`live, queues, live`next, live`prev, live`slabbed
      ensures QueueEmpty(id) <==> lists[id] == []
    {
      queues[id].tail == null
    }

    method NewItem(r: Rec) returns (it: Item)
      requires Rep()
      modifies this`live, this`refs
      ensures fresh(it) && live == old(live) + {it} && Rep() && Abs() == New(old(Abs()), it, r)
    {
      it := new Item(r);
      live := live + {it};
      refs := refs + multiset{it};
      assert Items() == old(Items())[it := r];
    }

    /** do_item_flush_expired */
    method ItemFlushExpired()
      requires Rep() && Inv(Abs())
      modifies this, live, queues
      ensures Rep() && Abs() == FlushExpired(old(Abs()))
    {
      hide Inv, Rep, Items, FlushClass, FlushFrom;
      if oldestLive == 0 {
        return;
      }
      ghost var s := Abs();
      var i := 0;
      while i < LARGEST_ID
        invariant 0 <= i <= LARGEST_ID && Rep() && Inv(Abs())
        invariant live <= old(live)
        invariant FlushFrom(Abs(), i) == FlushFrom(s, 0)
      {
        FlushFromStep(Abs(), i);
        FlushOne(i);
        i := i + 1;
      }
      FlushFromEnd(Abs(), i);
    }

    /** flush_all without a delay. */
    method FlushAllNow()
      requires Rep() && Inv(Abs())
      modifies this, live, queues
      ensures Rep() && Inv(Abs()) && Abs() == FlushAll(old(Abs()))
    {
      hide Inv, Rep, Items, FlushFrom;
      SettingsInv(Abs(), (now - 1) % WRAP, epoch + 1);
      oldestLive := (now - 1) % WRAP;
      epoch := epoch + 1;
      FlushAllInv(old(Abs()));
      ItemFlushExpired();
    }

    /** The inner loop: unlink from the head while the head is recent enough. */
    method FlushOne(i: nat)
      requires Rep() && Inv(Abs()) && i < LARGEST_ID
      modifies this, live, queues
      ensures Rep() && Inv(Abs()) && live <= old(live) && Abs() == FlushClass(old(Abs()), i)
    {
      hide Inv, Rep, Items, FlushClass, Unlink;
      ghost var s := Abs();
      var iter := Head(i);
      while iter != null
        invariant Rep() && Inv(Abs()) && live <= old(live) && |lists| == LARGEST_ID
        invariant iter == At(lists[i], 0)
        invariant FlushClass(Abs(), i) == FlushClass(s, i)
        decreases |lists[i]|
      {
        HeadFacts(Abs(), i);
        ItemsAt(iter);
        FlushClassStep(Abs(), i);
        if iter.rec.time < oldestLive {
          return;
        }
        ghost var t := Abs();
        var next := Second(i);
        NotSlabbed(iter);
        UnlinkInv(t, iter);
        UnlinkHead(t, i);
        ItemsKeys();
        ItemUnlink(iter);
        ItemsKeys();
        iter := next;
      }
      FlushClassEnd(Abs(), i);
    }

    function Head(i: nat): (h: Item?)
      requires Rep() && i < LARGEST_ID
      reads this`lists, this`live, queues, live`next, live`prev, live`slabbed
      ensures |lists| == LARGEST_ID && h == At(lists[i], 0)
    {
      queues[i].head
    }

    /** The successor of the head, read from its link. */
    function Second(i: nat): (n: Item?)
      requires Rep() && i < LARGEST_ID && lists[i] != []
      reads this`lists, this`live, queues, live`next, live`prev, live`slabbed
      ensures n == At(lists[i], 1)
    {
      assert lists[i][0] in lists[i];
      queues[i].head.next
    }

    /** do_item_replace, and the caller's reference on the old item given back. */
    method SwapIn(prior: Item, it: Item)
      requires Rep() && Inv(Abs()) && Swappable(Abs(), prior, it)
      modifies this, live, queues
      ensures Rep() && live <= old(live)
      ensures Abs() == Swap(old(Abs()), prior, it) && Inv(Abs())
    {
      hide Inv, Rep, Items, Unlink, Link, Release, Linkable, OnlyAt;
      ghost var s := Abs();
      UnlinkForSwap(s, prior, it);
      UnlinkOthers(s, prior);
      ItemsKeys();
      ItemUnlink(prior);
      LruCount(Abs());
      InvIndexed(Abs());
      LinkFacts(Abs(), it);
      ItemLink(it);
      ItemRemove(prior);
    }

    /** The cas branch of do_store_item. */
    method StoreCas(it: Item, prior: Item?) returns (stored: nat)
      requires Rep() && Inv(Abs()) && it in live
      requires prior != null ==> Swappable(Abs(), prior, it)
      modifies this, live, queues
      ensures Rep() && live <= old(live) && Inv(Abs())
      ensures if prior == null then stored == 3 && Abs() == old(Abs())
              else if old(it.rec.casId) == old(prior.rec.casId) then stored == 1 && Abs() == Swap(old(Abs()), prior, it)
              else stored == 2 && Abs() == Release(old(Abs()), prior)
    {
      hide Inv, Rep, Items, Swap, Release;
      if prior == null {
        stored := 3;
      } else if it.rec.casId == prior.rec.casId {
        SwapIn(prior, it);
        stored := 1;
      } else {
        ItemRemove(prior);
        stored := 2;
      }
    }

    /** The set branch of do_store_item. */
    method StoreSet(it: Item, prior: Item?)
      requires Rep() && Inv(Abs()) && it in live
      requires if prior != null then Swappable(Abs(), prior, it) else Linkable(Abs(), it)
      modifies this, live, queues
      ensures Rep() && live <= old(live) && Inv(Abs())
      ensures Abs() == if prior == null then Link(old(Abs()), it) else Swap(old(Abs()), prior, it)
    {
      hide Inv, Rep, Items, Swap, Link, Linkable;
      if prior != null {
        SwapIn(prior, it);
      } else {
        ItemLink(it);
      }
    }

    /** The append and prepend branch of do_store_item. */
    method StoreJoined(it: Item, prior: Item, comm: Command, cfg: Config, first: bool, second: bool)
      returns (stored: nat, ghost a: Memory)
      requires Rep() && Inv(Abs()) && Configured(cfg) && it in live && Joins(comm)
      requires Swappable(Abs(), prior, it)
      modifies this, live, queues
      ensures Rep() && Inv(Abs()) && FreshMemory(old(Abs()), a)
      ensures var (t, o) := Alloc(old(Abs()), cfg, JoinRequest(comm, old(it.rec), old(prior.rec)), a);
              if o.None? then stored == 0 && Abs() == Lose(t, prior)
              else stored == 1 &&
                   Abs() == Release(Swap(Fill(t, o.value, Join(comm, old(prior.rec.data), old(it.rec.data))), prior,
                       o.value), o.value)
    {
      hide Inv, Rep, Items, Swap, Release, Alloc, ConvertKey, Contents, FreshMemory, Join, Fill, Lose;
      ghost var s := Abs();
      ItemsAt(it);
      ItemsAt(prior);
      var data := Join(comm, prior.rec.data, it.rec.data);
      var q := JoinRequest(comm, it.rec, prior.rec);
      var joined: Item?;
      joined, a := ItemAlloc(cfg, q, first, second);
      JoinReady(s, prior, it, comm, cfg, a);
      if joined == null {
        Forget(prior);
        return 0, a;
      }
      ItemsAt(joined);
      FinishJoin(prior, joined, data);
      stored := 1;
    }

    /** do_store_item returns without giving back its reference; nothing that runs shows it. */
    ghost method Forget(it: Item)
      requires Rep() && Inv(Abs()) && refs[it] > 0
      modifies this`refs, this`lost
      ensures Rep() && Inv(Abs()) && Abs() == Lose(old(Abs()), it)
    {
      hide Inv, Rep, Items;
      LoseInv(Abs(), it);
      refs, lost := refs - multiset{it}, lost + multiset{it};
    }

    /** The joined item is filled in and takes the old one's place; both references go back. */
    method FinishJoin(prior: Item, joined: Item, data: string)
      requires Rep() && Inv(Abs()) && joined in live && prior != joined && |joined.rec.data| == |data|
      requires Swappable(Fill(Abs(), joined, data), prior, joined) && refs[joined] > 0
      modifies this, live, queues
      ensures Rep() && Inv(Abs())
      ensures Abs() == Release(Swap(Fill(old(Abs()), joined, data), prior, joined), joined)
    {
      hide Inv, Rep, Items, Swap, Release, ConvertKey, Contents, Fill, Swappable;
      ItemsAt(joined);
      FillInv(Abs(), joined, data);
      FillRefs(Abs(), joined, data);
      FillIn(joined, data);
      SwapEffect(Abs(), prior, joined);
      SwapIn(prior, joined);
      OneLess(old(refs), prior, joined);
      ItemRemove(joined);
    }

    method FillIn(it: Item, data: string)
      requires Rep() && it in live
      modifies it`rec
      ensures Rep() && Abs() == Fill(old(Abs()), it, data)
    {
      hide Rep;
      it.rec := it.rec.(data := data);
    }

    /** do_store_item */
    method StoreItem(it: Item, comm: Command, cfg: Config, first: bool, second: bool)
      returns (stored: nat, ghost a: Memory)
      requires Rep() && Inv(Abs()) && Configured(cfg) && Storable(Abs(), it)
      modifies this, live, queues
      ensures Rep() && FreshMemory(old(Abs()), a)
      ensures (Abs(), stored) == Store(old(Abs()), it, comm, cfg, a) && Inv(Abs())
      ensures Joined(old(Abs()), it, comm, (Abs(), stored))
    {
      hide Inv, Rep, Items, Store, FreshMemory, Joined, Refines, Leaks, Probe, ConvertKey;
      ghost var s := Abs();
      stored, a := StoreByCommand(it, comm, cfg, first, second);
      StoreExact(s, it, comm, cfg, a);
    }

    method StoreByCommand(it: Item, comm: Command, cfg: Config, first: bool, second: bool)
      returns (stored: nat, ghost a: Memory)
      requires Rep() && Inv(Abs()) && Configured(cfg) && Storable(Abs(), it)
      modifies this, live, queues
      ensures Rep() && FreshMemory(old(Abs()), a)
      ensures (Abs(), stored) == Store(old(Abs()), it, comm, cfg, a) && Inv(Abs())
    {
      hide Inv, Rep, Items, Take, Release, Update, Unlink, Link, Swap, Alloc, ConvertKey, Probe, Contents, Linkable,
           FreshMemory;
      ghost var s := Abs();
      ghost var k := ConvertKey(it.rec.key, behind);
      ItemsAt(it);
      a := NoMemory(s);
      var prior, locked := ItemGet(it.rec.key);
      GetFound(s, k, it);
      ItemsAt(it);
      if prior != null && comm == Add {
        ItemUpdate(prior);
        UpdateFacts(Get(s, k), prior);
        ItemRemove(prior);
        return 0, a;
      }
      if prior == null && (comm == Replace || Joins(comm)) {
        return 0, a;
      }
      if locked && (comm == Replace || comm == Add || Joins(comm)) {
        return 0, a;
      }
      if Joins(comm) {
        ItemsAt(prior);
        stored, a := StoreJoined(it, prior, comm, cfg, first, second);
        TakeFresh(s, prior, a);
        return;
      }
      if locked {
        prior := ItemGetNoCheck(it.rec.key);
        ItemsAt(it);
      }
      if prior != null {
        ItemsAt(prior);
      }
      if comm == Cas {
        stored := StoreCas(it, prior);
      } else {
        StoreSet(it, prior);
        stored := 1;
      }
    }

    /** Other bytes come to lie behind the key buffer. */
    method Disturb(b: string)
      requires Rep() && Inv(Abs())
      modifies this`behind
      ensures Rep() && Abs() == Behind(old(Abs()), b) && (Inv(Abs()) <==> ReadsSame(old(Abs()), b))
    {
      hide Rep, Inv, ReadsSame;
      BehindExact(Abs(), b);
      behind := b;
      assert Abs() == Behind(old(Abs()), b);
    }

    /** A cas command marks the item it is about to store with the version the client named. */
    method StampItem(it: Item, id: nat)
      requires Rep() && Inv(Abs()) && it in live
      modifies it`rec
      ensures Rep() && Inv(Abs()) && Abs() == Stamp(old(Abs()), it, id)
    {
      hide Rep, Inv;
      StampInv(Abs(), it, id);
      it.rec := it.rec.(casId := id);
      assert Abs() == Stamp(old(Abs()), it, id);
    }

    /**
     do_add_delta, for the text of the new number.  If the number outgrows an item that is no longer
     linked while another one holds its key, assoc_insert's assertion fails and so does the invariant.
     */
    method AddDelta(it: Item, text: string, cfg: Config, first: bool, second: bool)
      returns (ok: bool, ghost a: Memory)
      requires Rep() && Inv(Abs()) && Configured(cfg) && refs[it] > 0 && it in live
      modifies this, live, queues
      ensures Rep() && FreshMemory(old(Abs()), a) && it in old(Abs()).items
      ensures (Abs(), ok) == Delta(old(Abs()), it, text, cfg, a)
      ensures Inv(Abs()) <==> DeltaSound(old(Abs()), it, text, cfg, a)
    {
      hide Inv, Rep, Items, Alloc, Unlink, Link, Release, Fill, ConvertKey, Contents, FreshMemory, TakesOver,
           DeltaSound;
      ghost var s := Abs();
      ItemsAt(it);
      a := NoMemory(s);
      if |text| + 2 > |it.rec.data| {
        var q := DeltaRequest(it.rec, text);
        var o;
        o, a := ItemAlloc(cfg, q, first, second);
        DeltaAlloc(s, it, text, cfg, a);
        DeltaExact(s, it, text, cfg, a);
        if o == null {
          return false, a;
        }
        ItemsAt(it);
        ItemsAt(o);
        ReplaceIn(it, o, text + "\r\n");
        return true, a;
      }
      DeltaExact(s, it, text, cfg, a);
      FillIn(it, Patched(it.rec.data, text));
      return true, a;
    }

    /** do_add_delta from the start: the number is read, changed, and written as text; none is read if out of range. */
    method ChangeNumber(it: Item, incr: bool, delta: int, cfg: Config, first: bool, second: bool)
      returns (value: Option<int>, ok: bool, ghost a: Memory)
      requires Rep() && Inv(Abs()) && Configured(cfg) && refs[it] > 0 && it in live
      modifies this, live, queues
      ensures Rep() && FreshMemory(old(Abs()), a) && it in old(Abs()).items
      ensures value == match ReadNumber(old(it.rec.data)) case None => None case Some(v) => Some(Adjusted(v, incr,
              delta))
      ensures value.None? ==> Abs() == old(Abs()) && !ok
      ensures value.Some? ==> (Abs(), ok) == Delta(old(Abs()), it, Text(value.value), cfg, a)
      ensures value.Some? ==> (Inv(Abs()) <==> DeltaSound(old(Abs()), it, Text(value.value), cfg, a))
    {
      hide Inv, Rep, Items, FreshMemory, DeltaSound, Delta, ReadNumber, Adjusted, Text;
      ghost var s := Abs();
      ItemsAt(it);
      a := NoMemory(s);
      var number := ReadNumber(it.rec.data);
      if number.None? {
        return None, false, a;
      }
      var next := Adjusted(number.value, incr, delta);
      ok, a := AddDelta(it, Text(next), cfg, first, second);
      value := Some(next);
    }

    /** The end of do_add_delta: the new item is filled in and replaces the old one, whoever holds the key. */
    method ReplaceIn(it: Item, o: Item, data: string)
      requires Rep() && TakesOver(Fill(Abs(), o, data), it, o) && it in live && o in live
      modifies this, live, queues
      ensures Rep() && Abs() == Replaced(Fill(old(Abs()), o, data), it, o)
    {
      hide Inv, Rep, Items, Unlink, Link, Release, ConvertKey, Abs;
      FillIn(o, data);
      ghost var t := Abs();
      AbsFacts(it);
      AbsFacts(o);
      HeldCount(t, o);
      UnlinkOther(t, it, o);
      ItemUnlink(it);
      AbsFacts(o);
      LinkAnyway(o);
      GiveBack(o);
    }

    /** do_item_link without its assertion that the key is free. */
    method LinkAnyway(o: Item)
      requires Rep() && Inv(Abs()) && o in live && !o.rec.linked
      modifies this, live, queues
      ensures Rep() && Abs() == Link(old(Abs()), o) && o in live && o.rec.linked &&
              o.rec.refcount == old(o.rec.refcount)
    {
      hide Inv, Rep, Items, Link, ConvertKey, Abs, Registered, OnTop;
      ghost var s := Abs();
      AbsFacts(o);
      ListFacts(s, o);
      Register(o);
      PutOnTop(o);
      LinkInTwo(s, o);
      AbsFacts(o);
      LinkedRec(s, o);
    }

    /** do_item_remove of a linked item, which is not freed by it. */
    method GiveBack(o: Item)
      requires Rep() && o in live && o.rec.linked && o.rec.refcount > 0
      modifies this`refs, o`rec
      ensures Rep() && Abs() == Release(old(Abs()), o)
    {
      hide Rep, Items, Release;
      ItemsAt(o);
      ghost var s := Abs();
      DropReference(o);
      assert Rep();
      ReleaseForm(s, o, Abs());
    }

    /** do_defer_delete once there is room: the caller's reference becomes the queue's. */
    method DeferEntry(it: Item, exptime: nat)
      requires Rep() && Inv(Abs()) && refs[it] > 0 && it in live
      modifies this`deferred, this`refs, it`rec
      ensures Rep() && Abs() == Defer(old(Abs()), it, exptime) && (Inv(Abs()) <==> !old(it.rec.deleted))
    {
      hide Rep, Inv;
      DeferExact(Abs(), it, exptime);
      it.rec := it.rec.(exptime := exptime, deleted := true);
      deferred := deferred + [it];
      refs := refs - multiset{it};
    }

    /** The sweep's steps on one entry whose lock is over. */
    method SweepEntry(it: Item)
      requires Rep() && Inv(Abs()) && it in deferred
      modifies this, live, queues
      ensures Rep() && live <= old(live) && now == old(now)
      ensures Abs() == SweepOne(old(Abs()), it) && Inv(Abs())
    {
      hide Rep, Inv, Items, Claim, Unlink, Release, OnlyAt, Without;
      ghost var s := Abs();
      ClaimInv(s, it);
      ItemsAt(it);
      ClaimFacts(s, it);
      SweepOneInv(s, it);
      SweepOneOthers(s, it);
      assert it.rec.refcount > 0;
      ClaimEntry(it);
      UnlinkOthers(Abs(), it);
      ItemUnlink(it);
      ItemRemove(it);
    }

    method ClaimEntry(it: Item)
      requires Rep() && it in live
      modifies this`deferred, this`refs, it`rec
      ensures Rep() && Abs() == Claim(old(Abs()), it)
    {
      hide Rep, Without;
      it.rec := it.rec.(deleted := false);
      deferred := Without(deferred, it);
      refs := refs + multiset{it};
    }
  }

  /** The array todelete with delcurr entries in use. */
  class DeleteQueue {
    var todelete: array<Item?>
    var delcurr: nat

    ghost predicate Holds(l: seq<Item>)
      reads this, todelete
    {
      && 0 < todelete.Length
      && |l| == delcurr <= todelete.Length
      && forall i :: 0 <= i < delcurr ==> todelete[i] == l[i]
    }

    /**
     do_defer_delete; grows says whether the array can be enlarged.  The invariant survives unless
     an item that is already in the queue is entered again.
     */
    method DeferDelete(e: Engine, it: Item, exptime: int, started: nat, grows: bool) returns (deleted: bool)
      requires Holds(e.deferred) && e.Rep() && Inv(e.Abs()) && e.refs[it] > 0 && it in e.live
      modifies this, todelete, e, e.live, e.queues
      ensures Holds(e.deferred) && e.Rep() && (Inv(e.Abs()) <==> !(deleted && old(it.rec.deleted)))
      ensures deleted <==> old(delcurr < todelete.Length) || grows
      ensures e.Abs() == if deleted then Defer(old(e.Abs()), it, Realtime(exptime, started, old(e.now)))
              else Release(old(e.Abs()), it)
    {
      hide Inv, Defer, Release, Engine.Rep, Engine.Items;
      DeferFacts(e.Abs(), it, Realtime(exptime, started, e.now));
      ReleaseOthers(e.Abs(), it);
      if delcurr >= todelete.Length {
        if !grows {
          e.ItemRemove(it);
          return false;
        }
        Grow(e.deferred);
      }
      e.DeferEntry(it, Realtime(exptime, started, e.now));
      todelete[delcurr] := it;
      delcurr := delcurr + 1;
      return true;
    }

    method Grow(ghost l: seq<Item>)
      requires Holds(l)
      modifies this`todelete
      ensures Holds(l) && fresh(todelete) && todelete.Length == 2 * old(todelete.Length)
    {
      var bigger := new Item?[2 * todelete.Length](_ => null);
      for i := 0 to delcurr
        invariant Holds(l) && todelete == old(todelete)
        invariant forall m :: 0 <= m < i ==> bigger[m] == l[m]
      {
        bigger[i] := todelete[i];
      }
      todelete := bigger;
    }

    /** Entries kept so far stand in front, entries from i on are untouched. */
    ghost predicate Compacted(pre: seq<Item>, l: seq<Item>, i: nat)
      reads this`todelete, todelete
    {
      && |pre| <= i <= |l| <= todelete.Length
      && (forall m :: 0 <= m < |pre| ==> todelete[m] == pre[m])
      && (forall m :: i <= m < |l| ==> todelete[m] == l[m])
    }

    lemma StartCompaction(l: seq<Item>)
      requires Holds(l)
      ensures Compacted([], l, 0)
    {
    }

    lemma NextEntry(pre: seq<Item>, l: seq<Item>, i: nat)
      requires Compacted(pre, l, i) && i < |l|
      ensures todelete[i] == l[i] && Compacted(pre, l, i + 1)
    {
    }

    lemma EndCompaction(pre: seq<Item>, l: seq<Item>, i: nat)
      requires Compacted(pre, l, i)
      ensures forall m :: 0 <= m < |pre| ==> todelete[m] == pre[m]
    {
    }

    method Keep(ghost pre: seq<Item>, ghost l: seq<Item>, i: nat, j: nat)
      requires Compacted(pre, l, i) && i < |l| && j == |pre|
      modifies todelete
      ensures Compacted(pre + [l[i]], l, i + 1)
    {
      todelete[j] := todelete[i];
    }

    /** Midway through the sweep: entries from i on are to do, those in pre are kept. */
    ghost predicate Sweeping(e: Engine, pre: seq<Item>, l: seq<Item>, i: nat, goal: State)
      reads this, todelete, e, e.live, e.queues
    {
      && |pre| <= i <= |l| == delcurr <= todelete.Length && Compacted(pre, l, i)
      && e.Rep() && Inv(e.Abs()) && e.deferred == pre + l[i..] && Sweep(e.Abs(), l[i..]) == goal
    }

    /** One turn of the loop of do_run_deferred_deletes. */
    method Turn(e: Engine, i: nat, j: nat, ghost pre: seq<Item>, ghost l: seq<Item>,
        ghost goal: State) returns (j': nat, ghost pre': seq<Item>)
      requires Sweeping(e, pre, l, i, goal) && i < delcurr && j == |pre|
      modifies todelete, e, e.live, e.queues
      ensures Sweeping(e, pre', l, i + 1, goal) && j' == |pre'| && e.live <= old(e.live)
    {
      hide Inv, Sweep, SweepOne, Engine.Rep, Engine.Items, Compacted;
      j', pre' := j, pre;
      NextEntry(pre, l, i);
      var it := todelete[i];
      SweepStep(e.Abs(), pre, l, i);
      e.ItemsAt(it);
      if e.now >= it.rec.exptime {
        e.SweepEntry(it);
      } else {
        Keep(pre, l, i, j);
        j' := j + 1;
        pre' := pre + [l[i]];
      }
    }

    lemma StartSweep(e: Engine, l: seq<Item>)
      requires Holds(l) && e.deferred == l && e.Rep() && Inv(e.Abs())
      ensures Sweeping(e, [], l, 0, Sweep(e.Abs(), l))
    {
      hide Inv, Sweep, Engine.Rep, Engine.Abs, Compacted;
      StartCompaction(l);
      assert l[0..] == l && [] + l == l;
    }

    lemma EndSweep(e: Engine, pre: seq<Item>, l: seq<Item>, goal: State)
      requires Sweeping(e, pre, l, |l|, goal)
      ensures e.Rep() && Inv(e.Abs()) && e.Abs() == goal && e.deferred == pre && |pre| <= todelete.Length
      ensures forall m :: 0 <= m < |pre| ==> todelete[m] == pre[m]
    {
      hide Inv, Sweep, Engine.Rep, Engine.Abs, Compacted;
      EndCompaction(pre, l, |l|);
      SweepDone(e.Abs(), l, |l|);
    }

    /** do_run_deferred_deletes: compaction in place. */
    method RunDeferredDeletes(e: Engine)
      requires Holds(e.deferred) && e.Rep() && Inv(e.Abs())
      modifies this, todelete, e, e.live, e.queues
      ensures Holds(e.deferred) && e.Rep() && Inv(e.Abs())
      ensures e.Abs() == Sweep(old(e.Abs()), old(e.deferred))
    {
      hide Inv, Sweep, Engine.Rep, Engine.Abs, Sweeping;
      ghost var l := e.deferred;
      ghost var goal := Sweep(e.Abs(), l);
      ghost var pre: seq<Item> := [];
      var i, j := 0, 0;
      StartSweep(e, l);
      while i < delcurr
        invariant 0 <= i <= delcurr == |l| && todelete == old(todelete) && e.live <= old(e.live)
        invariant 0 < todelete.Length && Sweeping(e, pre, l, i, goal) && j == |pre|
      {
        j, pre := Turn(e, i, j, pre, l, goal);
        i := i + 1;
      }
      EndSweep(e, pre, l, goal);
      delcurr := j;
    }
  }
}
