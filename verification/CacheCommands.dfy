/**
 The sections of the cache engine that run under cache_lock, built from the elementary steps of
 module CacheSpec: lookup with lazy expiry, allocation with eviction, store, deferred deletion
 and flush.
 */
module CacheCommands {
  import opened Sequences
  import opened CacheSpec

  // ----- frames

  /** No item other than x differs between s and t. */
  ghost predicate OnlyAt(s: State, t: State, x: Item) {
    && (forall y :: y in s.items && y != x ==> y in t.items && t.items[y] == s.items[y])
    && (forall y :: y in t.items && y != x ==> y in s.items)
  }

  lemma OnlyAtTrans(s: State, t: State, u: State, x: Item)
    requires OnlyAt(s, t, x) && OnlyAt(t, u, x)
    ensures OnlyAt(s, u, x)
  {
  }

  lemma UnlinkOthers(s: State, x: Item)
    ensures OnlyAt(s, Unlink(s, x), x)
    ensures var t := Unlink(s, x);
            t.now == s.now && t.todelete == s.todelete && t.refs == s.refs &&
            t.lastCas == s.lastCas && t.behind == s.behind
  {
    hide ConvertKey, Size, Without;
  }

  lemma ReleaseOthers(s: State, x: Item)
    ensures OnlyAt(s, Release(s, x), x)
    ensures var t := Release(s, x);
            t.now == s.now && t.todelete == s.todelete && t.index == s.index &&
            t.lastCas == s.lastCas && t.behind == s.behind
  {
  }

  // ----- lookup

  predicate LockOver(s: State, r: Rec) { s.now >= r.exptime }

  predicate Flushed(s: State, r: Rec) { s.oldestLive != 0 && s.oldestLive <= s.now && r.time <= s.oldestLive }

  predicate Expired(s: State, r: Rec) { r.exptime != 0 && r.exptime <= s.now }

  datatype Verdict = Missing | Locked(it: Item) | Dead(it: Item) | Alive(it: Item)

  /** What the index holds under k: nothing, a delete-locked item, one past its life, or a hit. */
  function Probe(s: State, k: nat): Verdict {
    if k !in s.index || s.index[k] !in s.items then Missing else
    var x := s.index[k];
    var r := s.items[x];
    if r.deleted && !LockOver(s, r) then Locked(x)
    else if Flushed(s, r) || Expired(s, r) then Dead(x)
    else Alive(x)
  }

  /** do_item_get_notedeleted */
  function Get(s: State, k: nat): State {
    match Probe(s, k)
    case Missing => s
    case Locked(_) => s
    case Dead(x) => Unlink(s, x)
    case Alive(x) => Take(s, x)
  }

  lemma GetInv(s: State, k: nat)
    requires Inv(s)
    ensures Inv(Get(s, k))
  {
    hide Inv;
    match Probe(s, k)
    case Missing =>
    case Locked(_) =>
    case Dead(x) => UnlinkInv(s, x);
    case Alive(x) => TakeInv(s, x);
  }

  // ----- the delete queue

  /** do_defer_delete with room in the queue: the caller's reference passes to the queue. */
  function Defer(s: State, x: Item, exptime: nat): State {
    if x !in s.items then s else
    s.(items := s.items[x := s.items[x].(exptime := exptime, deleted := true)],
       todelete := s.todelete + [x], refs := s.refs - multiset{x})
  }

  /** The sweep takes an entry out of the queue and holds its reference. */
  function Claim(s: State, x: Item): State {
    if x !in s.items then s else
    s.(items := s.items[x := s.items[x].(deleted := false)],
       todelete := Without(s.todelete, x), refs := s.refs + multiset{x})
  }

  lemma ClaimOthers(s: State, x: Item)
    ensures OnlyAt(s, Claim(s, x), x)
    ensures Claim(s, x).now == s.now && Claim(s, x).behind == s.behind &&
            (x in s.items ==> Claim(s, x).todelete == Without(s.todelete, x))
  {
    hide Without;
  }

  lemma DeferInv(s: State, x: Item, exptime: nat)
    requires Inv(s) && s.refs[x] > 0 && !s.items[x].deleted
    ensures Inv(Defer(s, x, exptime))
  {
    hide Placed, Indexed, Totalled, Ordered, SamePlaces, Deferred;
    DeferCounted(s, x, exptime);
    DeferDeferred(s, x, exptime);
    SamePlacesInv(s, Defer(s, x, exptime));
  }

  lemma DeferCounted(s: State, x: Item, exptime: nat)
    requires Counted(s) && Deferred(s) && x in s.items && s.refs[x] > 0 && !s.items[x].deleted
    ensures Counted(Defer(s, x, exptime))
  {
    assert x !in s.todelete;
  }

  lemma DeferDeferred(s: State, x: Item, exptime: nat)
    requires Shaped(s) && Deferred(s) && x in s.items && !s.items[x].deleted
    ensures Deferred(Defer(s, x, exptime)) && SamePlaces(s, Defer(s, x, exptime))
  {
  }

  lemma ClaimInv(s: State, x: Item)
    requires Inv(s) && x in s.todelete
    ensures x in s.items && Inv(Claim(s, x))
  {
    hide Placed, Indexed, Totalled, Ordered, SamePlaces, Counted;
    ClaimCounted(s, x);
    SamePlacesInv(s, Claim(s, x));
  }

  lemma ClaimCounted(s: State, x: Item)
    requires Shaped(s) && Counted(s) && Deferred(s) && x in s.todelete
    ensures Counted(Claim(s, x)) && Deferred(Claim(s, x)) && SamePlaces(s, Claim(s, x))
  {
    ClaimOnlyCounted(s, x);
    ClaimDeferred(s, x);
    hide Counted, Deferred, SamePlaces, Claim;
  }

  lemma ClaimOnlyCounted(s: State, x: Item)
    requires Counted(s) && x in s.items && x in s.todelete
    ensures Counted(Claim(s, x))
  {
    hide Without;
  }

  lemma ClaimDeferred(s: State, x: Item)
    requires Shaped(s) && Deferred(s) && x in s.todelete
    ensures Deferred(Claim(s, x)) && SamePlaces(s, Claim(s, x))
  {
    hide Without, Distinct;
    WithoutDistinct(s.todelete, x);
  }

  /** One entry whose lock is over: flag cleared, unlinked, the queue's reference given back. */
  function SweepOne(s: State, x: Item): State {
    Release(Unlink(Claim(s, x), x), x)
  }

  predicate Over(s: State, x: Item) { x in s.items && LockOver(s, s.items[x]) }

  /** do_run_deferred_deletes over the entries l */
  function Sweep(s: State, l: seq<Item>): State
    decreases l
  {
    if l == [] then s else Sweep(if Over(s, l[0]) then SweepOne(s, l[0]) else s, l[1..])
  }

  function StillLocked(s: State, l: seq<Item>): seq<Item> {
    if l == [] then [] else (if Over(s, l[0]) then [] else [l[0]]) + StillLocked(s, l[1..])
  }

  lemma SweepOneOthers(s: State, x: Item)
    ensures OnlyAt(s, SweepOne(s, x), x)
    ensures SweepOne(s, x).now == s.now && SweepOne(s, x).behind == s.behind
    ensures x in s.items ==> SweepOne(s, x).todelete == Without(s.todelete, x)
  {
    hide Claim, Unlink, Release, OnlyAt, Without;
    var s1 := Claim(s, x);
    var s2 := Unlink(s1, x);
    ClaimOthers(s, x);
    UnlinkOthers(s1, x);
    ReleaseOthers(s2, x);
    OnlyAtTrans(s, s1, s2, x);
    OnlyAtTrans(s, s2, Release(s2, x), x);
  }

  lemma SweepOneInv(s: State, x: Item)
    requires Inv(s) && x in s.todelete
    ensures x in s.items && Inv(SweepOne(s, x)) && SweepOne(s, x).refs == s.refs
    ensures SweepOne(s, x).lost == s.lost
    ensures x in SweepOne(s, x).items <==> s.refs[x] + s.lost[x] > 0
    ensures x in SweepOne(s, x).items ==> !SweepOne(s, x).items[x].linked
  {
    hide Inv, Claim, Unlink, Release;
    ClaimInv(s, x);
    var s1 := Claim(s, x);
    Claimed(s, x);
    UnlinkInv(s1, x);
    var s2 := Unlink(s1, x);
    UnlinkedHeld(s1, x);
    ReleaseInv(s2, x);
    ReleasedHeld(s2, x);
    assert s.refs + multiset{x} - multiset{x} == s.refs;
  }

  lemma Claimed(s: State, x: Item)
    requires Inv(s) && x in s.todelete
    ensures var t := Claim(s, x);
            && x in t.items && t.items[x].refcount == s.refs[x] + s.lost[x] + 1
            && t.refs == s.refs + multiset{x} && t.lost == s.lost
  {
    hide Placed, Indexed, Totalled, Ordered, Without, Distinct;
  }

  lemma UnlinkedHeld(s: State, x: Item)
    requires Inv(s) && x in s.items && s.items[x].refcount > 0
    ensures var t := Unlink(s, x);
            && x in t.items && !t.items[x].linked && t.items[x].refcount == s.items[x].refcount
            && t.refs == s.refs && t.lost == s.lost
  {
    hide Placed, Indexed, Counted, Deferred, Totalled, Ordered, Without, Size, ConvertKey;
    assert Sound(s.items[x]);
  }

  lemma ReleasedHeld(s: State, x: Item)
    requires x in s.items && s.items[x].refcount > 0 && !s.items[x].linked
    ensures var t := Release(s, x);
            && (x in t.items <==> s.items[x].refcount > 1) && (x in t.items ==> !t.items[x].linked)
            && t.refs == s.refs - multiset{x} && t.lost == s.lost
  {
  }

  lemma QueueDistinct(s: State)
    requires Inv(s)
    ensures Distinct(s.todelete)
  {
  }

  lemma SweepOneKeeps(s: State, pre: seq<Item>, l: seq<Item>)
    requires Inv(s) && s.todelete == pre + l && l != [] && Over(s, l[0])
    ensures Inv(SweepOne(s, l[0])) && SweepOne(s, l[0]).refs == s.refs && SweepOne(s, l[0]).lost == s.lost
    ensures SweepOne(s, l[0]).todelete == pre + l[1..]
    ensures StillLocked(SweepOne(s, l[0]), l[1..]) == StillLocked(s, l)
  {
    hide Inv, SweepOne, Distinct, OnlyAt;
    QueueDistinct(s);
    DistinctHead(pre, l);
    SweepOneInv(s, l[0]);
    SweepOneOthers(s, l[0]);
    StillLockedSame(s, SweepOne(s, l[0]), l[0], l[1..]);
  }

  /**
   The sweep keeps exactly the entries whose lock still runs, in order, and touches no reference
   that a connection holds; so each other entry gives back exactly the queue's own reference.
   */
  lemma {:induction false} SweepQueue(s: State, pre: seq<Item>, l: seq<Item>)
    requires Inv(s) && s.todelete == pre + l
    ensures Inv(Sweep(s, l)) && Sweep(s, l).refs == s.refs && Sweep(s, l).lost == s.lost
    ensures Sweep(s, l).todelete == pre + StillLocked(s, l)
    decreases l
  {
    if l != [] {
      hide Inv, SweepOne;
      var x := l[0];
      if Over(s, x) {
        SweepOneKeeps(s, pre, l);
        SweepQueue(SweepOne(s, x), pre, l[1..]);
      } else {
        Shift(pre, l);
        SweepQueue(s, pre + [x], l[1..]);
        Shift(pre, StillLocked(s, l));
      }
    }
  }

  /** What a sweep over l, from s to t, does to item y. */
  ghost predicate Fate(s: State, l: seq<Item>, t: State, y: Item)
    requires y in s.items
  {
    if y in l && Over(s, y)
    then (y in t.items <==> s.refs[y] + s.lost[y] > 0) && (y in t.items ==> !t.items[y].linked)
    else y in t.items && t.items[y] == s.items[y]
  }

  /** A swept item is unlinked, and freed exactly if no connection holds it; no other item changes. */
  lemma {:induction false} SweepItems(s: State, pre: seq<Item>, l: seq<Item>, y: Item)
    requires Inv(s) && s.todelete == pre + l && y in s.items
    ensures Fate(s, l, Sweep(s, l), y)
    decreases l
  {
    hide Inv, SweepOne, Distinct, OnlyAt, Fate;
    if l == [] {
      NoFate(s, y);
    } else {
      var x := l[0];
      QueueDistinct(s);
      DistinctHead(pre, l);
      if Over(s, x) {
        SweepOneKeeps(s, pre, l);
        SweepOneInv(s, x);
        SweepOneOther(s, x, y);
        if y in SweepOne(s, x).items {
          SweepItems(SweepOne(s, x), pre, l[1..], y);
          FateGoesOn(s, SweepOne(s, x), l, Sweep(s, l), y);
        } else {
          SweepStaysFreed(SweepOne(s, x), l[1..], y);
          FateFreed(s, l, Sweep(s, l), y);
        }
      } else {
        Shift(pre, l);
        SweepItems(s, pre + [x], l[1..], y);
        FateGoesOn(s, s, l, Sweep(s, l), y);
      }
    }
  }

  lemma NoFate(s: State, y: Item)
    requires y in s.items
    ensures Fate(s, [], s, y)
  {
  }

  lemma FateFreed(s: State, l: seq<Item>, t: State, y: Item)
    requires y in s.items && l != [] && y == l[0] && Over(s, y) && s.refs[y] + s.lost[y] == 0 && y !in t.items
    ensures Fate(s, l, t, y)
  {
  }

  lemma FateGoesOn(s: State, u: State, l: seq<Item>, t: State, y: Item)
    requires y in s.items && y in u.items && l != [] && l[0] !in l[1..] && Fate(u, l[1..], t, y)
    requires u.now == s.now && u.refs == s.refs && u.lost == s.lost
    requires y != l[0] || u == s ==> u.items[y] == s.items[y]
    requires u == s ==> !Over(s, l[0])
    requires y == l[0] && u != s ==> Over(s, y) && !u.items[y].linked && s.refs[y] + s.lost[y] > 0
    ensures Fate(s, l, t, y)
  {
    assert l == [l[0]] + l[1..];
  }

  lemma SweepOneOther(s: State, x: Item, y: Item)
    ensures SweepOne(s, x).now == s.now
    ensures y != x ==> (y in s.items <==> y in SweepOne(s, x).items)
    ensures y != x && y in s.items ==> SweepOne(s, x).items[y] == s.items[y]
  {
    hide SweepOne;
    SweepOneOthers(s, x);
  }

  lemma {:induction false} SweepStaysFreed(s: State, l: seq<Item>, y: Item)
    requires y !in s.items && y !in l
    ensures y !in Sweep(s, l).items
    decreases l
  {
    if l != [] {
      hide SweepOne;
      SweepOneOther(s, l[0], y);
      SweepStaysFreed(if Over(s, l[0]) then SweepOne(s, l[0]) else s, l[1..], y);
    }
  }

  lemma {:induction false} StillLockedSame(s: State, t: State, x: Item, l: seq<Item>)
    requires OnlyAt(s, t, x) && x !in l && s.now == t.now
    ensures StillLocked(s, l) == StillLocked(t, l)
  {
    if l != [] {
      assert Over(s, l[0]) == Over(t, l[0]);
      StillLockedSame(s, t, x, l[1..]);
    }
  }

  // ----- flush

  /** The head of list c, if it is one the flush has to unlink. */
  predicate FlushesHead(s: State, c: nat) {
    c < |s.lru| && s.lru[c] != [] &&
    var x := s.lru[c][0]; x in s.items && s.items[x].linked && s.items[x].clsid == c && s.items[x].time >= s.oldestLive
  }

  /** One pass of the walk: heads are unlinked until the first item older than oldest_live. */
  function FlushClass(s: State, c: nat): State
    decreases if c < |s.lru| then |s.lru[c]| else 0
  {
    if FlushesHead(s, c) then FlushClass(Unlink(s, s.lru[c][0]), c) else s
  }

  function FlushFrom(s: State, c: nat): State
    decreases LARGEST_ID - c
  {
    if c >= LARGEST_ID then s else FlushFrom(FlushClass(s, c), c + 1)
  }

  /** do_item_flush_expired */
  function FlushExpired(s: State): State {
    if s.oldestLive == 0 then s else FlushFrom(s, 0)
  }

  /** The part of the index that a flush of classes lo..hi must leave. */
  ghost function Survivors(s: State, lo: nat, hi: nat): map<nat, Item> {
    map k | k in s.index && s.index[k] in s.items &&
            !(lo <= s.items[s.index[k]].clsid < hi && s.items[s.index[k]].time >= s.oldestLive) :: s.index[k]
  }

  /** Items of s that t still links are the same in both, and t has no references or stamps of its own. */
  ghost predicate Thinned(s: State, t: State) {
    && t.refs == s.refs && t.lost == s.lost && t.todelete == s.todelete && t.now == s.now &&
        t.oldestLive == s.oldestLive
    && t.epoch == s.epoch && t.born == s.born && t.lastCas == s.lastCas && t.behind == s.behind
    && (forall x :: x in t.items ==> x in s.items && t.items[x].(linked := s.items[x].linked) == s.items[x])
    && (forall x :: x in t.items && t.items[x].linked ==> s.items[x].linked)
  }

  lemma UnlinkThinned(s: State, x: Item)
    ensures Thinned(s, Unlink(s, x))
  {
    hide ConvertKey, Size, Without;
  }

  lemma ThinnedTrans(s: State, t: State, u: State)
    requires Thinned(s, t) && Thinned(t, u)
    ensures Thinned(s, u)
  {
  }

  /** Unlinking the head of list c removes one doomed entry and no other. */
  lemma UnlinkHeadSurvivors(s: State, c: nat)
    requires Inv(s) && FlushesHead(s, c)
    ensures Survivors(Unlink(s, s.lru[c][0]), c, c + 1) == Survivors(s, c, c + 1)
  {
    hide ConvertKey, Size, Without, Placed, Counted, Deferred, Totalled, Ordered;
  }

  /** A list whose head is older than the flush holds nothing to unlink. */
  lemma NothingDoomed(s: State, c: nat)
    requires Inv(s) && c < LARGEST_ID && !FlushesHead(s, c)
    ensures Survivors(s, c, c + 1) == s.index
  {
    hide ConvertKey, Counted, Deferred, Totalled;
    forall k | k in s.index && s.items[s.index[k]].clsid == c
      ensures s.items[s.index[k]].time < s.oldestLive
    {
      var l, x := s.lru[c], s.index[k];
      assert x in l && NewestFirst(s, l);
      assert s.items[l[0]].linked && s.items[l[0]].clsid == c;
      var i :| 0 <= i < |l| && l[i] == x;
      assert s.items[l[0]].time >= s.items[l[i]].time;
    }
  }

  lemma {:induction false} FlushClassExact(s: State, c: nat)
    requires Inv(s) && c < LARGEST_ID
    ensures Inv(FlushClass(s, c)) && Thinned(s, FlushClass(s, c))
    ensures FlushClass(s, c).index == Survivors(s, c, c + 1)
    decreases if c < |s.lru| then |s.lru[c]| else 0
  {
    hide Inv, Unlink, Thinned;
    if FlushesHead(s, c) {
      var x := s.lru[c][0];
      UnlinkInv(s, x);
      UnlinkThinned(s, x);
      UnlinkHeadSurvivors(s, c);
      UnlinkShortens(s, x);
      FlushClassExact(Unlink(s, x), c);
      ThinnedTrans(s, Unlink(s, x), FlushClass(s, c));
    } else {
      NothingDoomed(s, c);
      assert Thinned(s, s) by { ThinnedSelf(s); }
    }
  }

  lemma ThinnedSelf(s: State)
    ensures Thinned(s, s)
  {
  }

  lemma UnlinkShortens(s: State, x: Item)
    requires x in s.items && s.items[x].linked && s.items[x].clsid < |s.lru| && x in s.lru[s.items[x].clsid]
    ensures |Unlink(s, x).lru| == |s.lru|
    ensures |Unlink(s, x).lru[s.items[x].clsid]| < |s.lru[s.items[x].clsid]|
  {
  }

  /**
   Because every list is newest first, the walk that stops at the first older item unlinks exactly
   the items stamped at or after oldest_live, in every class.
   */
  lemma {:induction false} FlushExact(s: State, c: nat)
    requires Inv(s) && c <= LARGEST_ID
    ensures Inv(FlushFrom(s, c)) && Thinned(s, FlushFrom(s, c))
    ensures FlushFrom(s, c).index == Survivors(s, c, LARGEST_ID)
    decreases LARGEST_ID - c
  {
    hide Inv, FlushClass, Thinned;
    if c == LARGEST_ID {
      IndexComplete(s);
      ThinnedSelf(s);
    } else {
      var t := FlushClass(s, c);
      FlushClassExact(s, c);
      FlushExact(t, c + 1);
      ThinnedTrans(s, t, FlushFrom(s, c));
      SurvivorsStep(s, t, c);
    }
  }

  lemma IndexComplete(s: State)
    requires Inv(s)
    ensures Survivors(s, LARGEST_ID, LARGEST_ID) == s.index
  {
  }

  lemma SurvivorsStep(s: State, t: State, c: nat)
    requires Inv(t) && Thinned(s, t) && t.index == Survivors(s, c, c + 1) && c < LARGEST_ID
    ensures Survivors(t, c + 1, LARGEST_ID) == Survivors(s, c, LARGEST_ID)
  {
    hide ConvertKey, Placed, Counted, Deferred, Totalled, Ordered;
  }
}
