/**
 What do_item_alloc answers a request, in sizes and lists alone: the class of the new item and the
 one item evicted.
 */
module CacheAlloc {
  import opened Wrappers
  import opened Sequences
  import opened CacheSpec
  import opened CacheCommands
  import opened CacheStore

  /** c is the least class whose chunks hold size bytes. */
  ghost predicate LeastFit(cfg: Config, size: nat, c: nat)
    requires Configured(cfg)
  {
    1 <= c <= POWER_LARGEST && size <= cfg.slabSizes[c] && forall d :: 1 <= d < c ==> cfg.slabSizes[d] < size
  }

  /** The new item is of the least class that fits and carries what was asked for; only the caller has it. */
  ghost predicate AsAsked(cfg: Config, q: Request, r: Rec)
    requires Configured(cfg)
  {
    && LeastFit(cfg, NTotal(q.key, q.flags, q.nbytes), r.clsid)
    && r.key == q.key && r.flags == q.flags && r.exptime == q.exptime && |r.data| == q.nbytes
    && r.refcount == 1 && !r.linked && !r.deleted
  }

  /** x is, on the list of the least class that fits, the item nobody holds that is nearest the tail. */
  ghost predicate NextToGo(s: State, cfg: Config, q: Request, x: Item)
    requires Configured(cfg)
  {
    exists c: nat, j :: LeastFit(cfg, NTotal(q.key, q.flags, q.nbytes), c) && c < |s.lru| &&
                   NearestFree(s, s.lru[c], EVICT_TRIES, j) && s.lru[c][j] == x
  }

  /** Some item of the least class that fits is on its list. */
  ghost predicate ClassInUse(s: State, cfg: Config, q: Request)
    requires Configured(cfg)
  {
    exists c: nat :: LeastFit(cfg, NTotal(q.key, q.flags, q.nbytes), c) && c < |s.lru| && s.lru[c] != []
  }

  /**
   From s to t a request is answered with o; first and second say whether there was memory at each
   attempt.  An item leaves the index exactly if it is next to go, the first attempt failed and
   eviction is on.
   */
  ghost predicate Answered(s: State, cfg: Config, q: Request, first: bool, second: bool, t: State, o: Option<Item>)
    requires Configured(cfg)
  {
    var size := NTotal(q.key, q.flags, q.nbytes);
    && ((forall c :: 1 <= c <= POWER_LARGEST ==> cfg.slabSizes[c] < size) ==> t == s && o.None?)
    && (o.Some? ==> o.value !in s.items && o.value in t.items && AsAsked(cfg, q, t.items[o.value]))
    && (o.Some? <==> (exists c: nat :: LeastFit(cfg, size, c)) &&
                       (first || (second && cfg.evictToFree && ClassInUse(s, cfg, q))))
    && (forall k :: k in t.index ==> k in s.index && t.index[k] == s.index[k])
    && (forall k :: k in s.index ==>
          (k !in t.index <==> !first && cfg.evictToFree && NextToGo(s, cfg, q, s.index[k])))
  }

  lemma ClassOfFits(cfg: Config, q: Request)
    requires Configured(cfg)
    ensures var size := NTotal(q.key, q.flags, q.nbytes);
            var id := ClassOf(cfg, size);
            && size > 0 && id <= POWER_LARGEST
            && (id == 0 ==> forall c :: 1 <= c <= POWER_LARGEST ==> cfg.slabSizes[c] < size)
            && (id != 0 ==> LeastFit(cfg, size, id))
  {
    ClassFromFits(cfg, NTotal(q.key, q.flags, q.nbytes), 1);
    hide NTotal;
    SizePositive(q);
  }

  lemma SizePositive(q: Request)
    ensures NTotal(q.key, q.flags, q.nbytes) > 0
  {
  }

  lemma OneLeast(cfg: Config, size: nat, c: nat, d: nat)
    requires Configured(cfg) && LeastFit(cfg, size, c) && LeastFit(cfg, size, d)
    ensures c == d
  {
  }

  lemma OneNearest(s: State, l: seq<Item>, tries: nat, i: int, j: int)
    requires NearestFree(s, l, tries, i) && NearestFree(s, l, tries, j)
    ensures i == j
  {
  }

  /** What the eviction for a request takes from the index. */
  lemma EvictExact(s: State, cfg: Config, q: Request, id: nat, k: nat)
    requires Inv(s) && Configured(cfg) && LeastFit(cfg, NTotal(q.key, q.flags, q.nbytes), id) && k in s.index
    ensures k in Evict(s, id).index ==> Evict(s, id).index[k] == s.index[k]
    ensures k !in Evict(s, id).index <==> NextToGo(s, cfg, q, s.index[k])
  {
    hide NTotal, Victim, Unlink, Configured, Counted, Deferred, Totalled, Ordered, ConvertKey;
    var l := s.lru[id];
    VictimExact(s, l, EVICT_TRIES);
    match Victim(s, l, EVICT_TRIES)
    case None => NoneToGo(s, cfg, q, id, s.index[k]);
    case Some(x) =>
      var j :| NearestFree(s, l, EVICT_TRIES, j) && l[j] == x;
      OneToGo(s, cfg, q, id, j, s.index[k]);
      UnlinkTakes(s, x, k);
  }

  lemma NoneToGo(s: State, cfg: Config, q: Request, id: nat, y: Item)
    requires Configured(cfg) && LeastFit(cfg, NTotal(q.key, q.flags, q.nbytes), id) && id < |s.lru|
    requires forall i :: 0 <= i < |s.lru[id]| && |s.lru[id]| - EVICT_TRIES <= i ==>
               s.lru[id][i] in s.items && s.items[s.lru[id][i]].refcount > 0
    ensures !NextToGo(s, cfg, q, y)
  {
    hide NTotal, LeastFit;
    if NextToGo(s, cfg, q, y) {
      var c: nat, j :| LeastFit(cfg, NTotal(q.key, q.flags, q.nbytes), c) && c < |s.lru| &&
                  NearestFree(s, s.lru[c], EVICT_TRIES, j) && s.lru[c][j] == y;
      OneLeast(cfg, NTotal(q.key, q.flags, q.nbytes), c, id);
    }
  }

  lemma OneToGo(s: State, cfg: Config, q: Request, id: nat, j: nat, y: Item)
    requires Configured(cfg) && LeastFit(cfg, NTotal(q.key, q.flags, q.nbytes), id) && id < |s.lru|
    requires NearestFree(s, s.lru[id], EVICT_TRIES, j)
    ensures NextToGo(s, cfg, q, y) <==> y == s.lru[id][j]
  {
    hide NTotal, LeastFit;
    if NextToGo(s, cfg, q, y) {
      var c: nat, i :| LeastFit(cfg, NTotal(q.key, q.flags, q.nbytes), c) && c < |s.lru| &&
                  NearestFree(s, s.lru[c], EVICT_TRIES, i) && s.lru[c][i] == y;
      OneLeast(cfg, NTotal(q.key, q.flags, q.nbytes), c, id);
      OneNearest(s, s.lru[id], EVICT_TRIES, i, j);
    }
  }

  lemma UnlinkTakes(s: State, x: Item, k: nat)
    requires Shaped(s) && Indexed(s) && x in s.items && s.items[x].linked && k in s.index
    ensures k in Unlink(s, x).index ==> Unlink(s, x).index[k] == s.index[k]
    ensures k !in Unlink(s, x).index <==> s.index[k] == x
  {
    hide ConvertKey, Size, Without;
    assert Sound(s.items[x]);
  }

  lemma LruLength(s: State)
    requires Inv(s)
    ensures |s.lru| == LARGEST_ID
  {
  }

  lemma BlankLength(n: nat)
    ensures |Blank(n)| == n
  {
  }

  /** Some class fits exactly if not all are too small. */
  lemma Fitting(cfg: Config, size: nat, id: nat)
    requires Configured(cfg) && LeastFit(cfg, size, id)
    ensures exists c: nat :: LeastFit(cfg, size, c)
    ensures exists c :: 1 <= c <= POWER_LARGEST && cfg.slabSizes[c] >= size
  {
  }

  lemma NoFit(cfg: Config, size: nat)
    requires Configured(cfg) && forall c :: 1 <= c <= POWER_LARGEST ==> cfg.slabSizes[c] < size
    ensures !exists c: nat :: LeastFit(cfg, size, c)
  {
  }

  lemma NoFitNoneToGo(s: State, cfg: Config, q: Request)
    requires Configured(cfg) && !exists c: nat :: LeastFit(cfg, NTotal(q.key, q.flags, q.nbytes), c)
    ensures forall y :: !NextToGo(s, cfg, q, y)
  {
    hide NTotal;
  }

  lemma InUse(s: State, cfg: Config, q: Request, id: nat)
    requires Configured(cfg) && LeastFit(cfg, NTotal(q.key, q.flags, q.nbytes), id) && id < |s.lru|
    ensures ClassInUse(s, cfg, q) <==> s.lru[id] != []
  {
    hide NTotal, LeastFit;
    if ClassInUse(s, cfg, q) {
      var c: nat :| LeastFit(cfg, NTotal(q.key, q.flags, q.nbytes), c) && c < |s.lru| && s.lru[c] != [];
      OneLeast(cfg, NTotal(q.key, q.flags, q.nbytes), c, id);
    }
  }

  lemma EvictShrinks(s: State, id: nat)
    ensures forall k :: k in Evict(s, id).index ==> k in s.index && Evict(s, id).index[k] == s.index[k]
  {
    hide Victim, ConvertKey, Size, Without;
  }

  lemma EvictNothing(s: State, id: nat)
    requires id < |s.lru| && s.lru[id] == []
    ensures Evict(s, id) == s
  {
  }

  /** do_item_alloc answers as it should, whatever the attempts to get memory bring. */
  lemma AllocExact(s: State, cfg: Config, q: Request, a: Memory)
    requires Inv(s) && Configured(cfg) && FreshMemory(s, a)
    ensures var (t, o) := Alloc(s, cfg, q, a); Answered(s, cfg, q, a.first.Some?, a.second.Some?, t, o)
  {
    hide Inv, NTotal, Evict, LeastFit, Configured, NextToGo, ClassOf, Blank;
    ClassOfFits(cfg, q);
    var size := NTotal(q.key, q.flags, q.nbytes);
    var id := ClassOf(cfg, size);
    LruLength(s);
    if id == 0 {
      NoFit(cfg, size);
      NoFitNoneToGo(s, cfg, q);
    } else {
      BlankLength(q.nbytes);
      Fitting(cfg, size, id);
      InUse(s, cfg, q, id);
      if a.first.None? && cfg.evictToFree {
        forall k | k in s.index
          ensures k in Evict(s, id).index ==> Evict(s, id).index[k] == s.index[k]
          ensures k !in Evict(s, id).index <==> NextToGo(s, cfg, q, s.index[k])
        {
          EvictExact(s, cfg, q, id, k);
        }
        EvictShrinks(s, id);
        if s.lru[id] == [] { EvictNothing(s, id); }
      }
    }
  }

  /** Attempts that are not made may as well have gone either way. */
  lemma AllocAnswers(s: State, cfg: Config, q: Request, a: Memory, first: bool, second: bool)
    requires Inv(s) && Configured(cfg) && FreshMemory(s, a)
    requires var id := ClassOf(cfg, NTotal(q.key, q.flags, q.nbytes));
             id == 0 || (a.first.Some? == first &&
               (first || !cfg.evictToFree || id >= |s.lru| || s.lru[id] == [] || a.second.Some? == second))
    ensures var (t, o) := Alloc(s, cfg, q, a); Answered(s, cfg, q, first, second, t, o)
  {
    AllocExact(s, cfg, q, a);
    hide Inv, NTotal, Alloc, AsAsked, LeastFit, Configured, NextToGo, ClassOf, FreshMemory;
    var size := NTotal(q.key, q.flags, q.nbytes);
    var id := ClassOf(cfg, size);
    ClassOfFits(cfg, q);
    LruLength(s);
    if id == 0 {
      NoFit(cfg, size);
      NoFitNoneToGo(s, cfg, q);
    } else {
      InUse(s, cfg, q, id);
    }
  }
}
