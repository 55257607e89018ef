/**
 flush_all is final: as long as touches follow the lookups they belong to, nothing that was linked
 before a flush_all is returned after it.
 */
module CacheFlush {
  import opened Sequences
  import opened CacheSpec
  import opened CacheCommands
  import opened CacheStore
  import opened CacheDelta
  import opened CacheRuns

  /**
   Exactly what was linked before the last flush_all counts as flushed, and nothing in `seen` does;
   `seen` are the items that lookups have returned since.
   */
  ghost predicate FlushSafe(s: State, seen: set<Item>) {
    && (s.oldestLive == 0 || s.oldestLive < s.now)
    && (forall x :: x in s.items && s.items[x].linked ==>
          x in s.born && s.born[x] <= s.epoch && (s.born[x] < s.epoch <==> Flushed(s, s.items[x])))
    && (forall x :: x in seen && x in s.items && s.items[x].linked ==> !Flushed(s, s.items[x]))
  }

  /** A touch is harmless unless it moves an item that a lookup would no longer return. */
  predicate TouchesFresh(s: State, x: Item) { !(Moves(s, x) && Flushed(s, s.items[x])) }

  lemma LinkSafe(s: State, seen: set<Item>, x: Item)
    requires FlushSafe(s, seen)
    ensures FlushSafe(Link(s, x), seen)
  {
    hide ConvertKey, Size;
  }

  lemma UnlinkSafe(s: State, seen: set<Item>, x: Item)
    requires FlushSafe(s, seen)
    ensures FlushSafe(Unlink(s, x), seen)
  {
    hide ConvertKey, Size, Without;
  }

  lemma UpdateSafe(s: State, seen: set<Item>, x: Item)
    requires FlushSafe(s, seen) && TouchesFresh(s, x)
    ensures FlushSafe(Update(s, x), seen)
  {
    hide Without;
  }

  lemma TakeSafe(s: State, seen: set<Item>, x: Item)
    requires FlushSafe(s, seen)
    ensures FlushSafe(Take(s, x), seen)
  {
  }

  lemma ReleaseSafe(s: State, seen: set<Item>, x: Item)
    requires FlushSafe(s, seen)
    ensures FlushSafe(Release(s, x), seen)
  {
  }

  lemma NewSafe(s: State, seen: set<Item>, x: Item, r: Rec)
    requires FlushSafe(s, seen) && !r.linked
    ensures FlushSafe(New(s, x, r), seen)
  {
  }

  lemma FillSafe(s: State, seen: set<Item>, x: Item, data: string)
    requires FlushSafe(s, seen)
    ensures FlushSafe(Fill(s, x, data), seen)
  {
  }

  lemma LoseSafe(s: State, seen: set<Item>, x: Item)
    requires FlushSafe(s, seen)
    ensures FlushSafe(Lose(s, x), seen)
  {
  }

  lemma StampSafe(s: State, seen: set<Item>, x: Item, id: nat)
    requires FlushSafe(s, seen)
    ensures FlushSafe(Stamp(s, x, id), seen)
  {
  }

  lemma ClaimSafe(s: State, seen: set<Item>, x: Item)
    requires FlushSafe(s, seen)
    ensures FlushSafe(Claim(s, x), seen)
  {
    hide Without;
  }

  lemma DeferSafe(s: State, seen: set<Item>, x: Item, exptime: nat)
    requires FlushSafe(s, seen)
    ensures FlushSafe(Defer(s, x, exptime), seen)
  {
  }

  lemma TickSafe(s: State, seen: set<Item>, t: nat)
    requires FlushSafe(s, seen) && s.now <= t
    ensures FlushSafe(Tick(s, t), seen)
  {
  }

  lemma BehindSafe(s: State, seen: set<Item>, b: string)
    requires FlushSafe(s, seen)
    ensures FlushSafe(Behind(s, b), seen)
  {
  }

  lemma GetSafe(s: State, seen: set<Item>, k: nat)
    requires FlushSafe(s, seen)
    ensures FlushSafe(Get(s, k), seen)
  {
    hide FlushSafe, Unlink, Take;
    match Probe(s, k)
    case Missing =>
    case Locked(_) =>
    case Dead(x) => UnlinkSafe(s, seen, x);
    case Alive(x) => TakeSafe(s, seen, x);
  }

  lemma AllocSafe(s: State, seen: set<Item>, cfg: Config, q: Request, a: Memory)
    requires FlushSafe(s, seen) && Configured(cfg)
    ensures FlushSafe(Alloc(s, cfg, q, a).0, seen)
  {
    hide FlushSafe, New, Unlink, Victim, ClassOf, NTotal;
    var id := ClassOf(cfg, NTotal(q.key, q.flags, q.nbytes));
    if id < |s.lru| && Victim(s, s.lru[id], EVICT_TRIES).Some? {
      UnlinkSafe(s, seen, Victim(s, s.lru[id], EVICT_TRIES).value);
    }
    assert FlushSafe(Evict(s, id), seen);
    if a.first.Some? { NewSafe(s, seen, a.first.value, NewRec(q, id)); }
    if a.second.Some? { NewSafe(Evict(s, id), seen, a.second.value, NewRec(q, id)); }
  }

  lemma SwapSafe(s: State, seen: set<Item>, prior: Item, x: Item)
    requires FlushSafe(s, seen)
    ensures FlushSafe(Swap(s, prior, x), seen)
  {
    hide FlushSafe, Unlink, Link, Release;
    UnlinkSafe(s, seen, prior);
    LinkSafe(Unlink(s, prior), seen, x);
    ReleaseSafe(Link(Unlink(s, prior), x), seen, prior);
  }

  /** An item that a lookup hands out may be touched in the same section. */
  lemma AliveIsFresh(s: State, k: nat)
    requires Probe(s, k).Alive?
    ensures TouchesFresh(Take(s, Probe(s, k).it), Probe(s, k).it)
  {
  }

  lemma StoreSafe(s: State, seen: set<Item>, x: Item, comm: Command, cfg: Config, a: Memory)
    requires FlushSafe(s, seen) && Configured(cfg) && x in s.items
    ensures FlushSafe(Store(s, x, comm, cfg, a).0, seen)
  {
    hide FlushSafe, Unlink, Link, Take, Release, Update, Swap, Alloc, Fill, ConvertKey, Join, JoinRequest, TouchesFresh;
    var k := ConvertKey(s.items[x].key, s.behind);
    var v := Probe(s, k);
    GetSafe(s, seen, k);
    if v.Alive? { AliveIsFresh(s, k); }
    var s1 := Get(s, k);
    if comm == Add && v.Alive? {
      UpdateSafe(s1, seen, v.it);
      ReleaseSafe(Update(s1, v.it), seen, v.it);
    } else if Joins(comm) && v.Alive? {
      var q := JoinRequest(comm, s.items[x], s.items[v.it]);
      AllocSafe(s1, seen, cfg, q, a);
      var (s2, o) := Alloc(s1, cfg, q, a);
      if o.Some? {
        var data := Join(comm, s.items[v.it].data, s.items[x].data);
        FillSafe(s2, seen, o.value, data);
        SwapSafe(Fill(s2, o.value, data), seen, v.it, o.value);
        ReleaseSafe(Swap(Fill(s2, o.value, data), v.it, o.value), seen, o.value);
      } else {
        LoseSafe(s2, seen, v.it);
      }
    } else {
      LinkSafe(s1, seen, x);
      if v.Locked? || v.Alive? {
        TakeSafe(s1, seen, v.it);
        var s2 := if v.Locked? then Take(s1, v.it) else s1;
        SwapSafe(s2, seen, v.it, x);
        ReleaseSafe(s2, seen, v.it);
      }
    }
  }

  lemma DeltaSafe(s: State, seen: set<Item>, x: Item, text: string, cfg: Config, a: Memory)
    requires FlushSafe(s, seen) && Configured(cfg) && x in s.items
    ensures FlushSafe(Delta(s, x, text, cfg, a).0, seen)
  {
    hide FlushSafe, Unlink, Link, Release, Alloc, Fill, Patched;
    var r := s.items[x];
    if Outgrows(r, text) {
      AllocSafe(s, seen, cfg, DeltaRequest(r, text), a);
      var (t, o) := Alloc(s, cfg, DeltaRequest(r, text), a);
      if o.Some? {
        FillSafe(t, seen, o.value, text + "\r\n");
        var u := Fill(t, o.value, text + "\r\n");
        UnlinkSafe(u, seen, x);
        LinkSafe(Unlink(u, x), seen, o.value);
        ReleaseSafe(Link(Unlink(u, x), o.value), seen, o.value);
      }
    } else {
      FillSafe(s, seen, x, Patched(r.data, text));
    }
  }

  lemma {:induction false} SweepSafe(s: State, seen: set<Item>, l: seq<Item>)
    requires FlushSafe(s, seen)
    ensures FlushSafe(Sweep(s, l), seen)
    decreases l
  {
    hide FlushSafe, Claim, Unlink, Release, Over;
    if l != [] {
      ClaimSafe(s, seen, l[0]);
      UnlinkSafe(Claim(s, l[0]), seen, l[0]);
      ReleaseSafe(Unlink(Claim(s, l[0]), l[0]), seen, l[0]);
      SweepSafe(if Over(s, l[0]) then SweepOne(s, l[0]) else s, seen, l[1..]);
    }
  }

  lemma NowBound(s: State)
    requires Inv(s)
    ensures s.now < WRAP
  {
  }

  /** After a flush_all no lookup has returned anything yet. */
  lemma FlushAllSafe(s: State, seen: set<Item>)
    requires Inv(s) && FlushSafe(s, seen) && s.now >= 2
    ensures FlushSafe(FlushAll(s), {})
  {
    hide ConvertKey, Counted, Deferred, Totalled, Ordered, FlushFrom;
    NowBound(s);
    var s1 := s.(oldestLive := s.now - 1, epoch := s.epoch + 1);
    SettingsInv(s, s.now - 1, s.epoch + 1);
    FlushExact(s1, 0);
    var t := FlushFrom(s1, 0);
    forall x | x in t.items && t.items[x].linked
      ensures x in t.born && t.born[x] < t.epoch && t.items[x].time < t.oldestLive
    {
      assert t.index[ConvertKey(t.items[x].key, t.behind)] == x;
      assert 0 <= s1.items[x].clsid < LARGEST_ID;
    }
  }

  // ----- whole runs

  /** Whom lookups have returned since the last flush_all, after one more step. */
  ghost function Seen(s: State, seen: set<Item>, e: Step): set<Item> {
    match e
    case SGet(k) => if Probe(s, k).Alive? then seen + {Probe(s, k).it} else seen
    case SFlush => {}
    case _ => seen
  }

  /**
   A touch is of an item that some lookup has returned since the last flush_all, and a flush_all
   has a time to name.
   */
  ghost predicate InOrder(s: State, seen: set<Item>, e: Step) {
    (e.SUpdate? ==> e.x in seen) && (e.SFlush? ==> s.now >= 2)
  }

  ghost predicate TouchesSeen(s: State, seen: set<Item>, run: seq<Step>)
    requires Legal(s, run)
    decreases run
  {
    run == [] || (InOrder(s, seen, run[0]) && TouchesSeen(Next(s, run[0]), Seen(s, seen, run[0]), run[1..]))
  }

  lemma NextSafe(s: State, seen: set<Item>, e: Step)
    requires Inv(s) && FlushSafe(s, seen) && Enabled(s, e) && InOrder(s, seen, e)
    ensures FlushSafe(Next(s, e), Seen(s, seen, e))
  {
    hide Inv, FlushSafe, FlushAll, Get, Alloc, Store, Delta, DeltaSound, Sweep, Unlink, Release, Update, Fill, Stamp,
         Defer, Tick, Behind, ReadsSame;
    match e
    case SGet(k) =>
      GetSafe(s, seen, k);
      if Probe(s, k).Alive? { LookupSafe(s, seen, k); }
    case SAlloc(cfg, q, a) => AllocSafe(s, seen, cfg, q, a);
    case SFill(x, d) => FillSafe(s, seen, x, d);
    case SStamp(x, id) => StampSafe(s, seen, x, id);
    case SStore(x, comm, cfg, a) => StoreSafe(s, seen, x, comm, cfg, a);
    case SDelta(x, text, cfg, a) => DeltaSafe(s, seen, x, text, cfg, a);
    case SUnlink(x) => UnlinkSafe(s, seen, x);
    case SRelease(x) => ReleaseSafe(s, seen, x);
    case SUpdate(x) => SeenIsFresh(s, seen, x); UpdateSafe(s, seen, x);
    case SDefer(x, t) => DeferSafe(s, seen, x, t);
    case SSweep => SweepSafe(s, seen, s.todelete);
    case STick(t) => TickSafe(s, seen, t);
    case SBehind(b) => BehindSafe(s, seen, b);
    case SFlush => FlushAllSafe(s, seen);
  }

  lemma LookupSafe(s: State, seen: set<Item>, k: nat)
    requires FlushSafe(Get(s, k), seen) && Probe(s, k).Alive?
    ensures FlushSafe(Get(s, k), seen + {Probe(s, k).it})
  {
  }

  lemma SeenIsFresh(s: State, seen: set<Item>, x: Item)
    requires FlushSafe(s, seen) && x in seen
    ensures TouchesFresh(s, x)
  {
  }

  /**
   If every touch follows a lookup of its item with no flush_all in between, then in every run an
   item that a lookup returns was linked after the last flush_all.
   */
  lemma {:induction false} FlushIsFinal(s: State, seen: set<Item>, run: seq<Step>, k: nat)
    requires Inv(s) && FlushSafe(s, seen) && Legal(s, run) && TouchesSeen(s, seen, run)
    ensures var t := After(s, run); Probe(t, k).Alive? ==> Probe(t, k).it in t.born && t.born[Probe(t, k).it] == t.epoch
    decreases run
  {
    if run == [] {
      hide Placed, Counted, Deferred, Totalled, Ordered;
    } else {
      hide Inv, FlushSafe, Next, Enabled, Probe, Seen, InOrder;
      NextInv(s, run[0]);
      NextSafe(s, seen, run[0]);
      FlushIsFinal(Next(s, run[0]), Seen(s, seen, run[0]), run[1..], k);
    }
  }

  lemma InitialSafe(now: nat, behind: string)
    ensures FlushSafe(Initial(now, behind), {})
  {
  }

  /** In particular in every run from the empty cache. */
  lemma FlushIsFinalFromStart(now: nat, behind: string, run: seq<Step>, k: nat)
    requires now < WRAP && Legal(Initial(now, behind), run) && TouchesSeen(Initial(now, behind), {}, run)
    ensures var t := After(Initial(now, behind), run);
            Probe(t, k).Alive? ==> Probe(t, k).it in t.born && t.born[Probe(t, k).it] == t.epoch
  {
    hide Legal, TouchesSeen, After, Inv, FlushSafe, Initial, Probe;
    InitialInv(now, behind);
    InitialSafe(now, behind);
    FlushIsFinal(Initial(now, behind), {}, run, k);
  }

  /** A touch by itself keeps the promise exactly if it does not move an item a lookup would no longer return. */
  lemma TouchExact(s: State, seen: set<Item>, x: Item)
    requires FlushSafe(s, seen) && x in s.items
    ensures FlushSafe(Update(s, x), seen) <==> TouchesFresh(s, x)
  {
    hide Without;
    if TouchesFresh(s, x) {
      UpdateSafe(s, seen, x);
    } else {
      var t := Update(s, x);
      assert t.items[x].linked && t.born[x] < t.epoch && !Flushed(t, t.items[x]);
    }
  }
}
