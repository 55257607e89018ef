/** Delete locks over whole runs: how long a delete-locked item keeps its key, and against which steps. */
module CacheLocks {
  import opened Sequences
  import opened CacheSpec
  import opened CacheCommands
  import opened CacheStore
  import opened CacheDelta
  import opened CacheRuns

  /** x sits under key k with its delete flag, as in s. */
  ghost predicate SameLock(s: State, t: State, k: nat, x: Item) {
    && k in t.index && t.index[k] == x && x in t.items && t.items[x].linked
    && t.items[x].deleted && x in s.items && t.items[x].exptime == s.items[x].exptime && t.now == s.now &&
        t.behind == s.behind
  }

  lemma UnlinkLock(o: State, s: State, y: Item, k: nat, x: Item)
    requires SameLock(o, s, k, x) && y != x &&
             (y in s.items && s.items[y].linked ==> ConvertKey(s.items[y].key, s.behind) != k)
    ensures SameLock(o, Unlink(s, y), k, x)
  {
    hide ConvertKey, Size, Without;
  }

  lemma LinkLock(o: State, s: State, y: Item, k: nat, x: Item)
    requires SameLock(o, s, k, x) && y != x && (y in s.items ==> ConvertKey(s.items[y].key, s.behind) != k)
    ensures SameLock(o, Link(s, y), k, x)
  {
    hide ConvertKey, Size;
  }

  lemma CountLock(o: State, s: State, y: Item, k: nat, x: Item)
    requires SameLock(o, s, k, x)
    ensures SameLock(o, Take(s, y), k, x) && SameLock(o, Release(s, y), k, x)
  {
  }

  lemma LoseLock(o: State, s: State, y: Item, k: nat, x: Item)
    requires SameLock(o, s, k, x)
    ensures SameLock(o, Lose(s, y), k, x)
  {
  }

  lemma UpdateLock(o: State, s: State, y: Item, k: nat, x: Item)
    requires SameLock(o, s, k, x)
    ensures SameLock(o, Update(s, y), k, x)
  {
    hide Without;
  }

  lemma NewLock(o: State, s: State, y: Item, r: Rec, k: nat, x: Item)
    requires SameLock(o, s, k, x) && y !in s.items
    ensures SameLock(o, New(s, y, r), k, x)
  {
  }

  lemma FillLock(o: State, s: State, y: Item, data: string, k: nat, x: Item)
    requires SameLock(o, s, k, x)
    ensures SameLock(o, Fill(s, y, data), k, x)
  {
  }

  /** Another item has another key, if it is linked at all. */
  lemma OtherKey(s: State, y: Item, k: nat, x: Item)
    requires Indexed(s) && k in s.index && s.index[k] == x && y != x && y in s.items && s.items[y].linked
    ensures ConvertKey(s.items[y].key, s.behind) != k
  {
    hide ConvertKey;
  }

  /** A delete-locked item has a reference, the queue's. */
  lemma LockHeld(s: State, x: Item)
    requires Inv(s) && x in s.items && s.items[x].deleted
    ensures s.items[x].refcount > 0
  {
    hide Placed, Indexed, Totalled, Ordered;
  }

  lemma EvictLock(o: State, s: State, id: nat, k: nat, x: Item)
    requires Inv(s) && SameLock(o, s, k, x)
    ensures SameLock(o, Evict(s, id), k, x)
  {
    InvIndexed(s);
    hide Inv, Indexed, Unlink, Victim, ConvertKey;
    LockHeld(s, x);
    if id < |s.lru| && Victim(s, s.lru[id], EVICT_TRIES).Some? {
      var y := Victim(s, s.lru[id], EVICT_TRIES).value;
      VictimIsFree(s, s.lru[id], EVICT_TRIES);
      if s.items[y].linked { OtherKey(s, y, k, x); }
      UnlinkLock(o, s, y, k, x);
    }
  }

  lemma AllocLock(o: State, s: State, cfg: Config, q: Request, a: Memory, k: nat, x: Item)
    requires Inv(s) && Configured(cfg) && FreshMemory(s, a) && SameLock(o, s, k, x)
    ensures SameLock(o, Alloc(s, cfg, q, a).0, k, x)
  {
    hide Inv, SameLock, Evict, New, ClassFrom, NTotal, Thinned;
    var id := ClassOf(cfg, NTotal(q.key, q.flags, q.nbytes));
    EvictLock(o, s, id, k, x);
    EvictInv(s, id);
    ThinnedItems(s, Evict(s, id));
    if a.first.Some? { NewLock(o, s, a.first.value, NewRec(q, id), k, x); }
    if a.second.Some? { NewLock(o, Evict(s, id), a.second.value, NewRec(q, id), k, x); }
  }

  /** A swap under another key. */
  lemma SwapLock(o: State, s: State, prior: Item, y: Item, k: nat, x: Item)
    requires SameLock(o, s, k, x) && prior in s.items && y in s.items && prior != x && y != x && y != prior
    requires ConvertKey(s.items[prior].key, s.behind) != k && ConvertKey(s.items[y].key, s.behind) != k
    ensures SameLock(o, Swap(s, prior, y), k, x)
  {
    hide SameLock, Unlink, Link, Release, ConvertKey;
    UnlinkLock(o, s, prior, k, x);
    UnlinkOther(s, prior, y);
    LinkLock(o, Unlink(s, prior), y, k, x);
    CountLock(o, Link(Unlink(s, prior), y), prior, k, x);
  }

  lemma GetLock(s: State, k': nat, k: nat, x: Item)
    requires Indexed(s) && Probe(s, k) == Locked(x) && SameLock(s, s, k, x)
    ensures SameLock(s, Get(s, k'), k, x)
  {
    hide SameLock, Unlink, Take, ConvertKey;
    match Probe(s, k')
    case Missing =>
    case Locked(_) =>
    case Dead(y) =>
      OtherKey(s, y, k, x);
      UnlinkLock(s, s, y, k, x);
    case Alive(y) => CountLock(s, s, y, k, x);
  }

  /** Where the item under key j stands beside the locked one under key k. */
  lemma ProbeBeside(s: State, j: nat, k: nat, x: Item)
    requires Indexed(s) && j != k && Probe(s, k) == Locked(x) && !Probe(s, j).Missing?
    ensures var y := Probe(s, j).it;
            y in s.items && y != x && s.items[y].linked && ConvertKey(s.items[y].key, s.behind) == j
  {
    hide ConvertKey;
  }

  lemma TakeKeys(s: State, y: Item, z: Item)
    requires z in s.items
    ensures z in Take(s, y).items && Take(s, y).items[z].key == s.items[z].key && Take(s, y).behind == s.behind
  {
  }

  /** A store under another key, with nothing joined. */
  lemma PlainStoreLock(s: State, y: Item, comm: Command, cfg: Config, a: Memory, k: nat, x: Item)
    requires Inv(s) && Indexed(s) && Configured(cfg) && Storable(s, y) && Probe(s, k) == Locked(x) &&
             SameLock(s, s, k, x)
    requires y != x && ConvertKey(s.items[y].key, s.behind) != k &&
             !(Joins(comm) && Probe(s, ConvertKey(s.items[y].key, s.behind)).Alive?)
    ensures SameLock(s, Store(s, y, comm, cfg, a).0, k, x)
  {
    hide Inv, Indexed, SameLock, Unlink, Link, Take, Release, Update, Swap, ConvertKey, Probe, Contents;
    var j := ConvertKey(s.items[y].key, s.behind);
    var v := Probe(s, j);
    GetLock(s, j, k, x);
    if v.Missing? {
      LinkLock(s, s, y, k, x);
    } else {
      ProbeBeside(s, j, k, x);
      var z := v.it;
      if v.Dead? {
        UnlinkOther(s, z, y);
        LinkLock(s, Unlink(s, z), y, k, x);
      } else {
        var t := Take(s, z);
        CountLock(s, s, z, k, x);
        TakeKeys(s, z, z);
        TakeKeys(s, z, y);
        SwapLock(s, t, z, y, k, x);
        UpdateLock(s, t, z, k, x);
        CountLock(s, Update(t, z), z, k, x);
        CountLock(s, t, z, k, x);
      }
    }
  }

  lemma JoinStoreLock(s: State, y: Item, comm: Command, cfg: Config, a: Memory, k: nat, x: Item)
    requires Inv(s) && Indexed(s) && Configured(cfg) && FreshMemory(s, a) && Storable(s, y) &&
             Probe(s, k) == Locked(x) && SameLock(s, s, k, x)
    requires y != x && ConvertKey(s.items[y].key, s.behind) != k && Joins(comm) &&
             Probe(s, ConvertKey(s.items[y].key, s.behind)).Alive?
    ensures SameLock(s, Store(s, y, comm, cfg, a).0, k, x)
  {
    hide Inv, Indexed, SameLock, Unlink, Link, Take, Release, Swap, Alloc, Fill, ConvertKey, Probe, Contents, Join,
         FreshMemory;
    var j := ConvertKey(s.items[y].key, s.behind);
    var z := Probe(s, j).it;
    ProbeBeside(s, j, k, x);
    var t := Take(s, z);
    TakeInv(s, z);
    TakeItems(s, z, a);
    CountLock(s, s, z, k, x);
    var q := JoinRequest(comm, s.items[y], s.items[z]);
    AllocLock(s, t, cfg, q, a, k, x);
    TakeKeys(s, z, z);
    TakenCount(s, z);
    AllocEffect(t, cfg, q, a, z);
    var (u, o) := Alloc(t, cfg, q, a);
    if o.Some? {
      var data := Join(comm, s.items[z].data, s.items[y].data);
      FillLock(s, u, o.value, data, k, x);
      FillKeys(u, o.value, data);
      LockKnown(s, t, k, x);
      SwapLock(s, Fill(u, o.value, data), z, o.value, k, x);
      CountLock(s, Swap(Fill(u, o.value, data), z, o.value), o.value, k, x);
    } else {
      LoseLock(s, u, z, k, x);
    }
  }

  lemma TakenCount(s: State, z: Item)
    requires z in s.items
    ensures z in Take(s, z).items && Take(s, z).items[z].refcount > 0
  {
  }

  lemma FillKeys(s: State, y: Item, data: string)
    ensures Fill(s, y, data).items.Keys == s.items.Keys
    ensures forall z :: z in s.items ==> Fill(s, y, data).items[z].key == s.items[z].key
  {
  }

  lemma LockKnown(o: State, s: State, k: nat, x: Item)
    requires SameLock(o, s, k, x)
    ensures x in s.items
  {
  }

  lemma LockLinked(o: State, s: State, k: nat, x: Item)
    requires SameLock(o, s, k, x)
    ensures x in s.items && s.items[x].linked
  {
  }

  lemma {:induction false} SweepNow(s: State, l: seq<Item>)
    ensures Sweep(s, l).now == s.now && Sweep(s, l).behind == s.behind
    decreases l
  {
    if l != [] {
      SweepOneOthers(s, l[0]);
      hide SweepOne, Over;
      SweepNow(if Over(s, l[0]) then SweepOne(s, l[0]) else s, l[1..]);
    }
  }

  lemma SweepLock(s: State, k: nat, x: Item)
    requires Inv(s) && Indexed(s) && Probe(s, k) == Locked(x) && SameLock(s, s, k, x)
    ensures SameLock(s, Sweep(s, s.todelete), k, x)
  {
    hide Inv, Sweep, ConvertKey;
    assert [] + s.todelete == s.todelete;
    SweepItems(s, [], s.todelete, x);
    SweepQueue(s, [], s.todelete);
    SweepNow(s, s.todelete);
    InvIndexed(Sweep(s, s.todelete));
  }

  lemma LockStart(s: State, k: nat, x: Item)
    requires Inv(s) && Probe(s, k) == Locked(x)
    ensures Indexed(s) && SameLock(s, s, k, x) && k in s.index && s.index[k] == x && x in s.items && s.items[x].deleted
  {
    hide Placed, Counted, Deferred, Totalled, Ordered, ConvertKey;
  }

  lemma LockEnd(s: State, t: State, k: nat, x: Item)
    requires Probe(s, k) == Locked(x) && SameLock(s, t, k, x)
    ensures Probe(t, k) == Locked(x)
  {
  }

  lemma DeferLock(s: State, y: Item, exptime: nat, k: nat, x: Item)
    requires SameLock(s, s, k, x) && y != x
    ensures SameLock(s, Defer(s, y, exptime), k, x)
  {
  }

  lemma StampLock(s: State, y: Item, id: nat, k: nat, x: Item)
    requires SameLock(s, s, k, x) && y != x
    ensures SameLock(s, Stamp(s, y, id), k, x)
  {
  }

  /** A number that outgrows another item, or one written in place. */
  lemma DeltaLock(s: State, y: Item, text: string, cfg: Config, a: Memory, k: nat, x: Item)
    requires Inv(s) && Indexed(s) && Configured(cfg) && FreshMemory(s, a) && SameLock(s, s, k, x) && s.refs[y] > 0
    requires k in s.index && s.index[k] == x && y in s.items && DeltaSound(s, y, text, cfg, a)
    requires y == x ==> !(Outgrows(s.items[y], text) && Delta(s, y, text, cfg, a).1)
    ensures SameLock(s, Delta(s, y, text, cfg, a).0, k, x)
  {
    hide Inv, Indexed, SameLock, Unlink, Link, Release, Alloc, Fill, ConvertKey, Contents, FreshMemory, Patched;
    var r := s.items[y];
    if Outgrows(r, text) {
      var q := DeltaRequest(r, text);
      AllocLock(s, s, cfg, q, a, k, x);
      var (t, o) := Alloc(s, cfg, q, a);
      if o.Some? {
        DeltaAlloc(s, y, text, cfg, a);
        if r.linked { OtherKey(s, y, k, x); }
        LockKnown(s, t, k, x);
        FillLock(s, t, o.value, text + "\r\n", k, x);
        LockLinked(s, Fill(t, o.value, text + "\r\n"), k, x);
        ReplacedLock(s, Fill(t, o.value, text + "\r\n"), y, o.value, k, x);
      }
    } else {
      FillLock(s, s, y, Patched(r.data, text), k, x);
    }
  }

  lemma ReplacedLock(o: State, s: State, y: Item, z: Item, k: nat, x: Item)
    requires SameLock(o, s, k, x) && TakesOver(s, y, z) && y != x && z != x && ConvertKey(s.items[y].key, s.behind) != k
    ensures SameLock(o, Replaced(s, y, z), k, x)
  {
    hide Inv, SameLock, Unlink, Link, Release, ConvertKey;
    UnlinkLock(o, s, y, k, x);
    UnlinkOther(s, y, z);
    LinkLock(o, Unlink(s, y), z, k, x);
    CountLock(o, Link(Unlink(s, y), z), z, k, x);
  }

  /** A flush_all at this time unlinks x. */
  predicate FlushesAway(s: State, x: Item)
    requires x in s.items
  {
    (s.now - 1) % WRAP != 0 && s.items[x].time >= (s.now - 1) % WRAP
  }

  /** The steps that end a delete lock or take its key. */
  ghost predicate Retakes(s: State, e: Step, k: nat, x: Item)
    requires Enabled(s, e) && x in s.items
  {
    match e
    case SFlush => FlushesAway(s, x)
    case SUnlink(y) => y == x
    case STick(t) => t >= s.items[x].exptime
    case SDelta(y, text, cfg, a) => y == x && Outgrows(s.items[y], text) && Delta(s, y, text, cfg, a).1
    case SStore(y, comm, _, _) =>
      ConvertKey(s.items[y].key, s.behind) == k &&
          (comm == Set || (comm == Cas && s.items[y].casId == s.items[x].casId))
    case _ => false
  }

  lemma StoreLock(s: State, y: Item, comm: Command, cfg: Config, a: Memory, k: nat, x: Item)
    requires Inv(s) && Enabled(s, SStore(y, comm, cfg, a)) && Probe(s, k) == Locked(x) &&
             !Retakes(s, SStore(y, comm, cfg, a), k, x)
    ensures SameLock(s, Store(s, y, comm, cfg, a).0, k, x)
  {
    LockStart(s, k, x);
    assert y != x;
    hide Inv, Indexed, SameLock, ConvertKey, Take, Release, Probe, Unlink, Link, Update, Alloc;
    if ConvertKey(s.items[y].key, s.behind) != k {
      if Joins(comm) && Probe(s, ConvertKey(s.items[y].key, s.behind)).Alive? {
        JoinStoreLock(s, y, comm, cfg, a, k, x);
      } else {
        PlainStoreLock(s, y, comm, cfg, a, k, x);
      }
    } else {
      CountLock(s, s, x, k, x);
      CountLock(s, Take(s, x), x, k, x);
    }
  }

  lemma StepLock(s: State, e: Step, k: nat, x: Item)
    requires Inv(s) && Indexed(s) && Enabled(s, e) && Probe(s, k) == Locked(x) && SameLock(s, s, k, x)
    requires !e.STick? && !e.SBehind?
    requires x in s.items && s.items[x].deleted && k in s.index && s.index[k] == x && !Retakes(s, e, k, x)
    ensures SameLock(s, Next(s, e), k, x)
  {
    hide Inv, Indexed, SameLock, ConvertKey, Get, Alloc, Store, Delta, DeltaSound, Unlink, Release, Update, Fill,
         Stamp, Defer, Sweep, FlushAll, Probe, Configured, FreshMemory, Storable,
         Behind, ReadsSame, FlushesAway;
    match e
    case SGet(j) => GetLock(s, j, k, x);
    case SAlloc(cfg, q, a) => AllocLock(s, s, cfg, q, a, k, x);
    case SFill(y, d) => FillLock(s, s, y, d, k, x);
    case SStamp(y, id) => LockLinked(s, s, k, x); StampLock(s, y, id, k, x);
    case SStore(y, comm, cfg, a) => StoreLock(s, y, comm, cfg, a, k, x);
    case SDelta(y, text, cfg, a) => DeltaLock(s, y, text, cfg, a, k, x);
    case SUnlink(y) =>
      if s.items[y].linked { OtherKey(s, y, k, x); }
      UnlinkLock(s, s, y, k, x);
    case SRelease(y) => CountLock(s, s, y, k, x);
    case SUpdate(y) => UpdateLock(s, s, y, k, x);
    case SDefer(y, t) => DeferLock(s, y, t, k, x);
    case SSweep => SweepLock(s, k, x);
    case SFlush => FlushLock(s, k, x);
  }

  /** A delete-locked item keeps its key and its lock through a step exactly if the step is none of those. */
  lemma LockLasts(s: State, e: Step, k: nat, x: Item)
    requires Inv(s) && Enabled(s, e) && Probe(s, k) == Locked(x)
    ensures Probe(Next(s, e), k) == Locked(x) <==> !Retakes(s, e, k, x)
  {
    hide Inv, Indexed, SameLock, Probe, Enabled;
    LockStart(s, k, x);
    if Retakes(s, e, k, x) {
      hide Next, Retakes;
      RetakeShows(s, e, k, x);
    } else if e.STick? {
      TickLock(s, e.t, k, x);
    } else if e.SBehind? {
      BehindLock(s, e.b, k);
    } else {
      hide Next, Retakes;
      StepLock(s, e, k, x);
      LockEnd(s, Next(s, e), k, x);
    }
  }

  lemma BehindLock(s: State, b: string, k: nat)
    ensures Probe(Behind(s, b), k) == Probe(s, k)
  {
  }

  lemma FlushIndex(s: State, k: nat, x: Item)
    requires Inv(s) && k in s.index && s.index[k] == x && x in s.items
    ensures k in FlushAll(s).index <==> !FlushesAway(s, x)
    ensures k in FlushAll(s).index ==> FlushAll(s).index[k] == x
    ensures Inv(FlushAll(s)) && Thinned(s.(oldestLive := (s.now - 1) % WRAP, epoch := s.epoch + 1), FlushAll(s))
  {
    hide Placed, Indexed, Counted, Deferred, Totalled, Ordered, FlushFrom, Thinned, Sound;
    var u := s.(oldestLive := (s.now - 1) % WRAP, epoch := s.epoch + 1);
    SettingsInv(s, (s.now - 1) % WRAP, s.epoch + 1);
    FlushExact(u, 0);
    ThinnedSelf(u);
    ClassBound(s, x);
  }

  lemma ClassBound(s: State, x: Item)
    requires Inv(s) && x in s.items
    ensures s.items[x].clsid < LARGEST_ID
  {
    hide Placed, Indexed, Counted, Deferred, Totalled, Ordered;
    assert Sound(s.items[x]);
  }

  lemma FlushLock(s: State, k: nat, x: Item)
    requires Inv(s) && x in s.items && k in s.index && s.index[k] == x && SameLock(s, s, k, x) && !FlushesAway(s, x)
    ensures SameLock(s, FlushAll(s), k, x)
  {
    hide FlushAll, Inv;
    FlushIndex(s, k, x);
    var t := FlushAll(s);
    InvIndexed(t);
    assert t.items[x].(linked := s.items[x].linked) == s.items[x];
  }

  // ----- and each of them does

  lemma OtherHolds(t: State, k: nat, x: Item)
    requires k !in t.index || t.index[k] != x
    ensures Probe(t, k) != Locked(x)
  {
  }

  lemma RetakeShows(s: State, e: Step, k: nat, x: Item)
    requires Inv(s) && Indexed(s) && Enabled(s, e) && Probe(s, k) == Locked(x) && SameLock(s, s, k, x)
    requires x in s.items && k in s.index && s.index[k] == x && Retakes(s, e, k, x)
    ensures Probe(Next(s, e), k) != Locked(x)
  {
    hide Inv, Indexed, SameLock, ConvertKey, Store, Delta, DeltaSound, Unlink, FlushAll, Probe, Configured, FreshMemory,
         FlushesAway, Outgrows;
    match e
    case SFlush => FlushIndex(s, k, x); OtherHolds(FlushAll(s), k, x);
    case SUnlink(y) => UnlinkGone(s, x, k); OtherHolds(Unlink(s, x), k, x);
    case STick(t) => TickOver(s, t, k, x);
    case SDelta(y, text, cfg, a) => DeltaTakes(s, x, text, cfg, a, k); OtherHolds(Delta(s, x, text, cfg, a).0, k, x);
    case SStore(y, comm, cfg, a) => StoreTakes(s, y, comm, cfg, a, k, x); OtherHolds(Store(s, y, comm, cfg, a).0, k, x);
  }

  lemma TickOver(s: State, t: nat, k: nat, x: Item)
    requires Probe(s, k) == Locked(x) && t >= s.items[x].exptime
    ensures Probe(Tick(s, t), k) != Locked(x)
  {
  }

  lemma UnlinkGone(s: State, x: Item, k: nat)
    requires Indexed(s) && SameLock(s, s, k, x) && Inv(s)
    ensures k !in Unlink(s, x).index
  {
    ClassBound(s, x);
    hide ConvertKey, Size, Without, Placed, Counted, Deferred, Totalled, Ordered;
    assert ConvertKey(s.items[x].key, s.behind) == k;
  }

  /** Whatever is linked last under a key holds it. */
  lemma LinkTakes(s: State, y: Item, z: Item, k: nat)
    requires Known(s, y) && ConvertKey(s.items[y].key, s.behind) == k
    ensures var t := Release(Link(s, y), z); k in t.index && t.index[k] == y
  {
    hide ConvertKey, Size;
  }

  lemma StoreTakes(s: State, y: Item, comm: Command, cfg: Config, a: Memory, k: nat, x: Item)
    requires Inv(s) && Indexed(s) && Configured(cfg) && Storable(s, y) && Probe(s, k) == Locked(x) &&
             SameLock(s, s, k, x)
    requires ConvertKey(s.items[y].key, s.behind) == k
    requires comm == Set || (comm == Cas && s.items[y].casId == s.items[x].casId)
    ensures var t := Store(s, y, comm, cfg, a).0; k in t.index && t.index[k] != x
  {
    hide Inv, Indexed, SameLock, ConvertKey, Take, Release, Probe, Unlink, Link, Update, Alloc, Configured, Swap;
    LockLinked(s, s, k, x);
    TakeInv(s, x);
    TakeKeys(s, x, x);
    TakeKeys(s, x, y);
    assert Store(s, y, comm, cfg, a).0 == Swap(Take(s, x), x, y);
    SwapTakes(Take(s, x), x, y, k);
  }

  lemma SwapTakes(s: State, x: Item, y: Item, k: nat)
    requires Inv(s) && x in s.items && y in s.items && x != y && ConvertKey(s.items[y].key, s.behind) == k
    ensures var t := Swap(s, x, y); k in t.index && t.index[k] == y
  {
    hide Inv, ConvertKey, Release, Unlink, Link;
    UnlinkOther(s, x, y);
    UnlinkInv(s, x);
    KnownWhole(Unlink(s, x), y);
    LinkTakes(Unlink(s, x), y, x, k);
  }

  lemma KnownWhole(s: State, y: Item)
    requires Inv(s) && y in s.items
    ensures Known(s, y)
  {
    hide Placed, Indexed, Counted, Deferred, Totalled, Ordered;
    assert Sound(s.items[y]);
  }

  lemma DeltaTakes(s: State, x: Item, text: string, cfg: Config, a: Memory, k: nat)
    requires Inv(s) && Indexed(s) && Configured(cfg) && FreshMemory(s, a) && s.refs[x] > 0 && SameLock(s, s, k, x)
    requires x in s.items && Outgrows(s.items[x], text) && Delta(s, x, text, cfg, a).1
    ensures var t := Delta(s, x, text, cfg, a).0; k in t.index && t.index[k] != x
  {
    KeyOf(s, k, x);
    hide Inv, Indexed, SameLock, Unlink, Link, Release, Alloc, Fill, ConvertKey, Contents, FreshMemory, Outgrows;
    DeltaAlloc(s, x, text, cfg, a);
    var (t, o) := Alloc(s, cfg, DeltaRequest(s.items[x], text), a);
    var u := Fill(t, o.value, text + "\r\n");
    UnlinkOther(u, x, o.value);
    UnlinkInv(u, x);
    KnownWhole(Unlink(u, x), o.value);
    LinkTakes(Unlink(u, x), o.value, o.value, k);
  }

  lemma KeyOf(s: State, k: nat, x: Item)
    requires Indexed(s) && SameLock(s, s, k, x)
    ensures ConvertKey(s.items[x].key, s.behind) == k
  {
    hide ConvertKey;
  }

  lemma TickLock(s: State, t: nat, k: nat, x: Item)
    requires Probe(s, k) == Locked(x) && t < s.items[x].exptime
    ensures Probe(Tick(s, t), k) == Locked(x)
  {
  }

  ghost predicate NeverRetaken(s: State, run: seq<Step>, k: nat, x: Item)
    requires Legal(s, run)
    decreases run
  {
    run == [] || (x in s.items && !Retakes(s, run[0], k, x) && NeverRetaken(Next(s, run[0]), run[1..], k, x))
  }

  /** In every state of the run x holds the key under its lock, so no lookup returns anything for it. */
  ghost predicate LockedThroughout(s: State, run: seq<Step>, k: nat, x: Item)
    requires Legal(s, run)
    decreases run
  {
    && Probe(s, k) == Locked(x) && Get(s, k) == s
    && (run == [] || LockedThroughout(Next(s, run[0]), run[1..], k, x))
  }

  /** The lock holds throughout a run exactly if the run has no such step. */
  lemma {:induction false} LockedRun(s: State, run: seq<Step>, k: nat, x: Item)
    requires Inv(s) && Legal(s, run) && Probe(s, k) == Locked(x)
    ensures LockedThroughout(s, run, k, x) <==> NeverRetaken(s, run, k, x)
    decreases run
  {
    hide Inv, Next, Enabled, Retakes, Probe;
    if run != [] {
      LockedKnown(s, k, x);
      NextInv(s, run[0]);
      LockLasts(s, run[0], k, x);
      if !Retakes(s, run[0], k, x) {
        LockedRun(Next(s, run[0]), run[1..], k, x);
      } else {
        NotThroughout(Next(s, run[0]), run[1..], k, x);
      }
    }
  }

  lemma LockedKnown(s: State, k: nat, x: Item)
    requires Probe(s, k) == Locked(x)
    ensures x in s.items
  {
  }

  lemma NotThroughout(s: State, run: seq<Step>, k: nat, x: Item)
    requires Legal(s, run) && Probe(s, k) != Locked(x)
    ensures !LockedThroughout(s, run, k, x)
  {
  }
}
