/**
 Whole runs of the cache.  A step is one section under cache_lock, the clock, or a change of the bytes
 behind the key buffer; threads interleave section by section, so a run is any sequence of steps that
 keeps to what the code asks of callers.
 */
module CacheRuns {
  import opened Sequences
  import opened CacheSpec
  import opened CacheCommands
  import opened CacheStore
  import opened CacheDelta

  datatype Step =
    | SGet(k: nat)
    | SAlloc(cfg: Config, q: Request, a: Memory)
    | SFill(x: Item, data: string)
    | SStamp(x: Item, id: nat)
    | SStore(x: Item, comm: Command, cfg: Config, a: Memory)
    | SDelta(x: Item, text: string, cfg: Config, a: Memory)
    | SUnlink(x: Item)
    | SRelease(x: Item)
    | SUpdate(x: Item)
    | SDefer(x: Item, exptime: nat)
    | SSweep
    | STick(t: nat)
    | SBehind(b: string)
    | SFlush

  /** flush_all: only items linked from now on may be seen again. */
  function FlushAll(s: State): State {
    FlushExpired(s.(oldestLive := (s.now - 1) % WRAP, epoch := s.epoch + 1))
  }

  ghost function Next(s: State, e: Step): State
    requires Enabled(s, e)
  {
    match e
    case SGet(k) => Get(s, k)
    case SAlloc(cfg, q, a) => Alloc(s, cfg, q, a).0
    case SFill(x, d) => Fill(s, x, d)
    case SStamp(x, id) => Stamp(s, x, id)
    case SStore(x, comm, cfg, a) => Store(s, x, comm, cfg, a).0
    case SDelta(x, text, cfg, a) => Delta(s, x, text, cfg, a).0
    case SUnlink(x) => Unlink(s, x)
    case SRelease(x) => Release(s, x)
    case SUpdate(x) => Update(s, x)
    case SDefer(x, t) => Defer(s, x, t)
    case SSweep => Sweep(s, s.todelete)
    case STick(t) => Tick(s, t)
    case SBehind(b) => Behind(s, b)
    case SFlush => FlushAll(s)
  }

  /** What the code asks of its caller at each step. */
  ghost predicate Enabled(s: State, e: Step) {
    match e
    case SGet(k) => true
    case SAlloc(cfg, q, a) => Configured(cfg) && FreshMemory(s, a)
    case SFill(x, d) => x in s.items && !s.items[x].linked && |d| == |s.items[x].data|
    case SStamp(x, id) => x in s.items && !s.items[x].linked && s.refs[x] > 0
    case SStore(x, comm, cfg, a) => Configured(cfg) && FreshMemory(s, a) && Storable(s, x)
    case SDelta(x, text, cfg, a) =>
      Configured(cfg) && FreshMemory(s, a) && s.refs[x] > 0 && x in s.items && DeltaSound(s, x, text, cfg, a)
    case SUnlink(x) => s.refs[x] > 0 && x in s.items
    case SRelease(x) => s.refs[x] > 0
    case SUpdate(x) => s.refs[x] > 0 && x in s.items
    case SDefer(x, t) => x in s.items && s.refs[x] > 0 && !s.items[x].deleted
    case SSweep => true
    case STick(t) => s.now <= t < WRAP
    case SBehind(b) => ReadsSame(s, b)
    case SFlush => true
  }

  ghost predicate Legal(s: State, run: seq<Step>)
    decreases run
  {
    run == [] || (Enabled(s, run[0]) && Legal(Next(s, run[0]), run[1..]))
  }

  ghost function After(s: State, run: seq<Step>): State
    requires Legal(s, run)
    decreases run
  {
    if run == [] then s else After(Next(s, run[0]), run[1..])
  }

  lemma TickInv(s: State, t: nat)
    requires Inv(s) && s.now <= t < WRAP
    ensures Inv(Tick(s, t))
  {
    hide Placed, Indexed, Counted, Deferred, Totalled, Ordered, SamePlaces;
    TickSame(s, t);
    SamePlacesInv(s, Tick(s, t));
  }

  lemma TickSame(s: State, t: nat)
    requires Shaped(s) && Counted(s) && Deferred(s) && s.now <= t < WRAP
    ensures SamePlaces(s, Tick(s, t)) && Counted(Tick(s, t)) && Deferred(Tick(s, t))
  {
  }

  lemma SettingsInv(s: State, live: nat, epoch: nat)
    requires Inv(s)
    ensures Inv(s.(oldestLive := live, epoch := epoch))
  {
    hide Placed, Indexed, Counted, Deferred, Totalled, Ordered, SamePlaces;
    var t := s.(oldestLive := live, epoch := epoch);
    assert SamePlaces(s, t) && Counted(t) && Deferred(t) by { SettingsSame(s, live, epoch); }
    SamePlacesInv(s, t);
  }

  lemma SettingsSame(s: State, live: nat, epoch: nat)
    requires Shaped(s) && Counted(s) && Deferred(s)
    ensures var t := s.(oldestLive := live, epoch := epoch); SamePlaces(s, t) && Counted(t) && Deferred(t)
  {
  }

  lemma FlushAllInv(s: State)
    requires Inv(s)
    ensures Inv(FlushAll(s))
  {
    hide Inv, FlushFrom, Thinned;
    SettingsInv(s, (s.now - 1) % WRAP, s.epoch + 1);
    FlushExact(s.(oldestLive := (s.now - 1) % WRAP, epoch := s.epoch + 1), 0);
  }

  lemma NextInv(s: State, e: Step)
    requires Inv(s) && Enabled(s, e)
    ensures Inv(Next(s, e))
  {
    hide Inv, Get, Alloc, Store, Refines, Gone, Delta, DeltaSound, Unlink, Release, Update, Fill, Stamp, Defer, Sweep,
         Tick, Behind, ReadsSame, FlushAll, Leaks;
    match e
    case SGet(k) => GetInv(s, k);
    case SAlloc(cfg, q, a) => AllocInv(s, cfg, q, a);
    case SFill(x, d) => FillInv(s, x, d);
    case SStamp(x, id) => StampInv(s, x, id);
    case SStore(x, comm, cfg, a) => StoreExact(s, x, comm, cfg, a);
    case SDelta(x, text, cfg, a) => DeltaExact(s, x, text, cfg, a);
    case SUnlink(x) => UnlinkInv(s, x);
    case SRelease(x) => ReleaseInv(s, x);
    case SUpdate(x) => UpdateInv(s, x);
    case SDefer(x, t) => DeferInv(s, x, t);
    case SSweep => SweepQueue(s, [], s.todelete); assert [] + s.todelete == s.todelete;
    case STick(t) => TickInv(s, t);
    case SBehind(b) => BehindExact(s, b);
    case SFlush => FlushAllInv(s);
  }

  /** The invariant holds after every run, however the sections of different threads interleave. */
  lemma {:induction false} RunInv(s: State, run: seq<Step>)
    requires Inv(s) && Legal(s, run)
    ensures Inv(After(s, run))
    decreases run
  {
    hide Inv, Next, Enabled;
    if run != [] {
      NextInv(s, run[0]);
      RunInv(Next(s, run[0]), run[1..]);
    }
  }

  // ----- who keeps an item

  ghost predicate InIndex(s: State, x: Item) { exists k :: k in s.index && s.index[k] == x }

  /** Nothing that can still act knows the item: not the index, not a connection, not the delete queue. */
  ghost predicate Forgotten(s: State, x: Item) { !InIndex(s, x) && s.refs[x] == 0 && x !in s.todelete }

  /**
   After every run an item's memory is kept exactly while the index, a connection or the delete
   queue has it, or a reference on it was lost; so a forgotten item is kept iff one was.
   */
  lemma KeptIffUsed(s: State, run: seq<Step>, x: Item)
    requires Inv(s) && Legal(s, run)
    ensures var t := After(s, run); x in t.items <==> InIndex(t, x) || t.refs[x] > 0 || x in t.todelete || t.lost[x] > 0
    ensures var t := After(s, run); Forgotten(t, x) ==> (x in t.items <==> t.lost[x] > 0)
  {
    RunInv(s, run);
    var t := After(s, run);
    hide After, Legal, Placed, Totalled, Ordered, ConvertKey;
    if x in t.items && t.items[x].linked {
      assert t.index[ConvertKey(t.items[x].key, t.behind)] == x;
    }
  }

  /** The step is an append or prepend that runs out of memory. */
  ghost predicate LeakyStep(s: State, e: Step)
    requires Enabled(s, e)
  {
    e.SStore? && Leaks(s, e.x, e.comm, e.cfg, e.a)
  }

  ghost function LostBy(s: State, e: Step): multiset<Item>
    requires Enabled(s, e)
  {
    if LeakyStep(s, e) then multiset{Probe(s, ConvertKey(s.items[e.x].key, s.behind)).it} else multiset{}
  }

  lemma NextLost(s: State, e: Step)
    requires Inv(s) && Enabled(s, e)
    ensures Next(s, e).lost == s.lost + LostBy(s, e)
  {
    hide Inv, Alloc, Store, Refines, Gone, Delta, DeltaSound, Unlink, Release, Update, Take, Link, Sweep, FlushAll,
         Probe, ConvertKey, Leaks;
    match e
    case SGet(k) => if !Probe(s, k).Missing? { StepsLoseNothing(s, Probe(s, k).it); }
    case SAlloc(cfg, q, a) => AllocLosesNothing(s, cfg, q, a);
    case SFill(x, d) =>
    case SStamp(x, id) =>
    case SStore(x, comm, cfg, a) => StoreLost(s, x, comm, cfg, a);
    case SDelta(x, text, cfg, a) => DeltaLosesNothing(s, x, text, cfg, a);
    case SUnlink(x) => StepsLoseNothing(s, x);
    case SRelease(x) => StepsLoseNothing(s, x);
    case SUpdate(x) => StepsLoseNothing(s, x);
    case SDefer(x, t) =>
    case SSweep => SweepLoses(s);
    case STick(t) =>
    case SBehind(b) =>
    case SFlush => FlushLoses(s);
  }

  lemma SweepLoses(s: State)
    requires Inv(s)
    ensures Sweep(s, s.todelete).lost == s.lost
  {
    hide Inv, Sweep;
    assert [] + s.todelete == s.todelete;
    SweepQueue(s, [], s.todelete);
  }

  lemma FlushLoses(s: State)
    requires Inv(s)
    ensures FlushAll(s).lost == s.lost
  {
    hide Inv, FlushFrom;
    SettingsInv(s, (s.now - 1) % WRAP, s.epoch + 1);
    FlushExact(s.(oldestLive := (s.now - 1) % WRAP, epoch := s.epoch + 1), 0);
  }

  /** No step of the run is an append or prepend that runs out of memory. */
  ghost predicate NoLeaks(s: State, run: seq<Step>)
    requires Legal(s, run)
    decreases run
  {
    run == [] || (!LeakyStep(s, run[0]) && NoLeaks(Next(s, run[0]), run[1..]))
  }

  /** Lost references are never found again, and there are new ones exactly if some join ran out of memory. */
  lemma {:induction false} LostForGood(s: State, run: seq<Step>)
    requires Inv(s) && Legal(s, run)
    ensures s.lost <= After(s, run).lost
    ensures After(s, run).lost == s.lost <==> NoLeaks(s, run)
    decreases run
  {
    hide Inv, Next, Enabled, LeakyStep;
    if run != [] {
      var t := Next(s, run[0]);
      NextInv(s, run[0]);
      NextLost(s, run[0]);
      LostForGood(t, run[1..]);
      if LeakyStep(s, run[0]) {
        LeakShows(s, run[0], After(t, run[1..]).lost);
      }
    }
  }

  lemma LeakShows(s: State, e: Step, later: multiset<Item>)
    requires Enabled(s, e) && LeakyStep(s, e) && s.lost + LostBy(s, e) <= later
    ensures later != s.lost
  {
    hide Enabled, LeakyStep;
    var y :| y in LostBy(s, e);
    assert (s.lost + LostBy(s, e))[y] > s.lost[y];
  }

  /** The empty cache that a run starts from. */
  function Initial(now: nat, behind: string): State {
    State(map[], seq(LARGEST_ID, i => []), map[], [], multiset{}, multiset{}, now, 0, 0, map[], 0, 0, 0, behind)
  }

  lemma InitialInv(now: nat, behind: string)
    requires now < WRAP
    ensures Inv(Initial(now, behind))
  {
    hide ConvertKey, Size, Sound, Total;
    var s := Initial(now, behind);
    assert Shaped(s) && Indexed(s);
    assert Placed(s) && Ordered(s) by { NoneListed(s); }
    assert Counted(s) && Deferred(s);
    assert Totalled(s) by { NoneWeighed(s); }
    hide Shaped, Placed, Indexed, Counted, Deferred, Totalled, Ordered;
  }

  lemma NoneListed(s: State)
    requires Shaped(s) && s.items == map[] && s.now < WRAP && forall c :: 0 <= c < LARGEST_ID ==> s.lru[c] == []
    ensures Placed(s) && Ordered(s)
  {
  }

  lemma NoneWeighed(s: State)
    requires Indexed(s) && s.index == map[] && s.currItems == 0 && s.currBytes == 0
    ensures Totalled(s)
  {
    assert Weights(s) == map[];
  }

  /** Deferring a deletion is sound exactly for an item not already in the queue. */
  lemma DeferExact(s: State, x: Item, exptime: nat)
    requires Inv(s) && s.refs[x] > 0
    ensures Inv(Defer(s, x, exptime)) <==> !s.items[x].deleted
  {
    hide Placed, Indexed, Totalled, Ordered;
    if s.items[x].deleted {
      var t := Defer(s, x, exptime);
      var i :| 0 <= i < |s.todelete| && s.todelete[i] == x;
      assert t.todelete[i] == t.todelete[|s.todelete|];
    } else {
      DeferInv(s, x, exptime);
    }
  }
}
