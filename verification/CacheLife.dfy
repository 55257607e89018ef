/** When an item may be seen, how long a delete locks its key, and what a touch does, in times alone. */
module CacheLife {
  import opened Sequences
  import opened CacheSpec
  import opened CacheCommands
  import opened CacheStore
  import opened CacheRuns
  import opened CacheFlush

  // ----- lookups

  /** A delete lock on r still runs. */
  predicate LockRuns(s: State, r: Rec) { r.deleted && s.now < r.exptime }

  /** Linked since the last flush_all, under no running lock, and before its time. */
  ghost predicate Living(s: State, x: Item) {
    && x in s.items && x in s.born && s.born[x] == s.epoch
    && !LockRuns(s, s.items[x]) && (s.items[x].exptime == 0 || s.now < s.items[x].exptime)
  }

  /** Under no running lock, and its time has come. */
  predicate Overdue(s: State, x: Item) {
    x in s.items && !LockRuns(s, s.items[x]) && 0 < s.items[x].exptime <= s.now
  }

  lemma LookupNow(s: State, k: nat, x: Item)
    requires Inv(s) && FlushSafe(s, {})
    ensures Get(s, k).refs == s.refs + multiset{x} <==> k in s.index && s.index[k] == x && Living(s, x)
    ensures k in s.index && Overdue(s, s.index[k]) ==> k !in Get(s, k).index
    ensures k in s.index && LockRuns(s, s.items[s.index[k]]) ==> Get(s, k) == s
  {
    hide Placed, Counted, Deferred, Totalled, Ordered, Unlink, ConvertKey;
    OneMore(s.refs, x);
    match Probe(s, k)
    case Missing =>
    case Locked(y) =>
    case Dead(y) =>
      UnlinkOthers(s, y);
      UnlinkDrops(s, y, k);
    case Alive(y) => SameMore(s.refs, x, y);
  }

  lemma OneMore(m: multiset<Item>, x: Item)
    ensures m != m + multiset{x}
  {
    assert (m + multiset{x})[x] == m[x] + 1;
  }

  lemma SameMore(m: multiset<Item>, x: Item, y: Item)
    ensures m + multiset{x} == m + multiset{y} <==> x == y
  {
    assert (m + multiset{x})[x] == m[x] + 1;
  }

  lemma UnlinkDrops(s: State, y: Item, k: nat)
    requires Shaped(s) && Indexed(s) && k in s.index && s.index[k] == y
    ensures k !in Unlink(s, y).index
  {
    hide ConvertKey, Size, Without;
    assert Sound(s.items[y]);
  }

  lemma {:induction false} RunSafe(s: State, seen: set<Item>, run: seq<Step>)
    requires Inv(s) && FlushSafe(s, seen) && Legal(s, run) && TouchesSeen(s, seen, run)
    ensures Inv(After(s, run)) && FlushSafe(After(s, run), {})
    decreases run
  {
    if run == [] {
      hide Inv;
    } else {
      hide Inv, FlushSafe, Next, Enabled, Seen, InOrder;
      NextInv(s, run[0]);
      NextSafe(s, seen, run[0]);
      RunSafe(Next(s, run[0]), Seen(s, seen, run[0]), run[1..]);
    }
  }

  /**
   After every run in which touches follow their lookups, a lookup returns the item under the key exactly
   if it was linked since the last flush_all, no delete lock on it runs, and its time has not come; one
   whose time has come is dropped from the index.
   */
  lemma LookupExact(s: State, seen: set<Item>, run: seq<Step>, k: nat, x: Item)
    requires Inv(s) && FlushSafe(s, seen) && Legal(s, run) && TouchesSeen(s, seen, run)
    ensures var t := After(s, run);
            && (Get(t, k).refs == t.refs + multiset{x} <==> k in t.index && t.index[k] == x && Living(t, x))
            && (k in t.index && Overdue(t, t.index[k]) ==> k !in Get(t, k).index)
  {
    hide Inv, FlushSafe, Legal, TouchesSeen, After, Get, Living, Overdue;
    RunSafe(s, seen, run);
    LookupNow(After(s, run), k, x);
  }

  // ----- delete locks

  const REALTIME_MAXDELTA := 60 * 60 * 24 * 30

  /** The server-relative time of an expiry argument, in unsigned 32-bit arithmetic. */
  function Realtime(exptime: int, started: nat, now: nat): (t: nat)
    ensures t < WRAP
  {
    if exptime == 0 then 0
    else if exptime > REALTIME_MAXDELTA then
      if exptime <= started then 1 else (exptime - started) % WRAP
    else (exptime + now) % WRAP
  }

  /**
   Until when a delete locks its key: for so many seconds, or, above thirty days, up to a point in time of
   a clock that showed started when the server's own clock was at 0.
   */
  predicate LockedUntil(delay: int, started: nat, now: nat, end: nat) {
    || (0 < delay <= 30 * 86400 && end == now + delay)
    || (delay > 30 * 86400 && end == delay - started)
  }

  /** Up to then lookups find nothing and change nothing; the first one after it drops the key. */
  lemma DelayedDelete(s: State, x: Item, k: nat, delay: int, started: nat, end: nat, t: nat)
    requires Inv(s) && x in s.items && s.items[x].linked && !s.items[x].deleted && s.refs[x] > 0
    requires k == ConvertKey(s.items[x].key, s.behind) && 0 < end < WRAP && LockedUntil(delay, started, s.now, end)
    requires s.now <= t < WRAP
    ensures var u := Tick(Defer(s, x, Realtime(delay, started, s.now)), t);
            && k in u.index && u.index[k] == x && (Probe(u, k) == Locked(x) <==> t < end)
            && (t < end ==> Get(u, k) == u) && (t >= end ==> k !in Get(u, k).index && Get(u, k).refs == u.refs)
  {
    hide Inv, Realtime, Probe, Get, ConvertKey;
    RealtimeIs(delay, started, s.now, end);
    DeferInv(s, x, end);
    TickInv(Defer(s, x, end), t);
    LockSpan(s, x, k, end, t);
  }

  lemma RealtimeIs(delay: int, started: nat, now: nat, end: nat)
    requires 0 < end < WRAP && LockedUntil(delay, started, now, end)
    ensures Realtime(delay, started, now) == end
  {
  }

  lemma LockSpan(s: State, x: Item, k: nat, end: nat, t: nat)
    requires Inv(s) && x in s.items && s.items[x].linked && k == ConvertKey(s.items[x].key, s.behind) && 0 < end
    requires Inv(Tick(Defer(s, x, end), t))
    ensures var u := Tick(Defer(s, x, end), t);
            && k in u.index && u.index[k] == x && (Probe(u, k) == Locked(x) <==> t < end)
            && (t < end ==> Get(u, k) == u) && (t >= end ==> k !in Get(u, k).index && Get(u, k).refs == u.refs)
  {
    hide Placed, Counted, Deferred, Totalled, Ordered, Unlink, ConvertKey;
    var u := Tick(Defer(s, x, end), t);
    assert k in s.index && s.index[k] == x;
    UnlinkDrops(u, x, k);
    UnlinkOthers(u, x);
  }

  /** The sweep takes out of queue and index exactly the deleted items whose time has come. */
  lemma SweepExact(s: State, y: Item)
    requires Inv(s) && y in s.items
    ensures var t := Sweep(s, s.todelete);
            && (y in t.todelete <==> y in s.todelete && s.now < s.items[y].exptime)
            && (if y in s.todelete && s.items[y].exptime <= s.now
                then (y in t.items <==> s.refs[y] + s.lost[y] > 0) && (y in t.items ==> !t.items[y].linked)
                else y in t.items && t.items[y] == s.items[y])
  {
    hide Inv, Sweep;
    assert [] + s.todelete == s.todelete;
    SweepQueue(s, [], s.todelete);
    SweepItems(s, [], s.todelete, y);
    Kept(s, s.todelete, y);
    assert [] + StillLocked(s, s.todelete) == StillLocked(s, s.todelete);
  }

  lemma {:induction false} Kept(s: State, l: seq<Item>, y: Item)
    requires y in s.items
    ensures y in StillLocked(s, l) <==> y in l && s.now < s.items[y].exptime
  {
    if l != [] {
      Kept(s, l[1..], y);
      assert l == [l[0]] + l[1..];
    }
  }

  // ----- touches

  /** x is first on its list, with the current time. */
  ghost predicate InFront(s: State, x: Item) {
    && x in s.items && s.items[x].linked && s.items[x].time == s.now
    && s.items[x].clsid < |s.lru| && s.lru[s.items[x].clsid] != [] && s.lru[s.items[x].clsid][0] == x
  }

  /** Touched or linked in the last minute, the server's first minute not counted. */
  predicate Recent(s: State, r: Rec) { s.now >= 60 && s.now - r.time <= 60 }

  /** A touch does nothing within a minute of the last, and otherwise brings the item to the front. */
  lemma TouchInTime(s: State, x: Item)
    requires Inv(s) && x in s.items && s.items[x].linked
    ensures if Recent(s, s.items[x]) then Update(s, x) == s else InFront(Update(s, x), x)
  {
    hide Placed, Indexed, Counted, Deferred, Totalled, Without;
    assert Sound(s.items[x]);
  }

  /** An add that meets a live entry stores nothing, but counts as a touch of it. */
  lemma AddTouches(s: State, x: Item, cfg: Config, a: Memory)
    requires Inv(s) && Configured(cfg) && Storable(s, x) && Probe(s, ConvertKey(s.items[x].key, s.behind)).Alive?
    ensures var y := Probe(s, ConvertKey(s.items[x].key, s.behind)).it;
            var (t, code) := Store(s, x, Add, cfg, a);
            && y in s.items && code == 0
            && if Recent(s, s.items[y]) then t == s else InFront(t, y) && t.index == s.index && t.refs == s.refs
  {
    hide Inv, ConvertKey, Update, Take, Release, InFront;
    var k := ConvertKey(s.items[x].key, s.behind);
    var y := Probe(s, k).it;
    ProbedLinked(s, k);
    TakeInv(s, y);
    TakeSame(s, y);
    TouchInTime(Take(s, y), y);
    Undone(s, y);
    FrontAfter(Take(s, y), y);
  }

  lemma ProbedLinked(s: State, k: nat)
    requires Inv(s) && Probe(s, k).Alive?
    ensures Probe(s, k).it in s.items && s.items[Probe(s, k).it].linked
  {
    hide Placed, Counted, Deferred, Totalled, Ordered, ConvertKey;
  }

  lemma TakeSame(s: State, y: Item)
    requires y in s.items
    ensures var t := Take(s, y);
            && y in t.items && t.items[y] == s.items[y].(refcount := s.items[y].refcount + 1) && t.now == s.now
            && t.index == s.index && t.refs == s.refs + multiset{y}
  {
  }

  lemma Undone(s: State, y: Item)
    requires y in s.items && s.items[y].linked
    ensures Release(Take(s, y), y) == s
  {
    assert s.items[y := s.items[y]] == s.items;
    assert s.refs + multiset{y} - multiset{y} == s.refs;
  }

  lemma FrontAfter(s: State, y: Item)
    requires y in s.items && s.items[y].linked
    ensures var u := Update(s, y);
            var t := Release(u, y);
            (InFront(u, y) ==> InFront(t, y)) && t.index == s.index && t.refs == s.refs - multiset{y}
  {
    hide Without;
  }
}
