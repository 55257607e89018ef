/**
 Runs from the empty cache into each of the states that the exact conditions shut out: the item
 deferred twice, the flushed item brought back by a late touch, the item kept by a lost reference,
 and the number that outgrows an item no longer linked.
 */
module CacheWitness {
  import opened Wrappers
  import opened Sequences
  import opened CacheSpec
  import opened CacheCommands
  import opened CacheStore
  import opened CacheDelta
  import opened CacheRuns
  import opened CacheKeys

  const KEY := "1234567890123456"

  const START := 100

  function Id(): nat { ConvertKey(KEY, []) }

  /** One size fits all; nothing is evicted. */
  function Roomy(): (cfg: Config)
    ensures Configured(cfg)
  {
    Config(seq(POWER_LARGEST + 1, i => MAX_BYTES), false)
  }

  function Ask(): Request { Request(KEY, 0, 0, 2) }

  function Granted(x: Item): Memory { Memory(Some(x), None) }

  function Refused(): Memory { Memory(None, None) }

  lemma {:induction false} OneMore(s: State, run: seq<Step>, e: Step)
    requires Legal(s, run) && Enabled(After(s, run), e)
    ensures Legal(s, run + [e]) && After(s, run + [e]) == Next(After(s, run), e)
    decreases run
  {
    hide Next, Enabled;
    if run == [] {
      assert run + [e] == [e] && [e][1..] == [];
    } else {
      assert (run + [e])[1..] == run[1..] + [e];
      OneMore(Next(s, run[0]), run[1..], e);
    }
  }

  /** The run leads from the empty cache to s. */
  ghost predicate Leads(run: seq<Step>, s: State) {
    Legal(Initial(START, []), run) && After(Initial(START, []), run) == s && Inv(s)
  }

  lemma GoesOn(run: seq<Step>, s: State, e: Step)
    requires Leads(run, s) && Enabled(s, e)
    ensures Leads(run + [e], Next(s, e))
  {
    hide Next, Enabled, Inv;
    OneMore(Initial(START, []), run, e);
    NextInv(s, e);
  }

  lemma LeadsInv(run: seq<Step>, s: State)
    requires Leads(run, s)
    ensures Inv(s)
  {
  }

  // ----- one item on the shelf

  /** x is the only item, linked under the key since the start, with r references; no flush, no delete. */
  ghost predicate Shelved(s: State, x: Item, r: nat) {
    && s.items.Keys == {x} && s.items[x].refcount == r && s.items[x].key == KEY && s.items[x].flags == 0 &&
        |s.items[x].data| == 2
    && s.items[x].linked && !s.items[x].deleted && s.items[x].exptime == 0 && s.items[x].time == START &&
        s.items[x].casId == 1
    && Id() in s.index && s.index[Id()] == x && s.now == START && s.oldestLive == 0 && s.epoch == 0
    && x in s.born && s.born[x] == 0 && s.refs == multiset{}[x := r] && s.lost == multiset{} && s.todelete == [] &&
        s.behind == []
  }

  lemma Fits(s: State, q: Request, x: Item)
    requires q.key == KEY && q.flags == 0 && q.nbytes <= 12
    ensures Alloc(s, Roomy(), q, Granted(x)) == (New(s, x, NewRec(q, 1)), Some(x))
    ensures Alloc(s, Roomy(), q, Refused()) == (s, None)
  {
    hide New, Evict;
    assert DecimalLength(0) == 1;
    assert DecimalLength(q.nbytes - 2) <= 2;
    assert ClassOf(Roomy(), NTotal(q.key, q.flags, q.nbytes)) == 1;
  }

  /** alloc, set, and the storing connection lets go. */
  lemma Shelve(x: Item) returns (run: seq<Step>, s: State)
    ensures Leads(run, s) && Shelved(s, x, 0)
  {
    hide Inv, ConvertKey, Alloc, Size;
    var s0 := Initial(START, []);
    InitialInv(START, []);
    assert Leads([], s0);
    var e1 := SAlloc(Roomy(), Ask(), Granted(x));
    GoesOn([], s0, e1);
    Fits(s0, Ask(), x);
    var s1 := Next(s0, e1);
    var e2 := SStore(x, Set, Roomy(), Refused());
    GoesOn([] + [e1], s1, e2);
    var s2 := Next(s1, e2);
    assert Probe(s1, Id()) == Missing && s2 == Link(s1, x);
    var e3 := SRelease(x);
    GoesOn([] + [e1] + [e2], s2, e3);
    s := Next(s2, e3);
    run := [] + [e1] + [e2] + [e3];
  }

  /** A client looks it up. */
  lemma LookUp(run: seq<Step>, s: State, x: Item, r: nat) returns (t: State)
    requires Leads(run, s) && Shelved(s, x, r)
    ensures Leads(run + [SGet(Id())], t) && Shelved(t, x, r + 1)
  {
    hide Inv, ConvertKey;
    GoesOn(run, s, SGet(Id()));
    t := Next(s, SGet(Id()));
    assert Probe(s, Id()) == Alive(x);
  }

  // ----- the second deferral

  /** Two clients get an item and both ask for a deferred delete: the second may do so in this state. */
  lemma SecondDeferral(x: Item) returns (run: seq<Step>, s: State)
    ensures Leads(run, s) && s.refs[x] > 0 && x in s.items && s.items[x].deleted
  {
    hide Inv, ConvertKey, Leads;
    var shelf;
    run, shelf := Shelve(x);
    var one := LookUp(run, shelf, x, 0);
    run := run + [SGet(Id())];
    var two := LookUp(run, one, x, 1);
    run := run + [SGet(Id())];
    GoesOn(run, two, SDefer(x, 200));
    s := Next(two, SDefer(x, 200));
    run := run + [SDefer(x, 200)];
  }

  // ----- the matching cas

  /** A client deletes an item with a delay and then takes the key back with a cas that names its version. */
  lemma MatchingCas(x: Item, y: Item) returns (run: seq<Step>, s: State)
    requires x != y
    ensures Leads(run, s) && Probe(s, Id()) == Locked(x) && Enabled(s, SStore(y, Cas, Roomy(), Refused()))
    ensures s.items[y].key == KEY && Store(s, y, Cas, Roomy(), Refused()).1 == 1
  {
    hide Inv, ConvertKey, Alloc, Leads, Swap;
    var shelf;
    run, shelf := Shelve(x);
    var one := LookUp(run, shelf, x, 0);
    run := run + [SGet(Id())];
    GoesOn(run, one, SDefer(x, 200));
    var s1 := Next(one, SDefer(x, 200));
    run := run + [SDefer(x, 200)];
    var e2 := SAlloc(Roomy(), Ask(), Granted(y));
    GoesOn(run, s1, e2);
    Fits(s1, Ask(), y);
    var s2 := Next(s1, e2);
    run := run + [e2];
    GoesOn(run, s2, SStamp(y, 1));
    s := Next(s2, SStamp(y, 1));
    run := run + [SStamp(y, 1)];
  }

  // ----- the late touch

  /** A client gets an item, flush_all comes in between, and its touch brings the item back to life. */
  lemma LateTouch(x: Item) returns (run: seq<Step>, s: State)
    ensures Leads(run, s) && Probe(s, Id()) == Alive(x) && x in s.born && s.born[x] < s.epoch
  {
    hide Inv, ConvertKey, FlushAll, Update, Leads;
    var shelf;
    run, shelf := Shelve(x);
    var one := LookUp(run, shelf, x, 0);
    run := run + [SGet(Id())];
    GoesOn(run, one, STick(200));
    var late := Next(one, STick(200));
    run := run + [STick(200)];
    LeadsInv(run, late);
    GoesOn(run, late, SFlush);
    var flushed := Next(late, SFlush);
    run := run + [SFlush];
    LeadsInv(run, flushed);
    FlushSpares(late, x);
    GoesOn(run, flushed, SUpdate(x));
    s := Next(flushed, SUpdate(x));
    run := run + [SUpdate(x)];
    TouchRevives(flushed, x);
  }

  /** An item older than the flush stays where it is. */
  lemma FlushSpares(s: State, x: Item)
    requires Inv(s) && s.now == 200 && Id() in s.index && s.index[Id()] == x && x in s.items && s.items[x].time == START
    requires s.items[x].linked && !s.items[x].deleted && s.items[x].exptime == 0 && x in s.born && s.born[x] == 0 &&
             s.epoch == 0
    ensures var t := FlushAll(s);
            && Id() in t.index && t.index[Id()] == x && x in t.items && t.items[x] == s.items[x]
            && t.born == s.born && t.epoch == 1 && t.oldestLive == 199 && t.now == 200 && t.refs == s.refs
  {
    hide Inv, ConvertKey, FlushFrom;
    var s1 := s.(oldestLive := 199, epoch := 1);
    SettingsInv(s, 199, 1);
    FlushExact(s1, 0);
    var t := FlushFrom(s1, 0);
    assert Id() in Survivors(s1, 0, LARGEST_ID);
    InvIndexed(t);
  }

  lemma TouchRevives(s: State, x: Item)
    requires Inv(s) && Id() in s.index && s.index[Id()] == x && x in s.items && s.items[x].linked && !s.items[x].deleted
    requires s.items[x].exptime == 0 && s.items[x].time == START && s.now == 200 && s.oldestLive == 199
    requires x in s.born && s.born[x] < s.epoch
    ensures var t := Update(s, x); Probe(t, Id()) == Alive(x) && x in t.born && t.born[x] < t.epoch
  {
    hide ConvertKey, Without, Placed, Indexed, Counted, Deferred, Totalled, Ordered;
    assert Sound(s.items[x]);
  }

  // ----- the lost reference

  /** An append runs out of memory; when the item is unlinked and let go, it stays, and nobody knows it. */
  lemma Stranding(x: Item, y: Item) returns (run: seq<Step>, s: State)
    requires x != y
    ensures Leads(run, s) && Forgotten(s, x) && x in s.items && s.lost[x] == 1
  {
    hide Inv, ConvertKey, Alloc, Unlink, Size, Leads;
    var shelf;
    run, shelf := Shelve(x);
    var e1 := SAlloc(Roomy(), Ask(), Granted(y));
    GoesOn(run, shelf, e1);
    Fits(shelf, Ask(), y);
    var s1 := Next(shelf, e1);
    run := run + [e1];
    var e2 := SStore(y, Append, Roomy(), Refused());
    GoesOn(run, s1, e2);
    assert Probe(s1, Id()) == Alive(x);
    Fits(Take(s1, x), JoinRequest(Append, s1.items[y], s1.items[x]), y);
    var s2 := Next(s1, e2);
    assert s2 == Lose(Take(s1, x), x);
    run := run + [e2];
    GoesOn(run, s2, SGet(Id()));
    assert Probe(s2, Id()) == Alive(x);
    var s3 := Next(s2, SGet(Id()));
    run := run + [SGet(Id())];
    GoesOn(run, s3, SUnlink(x));
    var s4 := Next(s3, SUnlink(x));
    LeadsInv(run, s3);
    run := run + [SUnlink(x)];
    UnlinkKeeps(s3, x);
    GoesOn(run, s4, SRelease(x));
    s := Next(s4, SRelease(x));
    run := run + [SRelease(x)];
    LeadsInv(run, s);
    Gone(s, x);
  }

  lemma UnlinkKeeps(s: State, x: Item)
    requires Inv(s) && x in s.items && s.items[x].refcount > 1 && s.items[x].linked
    ensures var t := Unlink(s, x);
            && x in t.items && t.items[x] == s.items[x].(linked := false)
            && t.refs == s.refs && t.lost == s.lost && t.todelete == s.todelete
  {
    hide ConvertKey, Size, Without, Placed, Indexed, Counted, Deferred, Totalled, Ordered;
    assert Sound(s.items[x]);
  }

  lemma Gone(s: State, x: Item)
    requires Inv(s) && x in s.items && !s.items[x].linked
    ensures !InIndex(s, x)
  {
    hide ConvertKey, Placed, Counted, Deferred, Totalled, Ordered;
  }

  // ----- the key that runs on

  /** A digit comes to lie behind the key buffer, and a stored key is no longer found. */
  lemma KeyRunsOn(x: Item) returns (run: seq<Step>, s: State)
    ensures Leads(run, s) && x in s.items && s.items[x].linked && s.items[x].key == KEY && Probe(s, Id()) == Alive(x)
    ensures Probe(Behind(s, "7"), ConvertKey(KEY, "7")) == Missing && !ReadsSame(s, "7")
  {
    run, s := Shelve(x);
    LeadsInv(run, s);
    InvIndexed(s);
    hide Inv, ConvertKey, Leads;
    OtherNumber();
  }

  lemma OtherNumber()
    ensures ConvertKey(KEY, "7") != ConvertKey(KEY, [])
  {
    assert Numeric(KEY);
    AtolRunsOn(KEY);
    SameNumber(KEY, "7", KEY, []);
    assert KEY + [] == KEY;
  }

  // ----- the number that outgrows an item no longer linked

  /** A client gets an item, a set replaces it, and its incr would put a second item under the key. */
  lemma LateDelta(x: Item, y: Item, o: Item) returns (run: seq<Step>, s: State)
    requires x != y && x != o && y != o
    ensures Leads(run, s) && s.refs[x] > 0 && x in s.items && FreshMemory(s, Granted(o))
    ensures !DeltaSound(s, x, "10", Roomy(), Granted(o))
  {
    hide Inv, ConvertKey, Alloc, Swap, Size, Leads;
    var shelf;
    run, shelf := Shelve(x);
    var one := LookUp(run, shelf, x, 0);
    run := run + [SGet(Id())];
    var e1 := SAlloc(Roomy(), Ask(), Granted(y));
    GoesOn(run, one, e1);
    Fits(one, Ask(), y);
    var s1 := Next(one, e1);
    run := run + [e1];
    var e2 := SStore(y, Set, Roomy(), Refused());
    GoesOn(run, s1, e2);
    assert Probe(s1, Id()) == Alive(x);
    s := Next(s1, e2);
    LeadsInv(run, s1);
    TakeInv(s1, x);
    run := run + [e2];
    assert s == Swap(Take(s1, x), x, y);
    SwappedOut(Take(s1, x), x, y, o);
    Fits(s, DeltaRequest(s.items[x], "10"), o);
  }

  lemma SwappedOut(s: State, x: Item, y: Item, o: Item)
    requires Inv(s) && Swappable(s, x, y) && s.items[x].refcount == 2 && x != y && o !in s.items &&
             ConvertKey(s.items[y].key, s.behind) == Id()
    ensures var t := Swap(s, x, y);
            && x in t.items && !t.items[x].linked && t.items[x].key == s.items[x].key &&
                t.items[x].flags == s.items[x].flags
            && |t.items[x].data| == |s.items[x].data| && Id() in t.index && t.refs == s.refs - multiset{x} &&
                o !in t.items && t.behind == s.behind
  {
    hide ConvertKey, Size, Without, Placed, Indexed, Counted, Deferred, Totalled, Ordered, Linkable;
    UnlinkForSwap(s, x, y);
    assert Sound(s.items[x]) && Sound(s.items[y]);
  }
}
