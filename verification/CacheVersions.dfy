/** Versions name one state of one entry: what a cas command relies on. */
module CacheVersions {
  import opened Wrappers
  import opened Sequences
  import opened CacheSpec
  import opened CacheCommands
  import opened CacheStore
  import opened CacheDelta
  import opened CacheRuns

  /** Versions of linked items were given out, each to one item. */
  ghost predicate Versioned(s: State) {
    && (forall x :: x in s.items && s.items[x].linked ==> s.items[x].casId <= s.lastCas)
    && (forall x, y ::
          x in s.items && y in s.items && s.items[x].linked && s.items[y].linked && x != y ==>
          s.items[x].casId != s.items[y].casId)
  }

  /** Items that s links under a version given out by o are linked under it in o; `still`: with the same data. */
  ghost predicate Unreplaced(o: State, s: State, still: bool) {
    && o.lastCas <= s.lastCas
    && (forall x :: x in s.items && s.items[x].linked && s.items[x].casId <= o.lastCas ==>
          && x in o.items && o.items[x].linked && o.items[x].casId == s.items[x].casId
          && o.items[x].key == s.items[x].key && o.items[x].flags == s.items[x].flags
          && (still ==> o.items[x].data == s.items[x].data))
  }

  ghost predicate Follows(o: State, s: State, still: bool) { Versioned(s) && Unreplaced(o, s, still) }

  lemma LinkFollows(o: State, s: State, still: bool, x: Item)
    requires Follows(o, s, still)
    ensures Follows(o, Link(s, x), still)
  {
    hide ConvertKey, Size;
  }

  lemma ThinnedFollows(o: State, s: State, still: bool, t: State)
    requires Follows(o, s, still) && Thinned(s, t)
    ensures Follows(o, t, still)
  {
    forall x | x in t.items && t.items[x].linked
      ensures x in s.items && s.items[x] == t.items[x]
    {
      assert t.items[x].(linked := s.items[x].linked) == s.items[x];
    }
  }

  lemma UnlinkFollows(o: State, s: State, still: bool, x: Item)
    requires Follows(o, s, still)
    ensures Follows(o, Unlink(s, x), still)
  {
    hide Follows, Thinned;
    UnlinkThinned(s, x);
    ThinnedFollows(o, s, still, Unlink(s, x));
  }

  /** What t links is linked in s, with the same key, flags, data and version. */
  ghost predicate Same(s: State, t: State) {
    && t.lastCas == s.lastCas
    && (forall x :: x in t.items && t.items[x].linked ==>
          && x in s.items && s.items[x].linked && s.items[x].casId == t.items[x].casId
          && s.items[x].key == t.items[x].key && s.items[x].flags == t.items[x].flags &&
              s.items[x].data == t.items[x].data)
  }

  lemma SameFollows(o: State, s: State, still: bool, t: State)
    requires Follows(o, s, still) && Same(s, t)
    ensures Follows(o, t, still)
  {
  }

  lemma TakeFollows(o: State, s: State, still: bool, x: Item)
    requires Follows(o, s, still)
    ensures Follows(o, Take(s, x), still)
  {
    hide Follows;
    SameFollows(o, s, still, Take(s, x));
  }

  lemma ReleaseFollows(o: State, s: State, still: bool, x: Item)
    requires Follows(o, s, still)
    ensures Follows(o, Release(s, x), still)
  {
    hide Follows;
    SameFollows(o, s, still, Release(s, x));
  }

  lemma UpdateFollows(o: State, s: State, still: bool, x: Item)
    requires Follows(o, s, still)
    ensures Follows(o, Update(s, x), still)
  {
    hide Follows, Without;
    SameFollows(o, s, still, Update(s, x));
  }

  lemma ClaimFollows(o: State, s: State, still: bool, x: Item)
    requires Follows(o, s, still)
    ensures Follows(o, Claim(s, x), still)
  {
    hide Follows, Without;
    SameFollows(o, s, still, Claim(s, x));
  }

  lemma LoseFollows(o: State, s: State, still: bool, x: Item)
    requires Follows(o, s, still)
    ensures Follows(o, Lose(s, x), still)
  {
    hide Follows;
    SameFollows(o, s, still, Lose(s, x));
  }

  lemma DeferFollows(o: State, s: State, still: bool, x: Item, t: nat)
    requires Follows(o, s, still)
    ensures Follows(o, Defer(s, x, t), still)
  {
    hide Follows;
    SameFollows(o, s, still, Defer(s, x, t));
  }

  lemma SettingsFollow(o: State, s: State, still: bool, t: State)
    requires Follows(o, s, still) && t.items == s.items && t.lastCas == s.lastCas
    ensures Follows(o, t, still)
  {
    hide Follows;
    SameFollows(o, s, still, t);
  }

  lemma NewFollows(o: State, s: State, still: bool, x: Item, r: Rec)
    requires Follows(o, s, still) && !r.linked
    ensures Follows(o, New(s, x, r), still)
  {
  }

  lemma FillFollows(o: State, s: State, still: bool, x: Item, data: string)
    requires Follows(o, s, still) && (x in s.items && s.items[x].linked ==> !still)
    ensures Follows(o, Fill(s, x, data), still)
  {
  }

  lemma StampFollows(o: State, s: State, still: bool, x: Item, id: nat)
    requires Follows(o, s, still) && x in s.items && !s.items[x].linked
    ensures Follows(o, Stamp(s, x, id), still)
  {
  }

  lemma GetFollows(o: State, s: State, still: bool, k: nat)
    requires Follows(o, s, still)
    ensures Follows(o, Get(s, k), still)
  {
    hide Follows, Unlink, Take;
    match Probe(s, k)
    case Missing =>
    case Locked(_) =>
    case Dead(x) => UnlinkFollows(o, s, still, x);
    case Alive(x) => TakeFollows(o, s, still, x);
  }

  lemma AllocFollows(o: State, s: State, still: bool, cfg: Config, q: Request, a: Memory)
    requires Follows(o, s, still) && Configured(cfg)
    ensures var (t, n) := Alloc(s, cfg, q, a);
            Follows(o, t, still) && (n.Some? ==> n.value in t.items && !t.items[n.value].linked)
  {
    hide Follows, Unlink, Victim, ClassOf, NTotal, Configured, Blank;
    var id := ClassOf(cfg, NTotal(q.key, q.flags, q.nbytes));
    if id < |s.lru| && Victim(s, s.lru[id], EVICT_TRIES).Some? {
      UnlinkFollows(o, s, still, Victim(s, s.lru[id], EVICT_TRIES).value);
    }
    assert Follows(o, Evict(s, id), still);
    if a.first.Some? { NewFollows(o, s, still, a.first.value, NewRec(q, id)); }
    if a.second.Some? { NewFollows(o, Evict(s, id), still, a.second.value, NewRec(q, id)); }
    hide Evict;
  }

  lemma SwapFollows(o: State, s: State, still: bool, prior: Item, x: Item)
    requires Follows(o, s, still)
    ensures Follows(o, Swap(s, prior, x), still)
  {
    hide Follows, Unlink, Link, Release;
    UnlinkFollows(o, s, still, prior);
    LinkFollows(o, Unlink(s, prior), still, x);
    ReleaseFollows(o, Link(Unlink(s, prior), x), still, prior);
  }

  lemma StoreFollows(o: State, s: State, still: bool, x: Item, comm: Command, cfg: Config, a: Memory)
    requires Follows(o, s, still) && Configured(cfg) && x in s.items
    ensures Follows(o, Store(s, x, comm, cfg, a).0, still)
  {
    hide Follows, Unlink, Link, Take, Release, Update, Swap, Alloc, Fill, ConvertKey, Join, JoinRequest, Lose, Claim;
    var k := ConvertKey(s.items[x].key, s.behind);
    var v := Probe(s, k);
    var s1 := Get(s, k);
    GetFollows(o, s, still, k);
    LinkFollows(o, s1, still, x);
    if !v.Missing? {
      var y := v.it;
      UpdateFollows(o, s1, still, y);
      ReleaseFollows(o, Update(s1, y), still, y);
      if Joins(comm) && v.Alive? {
        var q, data := JoinRequest(comm, s.items[x], s.items[y]), Join(comm, s.items[y].data, s.items[x].data);
        JoinFollows(o, s1, still, y, cfg, q, a, data);
        var (s2, n) := Alloc(s1, cfg, q, a);
        assert Store(s, x, comm, cfg, a).0 ==
               if n.None? then Lose(s2, y) else Release(Swap(Fill(s2, n.value, data), y, n.value), n.value);
      } else {
        TakeFollows(o, s1, still, y);
        ReleaseFollows(o, s1, still, y);
        SwapFollows(o, s1, still, y, x);
        SwapFollows(o, Take(s1, y), still, y, x);
        ReleaseFollows(o, Take(s1, y), still, y);
      }
    }
  }

  lemma JoinFollows(o: State, s: State, still: bool, y: Item, cfg: Config, q: Request, a: Memory, data: string)
    requires Follows(o, s, still) && Configured(cfg)
    ensures var (t, n) := Alloc(s, cfg, q, a);
            && Follows(o, Lose(t, y), still)
            && (n.Some? ==> Follows(o, Release(Swap(Fill(t, n.value, data), y, n.value), n.value), still))
  {
    hide Follows, Alloc, Fill, Swap, Release, Lose, Take, Update, Claim;
    AllocFollows(o, s, still, cfg, q, a);
    var (t, n) := Alloc(s, cfg, q, a);
    LoseFollows(o, t, still, y);
    if n.Some? {
      FillFollows(o, t, still, n.value, data);
      SwapFollows(o, Fill(t, n.value, data), still, y, n.value);
      ReleaseFollows(o, Swap(Fill(t, n.value, data), y, n.value), still, n.value);
    }
  }

  /** incr and decr may write over data in place. */
  lemma DeltaFollows(o: State, s: State, x: Item, text: string, cfg: Config, a: Memory)
    requires Follows(o, s, false) && Configured(cfg) && x in s.items
    ensures Follows(o, Delta(s, x, text, cfg, a).0, false)
  {
    hide Follows, Unlink, Link, Release, Alloc, Fill, Patched;
    var r := s.items[x];
    if Outgrows(r, text) {
      AllocFollows(o, s, false, cfg, DeltaRequest(r, text), a);
      var (t, n) := Alloc(s, cfg, DeltaRequest(r, text), a);
      if n.Some? {
        var u := Fill(t, n.value, text + "\r\n");
        FillFollows(o, t, false, n.value, text + "\r\n");
        UnlinkFollows(o, u, false, x);
        LinkFollows(o, Unlink(u, x), false, n.value);
        ReleaseFollows(o, Link(Unlink(u, x), n.value), false, n.value);
      }
    } else {
      FillFollows(o, s, false, x, Patched(r.data, text));
    }
  }

  lemma {:induction false} SweepFollows(o: State, s: State, still: bool, l: seq<Item>)
    requires Follows(o, s, still)
    ensures Follows(o, Sweep(s, l), still)
    decreases l
  {
    hide Follows, Claim, Unlink, Release, Take, Update, Lose, Over;
    if l != [] {
      ClaimFollows(o, s, still, l[0]);
      UnlinkFollows(o, Claim(s, l[0]), still, l[0]);
      ReleaseFollows(o, Unlink(Claim(s, l[0]), l[0]), still, l[0]);
      SweepFollows(o, if Over(s, l[0]) then SweepOne(s, l[0]) else s, still, l[1..]);
    }
  }

  lemma FlushFollows(o: State, s: State, still: bool)
    requires Inv(s) && Follows(o, s, still)
    ensures Follows(o, FlushAll(s), still)
  {
    hide Inv, FlushFrom, Thinned, Follows;
    var u := s.(oldestLive := (s.now - 1) % WRAP, epoch := s.epoch + 1);
    SettingsInv(s, (s.now - 1) % WRAP, s.epoch + 1);
    FlushExact(u, 0);
    SettingsFollow(o, s, still, u);
    ThinnedFollows(o, u, still, FlushAll(s));
  }

  lemma NextFollows(o: State, s: State, still: bool, e: Step)
    requires Inv(s) && Follows(o, s, still) && Enabled(s, e) && (e.SDelta? ==> !still)
    ensures Follows(o, Next(s, e), still)
  {
    hide Inv, Follows, FlushAll, Get, Alloc, Store, Delta, DeltaSound, Sweep, Unlink, Release, Update, Fill, Stamp,
         Defer, ReadsSame, Take, Claim, Lose;
    match e
    case SGet(k) => GetFollows(o, s, still, k);
    case SAlloc(cfg, q, a) => AllocFollows(o, s, still, cfg, q, a);
    case SFill(x, d) => FillFollows(o, s, still, x, d);
    case SStamp(x, id) => StampFollows(o, s, still, x, id);
    case SStore(x, comm, cfg, a) => StoreFollows(o, s, still, x, comm, cfg, a);
    case SDelta(x, text, cfg, a) => DeltaFollows(o, s, x, text, cfg, a);
    case SUnlink(x) => UnlinkFollows(o, s, still, x);
    case SRelease(x) => ReleaseFollows(o, s, still, x);
    case SUpdate(x) => UpdateFollows(o, s, still, x);
    case SDefer(x, t) => DeferFollows(o, s, still, x, t);
    case SSweep => SweepFollows(o, s, still, s.todelete);
    case STick(t) => SettingsFollow(o, s, still, Tick(s, t));
    case SBehind(b) => SettingsFollow(o, s, still, Behind(s, b));
    case SFlush => FlushFollows(o, s, still);
  }

  lemma {:induction false} RunFollows(o: State, s: State, still: bool, run: seq<Step>)
    requires Inv(s) && Follows(o, s, still) && Legal(s, run)
    requires still ==> forall i :: 0 <= i < |run| ==> !run[i].SDelta?
    ensures Inv(After(s, run)) && Follows(o, After(s, run), still)
    decreases run
  {
    hide Inv, Follows, Next, Enabled;
    if run != [] {
      NextInv(s, run[0]);
      NextFollows(o, s, still, run[0]);
      RunFollows(o, Next(s, run[0]), still, run[1..]);
    }
  }

  lemma InitialVersioned(now: nat, behind: string)
    ensures Versioned(Initial(now, behind))
  {
  }

  /**
   An entry that has, after any run, a version that an entry had before it, is that entry: the same item,
   never replaced, under the same key and flags, and with the same data unless incr or decr wrote over it.
   So a cas that succeeds replaces what its client has seen.
   */
  lemma VersionNamesEntry(s: State, run: seq<Step>, k: nat, j: nat, still: bool)
    requires Inv(s) && Versioned(s) && Legal(s, run) && k in Contents(s) && j in Contents(After(s, run))
    requires Contents(After(s, run))[j].cas == Contents(s)[k].cas
    requires still ==> forall i :: 0 <= i < |run| ==> !run[i].SDelta?
    ensures var t := After(s, run);
            && t.index[j] == s.index[k] && t.items[t.index[j]].key == s.items[s.index[k]].key
            && Contents(t)[j].flags == Contents(s)[k].flags
            && (still ==> Contents(t)[j].data == Contents(s)[k].data)
  {
    hide After, Legal, Inv, Follows, Contents, Versioned;
    SelfFollows(s, still);
    RunFollows(s, s, still, run);
    EntryIs(s, After(s, run), k, j, still);
  }

  lemma SelfFollows(s: State, still: bool)
    requires Versioned(s)
    ensures Follows(s, s, still)
  {
    hide Versioned;
  }

  lemma EntryIs(s: State, t: State, k: nat, j: nat, still: bool)
    requires Inv(s) && Inv(t) && Versioned(s) && Follows(s, t, still)
    requires k in Contents(s) && j in Contents(t) && Contents(t)[j].cas == Contents(s)[k].cas
    ensures t.index[j] == s.index[k] && t.items[t.index[j]].key == s.items[s.index[k]].key
    ensures Contents(t)[j].flags == Contents(s)[k].flags && (still ==> Contents(t)[j].data == Contents(s)[k].data)
  {
    hide Placed, Counted, Deferred, Totalled, Ordered, ConvertKey;
  }

  /** A store that succeeds gives its entry a version that no entry had before. */
  lemma StoreIsNew(s: State, x: Item, comm: Command, cfg: Config, a: Memory)
    requires Inv(s) && Versioned(s) && Configured(cfg) && FreshMemory(s, a) && Storable(s, x)
    requires Store(s, x, comm, cfg, a).1 == 1
    ensures var k, t := ConvertKey(s.items[x].key, s.behind), Store(s, x, comm, cfg, a).0;
            k in Contents(t) && forall j :: j in Contents(s) ==> Contents(s)[j].cas < Contents(t)[k].cas
  {
    hide Inv, Contents, ConvertKey, Store, Probe, Alloc, Gone, Versioned, FreshMemory, JoinAlloc, Leaks, Joined, Join;
    StoreExact(s, x, comm, cfg, a);
    OldVersions(s);
  }

  lemma OldVersions(s: State)
    requires Inv(s) && Versioned(s)
    ensures forall j :: j in Contents(s) ==> Contents(s)[j].cas <= s.lastCas
  {
    hide Placed, Counted, Deferred, Totalled, Ordered, ConvertKey;
  }
}
