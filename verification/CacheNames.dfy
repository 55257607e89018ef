/**
 The cache seen by key strings.  As long as clients use only unambiguous keys and the byte behind the
 key buffer is no digit, a hit is always on the very key asked for, and a store is one step of a plain
 map from strings to entries.
 */
module CacheNames {
  import opened Wrappers
  import opened Sequences
  import opened CacheSpec
  import opened CacheCommands
  import opened CacheStore
  import opened CacheDelta
  import opened CacheRuns
  import opened CacheKeys

  /** All keys are unambiguous, and the byte behind the key buffer is no digit. */
  ghost predicate Named(s: State) {
    NoDigit(s.behind) && forall x :: x in s.items ==> Unambiguous(s.items[x].key)
  }

  /** The number an unambiguous key spells by itself. */
  function Num(key: string): nat { ConvertKey(key, []) }

  // ----- no step makes up a key

  lemma StepsNamed(s: State, x: Item)
    requires Named(s)
    ensures Named(Link(s, x)) && Named(Unlink(s, x)) && Named(Take(s, x)) && Named(Release(s, x)) && Named(Update(s, x))
    ensures Named(Claim(s, x)) && Named(Lose(s, x))
  {
    hide Named, Link, Unlink, Take, Release, Update, Claim, Lose;
    LinksNamed(s, x);
    CountsNamed(s, x);
  }

  lemma LinksNamed(s: State, x: Item)
    requires Named(s)
    ensures Named(Link(s, x)) && Named(Unlink(s, x)) && Named(Update(s, x))
  {
    hide ConvertKey, Size, Without, Unambiguous, NoDigit;
  }

  lemma CountsNamed(s: State, x: Item)
    requires Named(s)
    ensures Named(Take(s, x)) && Named(Release(s, x)) && Named(Claim(s, x)) && Named(Lose(s, x))
  {
    hide Without, Unambiguous, NoDigit;
  }

  lemma KnownName(s: State, x: Item)
    requires Named(s) && x in s.items
    ensures Unambiguous(s.items[x].key)
  {
  }

  lemma FillNamed(s: State, x: Item, data: string)
    requires Named(s)
    ensures Named(Fill(s, x, data))
  {
    hide Unambiguous;
  }

  lemma AllocNamed(s: State, cfg: Config, q: Request, a: Memory)
    requires Named(s) && Configured(cfg) && Unambiguous(q.key)
    ensures Named(Alloc(s, cfg, q, a).0)
  {
    hide Unlink, Victim, ClassOf, NTotal, Blank, Unambiguous;
    var id := ClassOf(cfg, NTotal(q.key, q.flags, q.nbytes));
    if id < |s.lru| && Victim(s, s.lru[id], EVICT_TRIES).Some? {
      StepsNamed(s, Victim(s, s.lru[id], EVICT_TRIES).value);
    }
    assert Named(Evict(s, id));
    if a.first.Some? { NewNamed(s, a.first.value, NewRec(q, id)); }
    if a.second.Some? { NewNamed(Evict(s, id), a.second.value, NewRec(q, id)); }
  }

  lemma NewNamed(s: State, x: Item, r: Rec)
    requires Named(s) && Unambiguous(r.key)
    ensures Named(New(s, x, r))
  {
    hide Unambiguous;
  }

  lemma SwapNamed(s: State, prior: Item, x: Item)
    requires Named(s)
    ensures Named(Swap(s, prior, x))
  {
    hide Named, Unlink, Link, Release;
    StepsNamed(s, prior);
    StepsNamed(Unlink(s, prior), x);
    StepsNamed(Link(Unlink(s, prior), x), prior);
  }

  lemma StoreNamed(s: State, x: Item, comm: Command, cfg: Config, a: Memory)
    requires Named(s) && Configured(cfg) && x in s.items
    ensures Named(Store(s, x, comm, cfg, a).0)
  {
    hide Named, Unambiguous, Unlink, Link, Take, Release, Update, Claim, Swap, Lose, Alloc, Fill, ConvertKey, Join,
         Configured;
    KnownName(s, x);
    var k := ConvertKey(s.items[x].key, s.behind);
    var v := Probe(s, k);
    var s1 := Get(s, k);
    if v.Missing? {
      StepsNamed(s1, x);
    } else {
      var y := v.it;
      StepsNamed(s, y);
      StepsNamed(s1, x);
      if Joins(comm) && v.Alive? {
        var q, data := JoinRequest(comm, s.items[x], s.items[y]), Join(comm, s.items[y].data, s.items[x].data);
        JoinNamed(s1, y, cfg, q, a, data);
        var (s2, o) := Alloc(s1, cfg, q, a);
        assert Store(s, x, comm, cfg, a).0 ==
               if o.None? then Lose(s2, y) else Release(Swap(Fill(s2, o.value, data), y, o.value), o.value);
      } else {
        PlainNamed(s1, y, x);
      }
    }
  }

  lemma PlainNamed(s: State, y: Item, x: Item)
    requires Named(s)
    ensures Named(Release(Update(s, y), y)) && Named(Swap(s, y, x)) && Named(Swap(Take(s, y), y, x))
    ensures Named(Release(s, y)) && Named(Release(Take(s, y), y))
  {
    hide Named, Take, Release, Update, Swap, Link, Unlink, Claim, Lose;
    StepsNamed(s, y);
    StepsNamed(Update(s, y), y);
    StepsNamed(Take(s, y), y);
    SwapNamed(s, y, x);
    SwapNamed(Take(s, y), y, x);
  }

  lemma JoinNamed(s: State, y: Item, cfg: Config, q: Request, a: Memory, data: string)
    requires Named(s) && Configured(cfg) && Unambiguous(q.key)
    ensures var (t, o) := Alloc(s, cfg, q, a);
            Named(Lose(t, y)) && (o.Some? ==> Named(Release(Swap(Fill(t, o.value, data), y, o.value), o.value)))
  {
    hide Named, Unambiguous, Alloc, Release, Swap, Link, Unlink, Take, Update, Claim, Lose, Fill;
    AllocNamed(s, cfg, q, a);
    var (t, o) := Alloc(s, cfg, q, a);
    StepsNamed(t, y);
    if o.Some? {
      FillNamed(t, o.value, data);
      SwapNamed(Fill(t, o.value, data), y, o.value);
      StepsNamed(Swap(Fill(t, o.value, data), y, o.value), o.value);
    }
  }

  lemma DeltaNamed(s: State, x: Item, text: string, cfg: Config, a: Memory)
    requires Named(s) && Configured(cfg) && x in s.items
    ensures Named(Delta(s, x, text, cfg, a).0)
  {
    hide Named, Unambiguous, Unlink, Link, Take, Release, Update, Claim, Lose, Alloc, Fill, Patched;
    KnownName(s, x);
    var r := s.items[x];
    if Outgrows(r, text) {
      AllocNamed(s, cfg, DeltaRequest(r, text), a);
      var (t, o) := Alloc(s, cfg, DeltaRequest(r, text), a);
      if o.Some? {
        FillNamed(t, o.value, text + "\r\n");
        var u := Fill(t, o.value, text + "\r\n");
        StepsNamed(u, x);
        StepsNamed(Unlink(u, x), o.value);
        StepsNamed(Link(Unlink(u, x), o.value), o.value);
      }
    } else {
      FillNamed(s, x, Patched(r.data, text));
    }
  }

  lemma {:induction false} SweepNamed(s: State, l: seq<Item>)
    requires Named(s)
    ensures Named(Sweep(s, l))
    decreases l
  {
    hide Named, Claim, Unlink, Release, Take, Update, Link, Lose, Over;
    if l != [] {
      StepsNamed(s, l[0]);
      StepsNamed(Claim(s, l[0]), l[0]);
      StepsNamed(Unlink(Claim(s, l[0]), l[0]), l[0]);
      SweepNamed(if Over(s, l[0]) then SweepOne(s, l[0]) else s, l[1..]);
    }
  }

  lemma FlushNamed(s: State)
    requires Inv(s) && Named(s)
    ensures Named(FlushAll(s))
  {
    hide Inv, FlushFrom, Unambiguous;
    SettingsInv(s, (s.now - 1) % WRAP, s.epoch + 1);
    FlushExact(s.(oldestLive := (s.now - 1) % WRAP, epoch := s.epoch + 1), 0);
    ThinnedKeys(s.(oldestLive := (s.now - 1) % WRAP, epoch := s.epoch + 1), FlushAll(s));
  }

  lemma ThinnedKeys(s: State, t: State)
    requires Named(s) && Thinned(s, t)
    ensures Named(t)
  {
    hide Unambiguous;
    forall x | x in t.items
      ensures Unambiguous(t.items[x].key)
    {
      assert t.items[x].(linked := s.items[x].linked) == s.items[x];
    }
  }

  /** Requests name only unambiguous keys, and no digit comes to lie behind the key buffer. */
  predicate Asks(e: Step) { (e.SAlloc? ==> Unambiguous(e.q.key)) && (e.SBehind? ==> NoDigit(e.b)) }

  /** Such a change of the bytes behind the buffer is always allowed. */
  lemma BehindAllowed(s: State, b: string)
    requires Named(s) && NoDigit(b)
    ensures ReadsSame(s, b)
  {
    hide ConvertKey, Unambiguous, NoDigit;
    forall x | x in s.items && s.items[x].linked
      ensures ConvertKey(s.items[x].key, b) == ConvertKey(s.items[x].key, s.behind)
    {
      UnambiguousTail(s.items[x].key, b);
      UnambiguousTail(s.items[x].key, s.behind);
    }
  }

  lemma NextNamed(s: State, e: Step)
    requires Inv(s) && Named(s) && Enabled(s, e) && Asks(e)
    ensures Named(Next(s, e))
  {
    hide Inv, FlushAll, Alloc, Store, Delta, DeltaSound, Sweep, Unlink, Take, Link, Claim, Lose, Release, Update,
         Unambiguous, ConvertKey, NoDigit, ReadsSame;
    match e
    case SGet(k) => if !Probe(s, k).Missing? { StepsNamed(s, Probe(s, k).it); }
    case SAlloc(cfg, q, a) => AllocNamed(s, cfg, q, a);
    case SFill(x, d) =>
    case SStamp(x, id) =>
    case SStore(x, comm, cfg, a) => StoreNamed(s, x, comm, cfg, a);
    case SDelta(x, text, cfg, a) => DeltaNamed(s, x, text, cfg, a);
    case SUnlink(x) => StepsNamed(s, x);
    case SRelease(x) => StepsNamed(s, x);
    case SUpdate(x) => StepsNamed(s, x);
    case SDefer(x, t) =>
    case SSweep => SweepNamed(s, s.todelete);
    case STick(t) =>
    case SBehind(b) =>
    case SFlush => FlushNamed(s);
  }

  // ----- a hit is on the very key

  lemma HitIsExact(s: State, key: string)
    requires Inv(s) && Named(s) && Unambiguous(key) && !Probe(s, ConvertKey(key, s.behind)).Missing?
    ensures var x := Probe(s, ConvertKey(key, s.behind)).it; x in s.items && s.items[x].key == key
  {
    hide Inv, ConvertKey, Unambiguous, NoDigit;
    InvIndexed(s);
    var x := Probe(s, ConvertKey(key, s.behind)).it;
    UnambiguousTail(key, s.behind);
    UnambiguousTail(s.items[x].key, s.behind);
    SameKey(s.items[x].key, key);
  }

  /**
   In every run whose requests name only unambiguous keys, with no digit behind the key buffer, whatever
   a lookup finds has the key looked up.
   */
  lemma {:induction false} NamedRun(s: State, run: seq<Step>, key: string)
    requires Inv(s) && Named(s) && Legal(s, run) && (forall i :: 0 <= i < |run| ==> Asks(run[i])) && Unambiguous(key)
    ensures var t := After(s, run);
            && Named(t)
            && (!Probe(t, ConvertKey(key, t.behind)).Missing? ==>
                  var x := Probe(t, ConvertKey(key, t.behind)).it; x in t.items && t.items[x].key == key)
    decreases run
  {
    hide Inv, Named, Next, Enabled, Asks, Unambiguous, Probe, ConvertKey;
    if run == [] {
      if !Probe(s, ConvertKey(key, s.behind)).Missing? { HitIsExact(s, key); }
    } else {
      assert Asks(run[0]);
      NextInv(s, run[0]);
      NextNamed(s, run[0]);
      NamedRun(Next(s, run[0]), run[1..], key);
    }
  }

  // ----- a store on a map from strings

  ghost function Names(s: State): set<string> { set x | x in s.items && s.items[x].linked :: s.items[x].key }

  /** What a client sees, by key. */
  ghost function ByName(s: State): map<string, Entry>
    requires Indexed(s)
  {
    map key | key in Names(s) :: EntryOf(s.items[s.index[ConvertKey(key, s.behind)]])
  }

  /** m files the entries of M under the numbers that their keys spell. */
  ghost predicate Spells(M: map<string, Entry>, m: map<nat, Entry>) {
    && (forall key :: key in M ==> Unambiguous(key) && Num(key) in m && M[key] == m[Num(key)])
    && (forall j :: j in m ==> exists key :: key in M && Num(key) == j)
  }

  lemma ByNameSpells(s: State)
    requires Indexed(s) && Named(s)
    ensures Spells(ByName(s), Contents(s))
  {
    hide ConvertKey, Unambiguous, Names, Indexed, Contents;
    forall key | key in ByName(s)
      ensures Unambiguous(key) && Num(key) in Contents(s) && ByName(s)[key] == Contents(s)[Num(key)]
    {
      NameListed(s, key);
    }
    forall j | j in Contents(s)
      ensures exists key :: key in ByName(s) && Num(key) == j
    {
      var key := ListedName(s, j);
      assert key in ByName(s);
    }
  }

  lemma NameListed(s: State, key: string)
    requires Indexed(s) && Named(s) && key in Names(s)
    ensures Unambiguous(key) && Num(key) == ConvertKey(key, s.behind)
    ensures Num(key) in s.index && s.index[Num(key)] in s.items
    ensures Num(key) in Contents(s) && Contents(s)[Num(key)] == EntryOf(s.items[s.index[Num(key)]])
  {
    hide ConvertKey, Unambiguous, NoDigit;
    assert Unambiguous(key);
    UnambiguousTail(key, s.behind);
  }

  lemma ListedName(s: State, j: nat) returns (key: string)
    requires Indexed(s) && Named(s) && j in Contents(s)
    ensures key in Names(s) && Num(key) == j
  {
    hide ConvertKey, Unambiguous, NoDigit;
    key := s.items[s.index[j]].key;
    UnambiguousTail(key, s.behind);
  }

  /** Unambiguous keys with one number are one key. */
  lemma SameKey(a: string, b: string)
    requires Unambiguous(a) && Unambiguous(b) && Num(a) == Num(b)
    ensures a == b
  {
    KeyExact(a, []);
    hide ConvertKey;
  }

  lemma SpellsHas(M: map<string, Entry>, m: map<nat, Entry>, key: string)
    requires Spells(M, m) && Unambiguous(key)
    ensures key in M <==> Num(key) in m
    ensures key in M ==> M[key] == m[Num(key)]
  {
    hide ConvertKey, Unambiguous;
    if Num(key) in m {
      var a :| a in M && Num(a) == Num(key);
      SameKey(a, key);
    }
  }

  lemma SpellsUnique(M: map<string, Entry>, L: map<string, Entry>, m: map<nat, Entry>)
    requires Spells(M, m) && Spells(L, m)
    ensures M == L
  {
    hide ConvertKey, Unambiguous;
    forall key | key in M ensures key in L && L[key] == M[key] { SpellsHas(L, m, key); }
    forall key | key in L ensures key in M { SpellsHas(M, m, key); }
  }

  lemma SpellsPut(M: map<string, Entry>, m: map<nat, Entry>, key: string, e: Entry)
    requires Spells(M, m) && Unambiguous(key)
    ensures Spells(M[key := e], m[Num(key) := e])
  {
    hide ConvertKey, Unambiguous;
    var L, l := M[key := e], m[Num(key) := e];
    forall a | a in L
      ensures Unambiguous(a) && Num(a) in l && L[a] == l[Num(a)]
    {
      if a != key && Num(a) == Num(key) { SameKey(a, key); }
    }
    forall j | j in l
      ensures exists a :: a in L && Num(a) == j
    {
      if j == Num(key) {
        assert key in L;
      } else {
        var a :| a in M && Num(a) == j;
        assert a in L;
      }
    }
  }

  /** The keys whose numbers are in gone. */
  ghost function NamesOf(M: map<string, Entry>, gone: set<nat>): set<string> {
    set key | key in M && Num(key) in gone
  }

  lemma SpellsDrop(M: map<string, Entry>, m: map<nat, Entry>, gone: set<nat>)
    requires Spells(M, m)
    ensures Spells(M - NamesOf(M, gone), m - gone)
  {
    hide ConvertKey, Unambiguous;
    forall j | j in m - gone
      ensures exists a :: a in M - NamesOf(M, gone) && Num(a) == j
    {
      var a :| a in M && Num(a) == j;
      assert a in M - NamesOf(M, gone);
    }
  }

  lemma MapStoreSpells(M: map<string, Entry>, m: map<nat, Entry>, key: string, e: Entry, comm: Command, p: Presence,
      room: bool, cas: nat)
    requires Spells(M, m) && Unambiguous(key) && (Num(key) in m <==> p != Absent)
    ensures key in M <==> p != Absent
    ensures var (L, c) := MapStore(M, key, e, comm, p, room, cas);
            var (l, d) := MapStore(m, Num(key), e, comm, p, room, cas);
            Spells(L, l) && c == d
  {
    hide ConvertKey, Unambiguous, Spells, Join;
    SpellsHas(M, m, key);
    SpellsPut(M, m, key, e.(cas := cas));
    if key in M {
      SpellsPut(M, m, key, Entry(M[key].flags, Join(comm, M[key].data, e.data), M[key].exptime, cas));
    }
  }

  /** do_store_item on the map from key strings to entries: the same six commands, by name. */
  lemma StoreByName(s: State, x: Item, comm: Command, cfg: Config, a: Memory)
    requires Inv(s) && Indexed(s) && Named(s) && Configured(cfg) && FreshMemory(s, a) && Storable(s, x)
    ensures Indexed(Store(s, x, comm, cfg, a).0)
    ensures var key := s.items[x].key;
            var p := PresenceOf(Probe(s, ConvertKey(key, s.behind)));
            var M := ByName(s) - NamesOf(ByName(s), Gone(s, x, comm, cfg, a));
            && (key in M <==> p != Absent)
            && (ByName(Store(s, x, comm, cfg, a).0), Store(s, x, comm, cfg, a).1) ==
                 MapStore(M, key, EntryOf(s.items[x]), comm, p, JoinAlloc(s, x, comm, cfg, a).1.Some?, s.lastCas + 1)
  {
    hide Inv, Indexed, ConvertKey, Store, Gone, JoinAlloc, Probe, Contents, ByName, Unambiguous, Spells, MapStore,
         NamesOf, Leaks, Configured, FreshMemory, NoDigit;
    var key := s.items[x].key;
    assert Unambiguous(key);
    UnambiguousTail(key, s.behind);
    var t := Store(s, x, comm, cfg, a).0;
    StoreExact(s, x, comm, cfg, a);
    StoreNamed(s, x, comm, cfg, a);
    InvIndexed(t);
    ByNameSpells(s);
    ByNameSpells(t);
    var gone := Gone(s, x, comm, cfg, a);
    SpellsDrop(ByName(s), Contents(s), gone);
    var M, m := ByName(s) - NamesOf(ByName(s), gone), Contents(s) - gone;
    var p, room := PresenceOf(Probe(s, Num(key))), JoinAlloc(s, x, comm, cfg, a).1.Some?;
    MapStoreSpells(M, m, key, EntryOf(s.items[x]), comm, p, room, s.lastCas + 1);
    SpellsUnique(ByName(t), MapStore(M, key, EntryOf(s.items[x]), comm, p, room, s.lastCas + 1).0, Contents(t));
  }

  /** By name, data joined is the old and the new, in order, less the line break between them. */
  lemma JoinByName(s: State, x: Item, comm: Command, cfg: Config, a: Memory)
    requires Inv(s) && Indexed(s) && Named(s) && Configured(cfg) && FreshMemory(s, a) && Storable(s, x)
    requires Joins(comm) && Store(s, x, comm, cfg, a).1 == 1
    ensures Indexed(Store(s, x, comm, cfg, a).0)
    ensures var key, t := s.items[x].key, Store(s, x, comm, cfg, a).0;
            && key in ByName(s) && key in ByName(t) && |ByName(s)[key].data| >= 2
            && var before, sent := ByName(s)[key].data, s.items[x].data;
               ByName(t)[key].data ==
                 if comm == Append then before[..|before| - 2] + sent else sent[..|sent| - 2] + before
  {
    hide Inv, Indexed, ConvertKey, Store, Gone, JoinAlloc, Probe, ByName, NamesOf, Configured, FreshMemory;
    StoreByName(s, x, comm, cfg, a);
    NamedData(s, s.items[x].key);
  }

  lemma NamedData(s: State, key: string)
    requires Inv(s) && Indexed(s)
    ensures key in ByName(s) ==> |ByName(s)[key].data| >= 2
  {
    hide Placed, Counted, Deferred, Totalled, Ordered, ConvertKey;
  }
}
