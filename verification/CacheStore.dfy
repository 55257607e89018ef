/** Allocation with eviction, and the store commands, against a plain map. */
module CacheStore {
  import opened Wrappers
  import opened Sequences
  import opened CacheSpec
  import opened CacheCommands

  // ----- allocation

  datatype Config = Config(slabSizes: seq<nat>, evictToFree: bool)

  predicate Configured(cfg: Config) {
    |cfg.slabSizes| == POWER_LARGEST + 1 && forall c :: 0 <= c <= POWER_LARGEST ==> cfg.slabSizes[c] <= MAX_BYTES
  }

  function ClassFrom(cfg: Config, size: nat, res: nat): nat
    requires Configured(cfg) && 0 < res <= POWER_LARGEST
    decreases POWER_LARGEST - res
  {
    if size <= cfg.slabSizes[res] then res
    else if res == POWER_LARGEST then 0
    else ClassFrom(cfg, size, res + 1)
  }

  /** slabs_clsid of items.c: the first class whose chunk holds size bytes, or 0. */
  function ClassOf(cfg: Config, size: nat): (id: nat)
    requires Configured(cfg)
  {
    if size == 0 then 0 else ClassFrom(cfg, size, 1)
  }

  lemma {:induction false} ClassFromFits(cfg: Config, size: nat, res: nat)
    requires Configured(cfg) && 0 < res <= POWER_LARGEST
    ensures var id := ClassFrom(cfg, size, res);
            if id == 0 then forall c :: res <= c <= POWER_LARGEST ==> cfg.slabSizes[c] < size
            else res <= id <= POWER_LARGEST && size <= cfg.slabSizes[id] && forall c :: res <= c < id ==>
                cfg.slabSizes[c] < size
    decreases POWER_LARGEST - res
  {
    if size > cfg.slabSizes[res] && res < POWER_LARGEST {
      ClassFromFits(cfg, size, res + 1);
    }
  }

  /** The search up from the tail, at most `tries` items deep, for one that nobody holds. */
  function Victim(s: State, l: seq<Item>, tries: nat): Option<Item> {
    if l == [] || tries == 0 then None
    else
      var x := l[|l| - 1];
      if x in s.items && s.items[x].refcount == 0 then Some(x) else Victim(s, l[..|l| - 1], tries - 1)
  }

  function Evict(s: State, id: nat): State {
    if id >= |s.lru| then s else
    match Victim(s, s.lru[id], EVICT_TRIES)
    case None => s
    case Some(x) => Unlink(s, x)
  }

  /** What the two attempts to get memory answer. */
  datatype Memory = Memory(first: Option<Item>, second: Option<Item>)

  ghost predicate FreshMemory(s: State, a: Memory) {
    (a.first.Some? ==> a.first.value !in s.items) && (a.second.Some? ==> a.second.value !in s.items)
  }

  datatype Request = Request(key: string, flags: int, exptime: nat, nbytes: nat)

  function Blank(n: nat): string { seq(n, i => '\0') }

  function NewRec(q: Request, id: nat): Rec {
    Rec(q.key, q.flags, Blank(q.nbytes), id, 0, q.exptime, 1, false, false, 0)
  }

  /** do_item_alloc */
  function Alloc(s: State, cfg: Config, q: Request, a: Memory): (State, Option<Item>)
    requires Configured(cfg)
  {
    var id := ClassOf(cfg, NTotal(q.key, q.flags, q.nbytes));
    if id == 0 then (s, None)
    else if a.first.Some? then (New(s, a.first.value, NewRec(q, id)), a.first)
    else if !cfg.evictToFree || id >= |s.lru| || s.lru[id] == [] then (s, None)
    else if a.second.Some? then (New(Evict(s, id), a.second.value, NewRec(q, id)), a.second)
    else (Evict(s, id), None)
  }

  /** Item j of l is free, none behind it is, and it is at most tries from the end. */
  ghost predicate NearestFree(s: State, l: seq<Item>, tries: nat, j: int) {
    && 0 <= j < |l| && |l| - tries <= j && l[j] in s.items && s.items[l[j]].refcount == 0
    && forall i :: j < i < |l| ==> l[i] in s.items && s.items[l[i]].refcount > 0
  }

  lemma {:induction false} VictimExact(s: State, l: seq<Item>, tries: nat)
    requires forall x :: x in l ==> x in s.items
    ensures match Victim(s, l, tries)
            case None => forall i :: 0 <= i < |l| && |l| - tries <= i ==> s.items[l[i]].refcount > 0
            case Some(x) => exists j :: NearestFree(s, l, tries, j) && l[j] == x
  {
    if l != [] && tries != 0 {
      var m := l[..|l| - 1];
      if s.items[l[|l| - 1]].refcount != 0 {
        VictimExact(s, m, tries - 1);
        assert forall i :: 0 <= i < |m| ==> m[i] == l[i];
        if Victim(s, m, tries - 1).Some? {
          var j :| NearestFree(s, m, tries - 1, j) && m[j] == Victim(s, m, tries - 1).value;
          assert NearestFree(s, l, tries, j);
        }
      } else {
        assert NearestFree(s, l, tries, |l| - 1);
      }
    }
  }

  /** The item evicted is the oldest of its class that nobody holds. */
  lemma EvictsOldest(s: State, id: nat, x: Item, y: Item)
    requires Inv(s) && id < LARGEST_ID && Victim(s, s.lru[id], EVICT_TRIES) == Some(x)
    requires y in s.lru[id] && s.items[y].refcount == 0
    ensures x in s.lru[id] && s.items[x].refcount == 0 && s.items[y].time >= s.items[x].time
  {
    hide Indexed, Counted, Deferred, Totalled, Victim;
    var l := s.lru[id];
    VictimExact(s, l, EVICT_TRIES);
    var j :| NearestFree(s, l, EVICT_TRIES, j) && l[j] == x;
    var i :| 0 <= i < |l| && l[i] == y;
    assert NewestFirst(s, l);
    assert i == j || s.items[l[i]].time >= s.items[l[j]].time;
  }

  lemma EvictInv(s: State, id: nat)
    requires Inv(s)
    ensures Inv(Evict(s, id)) && Thinned(s, Evict(s, id))
  {
    hide Inv, Victim, Unlink, Thinned;
    ThinnedSelf(s);
    if id < |s.lru| {
      match Victim(s, s.lru[id], EVICT_TRIES)
      case None =>
      case Some(x) =>
        UnlinkThinned(s, x);
        if x in s.items { UnlinkInv(s, x); } else { assert Unlink(s, x) == s by { UnknownUnlink(s, x); } }
    }
  }

  lemma UnknownUnlink(s: State, x: Item)
    requires x !in s.items
    ensures Unlink(s, x) == s
  {
  }

  /** Whatever the allocator answers, the whole invariant survives, a failed retry included. */
  lemma AllocInv(s: State, cfg: Config, q: Request, a: Memory)
    requires Inv(s) && Configured(cfg) && FreshMemory(s, a)
    ensures Inv(Alloc(s, cfg, q, a).0)
  {
    hide Inv, Evict, Thinned;
    var id := ClassOf(cfg, NTotal(q.key, q.flags, q.nbytes));
    assert |Blank(q.nbytes)| < NTotal(q.key, q.flags, q.nbytes);
    ClassFromFits(cfg, NTotal(q.key, q.flags, q.nbytes), 1);
    EvictInv(s, id);
    if id != 0 {
      if a.first.Some? {
        NewInv(s, a.first.value, NewRec(q, id));
      } else if a.second.Some? {
        assert a.second.value !in Evict(s, id).items by { ThinnedItems(s, Evict(s, id)); }
        NewInv(Evict(s, id), a.second.value, NewRec(q, id));
      }
    }
  }

  lemma ThinnedItems(s: State, t: State)
    requires Thinned(s, t)
    ensures forall x :: x in t.items ==> x in s.items
    ensures t.refs == s.refs && t.lastCas == s.lastCas && t.behind == s.behind
  {
  }

  // ----- what a client sees: a map from keys to entries

  datatype Entry = Entry(flags: int, data: string, exptime: nat, cas: nat)

  function EntryOf(r: Rec): Entry { Entry(r.flags, r.data, r.exptime, r.casId) }

  ghost function Contents(s: State): map<nat, Entry> {
    map k | k in s.index && s.index[k] in s.items :: EntryOf(s.items[s.index[k]])
  }

  lemma LinkContents(s: State, x: Item)
    requires Shaped(s) && Indexed(s) && Linkable(s, x)
    ensures Contents(Link(s, x)) ==
            Contents(s)[ConvertKey(s.items[x].key, s.behind) := EntryOf(s.items[x]).(cas := s.lastCas + 1)]
  {
    hide ConvertKey, Size;
  }

  lemma UnlinkContents(s: State, x: Item)
    requires Shaped(s) && Indexed(s) && x in s.items && s.items[x].linked
    ensures Contents(Unlink(s, x)) == Contents(s) - {ConvertKey(s.items[x].key, s.behind)}
  {
    hide ConvertKey, Size, Without;
  }

  lemma TakeContents(s: State, x: Item)
    ensures Contents(Take(s, x)) == Contents(s)
  {
  }

  lemma ReleaseContents(s: State, x: Item)
    requires Indexed(s)
    ensures Contents(Release(s, x)) == Contents(s)
  {
    hide ConvertKey;
  }

  lemma UpdateContents(s: State, x: Item)
    ensures Contents(Update(s, x)) == Contents(s)
  {
    hide Without;
  }

  /** Writing the data of an item. */
  function Fill(s: State, x: Item, data: string): State {
    if x !in s.items then s else s.(items := s.items[x := s.items[x].(data := data)])
  }

  lemma FillInv(s: State, x: Item, data: string)
    requires Inv(s) && x in s.items && |data| == |s.items[x].data|
    ensures Inv(Fill(s, x, data))
  {
    hide Placed, Indexed, Totalled, Ordered, SamePlaces;
    assert SamePlaces(s, Fill(s, x, data)) by { FillSame(s, x, data); }
    SamePlacesInv(s, Fill(s, x, data));
  }

  lemma FillSame(s: State, x: Item, data: string)
    requires Shaped(s) && x in s.items && |data| == |s.items[x].data|
    ensures SamePlaces(s, Fill(s, x, data))
  {
  }

  /** old is replaced by x under the same key and the caller's reference on old is given back. */
  function Swap(s: State, prior: Item, x: Item): State {
    Release(Link(Unlink(s, prior), x), prior)
  }

  ghost predicate Swappable(s: State, prior: Item, x: Item) {
    && prior in s.items && x in s.items && s.items[prior].linked && !s.items[x].linked && |s.items[x].data| >= 2
    && ConvertKey(s.items[prior].key, s.behind) == ConvertKey(s.items[x].key, s.behind) && s.refs[prior] > 0
  }

  lemma UnlinkForSwap(s: State, prior: Item, x: Item)
    requires Inv(s) && Swappable(s, prior, x)
    ensures Linkable(Unlink(s, prior), x) && Unlink(s, prior).items[x] == s.items[x]
    ensures Unlink(s, prior).behind == s.behind
    ensures prior in Unlink(s, prior).items
  {
    hide ConvertKey, Size, Without, Placed, Indexed, Deferred, Totalled, Ordered;
    assert s.items[prior].refcount > 0;
  }

  lemma SwapEffect(s: State, prior: Item, x: Item)
    requires Inv(s) && Swappable(s, prior, x)
    ensures var t := Swap(s, prior, x);
            && Inv(t) && t.refs == s.refs - multiset{prior}
            && Contents(t) ==
                Contents(s)[ConvertKey(s.items[x].key, s.behind) := EntryOf(s.items[x]).(cas := s.lastCas + 1)]
    ensures x in Swap(s, prior, x).items && Swap(s, prior, x).items[x].linked && Swap(s, prior, x).behind == s.behind
  {
    hide Inv, Unlink, Link, Contents, Release, Linkable;
    var k := ConvertKey(s.items[x].key, s.behind);
    var s1 := Unlink(s, prior);
    var s2 := Link(s1, x);
    UnlinkForSwap(s, prior, x);
    UnlinkInv(s, prior);
    UnlinkOthers(s, prior);
    LinkInv(s1, x);
    InvIndexed(s);
    InvIndexed(s1);
    InvIndexed(s2);
    LinkFacts(s1, x);
    ReleaseInv(s2, prior);
    ReleaseFacts(s2, prior);
    ReleaseOthers(s2, prior);
    UnlinkContents(s, prior);
    LinkContents(s1, x);
    ReleaseContents(s2, prior);
    assert (Contents(s) - {k})[k := EntryOf(s.items[x]).(cas := s.lastCas + 1)] ==
           Contents(s)[k := EntryOf(s.items[x]).(cas := s.lastCas + 1)];
  }

  lemma InvIndexed(s: State)
    requires Inv(s)
    ensures Shaped(s) && Indexed(s)
  {
  }

  lemma LinkFacts(s: State, x: Item)
    requires Shaped(s) && Linkable(s, x)
    ensures x in Link(s, x).items && Link(s, x).items[x].linked && Link(s, x).refs == s.refs
    ensures Link(s, x).behind == s.behind
  {
  }

  lemma ReleaseFacts(s: State, x: Item)
    requires x in s.items
    ensures Release(s, x).refs == s.refs - multiset{x}
    ensures s.items[x].linked ==> x in Release(s, x).items && Release(s, x).items[x].linked
  {
  }

  // ----- the store commands

  datatype Command = Add | Set | Replace | Append | Prepend | Cas

  predicate Joins(comm: Command) { comm == Append || comm == Prepend }

  function Chop(data: string): string { if |data| < 2 then [] else data[..|data| - 2] }

  /** Data is kept with its closing line break; a join drops the one in the middle. */
  function Join(comm: Command, before: string, sent: string): string {
    if comm == Append then Chop(before) + sent else Chop(sent) + before
  }

  function JoinRequest(comm: Command, r: Rec, p: Rec): Request {
    Request(r.key, p.flags, p.exptime, |Join(comm, p.data, r.data)|)
  }

  /** do_store_item: the new state and the code returned. */
  function Store(s: State, x: Item, comm: Command, cfg: Config, a: Memory): (State, nat)
    requires Configured(cfg) && x in s.items
  {
    var k := ConvertKey(s.items[x].key, s.behind);
    var v := Probe(s, k);
    var s1 := Get(s, k);
    if comm == Add && v.Alive? then (Release(Update(s1, v.it), v.it), 0)
    else if (comm == Replace || Joins(comm)) && !v.Alive? then (s1, 0)
    else if comm == Add && v.Locked? then (s1, 0)
    else if comm == Cas then
      var s2 := if v.Locked? then Take(s1, v.it) else s1;
      if !(v.Locked? || v.Alive?) then (s2, 3)
      else if s.items[x].casId == s.items[v.it].casId then (Swap(s2, v.it, x), 1)
      else (Release(s2, v.it), 2)
    else if Joins(comm) then
      var (s2, o) := Alloc(s1, cfg, JoinRequest(comm, s.items[x], s.items[v.it]), a);
      if o.None? then (Lose(s2, v.it), 0)
      else
        var s3 := Fill(s2, o.value, Join(comm, s.items[v.it].data, s.items[x].data));
        (Release(Swap(s3, v.it, o.value), o.value), 1)
    else
      var s2 := if v.Locked? then Take(s1, v.it) else s1;
      (if v.Locked? || v.Alive? then Swap(s2, v.it, x) else Link(s2, x), 1)
  }

  datatype Presence = Absent | Hidden | Present

  /** The same six commands on a plain map: `cas` is the next version number. */
  function MapStore<K(==)>(m: map<K, Entry>, k: K, e: Entry, comm: Command, p: Presence, room: bool, cas: nat):
    (map<K, Entry>, nat)
    requires k in m <==> p != Absent
  {
    var stored := m[k := e.(cas := cas)];
    match comm
    case Add => if p == Absent then (stored, 1) else (m, 0)
    case Set => (stored, 1)
    case Replace => if p == Present then (stored, 1) else (m, 0)
    case Cas => if p == Absent then (m, 3) else if m[k].cas == e.cas then (stored, 1) else (m, 2)
    case _ =>
      if p == Present && room then (m[k := Entry(m[k].flags, Join(comm, m[k].data, e.data), m[k].exptime, cas)], 1)
      else (m, 0)
  }

  function PresenceOf(v: Verdict): Presence {
    match v case Missing => Absent case Dead(_) => Absent case Locked(_) => Hidden case Alive(_) => Present
  }

  // ----- do_store_item refines the map

  /** The joined item's memory: the answer, and the state the search for it leaves. */
  function JoinAlloc(s: State, x: Item, comm: Command, cfg: Config, a: Memory): (State, Option<Item>)
    requires Configured(cfg) && x in s.items
  {
    var v := Probe(s, ConvertKey(s.items[x].key, s.behind));
    if Joins(comm) && v.Alive? then Alloc(Take(s, v.it), cfg, JoinRequest(comm, s.items[x], s.items[v.it]), a)
    else (s, None)
  }

  /** Keys whose entries leave the map without being asked to: past their life, or evicted. */
  function Gone(s: State, x: Item, comm: Command, cfg: Config, a: Memory): set<nat>
    requires Configured(cfg) && x in s.items
  {
    var k := ConvertKey(s.items[x].key, s.behind);
    (if Probe(s, k).Dead? then {k} else {}) + (s.index.Keys - JoinAlloc(s, x, comm, cfg, a).0.index.Keys)
  }

  ghost predicate Storable(s: State, x: Item) {
    x in s.items && !s.items[x].linked && |s.items[x].data| >= 2 && s.refs[x] > 0
  }

  /** Result of a store as the map sees it. */
  ghost predicate Refines(s: State, x: Item, comm: Command, cfg: Config, a: Memory, r: (State, nat))
    requires Configured(cfg) && x in s.items
  {
    var k := ConvertKey(s.items[x].key, s.behind);
    var m := Contents(s) - Gone(s, x, comm, cfg, a);
    var p := PresenceOf(Probe(s, k));
    && (k in m <==> p != Absent)
    && (Contents(r.0), r.1) ==
         MapStore(m, k, EntryOf(s.items[x]), comm, p, JoinAlloc(s, x, comm, cfg, a).1.Some?, s.lastCas + 1)
  }

  // what a lookup does to the map and to the references, by what it finds

  lemma GetMissing(s: State, k: nat, x: Item)
    requires Inv(s) && Storable(s, x) && k == ConvertKey(s.items[x].key, s.behind) && Probe(s, k).Missing?
    ensures k !in Contents(s) && Linkable(s, x)
  {
    hide ConvertKey, Placed, Counted, Deferred, Totalled, Ordered;
  }

  lemma GetLocked(s: State, k: nat, x: Item)
    requires Inv(s) && Storable(s, x) && k == ConvertKey(s.items[x].key, s.behind) && !Probe(s, k).Missing?
    ensures var y := Probe(s, k).it;
            && k in Contents(s) && Contents(s)[k] == EntryOf(s.items[y]) && x != y
            && y in s.items && s.items[y].linked && ConvertKey(s.items[y].key, s.behind) == k
  {
    hide ConvertKey, Placed, Counted, Deferred, Totalled, Ordered;
  }

  lemma TakeEffect(s: State, y: Item, x: Item)
    requires Inv(s) && Storable(s, x) && y in s.items && x != y
    ensures var t := Take(s, y);
            && Inv(t) && Contents(t) == Contents(s) && t.refs == s.refs + multiset{y} && t.lastCas == s.lastCas &&
                t.behind == s.behind
            && x in t.items && t.items[x] == s.items[x] && y in t.items && t.index == s.index
            && t.items[y] == s.items[y].(refcount := s.items[y].refcount + 1)
  {
    hide Inv, Contents;
    TakeInv(s, y);
    TakeContents(s, y);
  }

  lemma GetDead(s: State, k: nat, x: Item)
    requires Inv(s) && Storable(s, x) && k == ConvertKey(s.items[x].key, s.behind) && Probe(s, k).Dead?
    ensures var t := Get(s, k);
            && Inv(t) && Contents(t) == Contents(s) - {k} && t.refs == s.refs && t.lastCas == s.lastCas
            && Linkable(t, x) && t.items[x] == s.items[x] && t.behind == s.behind
  {
    hide Inv, ConvertKey, Contents, Unlink, OnlyAt;
    var y := Probe(s, k).it;
    GetLocked(s, k, x);
    UnlinkInv(s, y);
    InvIndexed(s);
    UnlinkContents(s, y);
    UnlinkOthers(s, y);
    UnlinkDrops(s, y, x);
  }

  lemma UnlinkDrops(s: State, y: Item, x: Item)
    requires Shaped(s) && Indexed(s) && y in s.items && s.items[y].linked && x in s.items && x != y
    ensures ConvertKey(s.items[y].key, s.behind) !in Unlink(s, y).index
    ensures x in Unlink(s, y).items && Unlink(s, y).items[x] == s.items[x]
  {
    hide ConvertKey, Size, Without;
  }

  // the ways a store ends

  lemma TakeSwap(s: State, y: Item, x: Item)
    requires Inv(s) && Storable(s, x) && y in s.items && s.items[y].linked
    requires ConvertKey(s.items[y].key, s.behind) == ConvertKey(s.items[x].key, s.behind)
    ensures var t := Swap(Take(s, y), y, x);
            && Inv(t) && t.refs == s.refs
            && Contents(t) ==
                Contents(s)[ConvertKey(s.items[x].key, s.behind) := EntryOf(s.items[x]).(cas := s.lastCas + 1)]
  {
    hide Inv, Contents, ConvertKey, Take, Swap;
    TakeEffect(s, y, x);
    SwapEffect(Take(s, y), y, x);
    assert s.refs + multiset{y} - multiset{y} == s.refs;
  }

  lemma TakeRelease(s: State, y: Item, x: Item)
    requires Inv(s) && Storable(s, x) && y in s.items && x != y
    ensures var t := Release(Take(s, y), y); Inv(t) && t.refs == s.refs && Contents(t) == Contents(s)
  {
    hide Inv, Contents, Take, Release;
    TakeEffect(s, y, x);
    var s1 := Take(s, y);
    ReleaseInv(s1, y);
    ReleaseFacts(s1, y);
    InvIndexed(s1);
    ReleaseContents(s1, y);
    assert s.refs + multiset{y} - multiset{y} == s.refs;
  }

  lemma TakeTouchRelease(s: State, y: Item, x: Item)
    requires Inv(s) && Storable(s, x) && y in s.items && x != y
    ensures var t := Release(Update(Take(s, y), y), y); Inv(t) && t.refs == s.refs && Contents(t) == Contents(s)
  {
    hide Inv, Contents, Take, Update, Release;
    TakeEffect(s, y, x);
    var s1 := Take(s, y);
    UpdateInv(s1, y);
    UpdateContents(s1, y);
    UpdateFacts(s1, y);
    var s2 := Update(s1, y);
    ReleaseInv(s2, y);
    ReleaseFacts(s2, y);
    InvIndexed(s2);
    ReleaseContents(s2, y);
    assert s.refs + multiset{y} - multiset{y} == s.refs;
  }

  lemma UpdateFacts(s: State, x: Item)
    ensures Update(s, x).refs == s.refs && (x in s.items ==> x in Update(s, x).items)
  {
  }

  lemma LinkFresh(s: State, x: Item)
    requires Inv(s) && Linkable(s, x)
    ensures var t := Link(s, x);
            && Inv(t) && t.refs == s.refs
            && Contents(t) ==
                Contents(s)[ConvertKey(s.items[x].key, s.behind) := EntryOf(s.items[x]).(cas := s.lastCas + 1)]
  {
    hide Inv, Contents, ConvertKey, Link;
    LinkInv(s, x);
    InvIndexed(s);
    LinkFacts(s, x);
    LinkContents(s, x);
  }

  lemma NothingGone(s: State, x: Item, comm: Command, cfg: Config, a: Memory)
    requires Configured(cfg) && x in s.items && !Joins(comm) && !Probe(s, ConvertKey(s.items[x].key, s.behind)).Dead?
    ensures Contents(s) - Gone(s, x, comm, cfg, a) == Contents(s)
  {
    hide Contents, Probe;
    assert Gone(s, x, comm, cfg, a) == {};
  }

  /** add, set, replace and cas */
  lemma StorePlain(s: State, x: Item, comm: Command, cfg: Config, a: Memory)
    requires Inv(s) && Configured(cfg) && Storable(s, x) && !Joins(comm)
    ensures Inv(Store(s, x, comm, cfg, a).0) && Refines(s, x, comm, cfg, a, Store(s, x, comm, cfg, a))
    ensures Store(s, x, comm, cfg, a).0.refs == s.refs
  {
    hide Inv, Contents, ConvertKey, Unlink, Link, Take, Release, Update, Swap, Linkable;
    var k := ConvertKey(s.items[x].key, s.behind);
    match Probe(s, k)
    case Missing =>
      GetMissing(s, k, x);
      LinkFresh(s, x);
      NothingGone(s, x, comm, cfg, a);
    case Locked(y) =>
      GetLocked(s, k, x);
      TakeSwap(s, y, x);
      TakeRelease(s, y, x);
      TakeEffect(s, y, x);
      NothingGone(s, x, comm, cfg, a);
    case Dead(y) =>
      GetLocked(s, k, x);
      GetDead(s, k, x);
      assert Gone(s, x, comm, cfg, a) == {k};
      LinkFresh(Get(s, k), x);
    case Alive(y) =>
      GetLocked(s, k, x);
      TakeSwap(s, y, x);
      TakeRelease(s, y, x);
      TakeTouchRelease(s, y, x);
      NothingGone(s, x, comm, cfg, a);
  }

  // append and prepend

  lemma ThinnedContents(s: State, t: State)
    requires Indexed(s) && Indexed(t) && Thinned(s, t)
    ensures Contents(t) == Contents(s) - (s.index.Keys - t.index.Keys)
  {
    hide ConvertKey;
  }

  lemma EvictSpares(s: State, id: nat, y: Item)
    requires Inv(s) && id < LARGEST_ID && y in s.items && s.items[y].refcount > 0
    ensures y in Evict(s, id).items && Evict(s, id).items[y] == s.items[y]
  {
    hide Unlink, OnlyAt, Victim, Indexed, Counted, Deferred, Totalled, Ordered;
    VictimExact(s, s.lru[id], EVICT_TRIES);
    match Victim(s, s.lru[id], EVICT_TRIES)
    case None =>
    case Some(x) => UnlinkOther(s, x, y);
  }

  lemma UnlinkOther(s: State, x: Item, y: Item)
    requires y in s.items && y != x
    ensures y in Unlink(s, x).items && Unlink(s, x).items[y] == s.items[y] && Unlink(s, x).behind == s.behind
  {
    hide Unlink;
    UnlinkOthers(s, x);
  }

  lemma NewContents(s: State, x: Item, r: Rec)
    requires Indexed(s) && x !in s.items
    ensures Contents(New(s, x, r)) == Contents(s)
  {
    hide ConvertKey;
  }

  lemma FillContents(s: State, x: Item, data: string)
    requires Indexed(s) && x in s.items && !s.items[x].linked
    ensures Contents(Fill(s, x, data)) == Contents(s)
  {
    hide ConvertKey;
  }

  /** Allocation takes entries away only by eviction, and never a held item. */
  lemma AllocEffect(s: State, cfg: Config, q: Request, a: Memory, y: Item)
    requires Inv(s) && Configured(cfg) && FreshMemory(s, a) && y in s.items && s.items[y].refcount > 0
    ensures var (t, o) := Alloc(s, cfg, q, a);
            && Inv(t) && t.lastCas == s.lastCas && t.behind == s.behind && y in t.items && t.items[y] == s.items[y]
            && Contents(t) == Contents(s) - (s.index.Keys - t.index.Keys)
            && (if o.None? then t.refs == s.refs else
                  && o.value !in s.items && o.value in t.items && t.refs == s.refs + multiset{o.value}
                  && t.items[o.value] == NewRec(q, ClassOf(cfg, NTotal(q.key, q.flags, q.nbytes))))
  {
    hide Inv, Evict, Thinned, Contents, NTotal, Indexed;
    AllocInv(s, cfg, q, a);
    var id := ClassOf(cfg, NTotal(q.key, q.flags, q.nbytes));
    ClassFromFits(cfg, NTotal(q.key, q.flags, q.nbytes), 1);
    InvIndexed(s);
    if id == 0 {
      SameContents(s);
    } else if a.first.Some? {
      NewContents(s, a.first.value, NewRec(q, id));
      SameContents(s);
      assert Alloc(s, cfg, q, a).0.items[a.first.value] == NewRec(q, id);
    } else if cfg.evictToFree && s.lru[id] != [] {
      var t := Evict(s, id);
      EvictInv(s, id);
      EvictSpares(s, id, y);
      InvIndexed(t);
      ThinnedContents(s, t);
      ThinnedItems(s, t);
      if a.second.Some? {
        NewContents(t, a.second.value, NewRec(q, id));
        assert Alloc(s, cfg, q, a).0.items[a.second.value] == NewRec(q, id);
      }
    } else {
      SameContents(s);
    }
  }

  /** At most one key is lost from s to t, and it was that of an item nobody holds. */
  ghost predicate LosesOne(s: State, t: State) {
    var gone := s.index.Keys - t.index.Keys;
    |gone| <= 1 && forall k :: k in gone ==> s.index[k] in s.items && s.items[s.index[k]].refcount == 0
  }

  /** Allocation costs other keys at most one entry. */
  lemma AllocEvictsOne(s: State, cfg: Config, q: Request, a: Memory)
    requires Inv(s) && Configured(cfg)
    ensures LosesOne(s, Alloc(s, cfg, q, a).0)
  {
    hide Inv, NTotal, ClassOf, LosesOne, Evict, Indexed, Alloc, Shaped;
    InvIndexed(s);
    var id := AllocIndex(s, cfg, q, a);
    var t := Alloc(s, cfg, q, a).0;
    LosesNone(s, t);
    EvictDropsOne(s, id);
    SameIndexLoses(s, Evict(s, id), t);
  }

  lemma AllocIndex(s: State, cfg: Config, q: Request, a: Memory) returns (id: nat)
    requires Configured(cfg)
    ensures var t := Alloc(s, cfg, q, a).0; t.index == s.index || t.index == Evict(s, id).index
  {
    hide NTotal, ClassFrom, Evict;
    id := ClassOf(cfg, NTotal(q.key, q.flags, q.nbytes));
  }

  lemma LosesNone(s: State, t: State)
    ensures t.index == s.index ==> LosesOne(s, t)
  {
    assert t.index == s.index ==> s.index.Keys - t.index.Keys == {};
  }

  lemma SameIndexLoses(s: State, t: State, u: State)
    ensures t.index == u.index && LosesOne(s, t) ==> LosesOne(s, u)
  {
  }

  lemma EvictDropsOne(s: State, id: nat)
    requires Indexed(s)
    ensures LosesOne(s, Evict(s, id))
  {
    hide Unlink, Victim, Indexed, ConvertKey;
    LosesNone(s, Evict(s, id));
    if id < |s.lru| && Victim(s, s.lru[id], EVICT_TRIES).Some? {
      var x := Victim(s, s.lru[id], EVICT_TRIES).value;
      VictimIsFree(s, s.lru[id], EVICT_TRIES);
      if Unlink(s, x).index != s.index {
        UnlinkDropsOne(s, x);
        assert s.index.Keys - Unlink(s, x).index.Keys == {ConvertKey(s.items[x].key, s.behind)};
      }
    }
  }

  lemma {:induction false} VictimIsFree(s: State, l: seq<Item>, tries: nat)
    ensures match Victim(s, l, tries) case None => true case Some(x) => x in s.items && s.items[x].refcount == 0
  {
    if l != [] && tries > 0 { VictimIsFree(s, l[..|l| - 1], tries - 1); }
  }

  lemma UnlinkDropsOne(s: State, x: Item)
    requires Indexed(s) && x in s.items && Unlink(s, x).index != s.index
    ensures var k := ConvertKey(s.items[x].key, s.behind);
            k in s.index && s.index[k] == x && Unlink(s, x).index == s.index - {k}
  {
    hide ConvertKey, Size, Without;
  }

  lemma SameContents(s: State)
    ensures Contents(s) == Contents(s) - (s.index.Keys - s.index.Keys)
  {
    assert s.index.Keys - s.index.Keys == {};
  }

  /** The last steps of a join: fill in the new item, put it in y's place, give both references back. */
  lemma JoinEffect(s: State, y: Item, o: Item, data: string)
    requires Inv(s) && y in s.items && o in s.items && y != o && s.refs[y] > 0 && s.refs[o] > 0
    requires s.items[y].linked && !s.items[o].linked &&
             ConvertKey(s.items[y].key, s.behind) == ConvertKey(s.items[o].key, s.behind)
    requires |data| == |s.items[o].data| >= 2
    ensures var t := Release(Swap(Fill(s, o, data), y, o), o);
            && Inv(t) && t.refs == s.refs - multiset{y} - multiset{o}
            && Contents(t) ==
                Contents(s)[ConvertKey(s.items[o].key, s.behind) := EntryOf(s.items[o]).(data := data,
                    cas := s.lastCas + 1)]
  {
    hide Inv, Contents, ConvertKey, Swap, Release, Indexed;
    FillInv(s, o, data);
    InvIndexed(s);
    FillContents(s, o, data);
    var s3 := Fill(s, o, data);
    SwapEffect(s3, y, o);
    var s4 := Swap(s3, y, o);
    ReleaseInv(s4, o);
    ReleaseFacts(s4, o);
    InvIndexed(s4);
    ReleaseContents(s4, o);
  }

  /** The state and the item with which a join goes on. */
  lemma JoinAllocFacts(s: State, x: Item, comm: Command, cfg: Config, a: Memory)
    requires Inv(s) && Configured(cfg) && FreshMemory(s, a) && Storable(s, x) && Joins(comm)
    requires Probe(s, ConvertKey(s.items[x].key, s.behind)).Alive?
    ensures var k := ConvertKey(s.items[x].key, s.behind);
            var y := Probe(s, k).it;
            var (t, o) := JoinAlloc(s, x, comm, cfg, a);
            && y in s.items && Inv(t) && t.lastCas == s.lastCas && t.behind == s.behind && y in t.items &&
                t.items[y].linked &&
                ConvertKey(t.items[y].key, t.behind) == k
            && k in Contents(s) && Contents(s)[k] == EntryOf(s.items[y])
            && Contents(t) == Contents(s) - Gone(s, x, comm, cfg, a) && k in Contents(t)
            && (if o.None? then t.refs == s.refs + multiset{y} else
                  && o.value in t.items && o.value != y && t.refs == s.refs + multiset{y} + multiset{o.value}
                  && exists id :: t.items[o.value] == NewRec(JoinRequest(comm, s.items[x], s.items[y]), id))
  {
    hide Inv, Contents, ConvertKey, Take, Alloc, Probe, Join, FreshMemory, NewRec;
    var k := ConvertKey(s.items[x].key, s.behind);
    var y := Probe(s, k).it;
    GetLocked(s, k, x);
    TakeEffect(s, y, x);
    var s1 := Take(s, y);
    TakeItems(s, y, a);
    var q := JoinRequest(comm, s.items[x], s.items[y]);
    AllocEffect(s1, cfg, q, a, y);
    var t := Alloc(s1, cfg, q, a).0;
    assert Gone(s, x, comm, cfg, a) == s1.index.Keys - t.index.Keys;
    StaysListed(t, y, k);
  }

  lemma StoreJoin(s: State, x: Item, comm: Command, cfg: Config, a: Memory)
    requires Inv(s) && Configured(cfg) && FreshMemory(s, a) && Storable(s, x) && Joins(comm)
    requires Probe(s, ConvertKey(s.items[x].key, s.behind)).Alive?
    ensures Inv(Store(s, x, comm, cfg, a).0) && Refines(s, x, comm, cfg, a, Store(s, x, comm, cfg, a))
    ensures Store(s, x, comm, cfg, a).0.refs == s.refs
  {
    hide Inv, Contents, ConvertKey, Take, Alloc, Swap, Release, Fill, Lose, Probe, Join, FreshMemory, Gone;
    var k := ConvertKey(s.items[x].key, s.behind);
    var y := Probe(s, k).it;
    JoinAllocFacts(s, x, comm, cfg, a);
    var (t, o) := JoinAlloc(s, x, comm, cfg, a);
    if o.Some? {
      GetLocked(s, k, x);
      var data := Join(comm, s.items[y].data, s.items[x].data);
      JoinLength(s, y, comm, s.items[x].data);
      JoinEffect(t, y, o.value, data);
      CancelTwo(s.refs, y, o.value);
    } else {
      LoseEffect(s, t, y);
    }
  }

  lemma LoseEffect(s: State, t: State, y: Item)
    requires Inv(t) && t.refs == s.refs + multiset{y}
    ensures Inv(Lose(t, y)) && Lose(t, y).refs == s.refs && Contents(Lose(t, y)) == Contents(t)
  {
    LoseInv(t, y);
    hide Inv;
  }

  lemma TakeItems(s: State, y: Item, a: Memory)
    requires y in s.items && FreshMemory(s, a)
    ensures FreshMemory(Take(s, y), a)
  {
  }

  lemma StaysListed(s: State, y: Item, k: nat)
    requires Inv(s) && y in s.items && s.items[y].linked && ConvertKey(s.items[y].key, s.behind) == k
    ensures k in Contents(s) && k in s.index
  {
    hide ConvertKey, Placed, Counted, Deferred, Totalled, Ordered;
  }

  lemma JoinLength(s: State, y: Item, comm: Command, sent: string)
    requires Inv(s) && y in s.items && s.items[y].linked && |sent| >= 2
    ensures |Join(comm, s.items[y].data, sent)| >= 2
  {
    hide Placed, Indexed, Counted, Deferred, Totalled, Ordered;
    assert Sound(s.items[y]);
  }

  /**
   do_store_item is one step of the plain map, for every command, whatever the allocator
   answers; it keeps the whole invariant; and it gives back every reference it takes, except the
   one on the old item when append or prepend finds no memory, which is lost.  Data joined is the
   old and the new, in order, less the line break between them.
   */
  lemma StoreExact(s: State, x: Item, comm: Command, cfg: Config, a: Memory)
    requires Inv(s) && Configured(cfg) && FreshMemory(s, a) && Storable(s, x)
    ensures Inv(Store(s, x, comm, cfg, a).0) && Refines(s, x, comm, cfg, a, Store(s, x, comm, cfg, a))
    ensures Store(s, x, comm, cfg, a).0.refs == s.refs
    ensures Store(s, x, comm, cfg, a).0.lost ==
            s.lost + (if Leaks(s, x, comm, cfg, a) then multiset{Probe(s, ConvertKey(s.items[x].key, s.behind)).it}
                else multiset{})
    ensures Joined(s, x, comm, Store(s, x, comm, cfg, a))
  {
    hide Inv, Store, Refines, ConvertKey, JoinAlloc, Probe, Leaks, Joined;
    StoreLost(s, x, comm, cfg, a);
    if !Joins(comm) {
      StorePlain(s, x, comm, cfg, a);
    } else if Probe(s, ConvertKey(s.items[x].key, s.behind)).Alive? {
      StoreJoin(s, x, comm, cfg, a);
    } else {
      StoreNothing(s, x, comm, cfg, a);
    }
    JoinSlices(s, x, comm, cfg, a);
  }

  /** What append and prepend leave under the key when they report success. */
  ghost predicate Joined(s: State, x: Item, comm: Command, r: (State, nat))
    requires x in s.items
  {
    var k := ConvertKey(s.items[x].key, s.behind);
    var sent := s.items[x].data;
    Joins(comm) && r.1 == 1 ==>
      && k in Contents(s) && k in Contents(r.0)
      && |Contents(s)[k].data| >= 2 && |sent| >= 2
      && var before := Contents(s)[k].data;
         Contents(r.0)[k].data ==
           if comm == Append then before[..|before| - 2] + sent else sent[..|sent| - 2] + before
  }

  lemma JoinSlices(s: State, x: Item, comm: Command, cfg: Config, a: Memory)
    requires Inv(s) && Configured(cfg) && Storable(s, x)
    requires Refines(s, x, comm, cfg, a, Store(s, x, comm, cfg, a))
    ensures Joined(s, x, comm, Store(s, x, comm, cfg, a))
  {
    hide Inv, ConvertKey, Contents, Store, Probe, Alloc, Gone;
    var k := ConvertKey(s.items[x].key, s.behind);
    if k in Contents(s) { ListedData(s, k); }
  }

  lemma ListedData(s: State, k: nat)
    requires Inv(s) && k in Contents(s)
    ensures |Contents(s)[k].data| >= 2
  {
    hide Placed, Counted, Deferred, Totalled, Ordered, ConvertKey;
    assert Sound(s.items[s.index[k]]);
  }

  /** append or prepend meets a live item and finds no memory. */
  predicate Leaks(s: State, x: Item, comm: Command, cfg: Config, a: Memory)
    requires Configured(cfg) && x in s.items
  {
    Joins(comm) && Probe(s, ConvertKey(s.items[x].key, s.behind)).Alive? && JoinAlloc(s, x, comm, cfg, a).1.None?
  }

  lemma StepsLoseNothing(s: State, x: Item)
    ensures Link(s, x).lost == Unlink(s, x).lost == Take(s, x).lost == Release(s, x).lost == Update(s, x).lost == s.lost
  {
    hide ConvertKey, Size, Without;
  }

  lemma SwapLosesNothing(s: State, prior: Item, x: Item)
    ensures Swap(s, prior, x).lost == s.lost
  {
    hide Link, Unlink, Release;
    StepsLoseNothing(s, prior);
    StepsLoseNothing(Unlink(s, prior), x);
    StepsLoseNothing(Link(Unlink(s, prior), x), prior);
  }

  lemma AllocLosesNothing(s: State, cfg: Config, q: Request, a: Memory)
    requires Configured(cfg)
    ensures Alloc(s, cfg, q, a).0.lost == s.lost
  {
    hide NTotal, ClassOf, Evict;
    EvictLosesNothing(s, ClassOf(cfg, NTotal(q.key, q.flags, q.nbytes)));
  }

  lemma EvictLosesNothing(s: State, id: nat)
    ensures Evict(s, id).lost == s.lost
  {
    hide Victim, Unlink;
    if id < |s.lru| && Victim(s, s.lru[id], EVICT_TRIES).Some? {
      StepsLoseNothing(s, Victim(s, s.lru[id], EVICT_TRIES).value);
    }
  }

  lemma StoreLost(s: State, x: Item, comm: Command, cfg: Config, a: Memory)
    requires Configured(cfg) && x in s.items
    ensures Store(s, x, comm, cfg, a).0.lost ==
            s.lost + (if Leaks(s, x, comm, cfg, a) then multiset{Probe(s, ConvertKey(s.items[x].key, s.behind)).it}
                else multiset{})
  {
    hide ConvertKey, Link, Unlink, Take, Release, Update, Swap, Alloc, JoinRequest, Join, Fill, Configured;
    var v := Probe(s, ConvertKey(s.items[x].key, s.behind));
    var s1 := Get(s, ConvertKey(s.items[x].key, s.behind));
    StepsLoseNothing(s1, x);
    if !v.Missing? {
      StepsLoseNothing(s, v.it);
      if Joins(comm) && v.Alive? {
        JoinLost(s1, v.it, cfg, JoinRequest(comm, s.items[x], s.items[v.it]), a,
            Join(comm, s.items[v.it].data, s.items[x].data));
      } else {
        PlainLost(s1, v.it, x);
      }
    }
  }

  lemma PlainLost(s: State, y: Item, x: Item)
    ensures Release(Update(s, y), y).lost == Swap(s, y, x).lost == Swap(Take(s, y), y, x).lost == s.lost
    ensures Release(s, y).lost == Release(Take(s, y), y).lost == s.lost
  {
    hide Take, Release, Update, Swap, Link, Unlink;
    StepsLoseNothing(s, y);
    StepsLoseNothing(Update(s, y), y);
    StepsLoseNothing(Take(s, y), y);
    SwapLosesNothing(s, y, x);
    SwapLosesNothing(Take(s, y), y, x);
  }

  lemma JoinLost(s: State, y: Item, cfg: Config, q: Request, a: Memory, data: string)
    requires Configured(cfg)
    ensures var (t, o) := Alloc(s, cfg, q, a);
            t.lost == s.lost && (o.Some? ==> Release(Swap(Fill(t, o.value, data), y, o.value), o.value).lost == s.lost)
  {
    hide Alloc, Release, Swap, Link, Unlink, Take, Update;
    AllocLosesNothing(s, cfg, q, a);
    var (t, o) := Alloc(s, cfg, q, a);
    if o.Some? {
      SwapLosesNothing(Fill(t, o.value, data), y, o.value);
      StepsLoseNothing(Swap(Fill(t, o.value, data), y, o.value), o.value);
    }
  }

  lemma StoreNothing(s: State, x: Item, comm: Command, cfg: Config, a: Memory)
    requires Inv(s) && Configured(cfg) && Storable(s, x) && Joins(comm)
    requires !Probe(s, ConvertKey(s.items[x].key, s.behind)).Alive?
    ensures Inv(Store(s, x, comm, cfg, a).0) && Refines(s, x, comm, cfg, a, Store(s, x, comm, cfg, a))
    ensures Store(s, x, comm, cfg, a).0.refs == s.refs
  {
    hide Inv, Contents, ConvertKey, Unlink, Take;
    var k := ConvertKey(s.items[x].key, s.behind);
    match Probe(s, k)
    case Missing =>
      GetMissing(s, k, x);
      assert Gone(s, x, comm, cfg, a) == {};
      assert Contents(s) - Gone(s, x, comm, cfg, a) == Contents(s);
    case Locked(y) =>
      GetLocked(s, k, x);
      assert Gone(s, x, comm, cfg, a) == {};
      assert Contents(s) - Gone(s, x, comm, cfg, a) == Contents(s);
    case Dead(y) =>
      GetLocked(s, k, x);
      GetDead(s, k, x);
      assert Gone(s, x, comm, cfg, a) == {k};
  }

  /** k was lost to an item nobody held. */
  ghost predicate WasFree(s: State, k: nat) { k in s.index && s.index[k] in s.items &&
      s.items[s.index[k]].refcount == 0 }

  /** A store takes at most one entry with it: the expired one of its own key, or one evicted that nobody held. */
  lemma StoreCostsOne(s: State, x: Item, comm: Command, cfg: Config, a: Memory)
    requires Inv(s) && Configured(cfg) && Storable(s, x)
    ensures |Gone(s, x, comm, cfg, a)| <= 1
    ensures forall k :: k in Gone(s, x, comm, cfg, a) ==>
              (k == ConvertKey(s.items[x].key, s.behind) && Probe(s, k).Dead?) || WasFree(s, k)
  {
    hide Inv, ConvertKey, Alloc, Probe, LosesOne, WasFree, JoinAlloc, Configured;
    var j := ConvertKey(s.items[x].key, s.behind);
    GoneParts(s, x, comm, cfg, a);
    if Joins(comm) && Probe(s, j).Alive? {
      JoinCostsOne(s, x, comm, cfg, a);
    }
  }

  lemma GoneParts(s: State, x: Item, comm: Command, cfg: Config, a: Memory)
    requires Configured(cfg) && x in s.items
    ensures var k := ConvertKey(s.items[x].key, s.behind);
            Gone(s, x, comm, cfg, a) ==
              if Joins(comm) && Probe(s, k).Alive? then s.index.Keys - JoinAlloc(s, x, comm, cfg, a).0.index.Keys
              else if Probe(s, k).Dead? then {k} else {}
  {
    hide ConvertKey, Alloc, Probe, Configured;
  }

  lemma JoinCostsOne(s: State, x: Item, comm: Command, cfg: Config, a: Memory)
    requires Inv(s) && Configured(cfg) && Storable(s, x) && Joins(comm) &&
             Probe(s, ConvertKey(s.items[x].key, s.behind)).Alive?
    ensures var gone := s.index.Keys - JoinAlloc(s, x, comm, cfg, a).0.index.Keys;
            |gone| <= 1 && forall k :: k in gone ==> WasFree(s, k)
  {
    hide Inv, ConvertKey, Alloc, Take, JoinRequest, Probe, LosesOne, WasFree, Configured;
    var y := Probe(s, ConvertKey(s.items[x].key, s.behind)).it;
    ProbeKnown(s, ConvertKey(s.items[x].key, s.behind));
    TakeInv(s, y);
    AllocEvictsOne(Take(s, y), cfg, JoinRequest(comm, s.items[x], s.items[y]), a);
    TakeLoses(s, y, JoinAlloc(s, x, comm, cfg, a).0);
  }

  lemma ProbeKnown(s: State, k: nat)
    ensures !Probe(s, k).Missing? ==> Probe(s, k).it in s.items
  {
  }

  lemma TakeLoses(s: State, y: Item, t: State)
    requires y in s.items && LosesOne(Take(s, y), t)
    ensures |s.index.Keys - t.index.Keys| <= 1
    ensures forall k :: k in s.index.Keys - t.index.Keys ==> WasFree(s, k)
  {
  }
}
