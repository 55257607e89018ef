/**
 do_add_delta: the new number either overwrites the old one in place or, if it is too long, goes into
 a new item that replaces the old one.  The number's text is given; see module Cache for the heap.
 */
module CacheDelta {
  import opened Wrappers
  import opened Sequences
  import opened CacheSpec
  import opened CacheCommands
  import opened CacheStore

  /** The number, blanks up to the old length, and the old line break. */
  function Patched(data: string, text: string): (d: string)
    requires |text| + 2 <= |data|
    ensures |d| == |data| && d[..|text|] == text && d[|d| - 2..] == data[|data| - 2..]
    ensures forall i :: |text| <= i < |data| - 2 ==> d[i] == ' '
  {
    text + seq(|data| - |text| - 2, i => ' ') + data[|data| - 2..]
  }

  predicate Outgrows(r: Rec, text: string) { |text| + 2 > |r.data| }

  function DeltaRequest(r: Rec, text: string): Request { Request(r.key, r.flags, r.exptime, |text| + 2) }

  /** do_item_replace, and the caller's reference on the new item given back. */
  function Replaced(s: State, x: Item, o: Item): State { Release(Link(Unlink(s, x), o), o) }

  function Delta(s: State, x: Item, text: string, cfg: Config, a: Memory): (State, bool)
    requires Configured(cfg) && x in s.items
  {
    var r := s.items[x];
    if Outgrows(r, text) then
      var (t, o) := Alloc(s, cfg, DeltaRequest(r, text), a);
      if o.None? then (t, false) else (Replaced(Fill(t, o.value, text + "\r\n"), x, o.value), true)
    else (Fill(s, x, Patched(r.data, text)), true)
  }

  /**
   What do_add_delta relies on when the number outgrows its item: the item is still linked, or
   nothing is filed under its key once the memory for the new item is found.
   */
  predicate DeltaSound(s: State, x: Item, text: string, cfg: Config, a: Memory)
    requires Configured(cfg) && x in s.items
  {
    var (t, o) := Alloc(s, cfg, DeltaRequest(s.items[x], text), a);
    Outgrows(s.items[x], text) && o.Some? ==> s.items[x].linked || ConvertKey(s.items[x].key, s.behind) !in t.index
  }

  /** The state in which the new item takes over. */
  ghost predicate TakesOver(t: State, x: Item, o: Item) {
    && Inv(t) && x in t.items && o in t.items && x != o && t.refs[x] > 0 && t.refs[o] > 0
    && !t.items[o].linked && |t.items[o].data| >= 2 && t.items[o].key == t.items[x].key
  }

  lemma DeltaAlloc(s: State, x: Item, text: string, cfg: Config, a: Memory)
    requires Inv(s) && Configured(cfg) && FreshMemory(s, a) && s.refs[x] > 0 && x in s.items
    ensures var (t, o) := Alloc(s, cfg, DeltaRequest(s.items[x], text), a);
            && Inv(t) && t.lastCas == s.lastCas && t.behind == s.behind && x in t.items && t.items[x] == s.items[x]
            && Contents(t) == Contents(s) - (s.index.Keys - t.index.Keys) && (o.None? ==> t.refs == s.refs)
            && (o.Some? ==>
                  var u := Fill(t, o.value, text + "\r\n");
                  && o.value in t.items && TakesOver(u, x, o.value) && u.behind == t.behind && u.index == t.index &&
                      u.items[x] == s.items[x] && u.lastCas == s.lastCas
                  && Contents(u) == Contents(t)
                  && u.refs == s.refs + multiset{o.value}
                  && EntryOf(u.items[o.value]) == Entry(s.items[x].flags, text + "\r\n", s.items[x].exptime, 0))
  {
    hide Inv, Contents, ConvertKey, Alloc, FreshMemory, Indexed;
    var q := DeltaRequest(s.items[x], text);
    HeldCount(s, x);
    AllocEffect(s, cfg, q, a, x);
    var (t, o) := Alloc(s, cfg, q, a);
    if o.Some? {
      FillInv(t, o.value, text + "\r\n");
      InvIndexed(t);
      FillContents(t, o.value, text + "\r\n");
    }
  }

  lemma HeldCount(s: State, x: Item)
    requires Inv(s) && s.refs[x] > 0
    ensures x in s.items && s.items[x].refcount > 0
  {
    hide Placed, Indexed, Deferred, Totalled, Ordered;
  }

  lemma TakeOverSound(t: State, x: Item, o: Item)
    requires TakesOver(t, x, o) && (t.items[x].linked || ConvertKey(t.items[x].key, t.behind) !in t.index)
    ensures Inv(Replaced(t, x, o)) && Replaced(t, x, o).refs == t.refs - multiset{o}
    ensures Contents(Replaced(t, x, o)) ==
            Contents(t)[ConvertKey(t.items[x].key, t.behind) := EntryOf(t.items[o]).(cas := t.lastCas + 1)]
  {
    hide Inv, Contents, Unlink, Link, Release, Linkable, ConvertKey, Indexed;
    var k := ConvertKey(t.items[x].key, t.behind);
    var u := Unlink(t, x);
    UnlinkInv(t, x);
    UnlinkOthers(t, x);
    UnlinkOther(t, x, o);
    InvIndexed(t);
    InvIndexed(u);
    UnlinkFrees(t, x, o);
    LinkFresh(u, o);
    var w := Link(u, o);
    InvIndexed(w);
    ReleaseInv(w, o);
    ReleaseFacts(w, o);
    ReleaseContents(w, o);
    assert (Contents(t) - {k})[k := EntryOf(t.items[o]).(cas := t.lastCas + 1)] ==
           Contents(t)[k := EntryOf(t.items[o]).(cas := t.lastCas + 1)];
  }

  lemma UnlinkFrees(t: State, x: Item, o: Item)
    requires TakesOver(t, x, o) && Indexed(t) && (t.items[x].linked || ConvertKey(t.items[x].key, t.behind) !in t.index)
    ensures Linkable(Unlink(t, x), o)
    ensures Contents(Unlink(t, x)) == Contents(t) - {ConvertKey(t.items[x].key, t.behind)}
  {
    hide ConvertKey, Placed, Deferred, Totalled, Ordered, Size, Without, Contents;
    InvIndexed(t);
    if t.items[x].linked {
      UnlinkContents(t, x);
      UnlinkDrops(t, x, o);
    } else {
      AbsentContents(t, ConvertKey(t.items[x].key, t.behind));
    }
  }

  lemma AbsentContents(t: State, k: nat)
    requires k !in t.index
    ensures Contents(t) - {k} == Contents(t)
  {
  }

  /** With the key in another item's hands the index ends up pointing past that item. */
  lemma TakeOverUnsound(t: State, x: Item, o: Item)
    requires TakesOver(t, x, o) && !t.items[x].linked && ConvertKey(t.items[x].key, t.behind) in t.index
    ensures !Inv(Replaced(t, x, o))
  {
    InvIndexed(t);
    hide Inv, ConvertKey, Placed, Counted, Deferred, Totalled, Ordered, Size;
    var k := ConvertKey(t.items[x].key, t.behind);
    var y := t.index[k];
    assert y != o && t.items[y].linked;
    var w := Link(t, o);
    assert Unlink(t, x) == t;
    assert Known(t, o);
    assert w.index[k] == o && y in w.items && w.items[y] == t.items[y];
    var v := Release(w, o);
    assert v.index[k] == o && y in v.items && v.items[y] == t.items[y];
    if Inv(v) {
      InvIndexed(v);
      assert false;
    }
  }

  /** do_add_delta keeps the invariant exactly under the condition it relies on. */
  lemma DeltaExact(s: State, x: Item, text: string, cfg: Config, a: Memory)
    requires Inv(s) && Configured(cfg) && FreshMemory(s, a) && s.refs[x] > 0 && x in s.items
    ensures Inv(Delta(s, x, text, cfg, a).0) <==> DeltaSound(s, x, text, cfg, a)
  {
    hide Inv, Alloc, Replaced, ConvertKey, Contents, Fill, FreshMemory;
    var r := s.items[x];
    if Outgrows(r, text) {
      DeltaAlloc(s, x, text, cfg, a);
      var (t, o) := Alloc(s, cfg, DeltaRequest(r, text), a);
      if o.Some? {
        var u := Fill(t, o.value, text + "\r\n");
        if r.linked || ConvertKey(r.key, s.behind) !in t.index {
          TakeOverSound(u, x, o.value);
        } else {
          TakeOverUnsound(u, x, o.value);
        }
      }
    } else {
      FillInv(s, x, Patched(r.data, text));
    }
  }

  /** What a client sees of it: the entry's data is the number, under the same flags and expiry. */
  lemma DeltaEffect(s: State, x: Item, text: string, cfg: Config, a: Memory)
    requires Inv(s) && Configured(cfg) && FreshMemory(s, a) && s.refs[x] > 0 && x in s.items && s.items[x].linked
    ensures var (t, ok) := Delta(s, x, text, cfg, a);
            var k := ConvertKey(s.items[x].key, s.behind);
            var r := s.items[x];
            var m := Contents(s) - (if Outgrows(r, text)
                then s.index.Keys - Alloc(s, cfg, DeltaRequest(r, text), a).0.index.Keys else {});
            && t.refs == s.refs && k in m && m[k] == EntryOf(r)
            && Contents(t) ==
                 if !ok then m
                 else if Outgrows(r, text) then m[k := Entry(r.flags, text + "\r\n", r.exptime, s.lastCas + 1)]
                 else m[k := EntryOf(r).(data := Patched(r.data, text))]
  {
    hide Inv, Alloc, Replaced, ConvertKey, Contents, Fill, FreshMemory, Patched;
    var r := s.items[x];
    var k := ConvertKey(r.key, s.behind);
    StaysListed(s, x, k);
    ListedEntry(s, x);
    if Outgrows(r, text) {
      DeltaAlloc(s, x, text, cfg, a);
      var (t, o) := Alloc(s, cfg, DeltaRequest(r, text), a);
      StaysListed(t, x, k);
      ListedEntry(t, x);
      if o.Some? {
        TakeOverSound(Fill(t, o.value, text + "\r\n"), x, o.value);
        assert s.refs + multiset{o.value} - multiset{o.value} == s.refs;
      }
    } else {
      PatchContents(s, x, Patched(r.data, text));
      assert Contents(s) - {} == Contents(s);
    }
  }

  lemma ListedEntry(s: State, x: Item)
    requires Inv(s) && x in s.items && s.items[x].linked
    ensures var k := ConvertKey(s.items[x].key, s.behind); k in Contents(s) && Contents(s)[k] == EntryOf(s.items[x])
  {
    hide Placed, Counted, Deferred, Totalled, Ordered, ConvertKey;
  }

  lemma PatchContents(s: State, x: Item, data: string)
    requires Inv(s) && x in s.items && s.items[x].linked
    ensures Fill(s, x, data).refs == s.refs
    ensures Contents(Fill(s, x, data)) ==
            Contents(s)[ConvertKey(s.items[x].key, s.behind) := EntryOf(s.items[x]).(data := data)]
  {
    hide Placed, Counted, Deferred, Totalled, Ordered, ConvertKey;
  }

  /** Nothing is lost on the way. */
  lemma DeltaLosesNothing(s: State, x: Item, text: string, cfg: Config, a: Memory)
    requires Configured(cfg) && x in s.items
    ensures Delta(s, x, text, cfg, a).0.lost == s.lost
  {
    hide Alloc, Link, Unlink, Release, Take, Update, Patched;
    var r := s.items[x];
    if Outgrows(r, text) {
      AllocLosesNothing(s, cfg, DeltaRequest(r, text), a);
      var (t, o) := Alloc(s, cfg, DeltaRequest(r, text), a);
      if o.Some? {
        var u := Fill(t, o.value, text + "\r\n");
        StepsLoseNothing(u, x);
        StepsLoseNothing(Unlink(u, x), o.value);
        StepsLoseNothing(Link(Unlink(u, x), o.value), o.value);
      }
    }
  }
}
