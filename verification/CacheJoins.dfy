/** What any number of append and prepend commands make of an entry. */
module CacheJoins {
  import opened CacheSpec
  import opened CacheCommands
  import opened CacheStore
  import opened CacheRuns
  import opened CacheNumber

  function Flat(l: seq<string>): string { if l == [] then [] else l[0] + Flat(l[1..]) }

  function Backwards(l: seq<string>): seq<string> { if l == [] then [] else Backwards(l[1..]) + [l[0]] }

  lemma {:induction false} FlatAppend(l: seq<string>, m: seq<string>)
    ensures Flat(l + m) == Flat(l) + Flat(m)
  {
    if l == [] {
      assert l + m == m;
    } else {
      assert (l + m)[1..] == l[1..] + m;
      FlatAppend(l[1..], m);
    }
  }

  lemma FlatOne(b: string)
    ensures Flat([b]) == b
  {
    assert [b][1..] == [];
  }

  /** The step joins data that ends in a line break to the entry under k, and reports success. */
  ghost predicate JoinsTo(s: State, e: Step, k: nat)
    requires Enabled(s, e)
  {
    && e.SStore? && Joins(e.comm) && ConvertKey(s.items[e.x].key, s.behind) == k && EndsLine(s.items[e.x].data)
    && Store(s, e.x, e.comm, e.cfg, e.a).1 == 1
  }

  /** What it joins, less the line break. */
  ghost function Sent(s: State, e: Step): string {
    if e.SStore? && e.x in s.items && |s.items[e.x].data| >= 2 then s.items[e.x].data[..|s.items[e.x].data| - 2] else []
  }

  /** The entry under k has the same data after the step. */
  ghost predicate Spares(s: State, e: Step, k: nat)
    requires Enabled(s, e) && k in Contents(s)
  {
    k in Contents(Next(s, e)) && Contents(Next(s, e))[k].data == Contents(s)[k].data
  }

  /** Every step joins data to the entry under k or leaves its data alone. */
  ghost predicate OnlyJoined(s: State, run: seq<Step>, k: nat)
    requires Legal(s, run)
    decreases run
  {
    && k in Contents(s)
    && (run == [] || ((JoinsTo(s, run[0], k) || Spares(s, run[0], k)) && OnlyJoined(Next(s, run[0]), run[1..], k)))
  }

  /** What the run has joined by comm, in order. */
  ghost function Parts(s: State, run: seq<Step>, k: nat, comm: Command): seq<string>
    requires Legal(s, run)
    decreases run
  {
    if run == [] then []
    else
      (if JoinsTo(s, run[0], k) && run[0].comm == comm then [Sent(s, run[0])] else []) +
      Parts(Next(s, run[0]), run[1..], k, comm)
  }

  /** One join. */
  lemma OneJoin(s: State, e: Step, k: nat, body: string)
    requires Inv(s) && Enabled(s, e) && JoinsTo(s, e, k) && k in Contents(s) && Contents(s)[k].data == body + "\r\n"
    ensures e.SStore? && Joins(e.comm) && k in Contents(Next(s, e))
    ensures Contents(Next(s, e))[k].data ==
              (if e.comm == Append then body + Sent(s, e) else Sent(s, e) + body) + "\r\n"
  {
    hide Inv, ConvertKey, Contents, Store, FreshMemory, Refines, Leaks;
    StoreExact(s, e.x, e.comm, e.cfg, e.a);
    Slices(body, s.items[e.x].data);
  }

  lemma Slices(body: string, sent: string)
    requires EndsLine(sent)
    ensures var b := sent[..|sent| - 2];
            && (body + "\r\n")[..|body + "\r\n"| - 2] + sent == body + b + "\r\n"
            && b + (body + "\r\n") == b + body + "\r\n"
  {
    assert sent == sent[..|sent| - 2] + "\r\n";
    assert (body + "\r\n")[..|body + "\r\n"| - 2] == body;
  }

  /**
   Any sequence of appends and prepends leaves the prepended bodies, latest first, then the first body,
   then the appended bodies in order, and one line break.
   */
  lemma {:induction false} JoinedRun(s: State, run: seq<Step>, k: nat, body: string)
    requires Inv(s) && Legal(s, run) && OnlyJoined(s, run, k) && Contents(s)[k].data == body + "\r\n"
    ensures var t := After(s, run);
            k in Contents(t) && Contents(t)[k].data ==
              Flat(Backwards(Parts(s, run, k, Prepend))) + body + Flat(Parts(s, run, k, Append)) + "\r\n"
    decreases run
  {
    hide Inv, Next, Enabled, Contents, JoinsTo, Sent, EndsLine;
    if run == [] {
      assert [] + body + [] == body;
    } else {
      var e := run[0];
      var t := Next(s, e);
      NextInv(s, e);
      if JoinsTo(s, e, k) {
        OneJoin(s, e, k, body);
        var b := Sent(s, e);
        var next := if e.comm == Append then body + b else b + body;
        JoinedRun(t, run[1..], k, next);
        var pre, post := Parts(t, run[1..], k, Prepend), Parts(t, run[1..], k, Append);
        Threaded(e.comm, b, body, pre, post);
      } else {
        JoinedRun(t, run[1..], k, body);
        assert [] + Parts(t, run[1..], k, Prepend) == Parts(t, run[1..], k, Prepend);
        assert [] + Parts(t, run[1..], k, Append) == Parts(t, run[1..], k, Append);
      }
    }
  }

  /** Joining b first and the rest after it is joining all in order. */
  lemma Threaded(comm: Command, b: string, body: string, pre: seq<string>, post: seq<string>)
    requires Joins(comm)
    ensures var next := if comm == Append then body + b else b + body;
            Flat(Backwards(pre)) + next + Flat(post) + "\r\n" ==
            Flat(Backwards((if comm == Prepend then [b] else []) + pre)) + body +
            Flat((if comm == Append then [b] else []) + post) + "\r\n"
  {
    if comm == Append {
      assert ([b] + post)[1..] == post;
      assert [] + pre == pre;
    } else {
      assert ([b] + pre)[1..] == pre;
      FlatAppend(Backwards(pre), [b]);
      FlatOne(b);
      assert [] + post == post;
    }
  }
}
