/**
 AtomicPtr cells under any number of threads: checkout and check-in, the ordered swap and its
 non-blocking form, and reads.  One step is one atomic load, compare-and-set or store.
 */
module AtomicPtr {

  /** ATOMIC_NULL marks a checked-out cell; any other content is a pointer. */
  datatype Cell = Null | Val(v: nat)

  datatype Op = Swap(a: nat, b: nat) | TrySwap(a: nat, b: nat) | Get(a: nat)

  /** Cells are taken from the lower to the higher address. */
  function First(op: Op): nat { if op.Get? then op.a else if op.a < op.b then op.a else op.b }
  function Last(op: Op): nat { if op.Get? then op.a else if op.a < op.b then op.b else op.a }

  /**
   Where a thread stands: about to load the first cell, to take it by compare-and-set, to load the
   last cell, to set it by compare-and-set, or to check the first cell in again.
   */
  datatype Pc =
    | Idle
    | LoadFirst(op: Op)
    | TakeFirst(op: Op, v: nat)
    | LoadLast(op: Op, v: nat)
    | SetLast(op: Op, v: nat, w: nat)
    | CheckIn(op: Op, v: nat, ok: bool)

  datatype State = State(cells: seq<Cell>, pcs: seq<Pc>)

  datatype Event = Tau | Call(op: Op) | Exchange(lo: nat, hi: nat) | Read(c: nat, v: nat) | Return(ok: bool)

  ghost predicate WellFormed(s: State) {
    forall t :: 0 <= t < |s.pcs| && !s.pcs[t].Idle? ==> Last(s.pcs[t].op) < |s.cells|
  }

  function Put(s: State, t: nat, pc: Pc): State
    requires t < |s.pcs|
  {
    s.(pcs := s.pcs[t := pc])
  }

  function Write(s: State, c: nat, x: Cell): State
    requires c < |s.cells|
  {
    s.(cells := s.cells[c := x])
  }

  /** The next atomic step of thread t. */
  function Step(s: State, t: nat): (State, Event)
    requires t < |s.pcs| && !s.pcs[t].Idle? && Last(s.pcs[t].op) < |s.cells|
  {
    var pc := s.pcs[t];
    var op := pc.op;
    var f, l := First(op), Last(op);
    match pc
    case LoadFirst(_) =>
      (match s.cells[f]
       case Null => if op.TrySwap? then (Put(s, t, Idle), Return(false)) else (s, Tau)
       case Val(v) => if op.Get? then (Put(s, t, Idle), Read(f, v)) else (Put(s, t, TakeFirst(op, v)), Tau))
    case TakeFirst(_, v) =>
      if s.cells[f] == Val(v) then (Write(Put(s, t, LoadLast(op, v)), f, Null), Tau)
      else if op.TrySwap? then (Put(s, t, Idle), Return(false))
      else (Put(s, t, LoadFirst(op)), Tau)
    case LoadLast(_, v) =>
      (match s.cells[l]
       case Null => if op.TrySwap? then (Put(s, t, CheckIn(op, v, false)), Tau) else (s, Tau)
       case Val(w) => (Put(s, t, SetLast(op, v, w)), Tau))
    case SetLast(_, v, w) =>
      if s.cells[l] == Val(w) then (Write(Put(s, t, CheckIn(op, w, true)), l, Val(v)), Exchange(f, l))
      else if op.TrySwap? then (Put(s, t, CheckIn(op, v, false)), Tau)
      else (Put(s, t, LoadLast(op, v)), Tau)
    case CheckIn(_, v, ok) => (Write(Put(s, t, Idle), f, Val(v)), Return(ok))
  }

  // ----- the invariant: a cell is empty exactly while one thread holds it

  predicate Holding(pc: Pc) { pc.LoadLast? || pc.SetLast? || pc.CheckIn? }

  predicate Holds(pc: Pc, c: nat) { Holding(pc) && First(pc.op) == c }

  predicate SwapPc(pc: Pc) { pc.Idle? || pc.LoadFirst? || !pc.op.Get? }

  ghost predicate Owned(s: State) {
    forall c :: 0 <= c < |s.cells| && s.cells[c] == Null ==> exists t :: 0 <= t < |s.pcs| && Holds(s.pcs[t], c)
  }

  ghost predicate Exclusive(s: State) {
    forall t, u, c ::
      0 <= t < |s.pcs| && 0 <= u < |s.pcs| && Holds(s.pcs[t], c) && Holds(s.pcs[u], c) ==> t == u
  }

  ghost predicate Taken(s: State)
    requires WellFormed(s)
  {
    forall t :: 0 <= t < |s.pcs| && Holding(s.pcs[t]) ==> s.cells[First(s.pcs[t].op)] == Null
  }

  ghost predicate Inv(s: State) {
    && WellFormed(s) && Owned(s) && Exclusive(s) && Taken(s)
    && (forall t :: 0 <= t < |s.pcs| ==> SwapPc(s.pcs[t]))
    && (forall t :: 0 <= t < |s.pcs| && s.pcs[t].CheckIn? && s.pcs[t].ok ==> First(s.pcs[t].op) != Last(s.pcs[t].op))
  }

  /** A cell as the specification sees it: what it holds, or what its holder will put back. */
  ghost function Logical(s: State, c: nat): nat
    requires Inv(s) && c < |s.cells|
  {
    match s.cells[c]
    case Val(v) => v
    case Null => var t :| 0 <= t < |s.pcs| && Holds(s.pcs[t], c); s.pcs[t].v
  }

  lemma LogicalHeld(s: State, t: nat)
    requires Inv(s) && t < |s.pcs| && Holding(s.pcs[t])
    ensures Logical(s, First(s.pcs[t].op)) == s.pcs[t].v
  {
  }

  ghost function Abs(s: State): seq<nat>
    requires Inv(s)
  {
    seq(|s.cells|, c requires 0 <= c < |s.cells| => Logical(s, c))
  }

  // ----- every step keeps the invariant and is an exchange, a read of the current value, or nothing

  function Exchanged(m: seq<nat>, i: nat, j: nat): seq<nat>
    requires i < |m| && j < |m|
  {
    m[i := m[j]][j := m[i]]
  }

  ghost predicate Enabled(s: State, t: nat) {
    t < |s.pcs| && !s.pcs[t].Idle?
  }

  /** A step that moves t without taking or giving up a cell. */
  lemma PutKeeps(s: State, t: nat, pc: Pc)
    requires Inv(s) && Enabled(s, t) && SwapPc(pc) && (!pc.Idle? ==> pc.op == s.pcs[t].op)
    requires Holding(s.pcs[t]) == Holding(pc) && (Holding(pc) ==> pc.v == s.pcs[t].v)
    requires pc.CheckIn? ==> !pc.ok
    ensures Inv(Put(s, t, pc)) && Abs(Put(s, t, pc)) == Abs(s)
  {
    var u := Put(s, t, pc);
    PutInv(s, t, pc);
    forall c | 0 <= c < |s.cells|
      ensures Logical(u, c) == Logical(s, c)
    {
      if s.cells[c] == Null {
        var h :| 0 <= h < |s.pcs| && Holds(s.pcs[h], c);
        LogicalHeld(s, h);
        LogicalHeld(u, h);
      }
    }
  }

  lemma PutInv(s: State, t: nat, pc: Pc)
    requires Inv(s) && Enabled(s, t) && SwapPc(pc) && (!pc.Idle? ==> pc.op == s.pcs[t].op)
    requires Holding(s.pcs[t]) == Holding(pc)
    requires pc.CheckIn? ==> !pc.ok
    ensures Inv(Put(s, t, pc))
  {
    var u := Put(s, t, pc);
    forall c | 0 <= c < |u.cells| && u.cells[c] == Null
      ensures exists h :: 0 <= h < |u.pcs| && Holds(u.pcs[h], c)
    {
      var h :| 0 <= h < |s.pcs| && Holds(s.pcs[h], c);
      assert Holds(u.pcs[h], c);
    }
    assert Exclusive(u) by {
      assert forall h, c: nat :: 0 <= h < |u.pcs| && Holds(u.pcs[h], c) ==> Holds(s.pcs[h], c);
    }
  }

  /** Checkout succeeds: the cell empties, its value is now with the thread. */
  lemma TakeKeeps(s: State, t: nat)
    requires Inv(s) && Enabled(s, t) && s.pcs[t].TakeFirst? && s.cells[First(s.pcs[t].op)] == Val(s.pcs[t].v)
    ensures Inv(Step(s, t).0) && Abs(Step(s, t).0) == Abs(s)
  {
    var u := Step(s, t).0;
    var f := First(s.pcs[t].op);
    TakeInv(s, t);
    forall c | 0 <= c < |s.cells|
      ensures Logical(u, c) == Logical(s, c)
    {
      if c == f {
        LogicalHeld(u, t);
      } else if s.cells[c] == Null {
        var h :| 0 <= h < |s.pcs| && Holds(s.pcs[h], c);
        LogicalHeld(s, h);
        LogicalHeld(u, h);
      }
    }
  }

  lemma TakeInv(s: State, t: nat)
    requires Inv(s) && Enabled(s, t) && s.pcs[t].TakeFirst? && s.cells[First(s.pcs[t].op)] == Val(s.pcs[t].v)
    ensures Inv(Step(s, t).0)
  {
    var u := Step(s, t).0;
    var f := First(s.pcs[t].op);
    forall c | 0 <= c < |u.cells| && u.cells[c] == Null
      ensures exists h :: 0 <= h < |u.pcs| && Holds(u.pcs[h], c)
    {
      if c == f {
        assert Holds(u.pcs[t], c);
      } else {
        var h :| 0 <= h < |s.pcs| && Holds(s.pcs[h], c);
        assert Holds(u.pcs[h], c);
      }
    }
    assert forall h, c: nat :: 0 <= h < |u.pcs| && h != t && Holds(u.pcs[h], c) ==>
           Holds(s.pcs[h], c) && s.cells[c] == Null;
  }

  /** The compare-and-set on the higher cell: this is where the swap happens. */
  lemma SetExchanges(s: State, t: nat)
    requires Inv(s) && Enabled(s, t) && s.pcs[t].SetLast? && s.cells[Last(s.pcs[t].op)] == Val(s.pcs[t].w)
    ensures Inv(Step(s, t).0)
    ensures Abs(Step(s, t).0) == Exchanged(Abs(s), First(s.pcs[t].op), Last(s.pcs[t].op))
  {
    var u := Step(s, t).0;
    var f, l := First(s.pcs[t].op), Last(s.pcs[t].op);
    SetInv(s, t);
    LogicalHeld(s, t);
    LogicalHeld(u, t);
    forall c | 0 <= c < |s.cells| && c != f && c != l
      ensures Logical(u, c) == Logical(s, c)
    {
      if s.cells[c] == Null {
        var h :| 0 <= h < |s.pcs| && Holds(s.pcs[h], c);
        LogicalHeld(s, h);
        LogicalHeld(u, h);
      }
    }
  }

  lemma SetInv(s: State, t: nat)
    requires Inv(s) && Enabled(s, t) && s.pcs[t].SetLast? && s.cells[Last(s.pcs[t].op)] == Val(s.pcs[t].w)
    ensures Inv(Step(s, t).0)
  {
    var u := Step(s, t).0;
    forall c | 0 <= c < |u.cells| && u.cells[c] == Null
      ensures exists h :: 0 <= h < |u.pcs| && Holds(u.pcs[h], c)
    {
      var h :| 0 <= h < |s.pcs| && Holds(s.pcs[h], c);
      assert Holds(u.pcs[h], c);
    }
    assert forall h, c: nat :: 0 <= h < |u.pcs| && Holds(u.pcs[h], c) ==> Holds(s.pcs[h], c);
  }

  lemma CheckInKeeps(s: State, t: nat)
    requires Inv(s) && Enabled(s, t) && s.pcs[t].CheckIn?
    ensures Inv(Step(s, t).0) && Abs(Step(s, t).0) == Abs(s)
  {
    var u := Step(s, t).0;
    CheckInInv(s, t);
    LogicalHeld(s, t);
    forall c | 0 <= c < |s.cells| && c != First(s.pcs[t].op)
      ensures Logical(u, c) == Logical(s, c)
    {
      if s.cells[c] == Null {
        var h :| 0 <= h < |s.pcs| && Holds(s.pcs[h], c);
        LogicalHeld(s, h);
        LogicalHeld(u, h);
      }
    }
  }

  lemma CheckInInv(s: State, t: nat)
    requires Inv(s) && Enabled(s, t) && s.pcs[t].CheckIn?
    ensures Inv(Step(s, t).0)
  {
    var u := Step(s, t).0;
    var f := First(s.pcs[t].op);
    assert Holds(s.pcs[t], f);
    forall c | 0 <= c < |u.cells| && u.cells[c] == Null
      ensures exists h :: 0 <= h < |u.pcs| && Holds(u.pcs[h], c)
    {
      var h :| 0 <= h < |s.pcs| && Holds(s.pcs[h], c);
      assert h != t && Holds(u.pcs[h], c);
    }
    assert forall h, c: nat :: 0 <= h < |u.pcs| && Holds(u.pcs[h], c) ==> Holds(s.pcs[h], c) && h != t && c != f;
  }

  /** The meaning of an event on the plain cells. */
  function Apply(m: seq<nat>, e: Event): seq<nat> {
    if e.Exchange? && e.lo < |m| && e.hi < |m| then Exchanged(m, e.lo, e.hi) else m
  }

  predicate Truthful(m: seq<nat>, e: Event) {
    match e
    case Read(c, v) => c < |m| && m[c] == v
    case Exchange(i, j) => i < j < |m|
    case _ => true
  }

  /** One step of any thread refines one event on the plain cells. */
  lemma StepRefines(s: State, t: nat)
    requires Inv(s) && Enabled(s, t)
    ensures var (u, e) := Step(s, t); Inv(u) && Abs(u) == Apply(Abs(s), e) && Truthful(Abs(s), e)
  {
    var pc := s.pcs[t];
    var op := pc.op;
    assert SwapPc(pc);
    match pc
    case LoadFirst(_) =>
      if s.cells[First(op)].Null? {
        if op.TrySwap? { PutKeeps(s, t, Idle); }
      } else {
        PutKeeps(s, t, if op.Get? then Idle else TakeFirst(op, s.cells[First(op)].v));
      }
    case TakeFirst(_, v) =>
      if s.cells[First(op)] == Val(v) {
        TakeKeeps(s, t);
      } else {
        PutKeeps(s, t, if op.TrySwap? then Idle else LoadFirst(op));
      }
    case LoadLast(_, v) =>
      if s.cells[Last(op)].Null? {
        if op.TrySwap? { PutKeeps(s, t, CheckIn(op, v, false)); }
      } else {
        PutKeeps(s, t, SetLast(op, v, s.cells[Last(op)].v));
      }
    case SetLast(_, v, w) =>
      if s.cells[Last(op)] == Val(w) {
        assert s.cells[First(op)] == Null;
        SetExchanges(s, t);
      } else {
        PutKeeps(s, t, if op.TrySwap? then CheckIn(op, v, false) else LoadLast(op, v));
      }
    case CheckIn(_, v, ok) => CheckInKeeps(s, t);
  }

  // ----- whole runs

  /** An idle thread calls an operation, or a busy one takes its next step. */
  datatype Action = Start(t: nat, op: Op) | Move(t: nat)

  ghost predicate Allowed(s: State, x: Action) {
    match x
    case Start(t, op) => t < |s.pcs| && s.pcs[t].Idle? && Last(op) < |s.cells|
    case Move(t) => Enabled(s, t)
  }

  ghost function Act(s: State, x: Action): (State, Event)
    requires Inv(s) && Allowed(s, x)
  {
    match x
    case Start(t, op) => (Put(s, t, LoadFirst(op)), Call(op))
    case Move(t) => Step(s, t)
  }

  lemma ActRefines(s: State, x: Action)
    requires Inv(s) && Allowed(s, x)
    ensures var (u, e) := Act(s, x); Inv(u) && Abs(u) == Apply(Abs(s), e) && Truthful(Abs(s), e)
  {
    match x
    case Move(t) => StepRefines(s, t);
    case Start(t, op) =>
      var u := Put(s, t, LoadFirst(op));
      assert forall h, c: nat :: 0 <= h < |u.pcs| ==> (Holds(u.pcs[h], c) <==> Holds(s.pcs[h], c));
      StartInv(s, t, op);
      forall c | 0 <= c < |s.cells|
        ensures Logical(u, c) == Logical(s, c)
      {
        if s.cells[c] == Null {
          var h :| 0 <= h < |s.pcs| && Holds(s.pcs[h], c);
          LogicalHeld(s, h);
          LogicalHeld(u, h);
        }
      }
  }

  lemma StartInv(s: State, t: nat, op: Op)
    requires Inv(s) && t < |s.pcs| && s.pcs[t].Idle? && Last(op) < |s.cells|
    ensures Inv(Put(s, t, LoadFirst(op)))
  {
    var u := Put(s, t, LoadFirst(op));
    forall c | 0 <= c < |u.cells| && u.cells[c] == Null
      ensures exists h :: 0 <= h < |u.pcs| && Holds(u.pcs[h], c)
    {
      var h :| 0 <= h < |s.pcs| && Holds(s.pcs[h], c);
      assert Holds(u.pcs[h], c);
    }
    assert forall h, c: nat :: 0 <= h < |u.pcs| && Holds(u.pcs[h], c) ==> Holds(s.pcs[h], c);
  }

  /** The states a run passes through, from s to the last. */
  ghost predicate Run(s: State, xs: seq<Action>, u: State, es: seq<Event>)
    decreases xs
  {
    Inv(s) && |es| == |xs| &&
    if xs == [] then u == s
    else Allowed(s, xs[0]) && Act(s, xs[0]).1 == es[0] && Run(Act(s, xs[0]).0, xs[1..], u, es[1..])
  }

  /** The plain cells after a list of events. */
  function Replay(m: seq<nat>, es: seq<Event>): seq<nat>
    decreases es
  {
    if es == [] then m else Replay(Apply(m, es[0]), es[1..])
  }

  predicate AllTruthful(m: seq<nat>, es: seq<Event>)
    decreases es
  {
    es == [] || (Truthful(m, es[0]) && AllTruthful(Apply(m, es[0]), es[1..]))
  }

  /**
   Every interleaving refines the plain cells: replaying its exchanges in the order of their
   linearization points gives the cells' values, and every read saw the value at its own point.
   */
  lemma {:induction false} RunRefines(s: State, xs: seq<Action>, u: State, es: seq<Event>)
    requires Run(s, xs, u, es)
    ensures Inv(u) && Abs(u) == Replay(Abs(s), es) && AllTruthful(Abs(s), es)
    decreases xs
  {
    hide Abs, Inv;
    if xs != [] {
      ActRefines(s, xs[0]);
      RunRefines(Act(s, xs[0]).0, xs[1..], u, es[1..]);
    }
  }

  lemma ExchangedPermutes(m: seq<nat>, i: nat, j: nat)
    requires i < |m| && j < |m|
    ensures multiset(Exchanged(m, i, j)) == multiset(m)
  {
  }

  lemma {:induction false} ReplayPermutes(m: seq<nat>, es: seq<Event>)
    ensures multiset(Replay(m, es)) == multiset(m)
    decreases es
  {
    if es != [] {
      if es[0].Exchange? && es[0].lo < |m| && es[0].hi < |m| { ExchangedPermutes(m, es[0].lo, es[0].hi); }
      ReplayPermutes(Apply(m, es[0]), es[1..]);
    }
  }

  ghost predicate Quiescent(s: State) {
    forall t :: 0 <= t < |s.pcs| ==> s.pcs[t].Idle?
  }

  predicate Full(cells: seq<Cell>) { forall c :: 0 <= c < |cells| ==> cells[c].Val? }

  function Contents(cells: seq<Cell>): seq<nat>
    requires Full(cells)
  {
    seq(|cells|, c requires 0 <= c < |cells| => cells[c].v)
  }

  /** Where runs start: full cells and idle threads. */
  lemma StartIsSound(s: State)
    requires Full(s.cells) && Quiescent(s)
    ensures Inv(s) && AllSettled(s) && Abs(s) == Contents(s.cells)
  {
    QuiescentCells(s);
  }

  /** With no operation under way every cell is full, and the contents are a permutation of the first ones. */
  lemma QuiescentPermutes(s: State, xs: seq<Action>, u: State, es: seq<Event>)
    requires Run(s, xs, u, es) && Quiescent(s) && Quiescent(u)
    ensures Full(s.cells) && Full(u.cells) && multiset(Contents(u.cells)) == multiset(Contents(s.cells))
  {
    hide Abs;
    RunRefines(s, xs, u, es);
    ReplayPermutes(Abs(s), es);
    QuiescentCells(s);
    QuiescentCells(u);
  }

  lemma QuiescentCells(s: State)
    requires Inv(s) && Quiescent(s)
    ensures Full(s.cells) && Abs(s) == Contents(s.cells)
  {
  }

  // ----- each operation takes effect once, between its call and its return

  datatype Phase = Quiet | Pending(op: Op, hit: bool) | Broken

  /** How far one thread's operation is, judged by its events alone. */
  function Advance(p: Phase, e: Event): Phase {
    match e
    case Tau => p
    case Call(op) => if p.Quiet? then Pending(op, false) else Broken
    case Exchange(i, j) =>
      if p.Pending? && !p.op.Get? && !p.hit && (i, j) == (First(p.op), Last(p.op)) then Pending(p.op, true) else Broken
    case Read(c, _) => if p.Pending? && p.op == Get(c) && !p.hit then Quiet else Broken
    case Return(ok) =>
      if p.Pending? && !p.op.Get? && p.hit == ok && (p.op.Swap? ==> ok) then Quiet else Broken
  }

  function PhaseOf(pc: Pc): Phase {
    if pc.Idle? then Quiet else Pending(pc.op, pc.CheckIn? && pc.ok)
  }

  /** A blocking swap never gives up once it holds its first cell. */
  predicate Settled(pc: Pc) { pc.CheckIn? && pc.op.Swap? ==> pc.ok }

  ghost predicate AllSettled(s: State) { forall t :: 0 <= t < |s.pcs| ==> Settled(s.pcs[t]) }

  function Phases(p: Phase, xs: seq<Action>, es: seq<Event>, t: nat): Phase
    requires |xs| == |es|
    decreases xs
  {
    if xs == [] then p else Phases(if xs[0].t == t then Advance(p, es[0]) else p, xs[1..], es[1..], t)
  }

  lemma ActAdvances(s: State, x: Action, t: nat)
    requires Inv(s) && Allowed(s, x) && AllSettled(s) && t < |s.pcs|
    ensures var (u, e) := Act(s, x);
            AllSettled(u) && |u.pcs| == |s.pcs| &&
            PhaseOf(u.pcs[t]) == if x.t == t then Advance(PhaseOf(s.pcs[t]), e) else PhaseOf(s.pcs[t])
  {
    assert SwapPc(s.pcs[t]);
  }

  /**
   In every run each thread's events read: call, at most one exchange of exactly the two cells it
   named, return; a swap returns after its one exchange, a failed TrySwap without any.
   */
  lemma {:induction false} RunPhases(s: State, xs: seq<Action>, u: State, es: seq<Event>, t: nat)
    requires Run(s, xs, u, es) && AllSettled(s) && t < |s.pcs|
    ensures |u.pcs| == |s.pcs| && Phases(PhaseOf(s.pcs[t]), xs, es, t) == PhaseOf(u.pcs[t])
    decreases xs
  {
    hide Inv, Advance, PhaseOf;
    if xs != [] {
      ActAdvances(s, xs[0], t);
      RunPhases(Act(s, xs[0]).0, xs[1..], u, es[1..], t);
    }
  }

  // ----- no deadlock

  /** Thread t run alone for up to k steps. */
  ghost function Solo(s: State, t: nat, k: nat): State
    decreases k
  {
    if k == 0 || !Enabled(s, t) || Last(s.pcs[t].op) >= |s.cells| then s else Solo(Step(s, t).0, t, k - 1)
  }

  /** Run alone, t completes its operation within k steps. */
  ghost predicate Finishes(s: State, t: nat, k: nat) {
    t < |Solo(s, t, k).pcs| && Solo(s, t, k).pcs[t].Idle?
  }

  ghost predicate Ready(s: State, t: nat) {
    Enabled(s, t) && Last(s.pcs[t].op) < |s.cells|
  }

  lemma CheckInFinishes(s: State, t: nat)
    requires Ready(s, t) && s.pcs[t].CheckIn?
    ensures Finishes(s, t, 1)
  {
    assert Solo(s, t, 1) == Solo(Step(s, t).0, t, 0);
  }

  lemma LoadLastFinishes(s: State, t: nat)
    requires Ready(s, t) && s.pcs[t].LoadLast? && s.cells[Last(s.pcs[t].op)].Val?
    ensures Finishes(s, t, 3)
  {
    var u := Step(s, t).0;
    CheckInFinishes(Step(u, t).0, t);
    assert Solo(s, t, 3) == Solo(u, t, 2) == Solo(Step(u, t).0, t, 1);
  }

  lemma SetLastFinishes(s: State, t: nat)
    requires Ready(s, t) && s.pcs[t].SetLast? && s.cells[Last(s.pcs[t].op)].Val?
    ensures Finishes(s, t, 2) || Finishes(s, t, 4)
  {
    var u := Step(s, t).0;
    if u.pcs[t].CheckIn? {
      CheckInFinishes(u, t);
      assert Solo(s, t, 2) == Solo(u, t, 1);
    } else {
      LoadLastFinishes(u, t);
      assert Solo(s, t, 4) == Solo(u, t, 3);
    }
  }

  /** A failed TrySwap on the cell it already holds puts the value back. */
  lemma TryLoadFinishes(s: State, t: nat)
    requires Ready(s, t) && s.pcs[t].LoadLast? && s.pcs[t].op.TrySwap?
    ensures Finishes(s, t, 2) || Finishes(s, t, 3)
  {
    if s.cells[Last(s.pcs[t].op)].Val? {
      LoadLastFinishes(s, t);
    } else {
      CheckInFinishes(Step(s, t).0, t);
      assert Solo(s, t, 2) == Solo(Step(s, t).0, t, 1);
    }
  }

  ghost predicate SoonDone(s: State, t: nat, n: nat) { exists k :: 0 <= k <= n && Finishes(s, t, k) }

  lemma SoonStep(s: State, t: nat, n: nat)
    requires Ready(s, t) && SoonDone(Step(s, t).0, t, n)
    ensures SoonDone(s, t, n + 1)
  {
    var k :| 0 <= k <= n && Finishes(Step(s, t).0, t, k);
    assert Solo(s, t, k + 1) == Solo(Step(s, t).0, t, k);
    assert Finishes(s, t, k + 1);
  }

  lemma HoldingFinishes(s: State, t: nat)
    requires Ready(s, t) && Holding(s.pcs[t])
    requires s.pcs[t].op.TrySwap? || s.cells[Last(s.pcs[t].op)].Val?
    ensures SoonDone(s, t, 4) && (s.pcs[t].LoadLast? ==> SoonDone(s, t, 3))
  {
    hide Solo;
    if s.pcs[t].CheckIn? {
      CheckInFinishes(s, t);
    } else if s.pcs[t].LoadLast? {
      if s.pcs[t].op.TrySwap? { TryLoadFinishes(s, t); } else { LoadLastFinishes(s, t); }
    } else if s.cells[Last(s.pcs[t].op)].Val? {
      SetLastFinishes(s, t);
    } else {
      CheckInFinishes(Step(s, t).0, t);
      assert SoonDone(Step(s, t).0, t, 1);
      SoonStep(s, t, 1);
    }
  }

  /** With every cell full, any pending operation finishes alone. */
  lemma FreeFinishes(s: State, t: nat)
    requires Ready(s, t) && Full(s.cells) && SwapPc(s.pcs[t]) && !Holding(s.pcs[t])
    requires s.pcs[t].op.Swap? ==> First(s.pcs[t].op) != Last(s.pcs[t].op)
    ensures SoonDone(s, t, 6) && (s.pcs[t].LoadFirst? ==> SoonDone(s, t, 5))
  {
    hide Solo, Finishes;
    if s.pcs[t].LoadFirst? {
      FirstFinishes(s, t);
    } else if s.cells[First(s.pcs[t].op)] == Val(s.pcs[t].v) {
      TakeFinishes(s, t);
    } else if s.pcs[t].op.TrySwap? {
      IdleFinishes(Step(s, t).0, t);
      SoonStep(s, t, 0);
    } else {
      FirstFinishes(Step(s, t).0, t);
      SoonStep(s, t, 5);
    }
  }

  lemma IdleFinishes(s: State, t: nat)
    requires t < |s.pcs| && s.pcs[t].Idle?
    ensures SoonDone(s, t, 0)
  {
    assert Finishes(s, t, 0);
  }

  lemma TakeFinishes(s: State, t: nat)
    requires Ready(s, t) && Full(s.cells) && s.pcs[t].TakeFirst? && s.cells[First(s.pcs[t].op)] == Val(s.pcs[t].v)
    requires s.pcs[t].op.TrySwap? || First(s.pcs[t].op) != Last(s.pcs[t].op)
    ensures SoonDone(s, t, 4)
  {
    hide Solo, Finishes;
    HoldingFinishes(Step(s, t).0, t);
    SoonStep(s, t, 3);
  }

  lemma FirstFinishes(s: State, t: nat)
    requires Ready(s, t) && Full(s.cells) && s.pcs[t].LoadFirst?
    requires s.pcs[t].op.Swap? ==> First(s.pcs[t].op) != Last(s.pcs[t].op)
    ensures SoonDone(s, t, 5)
  {
    hide Solo, Finishes;
    var u := Step(s, t).0;
    if s.pcs[t].op.Get? {
      IdleFinishes(u, t);
      SoonStep(s, t, 0);
    } else {
      TakeFinishes(u, t);
      SoonStep(s, t, 4);
    }
  }

  /** No thread swaps a cell with itself. */
  ghost predicate NoSelfSwap(s: State) {
    forall t :: 0 <= t < |s.pcs| && !s.pcs[t].Idle? && s.pcs[t].op.Swap? ==> s.pcs[t].op.a != s.pcs[t].op.b
  }

  /**
   Whenever an operation is pending, some thread with a pending operation completes it in at most
   six steps of its own: the holder of the highest empty cell, because cells are taken in order.
   */
  lemma NoDeadlock(s: State, busy: nat) returns (t: nat)
    requires Inv(s) && NoSelfSwap(s) && Enabled(s, busy)
    ensures Enabled(s, t) && SoonDone(s, t, 6)
  {
    hide Finishes, Solo;
    var c := |s.cells|;
    while c > 0 && s.cells[c - 1].Val?
      invariant 0 <= c <= |s.cells|
      invariant forall d :: c <= d < |s.cells| ==> s.cells[d].Val?
    {
      c := c - 1;
    }
    if c == 0 {
      t := busy;
      assert Taken(s) && SwapPc(s.pcs[t]);
      FreeFinishes(s, t);
    } else {
      assert s.cells[c - 1] == Null;
      t :| 0 <= t < |s.pcs| && Holds(s.pcs[t], c - 1);
      assert SwapPc(s.pcs[t]);
      HoldingFinishes(s, t);
      Weaken(s, t, 4, 6);
    }
  }

  lemma Weaken(s: State, t: nat, m: nat, n: nat)
    requires SoonDone(s, t, m) && m <= n
    ensures SoonDone(s, t, n)
  {
  }

  lemma SpinsOnce(s: State, x: Action, t: nat)
    requires Inv(s) && Allowed(s, x) && t < |s.pcs|
    requires s.pcs[t].LoadLast? && s.pcs[t].op.Swap? && s.pcs[t].op.a == s.pcs[t].op.b
    ensures t < |Act(s, x).0.pcs| && Act(s, x).0.pcs[t] == s.pcs[t]
  {
    assert Taken(s);
  }

  /** And the exclusion is exact: a cell swapped with itself, once checked out, is waited for forever. */
  lemma {:induction false} SelfSwapSpins(s: State, xs: seq<Action>, u: State, es: seq<Event>, t: nat)
    requires Run(s, xs, u, es) && t < |s.pcs|
    requires s.pcs[t].LoadLast? && s.pcs[t].op.Swap? && s.pcs[t].op.a == s.pcs[t].op.b
    ensures t < |u.pcs| && u.pcs[t] == s.pcs[t]
    decreases xs
  {
    hide Inv, Abs, Act;
    if xs != [] {
      ActRefines(s, xs[0]);
      SpinsOnce(s, xs[0], t);
      SelfSwapSpins(Act(s, xs[0]).0, xs[1..], u, es[1..], t);
    }
  }

  /** It comes to that from every state without pending operations, for every thread and cell. */
  lemma SelfSwapReached(s: State, t: nat, c: nat) returns (u: State, es: seq<Event>)
    requires Full(s.cells) && Quiescent(s) && t < |s.pcs| && c < |s.cells|
    ensures Run(s, [Start(t, Swap(c, c)), Move(t), Move(t)], u, es)
    ensures t < |u.pcs| && u.pcs[t] == LoadLast(Swap(c, c), s.cells[c].v)
  {
    hide Run, Abs, Inv;
    StartIsSound(s);
    ActRefines(s, Start(t, Swap(c, c)));
    var s1 := Act(s, Start(t, Swap(c, c))).0;
    ActRefines(s1, Move(t));
    var s2 := Act(s1, Move(t)).0;
    ActRefines(s2, Move(t));
    u := Act(s2, Move(t)).0;
    es := [Call(Swap(c, c)), Tau, Tau];
    assert [Start(t, Swap(c, c))] + [Move(t), Move(t)] == [Start(t, Swap(c, c)), Move(t), Move(t)];
    assert [Call(Swap(c, c))] + [Tau, Tau] == es && [Tau] + [Tau] == [Tau, Tau] && [Tau] + [] == [Tau];
    assert [Move(t)] + [Move(t)] == [Move(t), Move(t)] && [Move(t)] + [] == [Move(t)];
    RunEmpty(u);
    RunFirst(s2, Move(t), [], u, []);
    RunFirst(s1, Move(t), [Move(t)], u, [Tau]);
    RunFirst(s, Start(t, Swap(c, c)), [Move(t), Move(t)], u, [Tau, Tau]);
  }

  lemma RunEmpty(u: State)
    requires Inv(u)
    ensures Run(u, [], u, [])
  {
  }

  lemma RunFirst(s: State, x: Action, xs: seq<Action>, u: State, es: seq<Event>)
    requires Inv(s) && Allowed(s, x) && Run(Act(s, x).0, xs, u, es)
    ensures Run(s, [x] + xs, u, [Act(s, x).1] + es)
  {
    hide Inv, Act;
    assert ([x] + xs)[1..] == xs && ([Act(s, x).1] + es)[1..] == es;
  }

  /** Thread t alone takes its next step, which is e. */
  ghost predicate Goes(s: State, t: nat, u: State, e: Event) {
    Inv(s) && Enabled(s, t) && Last(s.pcs[t].op) < |s.cells| && Step(s, t) == (u, e)
  }

  lemma GoesOn(s: State, t: nat, u: State, e: Event, xs: seq<Action>, v: State, es: seq<Event>)
    requires Goes(s, t, u, e) && (Inv(u) ==> Run(u, xs, v, es))
    ensures Run(s, [Move(t)] + xs, v, [e] + es)
  {
    hide Run, Inv, Abs;
    ActRefines(s, Move(t));
    RunFirst(s, Move(t), xs, v, es);
  }

  /** Two different full cells, nothing under way: run alone, a swap exchanges them, and TrySwap succeeds as well. */
  lemma AloneSucceeds(s: State, t: nat, op: Op) returns (u: State)
    requires Full(s.cells) && Quiescent(s) && t < |s.pcs|
    requires !op.Get? && op.a != op.b && op.a < |s.cells| && op.b < |s.cells|
    ensures Run(s, [Start(t, op)] + [Move(t), Move(t), Move(t), Move(t), Move(t)], u,
                [Call(op)] + [Tau, Tau, Tau, Exchange(First(op), Last(op)), Return(true)])
    ensures Quiescent(u) && u.cells == s.cells[op.a := s.cells[op.b]][op.b := s.cells[op.a]]
  {
    hide Run, Abs, Inv;
    StartIsSound(s);
    ActRefines(s, Start(t, op));
    u := FinishesAlone(Put(s, t, LoadFirst(op)), t);
    RunFirst(s, Start(t, op), [Move(t), Move(t), Move(t), Move(t), Move(t)], u,
        [Tau, Tau, Tau, Exchange(First(op), Last(op)), Return(true)]);
  }

  lemma FinishesAlone(s: State, t: nat) returns (u: State)
    requires Inv(s) && Full(s.cells) && t < |s.pcs| && s.pcs[t].LoadFirst? && Last(s.pcs[t].op) < |s.cells|
    requires !s.pcs[t].op.Get? && s.pcs[t].op.a != s.pcs[t].op.b
    ensures var op := s.pcs[t].op;
            && Run(s, [Move(t), Move(t), Move(t), Move(t), Move(t)], u,
                   [Tau, Tau, Tau, Exchange(First(op), Last(op)), Return(true)])
            && u == State(s.cells[op.a := s.cells[op.b]][op.b := s.cells[op.a]], s.pcs[t := Idle])
  {
    hide Run, Abs, Inv;
    var op := s.pcs[t].op;
    var f, l := First(op), Last(op);
    var v, w := s.cells[f].v, s.cells[l].v;
    var s1 := Put(s, t, TakeFirst(op, v));
    var s2 := Write(Put(s1, t, LoadLast(op, v)), f, Null);
    var s3 := Put(s2, t, SetLast(op, v, w));
    Kept(s, t, s1, Tau);
    Kept(s1, t, s2, Tau);
    Kept(s2, t, s3, Tau);
    u := SetAndDone(s3, t);
    var m, x := Move(t), Exchange(f, l);
    Listed(m, m, m, m, m);
    Listed(Tau, Tau, Tau, x, Return(true));
    Listed(Tau, Tau, x, Return(true), Tau);
    Listed(Tau, x, Return(true), Tau, Tau);
    GoesOn(s2, t, s3, Tau, [m, m], u, [x, Return(true)]);
    GoesOn(s1, t, s2, Tau, [m, m, m], u, [Tau, x, Return(true)]);
    GoesOn(s, t, s1, Tau, [m, m, m, m], u, [Tau, Tau, x, Return(true)]);
  }

  lemma SetAndDone(s: State, t: nat) returns (u: State)
    requires Inv(s) && Ready(s, t) && s.pcs[t].SetLast? && s.cells[Last(s.pcs[t].op)] == Val(s.pcs[t].w)
    ensures var (op, v, w) := (s.pcs[t].op, s.pcs[t].v, s.pcs[t].w);
            && Run(s, [Move(t), Move(t)], u, [Exchange(First(op), Last(op)), Return(true)])
            && u == State(s.cells[Last(op) := Val(v)][First(op) := Val(w)], s.pcs[t := Idle])
  {
    hide Run, Abs, Inv;
    var op, v, w := s.pcs[t].op, s.pcs[t].v, s.pcs[t].w;
    var s4 := Write(Put(s, t, CheckIn(op, w, true)), Last(op), Val(v));
    u := Write(Put(s4, t, Idle), First(op), Val(w));
    Kept(s, t, s4, Exchange(First(op), Last(op)));
    Kept(s4, t, u, Return(true));
    RunEmpty(u);
    var m, x := Move(t), Exchange(First(op), Last(op));
    Listed(m, m, m, m, m);
    Listed(Return(true), Tau, Tau, Tau, Tau);
    Listed(x, Return(true), Tau, Tau, Tau);
    GoesOn(s4, t, u, Return(true), [], u, []);
    GoesOn(s, t, s4, x, [m], u, [Return(true)]);
  }

  lemma Listed<T>(a: T, b: T, c: T, d: T, e: T)
    ensures [a] + [] == [a] && [a] + [b] == [a, b] && [a] + [b, c] == [a, b, c]
    ensures [a] + [b, c, d] == [a, b, c, d] && [a] + [b, c, d, e] == [a, b, c, d, e]
  {
  }

  lemma Kept(s: State, t: nat, u: State, e: Event)
    requires Goes(s, t, u, e)
    ensures Inv(u)
  {
    hide Inv, Abs;
    ActRefines(s, Move(t));
  }
}
