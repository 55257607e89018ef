/**
 Canneal's routing cost: the change of cost that the annealer computes from the two elements it
 wants to exchange, against the cost of the whole netlist before and after.
 */
module Netlist {

  datatype Location = Location(x: int, y: int)

  /** Elements point to others by their place in the netlist. */
  datatype Elem = Elem(name: string, fanin: seq<nat>, fanout: seq<nat>, loc: Location)

  type Net = seq<Elem>

  function Fabs(d: int): int { if d < 0 then -d else d }

  function Dist(p: Location, q: Location): int { Fabs(p.x - q.x) + Fabs(p.y - q.y) }

  ghost predicate InRange(net: Net, s: seq<nat>) { forall k :: 0 <= k < |s| ==> s[k] < |net| }

  function Count(s: seq<nat>, x: nat): nat {
    if s == [] then 0 else Count(s[..|s| - 1], x) + (if s[|s| - 1] == x then 1 else 0)
  }

  /** Summed distance from p to the elements listed in s. */
  ghost function Cost(net: Net, s: seq<nat>, p: Location): int
    requires InRange(net, s)
  {
    if s == [] then 0 else Cost(net, s[..|s| - 1], p) + Dist(p, net[s[|s| - 1]].loc)
  }

  ghost predicate Closed(net: Net) {
    forall i :: 0 <= i < |net| ==> InRange(net, net[i].fanin) && InRange(net, net[i].fanout)
  }

  function Links(e: Elem): seq<nat> { e.fanin + e.fanout }

  /** Fanin and fanout lists agree, linked elements are named, nothing is linked to itself. */
  ghost predicate Consistent(net: Net) {
    && Closed(net)
    && (forall i, j :: 0 <= i < |net| && 0 <= j < |net| ==> Count(net[i].fanin, j) == Count(net[j].fanout, i))
    && (forall i :: 0 <= i < |net| && Links(net[i]) != [] ==> net[i].name != "")
    && (forall i :: 0 <= i < |net| ==> Count(Links(net[i]), i) == 0)
  }

  // ----- the code

  /** netlist_elem::routing_cost_given_loc */
  method RoutingCostGivenLoc(net: Net, e: Elem, loc: Location) returns (total: int)
    requires InRange(net, e.fanin) && InRange(net, e.fanout)
    ensures total == Cost(net, e.fanin, loc) + Cost(net, e.fanout, loc)
  {
    var faninCost := SumDistances(net, e.fanin, loc);
    var fanoutCost := SumDistances(net, e.fanout, loc);
    return faninCost + fanoutCost;
  }

  method SumDistances(net: Net, s: seq<nat>, loc: Location) returns (cost: int)
    requires InRange(net, s)
    ensures cost == Cost(net, s, loc)
  {
    cost := 0;
    for i := 0 to |s|
      invariant cost == Cost(net, s[..i], loc)
    {
      assert s[..i + 1][..i] == s[..i];
      cost := cost + Fabs(loc.x - net[s[i]].loc.x);
      cost := cost + Fabs(loc.y - net[s[i]].loc.y);
    }
    assert s[..|s|] == s;
  }

  ghost function SwapCostOf(net: Net, e: Elem, from: Location, to: Location): int
    requires InRange(net, e.fanin) && InRange(net, e.fanout)
  {
    Cost(net, e.fanin, to) + Cost(net, e.fanout, to) - (Cost(net, e.fanin, from) + Cost(net, e.fanout, from))
  }

  /** netlist_elem::swap_cost */
  method SwapCost(net: Net, e: Elem, oldLoc: Location, newLoc: Location) returns (delta: int)
    requires InRange(net, e.fanin) && InRange(net, e.fanout)
    ensures delta == SwapCostOf(net, e, oldLoc, newLoc)
  {
    var noSwap, yesSwap := SumBoth(net, e.fanin, oldLoc, newLoc);
    var noOut, yesOut := SumBoth(net, e.fanout, oldLoc, newLoc);
    return (yesSwap + yesOut) - (noSwap + noOut);
  }

  /** One of the two loops of swap_cost: the distances from the old and from the new place. */
  method SumBoth(net: Net, s: seq<nat>, oldLoc: Location, newLoc: Location) returns (noSwap: int, yesSwap: int)
    requires InRange(net, s)
    ensures noSwap == Cost(net, s, oldLoc) && yesSwap == Cost(net, s, newLoc)
  {
    noSwap, yesSwap := 0, 0;
    for i := 0 to |s|
      invariant noSwap == Cost(net, s[..i], oldLoc) && yesSwap == Cost(net, s[..i], newLoc)
    {
      assert s[..i + 1][..i] == s[..i];
      var there := net[s[i]].loc;
      noSwap := noSwap + Fabs(oldLoc.x - there.x) + Fabs(oldLoc.y - there.y);
      yesSwap := yesSwap + Fabs(newLoc.x - there.x) + Fabs(newLoc.y - there.y);
    }
    assert s[..|s|] == s;
  }

  ghost function Delta(net: Net, a: nat, b: nat): int
    requires Closed(net) && a < |net| && b < |net|
  {
    SwapCostOf(net, net[a], net[a].loc, net[b].loc) + SwapCostOf(net, net[b], net[b].loc, net[a].loc)
  }

  ghost function Own(net: Net, i: nat): int
    requires Closed(net) && i < |net|
  {
    if net[i].name == "" then 0 else Cost(net, net[i].fanin, net[i].loc) + Cost(net, net[i].fanout, net[i].loc)
  }

  ghost function OwnSum(net: Net, n: nat): int
    requires Closed(net) && n <= |net|
  {
    if n == 0 then 0 else OwnSum(net, n - 1) + Own(net, n - 1)
  }

  ghost function Total(net: Net): real
    requires Closed(net)
  {
    OwnSum(net, |net|) as real / 2.0
  }

  /** netlist::total_routing_cost: named elements only, each net counted from both ends. */
  method TotalRoutingCost(net: Net) returns (rval: real)
    requires Closed(net)
    ensures rval == Total(net)
  {
    var sum := 0;
    for i := 0 to |net|
      invariant sum == OwnSum(net, i)
    {
      if |net[i].name| > 0 {
        var c := RoutingCostGivenLoc(net, net[i], net[i].loc);
        sum := sum + c;
      }
    }
    return sum as real / 2.0;
  }

  /** The snapshot with the locations of a and b exchanged. */
  function Exchanged(net: Net, a: nat, b: nat): Net
    requires a < |net| && b < |net|
  {
    net[a := net[a].(loc := net[b].loc)][b := net[b].(loc := net[a].loc)]
  }

  // ----- how exchanging a and b changes each element's own cost

  lemma {:induction false} CostChange(net: Net, a: nat, b: nat, s: seq<nat>, p: Location)
    requires a < |net| && b < |net| && a != b && InRange(net, s)
    ensures InRange(Exchanged(net, a, b), s)
    ensures Cost(Exchanged(net, a, b), s, p) - Cost(net, s, p) ==
            (Count(s, a) - Count(s, b)) * (Dist(p, net[b].loc) - Dist(p, net[a].loc))
  {
    if s != [] {
      hide Dist;
      var r, x := s[..|s| - 1], s[|s| - 1];
      CostChange(net, a, b, r, p);
      var g := Dist(p, net[b].loc) - Dist(p, net[a].loc);
      var m := Count(r, a) - Count(r, b);
      OneMore(m, g);
      assert Cost(Exchanged(net, a, b), s, p) - Cost(net, s, p) ==
             m * g + (if x == a then g else if x == b then -g else 0);
      assert Count(s, a) - Count(s, b) == m + (if x == a then 1 else if x == b then -1 else 0);
    }
  }

  lemma OneMore(m: int, g: int)
    ensures (m + 1) * g == m * g + g && (m + -1) * g == m * g - g && (m + 0) * g == m * g
  {
  }

  lemma {:induction false} CostAppend(net: Net, s: seq<nat>, t: seq<nat>, p: Location)
    requires InRange(net, s) && InRange(net, t)
    ensures InRange(net, s + t) && Cost(net, s + t, p) == Cost(net, s, p) + Cost(net, t, p)
  {
    if t == [] {
      assert s + t == s;
    } else {
      CostAppend(net, s, t[..|t| - 1], p);
      assert (s + t)[..|s + t| - 1] == s + t[..|t| - 1];
    }
  }

  lemma {:induction false} CountAppend(s: seq<nat>, t: seq<nat>, x: nat)
    ensures Count(s + t, x) == Count(s, x) + Count(t, x)
  {
    if t == [] {
      assert s + t == s;
    } else {
      CountAppend(s, t[..|t| - 1], x);
      assert (s + t)[..|s + t| - 1] == s + t[..|t| - 1];
    }
  }

  /** What element x, other than a and b, loses or gains if a link to it moves from a's place to b's. */
  ghost function Gain(net: Net, a: nat, b: nat, x: nat): int
    requires a < |net| && b < |net| && x < |net|
  {
    if x == a || x == b then 0 else Dist(net[b].loc, net[x].loc) - Dist(net[a].loc, net[x].loc)
  }

  ghost function GainOver(net: Net, a: nat, b: nat, s: seq<nat>): int
    requires a < |net| && b < |net| && InRange(net, s)
  {
    if s == [] then 0 else GainOver(net, a, b, s[..|s| - 1]) + Gain(net, a, b, s[|s| - 1])
  }

  /** Element i's part in that sum, over all links to it. */
  ghost function Share(net: Net, a: nat, b: nat, s: seq<nat>, i: nat): int
    requires a < |net| && b < |net| && i < |net|
  {
    Count(s, i) * Gain(net, a, b, i)
  }

  /** The same sum, element by element of the netlist instead of link by link. */
  ghost function GainByElement(net: Net, a: nat, b: nat, s: seq<nat>, n: nat): int
    requires a < |net| && b < |net| && n <= |net|
  {
    if n == 0 then 0 else GainByElement(net, a, b, s, n - 1) + Share(net, a, b, s, n - 1)
  }

  lemma {:induction false} GainByElementExtend(net: Net, a: nat, b: nat, s: seq<nat>, n: nat)
    requires a < |net| && b < |net| && n <= |net| && s != [] && s[|s| - 1] < |net|
    ensures GainByElement(net, a, b, s, n) ==
            GainByElement(net, a, b, s[..|s| - 1], n) + (if s[|s| - 1] < n then Gain(net, a, b, s[|s| - 1]) else 0)
  {
    hide Gain;
    if n > 0 {
      GainByElementExtend(net, a, b, s, n - 1);
      OneMore(Count(s[..|s| - 1], n - 1), Gain(net, a, b, n - 1));
      if s[|s| - 1] == n - 1 {
        assert Count(s, n - 1) == Count(s[..|s| - 1], n - 1) + 1;
      } else {
        assert Count(s, n - 1) == Count(s[..|s| - 1], n - 1);
      }
    }
  }

  lemma {:induction false} GainEmpty(net: Net, a: nat, b: nat, n: nat)
    requires a < |net| && b < |net| && n <= |net|
    ensures GainByElement(net, a, b, [], n) == 0
  {
    if n > 0 { GainEmpty(net, a, b, n - 1); }
  }

  lemma {:induction false} GainCountedTwice(net: Net, a: nat, b: nat, s: seq<nat>)
    requires a < |net| && b < |net| && InRange(net, s)
    ensures GainOver(net, a, b, s) == GainByElement(net, a, b, s, |net|)
  {
    if s == [] {
      GainEmpty(net, a, b, |net|);
    } else {
      GainCountedTwice(net, a, b, s[..|s| - 1]);
      GainByElementExtend(net, a, b, s, |net|);
    }
  }

  lemma {:induction false} SwapCostGain(net: Net, a: nat, b: nat, s: seq<nat>)
    requires a < |net| && b < |net| && a != b && InRange(net, s) && Count(s, a) == 0
    ensures Cost(net, s, net[b].loc) - Cost(net, s, net[a].loc) ==
            GainOver(net, a, b, s) - Count(s, b) * Dist(net[a].loc, net[b].loc)
  {
    if s != [] {
      var r, x := s[..|s| - 1], s[|s| - 1];
      SwapCostGain(net, a, b, r);
      OneMore(Count(r, b), Dist(net[a].loc, net[b].loc));
      assert x != a;
      if x == b {
        assert Count(s, b) == Count(r, b) + 1;
        assert Dist(net[b].loc, net[b].loc) == 0;
      } else {
        assert Count(s, b) == Count(r, b);
      }
    }
  }

  lemma {:induction false} GainAntisymmetric(net: Net, a: nat, b: nat, s: seq<nat>)
    requires a < |net| && b < |net| && InRange(net, s)
    ensures GainOver(net, b, a, s) == -GainOver(net, a, b, s)
  {
    if s != [] { GainAntisymmetric(net, a, b, s[..|s| - 1]); }
  }

  // ----- and adding it all up

  ghost predicate Pair(net: Net, a: nat, b: nat) { Consistent(net) && a < |net| && b < |net| && a != b }

  /** How many nets join a and b. */
  ghost function Joining(net: Net, a: nat, b: nat): nat
    requires a < |net|
  {
    Count(Links(net[a]), b)
  }

  lemma LinksSymmetric(net: Net, i: nat, j: nat)
    requires Consistent(net) && i < |net| && j < |net|
    ensures InRange(net, Links(net[i])) && Count(Links(net[i]), j) == Count(Links(net[j]), i)
  {
    CountAppend(net[i].fanin, net[i].fanout, j);
    CountAppend(net[j].fanin, net[j].fanout, i);
  }

  lemma LinksCost(net: Net, e: Elem, p: Location)
    requires InRange(net, e.fanin) && InRange(net, e.fanout)
    ensures InRange(net, Links(e)) && Cost(net, e.fanin, p) + Cost(net, e.fanout, p) == Cost(net, Links(e), p)
  {
    CostAppend(net, e.fanin, e.fanout, p);
  }

  lemma DistSymmetric(p: Location, q: Location)
    ensures Dist(p, q) == Dist(q, p) && Dist(p, p) == 0
  {
  }

  /** What swap_cost sees: the gain over the other elements, less one distance per joining net. */
  lemma SwapCostIs(net: Net, a: nat, b: nat)
    requires Pair(net, a, b)
    ensures InRange(net, Links(net[a]))
    ensures SwapCostOf(net, net[a], net[a].loc, net[b].loc) ==
            GainOver(net, a, b, Links(net[a])) - Joining(net, a, b) * Dist(net[a].loc, net[b].loc)
  {
    LinksCost(net, net[a], net[a].loc);
    LinksCost(net, net[a], net[b].loc);
    SwapCostGain(net, a, b, Links(net[a]));
  }

  lemma ExchangedClosed(net: Net, a: nat, b: nat)
    requires Pair(net, a, b)
    ensures Closed(Exchanged(net, a, b))
  {
  }

  lemma OwnIs(net: Net, i: nat)
    requires Consistent(net) && i < |net|
    ensures InRange(net, Links(net[i])) && Own(net, i) == Cost(net, Links(net[i]), net[i].loc)
  {
    LinksCost(net, net[i], net[i].loc);
  }

  lemma OwnExchanged(net: Net, a: nat, b: nat, i: nat)
    requires Pair(net, a, b) && i < |net|
    ensures var ex := Exchanged(net, a, b);
            Closed(ex) && InRange(ex, Links(net[i])) && Own(ex, i) == Cost(ex, Links(net[i]), ex[i].loc)
  {
    ExchangedClosed(net, a, b);
    LinksCost(Exchanged(net, a, b), net[i], Exchanged(net, a, b)[i].loc);
  }

  /** An element other than a and b feels only its links to them. */
  lemma OwnChangeOther(net: Net, a: nat, b: nat, i: nat)
    requires Pair(net, a, b) && i < |net| && i != a && i != b
    ensures Closed(Exchanged(net, a, b))
    ensures Own(Exchanged(net, a, b), i) - Own(net, i) ==
            Count(Links(net[a]), i) * Gain(net, a, b, i) - Count(Links(net[b]), i) * Gain(net, a, b, i)
  {
    hide Consistent;
    OwnIs(net, i);
    OwnExchanged(net, a, b, i);
    CostChange(net, a, b, Links(net[i]), net[i].loc);
    LinksSymmetric(net, i, a);
    LinksSymmetric(net, i, b);
    DistSymmetric(net[i].loc, net[a].loc);
    DistSymmetric(net[i].loc, net[b].loc);
    Distribute(Count(Links(net[a]), i), Count(Links(net[b]), i), Gain(net, a, b, i));
  }

  lemma Distribute(m: int, n: int, g: int)
    ensures (m - n) * g == m * g - n * g
  {
  }

  /** A swapped element itself gains over its other links; its links to the partner keep their length. */
  lemma OwnChangeSelf(net: Net, a: nat, b: nat)
    requires Pair(net, a, b)
    ensures Closed(Exchanged(net, a, b)) && InRange(net, Links(net[a]))
    ensures Own(Exchanged(net, a, b), a) - Own(net, a) == GainOver(net, a, b, Links(net[a]))
  {
    OwnIs(net, a);
    OwnExchanged(net, a, b, a);
    NoSelfLinks(net, a);
    ExchangedAt(net, a, b);
    hide Consistent, Links, Exchanged, Own;
    var l := Links(net[a]);
    CostAtPartner(net, a, b, l);
    SwapCostGain(net, a, b, l);
  }

  lemma NoSelfLinks(net: Net, a: nat)
    requires Consistent(net) && a < |net|
    ensures Count(Links(net[a]), a) == 0
  {
    CountAppend(net[a].fanin, net[a].fanout, a);
  }

  lemma ExchangedAt(net: Net, a: nat, b: nat)
    requires a < |net| && b < |net| && a != b
    ensures Exchanged(net, a, b)[a].loc == net[b].loc
  {
  }

  /** Seen from b's place, the links that a has to b get longer by the distance when a and b change places. */
  lemma CostAtPartner(net: Net, a: nat, b: nat, l: seq<nat>)
    requires a < |net| && b < |net| && a != b && InRange(net, l) && Count(l, a) == 0
    ensures InRange(Exchanged(net, a, b), l)
    ensures Cost(Exchanged(net, a, b), l, net[b].loc) - Cost(net, l, net[b].loc) ==
            Count(l, b) * Dist(net[a].loc, net[b].loc)
  {
    hide Exchanged, Cost, InRange;
    CostChange(net, a, b, l, net[b].loc);
    DistSymmetric(net[a].loc, net[b].loc);
    DistSymmetric(net[b].loc, net[b].loc);
    NegNeg(Count(l, b), Dist(net[a].loc, net[b].loc));
  }

  lemma NegNeg(m: int, d: int)
    ensures m * (0 - d) == -(m * d) && 0 * (0 - d) == 0
  {
  }

  lemma ExchangeCommutes(net: Net, a: nat, b: nat)
    requires a < |net| && b < |net| && a != b
    ensures Exchanged(net, a, b) == Exchanged(net, b, a)
  {
  }

  ghost function Shift(net: Net, a: nat, b: nat): int
    requires Pair(net, a, b)
  {
    LinksSymmetric(net, a, b);
    GainOver(net, a, b, Links(net[a]))
  }

  /** What element i's own cost changes by. */
  lemma OwnChange(net: Net, a: nat, b: nat, i: nat)
    requires Pair(net, a, b) && i < |net|
    ensures Closed(Exchanged(net, a, b))
    ensures Own(Exchanged(net, a, b), i) - Own(net, i) ==
            (if i == a then Shift(net, a, b) else 0) + (if i == b then Shift(net, b, a) else 0) +
            Share(net, a, b, Links(net[a]), i) - Share(net, a, b, Links(net[b]), i)
  {
    hide Consistent, Exchanged, Own, Links, Count, GainOver;
    if i == a {
      OwnChangeSelf(net, a, b);
    } else if i == b {
      ExchangeCommutes(net, a, b);
      OwnChangeSelf(net, b, a);
    } else {
      OwnChangeOther(net, a, b, i);
    }
  }

  lemma {:induction false} SumChange(net: Net, a: nat, b: nat, n: nat)
    requires Pair(net, a, b) && n <= |net|
    ensures Closed(Exchanged(net, a, b))
    ensures OwnSum(Exchanged(net, a, b), n) - OwnSum(net, n) ==
            (if a < n then Shift(net, a, b) else 0) + (if b < n then Shift(net, b, a) else 0) +
            GainByElement(net, a, b, Links(net[a]), n) - GainByElement(net, a, b, Links(net[b]), n)
  {
    hide Consistent, Own, Share, Shift, Links, Exchanged;
    ExchangedClosed(net, a, b);
    ExchangedLength(net, a, b);
    if n > 0 {
      SumChange(net, a, b, n - 1);
      OwnChange(net, a, b, n - 1);
    }
  }

  /**
   The annealer's delta is the true change of the total cost, less twice the distance for every
   net that joins the two elements; so it is exact precisely if no net joins them or they are at
   the same place.
   */
  lemma DeltaExact(net: Net, a: nat, b: nat)
    requires Pair(net, a, b)
    ensures Closed(Exchanged(net, a, b))
    ensures Delta(net, a, b) as real ==
            Total(Exchanged(net, a, b)) - Total(net) - (2 * Joining(net, a, b) * Dist(net[a].loc, net[b].loc)) as real
    ensures Delta(net, a, b) as real == Total(Exchanged(net, a, b)) - Total(net) <==>
            Joining(net, a, b) == 0 || net[a].loc == net[b].loc
  {
    hide Own, OwnSum, Exchanged, SwapCostOf, Count, GainOver, GainByElement;
    SumChange(net, a, b, |net|);
    LinksSymmetric(net, a, b);
    LinksSymmetric(net, b, a);
    GainCountedTwice(net, a, b, Links(net[a]));
    GainCountedTwice(net, a, b, Links(net[b]));
    GainAntisymmetric(net, a, b, Links(net[b]));
    SwapCostIs(net, a, b);
    SwapCostIs(net, b, a);
    var m, d := Joining(net, a, b), Dist(net[a].loc, net[b].loc);
    DistSymmetric(net[a].loc, net[b].loc);
    Twice(m, d);
    Apart(net[a].loc, net[b].loc);
    assert Joining(net, b, a) == m;
    assert |Exchanged(net, a, b)| == |net| by { ExchangedLength(net, a, b); }
    assert OwnSum(Exchanged(net, a, b), |net|) - OwnSum(net, |net|) == 2 * (Shift(net, a, b) + Shift(net, b, a));
    assert Delta(net, a, b) == Shift(net, a, b) + Shift(net, b, a) - 2 * (m * d);
  }

  lemma ExchangedLength(net: Net, a: nat, b: nat)
    requires a < |net| && b < |net|
    ensures |Exchanged(net, a, b)| == |net|
  {
  }

  lemma Twice(m: nat, d: int)
    ensures 2 * m * d == 2 * (m * d) && (m * d == 0 <==> m == 0 || d == 0)
  {
  }

  lemma Apart(p: Location, q: Location)
    ensures Dist(p, q) == 0 <==> p == q
  {
  }

  /** annealer_thread::calculate_delta_routing_cost */
  method CalculateDeltaRoutingCost(net: Net, a: nat, b: nat) returns (delta: int)
    requires Pair(net, a, b)
    ensures Closed(Exchanged(net, a, b))
    ensures delta as real ==
            Total(Exchanged(net, a, b)) - Total(net) - (2 * Joining(net, a, b) * Dist(net[a].loc, net[b].loc)) as real
  {
    hide SwapCostOf, Total, Exchanged, Joining, Dist;
    DeltaExact(net, a, b);
    delta := SwapCost(net, net[a], net[a].loc, net[b].loc);
    var more := SwapCost(net, net[b], net[b].loc, net[a].loc);
    delta := delta + more;
  }

  /** Two elements joined by one net. */
  function Couple(p: Location, q: Location): Net { [Elem("a", [], [1], p), Elem("b", [0], [], q)] }

  /** Two such elements a step apart. */
  function Joined(): Net { Couple(Location(0, 0), Location(1, 0)) }

  lemma CoupleConsistent(p: Location, q: Location)
    ensures Pair(Couple(p, q), 0, 1) && Joining(Couple(p, q), 0, 1) == 1
  {
    var net := Couple(p, q);
    assert Links(net[0]) == [1] && Links(net[1]) == [0];
    CountOne(0);
    CountOne(1);
  }

  lemma CoupleTotal(p: Location, q: Location)
    ensures Closed(Couple(p, q)) && Total(Couple(p, q)) == Dist(p, q) as real
  {
    var net := Couple(p, q);
    assert Closed(net);
    CostOne(net, 1, p);
    CostOne(net, 0, q);
    DistSymmetric(p, q);
    hide Cost, Dist;
    assert OwnSum(net, 2) == OwnSum(net, 0) + Own(net, 0) + Own(net, 1);
    NoCost(net, p);
    NoCost(net, q);
  }

  lemma CostOne(net: Net, x: nat, p: Location)
    requires x < |net|
    ensures InRange(net, [x]) && Cost(net, [x], p) == Dist(p, net[x].loc)
  {
    assert [x][..0] == [];
  }

  lemma NoCost(net: Net, p: Location)
    ensures Cost(net, [], p) == 0
  {
  }

  lemma CountOne(x: nat)
    ensures forall y :: Count([x], y) == if x == y then 1 else 0
  {
    assert forall y :: Count([x][..0], y) == 0;
  }

  /** They change places, and nothing else changes. */
  lemma JoinedExchanged()
    ensures Exchanged(Joined(), 0, 1) == Couple(Location(1, 0), Location(0, 0))
    ensures Dist(Joined()[0].loc, Joined()[1].loc) == 1
  {
  }

  lemma JoinedTotals()
    ensures Closed(Joined()) && Closed(Exchanged(Joined(), 0, 1))
    ensures Total(Exchanged(Joined(), 0, 1)) == Total(Joined())
  {
    hide Total, Closed, Exchanged, Dist, Couple;
    var p, q := Location(0, 0), Location(1, 0);
    JoinedExchanged();
    CoupleTotal(p, q);
    CoupleTotal(q, p);
    DistSymmetric(p, q);
  }

  /** Exchanging them changes nothing, but the annealer sees the cost fall by two. */
  lemma JoinedMisjudged()
    ensures Pair(Joined(), 0, 1) && Closed(Exchanged(Joined(), 0, 1))
    ensures Total(Exchanged(Joined(), 0, 1)) == Total(Joined()) && Delta(Joined(), 0, 1) == -2
  {
    hide Total, Delta, Consistent, Closed, Exchanged, Joining, Dist;
    CoupleConsistent(Location(0, 0), Location(1, 0));
    JoinedTotals();
    JoinedExchanged();
    DeltaExact(Joined(), 0, 1);
    Product(Joining(Joined(), 0, 1), Dist(Joined()[0].loc, Joined()[1].loc));
  }

  lemma Product(m: int, d: int)
    requires m == 1 && d == 1
    ensures 2 * m * d == 2
  {
  }

  // ----- the distance is that of a walk along the grid

  predicate Beside(p: Location, q: Location) {
    || (p.y == q.y && (p.x + 1 == q.x || q.x + 1 == p.x))
    || (p.x == q.x && (p.y + 1 == q.y || q.y + 1 == p.y))
  }

  /** One step at a time. */
  ghost predicate Walk(path: seq<Location>) {
    path != [] && forall i :: 0 <= i < |path| - 1 ==> Beside(path[i], path[i + 1])
  }

  /** No walk is shorter than the distance. */
  lemma {:induction false} NoShorterWalk(path: seq<Location>)
    requires Walk(path)
    ensures Dist(path[0], path[|path| - 1]) <= |path| - 1
    decreases |path|
  {
    if |path| > 1 {
      var n := |path| - 1;
      NoShorterWalk(path[..n]);
      assert Beside(path[n - 1], path[n]);
    }
  }

  /** And some walk is as short. */
  lemma {:induction false} ShortestWalk(p: Location, q: Location) returns (path: seq<Location>)
    ensures Walk(path) && path[0] == p && path[|path| - 1] == q && |path| - 1 == Dist(p, q)
    decreases Dist(p, q)
  {
    if p == q {
      path := [p];
    } else {
      var next := if p.x < q.x then Location(p.x + 1, p.y) else if q.x < p.x then Location(p.x - 1, p.y)
                  else if p.y < q.y then Location(p.x, p.y + 1) else Location(p.x, p.y - 1);
      var rest := ShortestWalk(next, q);
      path := [p] + rest;
      assert Beside(p, next);
      assert forall i :: 1 <= i < |path| - 1 ==> path[i] == rest[i - 1] && path[i + 1] == rest[i];
    }
  }
}
