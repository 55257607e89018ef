/** Whole runs of the reservation manager: where the price and the units of a row come from, and so a bill. */
module VacationRuns {
  import opened Vacation

  /** How many units an operation would add to a row. */
  function Supply(op: Op, k: Kind, id: int): int {
    if op.Add? && op.kind == k && op.id == id then op.num
    else if op.Delete? && op.kind == k && op.id == id then -op.num
    else 0
  }

  /** Units are accepted unless more are taken away than are free. */
  predicate Accepts(s: Books, op: Op, k: Kind, id: int) {
    |s.tables| == 3 && id in s.tables[k] ==> s.tables[k][id].free + Supply(op, k, id) >= 0
  }

  /** One operation: it leaves price and total of a row alone but for units it adds, and only an Add makes a row. */
  lemma RowStep(s: Books, op: Op, t: Books, k: Kind, id: int)
    requires Happens(s, op, t) && id in t.tables[k]
    ensures if id in s.tables[k]
            then && t.tables[k][id].price == s.tables[k][id].price
                 && t.tables[k][id].total == s.tables[k][id].total +
                      (if Accepts(s, op, k, id) then Supply(op, k, id) else 0)
            else op.Add? && op.kind == k && op.id == id && op.price == t.tables[k][id].price &&
                 op.num == t.tables[k][id].total
  {
    hide ToKey, KindOf, IdOf, Found, AddReservation, Reserve, DeleteFlight, GaveBack;
    match op
    case Add(j, jd, num, price) => SupplyStep(s, j, jd, num, price, k, id);
    case Delete(j, jd, num) => SupplyStep(s, j, jd, -num, -1, k, id);
    case DropFlight(jd) => DropStep(s, jd, k, id);
    case Hire(c, j, jd) => HireStep(s, c, j, jd, k, id);
    case Enroll(c) =>
    case Leave(c) => if c in s.customers { LeaveStep(s, c, t, k, id); }
  }

  lemma SupplyStep(s: Books, j: Kind, jd: int, num: int, price: int, k: Kind, id: int)
    requires Shaped(s)
    ensures var t := AddReservation(s, j, jd, num, price).0;
            id in t.tables[k] ==>
              if id in s.tables[k]
              then && t.tables[k][id].price == s.tables[k][id].price
                   && t.tables[k][id].total == s.tables[k][id].total +
                        (if j == k && jd == id && s.tables[k][id].free + num >= 0 then num else 0)
              else j == k && jd == id && price == t.tables[k][id].price && num == t.tables[k][id].total && price >= 0
  {
  }

  /** The row was there, with the same price and as many units. */
  predicate SameOffer(s: Books, t: Books, k: Kind, id: int)
    requires Shaped(s) && Shaped(t) && id in t.tables[k]
  {
    && id in s.tables[k] && t.tables[k][id].price == s.tables[k][id].price
    && t.tables[k][id].total == s.tables[k][id].total
  }

  lemma DropStep(s: Books, jd: int, k: Kind, id: int)
    requires Shaped(s)
    ensures var t := DeleteFlight(s, jd).0;
            id in t.tables[k] ==> id in s.tables[k] && t.tables[k][id] == s.tables[k][id]
  {
  }

  lemma HireStep(s: Books, c: int, j: Kind, jd: int, k: Kind, id: int)
    requires Shaped(s)
    ensures var t := Reserve(s, c, j, jd).0;
            Shaped(t) && (id in t.tables[k] ==> SameOffer(s, t, k, id))
  {
    hide ToKey;
  }

  lemma LeaveStep(s: Books, c: int, t: Books, k: Kind, id: int)
    requires Shaped(s) && Shaped(t) && c in s.customers && LeavesWith(s, c, t)
    ensures id in t.tables[k] ==> SameOffer(s, t, k, id)
  {
    hide ToKey, Found;
  }

  /** Operation i has made the row, and it has been there ever since, up to operation n. */
  ghost predicate MadeBy(ops: seq<Op>, ss: seq<Books>, n: nat, k: Kind, id: int, i: int)
    requires Trace(ops, ss) && n <= |ops|
  {
    && 0 <= i < n && ops[i].Add? && ops[i].kind == k && ops[i].id == id
    && |ss[i].tables| == 3 && id !in ss[i].tables[k]
    && forall j :: i < j <= n ==> |ss[j].tables| == 3 && id in ss[j].tables[k]
  }

  /** All units accepted for the row by operations i up to n. */
  ghost function UnitsSince(ops: seq<Op>, ss: seq<Books>, n: nat, k: Kind, id: int, i: nat): int
    requires Trace(ops, ss) && i <= n <= |ops|
  {
    if n == i then 0
    else UnitsSince(ops, ss, n - 1, k, id, i) + if Accepts(ss[n - 1], ops[n - 1], k, id)
        then Supply(ops[n - 1], k, id) else 0
  }

  /** A row has the price given to the Add that made it, and all the units accepted since then. */
  lemma {:induction false} RowHistory(ops: seq<Op>, ss: seq<Books>, n: nat, k: Kind, id: int) returns (i: nat)
    requires Trace(ops, ss) && n <= |ops| && |ss[0].tables| == |ss[n].tables| == 3
    requires id !in ss[0].tables[k] && id in ss[n].tables[k]
    ensures MadeBy(ops, ss, n, k, id, i)
    ensures ss[n].tables[k][id].price == ops[i].price && ss[n].tables[k][id].total == UnitsSince(ops, ss, n, k, id, i)
    decreases n
  {
    hide Happens;
    var m := n - 1;
    assert Happens(ss[m], ops[m], ss[m + 1]);
    StepShaped(ss[m], ops[m], ss[n]);
    RowStep(ss[m], ops[m], ss[n], k, id);
    if id in ss[m].tables[k] {
      i := RowHistory(ops, ss, m, k, id);
    } else {
      i := m;
      assert UnitsSince(ops, ss, m, k, id, i) == 0;
    }
  }

  lemma StepShaped(s: Books, op: Op, t: Books)
    requires Happens(s, op, t)
    ensures |s.tables| == |t.tables| == 3
  {
  }

  /**
   A customer is charged, for every booking, what was given as the price when the row booked was made; so
   the bill is the sum of these prices.
   */
  lemma BookingPrice(ops: seq<Op>, ss: seq<Books>, c: int, key: nat) returns (i: nat)
    requires Trace(ops, ss) && ss[0] == Books([map[], map[], map[]], map[], map[]) && Inv(ss[|ops|])
    requires c in ss[|ops|].customers && key in ss[|ops|].customers[c]
    ensures KindOf(key) < 3 && MadeBy(ops, ss, |ops|, KindOf(key), IdOf(key), i)
    ensures ss[|ops|].customers[c][key] == ops[i].price
  {
    hide MadeBy, RowsOk, DroppedOk, KindOf, IdOf;
    var s := ss[|ops|];
    assert KindOf(key) < 3 && IdOf(key) in s.tables[KindOf(key)];
    i := RowHistory(ops, ss, |ops|, KindOf(key), IdOf(key));
  }
}
