/**
 The travel reservation manager: three tables of resources, and for every customer a map from
 booking keys to the prices paid.  Rows are counted up and down in place and erased.
 */
module Vacation {
  import opened Sequences

  const RELATIONS := 100000

  type Kind = k: nat | k < 3

  const CAR: Kind := 0
  const FLIGHT: Kind := 1
  const ROOM: Kind := 2

  datatype Row = Row(used: int, free: int, total: int, price: nat)

  /** `dropped` counts, per booking key, reservations made for a customer who already held the booking. */
  datatype Books = Books(tables: seq<map<int, Row>>, customers: map<int, map<nat, nat>>, dropped: map<nat, nat>)

  // ----- booking keys

  const LONG := 0x8000_0000_0000_0000

  /** reservationToKey, an unsigned number of 64 bits */
  function ToKey(kind: Kind, id: int): nat { (RELATIONS * kind + id) % (2 * LONG) }

  function KindOf(key: nat): nat { key / RELATIONS }
  function IdOf(key: nat): nat { key % RELATIONS }

  /** A key leads back to its row exactly for ids below the number of relations. */
  lemma KeyRoundTrip(kind: Kind, id: int)
    requires -LONG <= id < LONG
    ensures KindOf(ToKey(kind, id)) == kind && IdOf(ToKey(kind, id)) == id <==> 0 <= id < RELATIONS
  {
    if 0 <= id {
      SmallKey(kind, id);
    } else if RELATIONS * kind + id < 0 {
      assert ToKey(kind, id) == RELATIONS * kind + id + 2 * LONG;
    } else {
      SmallKey(kind, id);
    }
  }

  lemma SmallKey(kind: Kind, id: int)
    requires 0 <= RELATIONS * kind + id && id < LONG
    ensures ToKey(kind, id) == RELATIONS * kind + id
  {
  }

  // ----- the invariant

  predicate Shaped(s: Books) { |s.tables| == 3 }

  ghost function Holders(s: Books, key: nat): set<int> {
    set c | c in s.customers && key in s.customers[c]
  }

  function Dropped(s: Books, key: nat): nat { if key in s.dropped then s.dropped[key] else 0 }

  predicate Balanced(r: Row) { r.used >= 0 && r.free >= 0 && r.used + r.free == r.total && r.total > 0 }

  /** Every row balances and its used count is its holders plus the bookings dropped as duplicates. */
  ghost predicate RowsOk(s: Books)
    requires Shaped(s)
  {
    forall k: Kind, id :: id in s.tables[k] ==>
      Balanced(s.tables[k][id]) &&
      (if 0 <= id < RELATIONS
       then s.tables[k][id].used == |Holders(s, ToKey(k, id))| + Dropped(s, ToKey(k, id))
       else s.tables[k][id].used == 0)
  }

  /** Every booking is of a row that exists, at that row's price. */
  ghost predicate BookingsOk(s: Books)
    requires Shaped(s)
  {
    forall c, key :: c in s.customers && key in s.customers[c] ==>
      KindOf(key) < 3 && IdOf(key) in s.tables[KindOf(key)] &&
          s.tables[KindOf(key)][IdOf(key)].price == s.customers[c][key]
  }

  /** A row that is gone has no dropped bookings to its name. */
  ghost predicate DroppedOk(s: Books)
    requires Shaped(s)
  {
    forall k: Kind, id :: 0 <= id < RELATIONS && id !in s.tables[k] ==> Dropped(s, ToKey(k, id)) == 0
  }

  ghost predicate Inv(s: Books) { Shaped(s) && RowsOk(s) && BookingsOk(s) && DroppedOk(s) }

  /** What holds whatever is booked: every row balances. */
  ghost predicate Even(s: Books) {
    Shaped(s) && forall k: Kind, id :: id in s.tables[k] ==> Balanced(s.tables[k][id])
  }

  lemma InvEven(s: Books)
    ensures Inv(s) ==> Even(s)
  {
    hide BookingsOk, DroppedOk;
  }

  // ----- the operations

  function Put(s: Books, k: Kind, id: int, r: Row): Books
    requires Shaped(s)
  {
    s.(tables := s.tables[k := s.tables[k][id := r]])
  }

  function Erase(s: Books, k: Kind, id: int): Books
    requires Shaped(s)
  {
    s.(tables := s.tables[k := s.tables[k] - {id}])
  }

  /** AddReservation; removing resources is adding a negative number of them. */
  function AddReservation(s: Books, k: Kind, id: int, num: int, price: int): (Books, bool)
    requires Shaped(s)
  {
    if id !in s.tables[k] then
      if num < 1 || price < 0 then (s, false) else (Put(s, k, id, Row(0, num, num, price)), true)
    else
      var r := s.tables[k][id];
      if r.free + num < 0 then (s, false)
      else if r.total + num == 0 then (Erase(s, k, id), true)
      else (Put(s, k, id, r.(free := r.free + num, total := r.total + num)), true)
  }

  /** Manager::DeleteFlight */
  function DeleteFlight(s: Books, id: int): (Books, bool)
    requires Shaped(s)
  {
    if id !in s.tables[FLIGHT] || s.tables[FLIGHT][id].used > 0 then (s, false) else (Erase(s, FLIGHT, id), true)
  }

  function AddCustomer(s: Books, c: int): (Books, bool) {
    if c in s.customers then (s, false) else (s.(customers := s.customers[c := map[]]), true)
  }

  function Book(m: map<nat, nat>, key: nat, price: nat): map<nat, nat> { m + map[key := price] }

  /**
   Manager::Reserve with MakeReservation and AddReservationInfo.  A booking found with a price is
   left alone; the unit is taken all the same.
   */
  function Reserve(s: Books, c: int, k: Kind, id: int): (Books, bool)
    requires Shaped(s)
  {
    if c !in s.customers || id !in s.tables[k] || s.tables[k][id].free < 1 then (s, false)
    else
      var r := s.tables[k][id];
      var key := ToKey(k, id);
      var list := s.customers[c];
      var t := Put(s, k, id, r.(used := r.used + 1, free := r.free - 1));
      var d := if key in list then t.(dropped := s.dropped[key := Dropped(s, key) + 1]) else t;
      (if key in list && list[key] != 0 then d else d.(customers := s.customers[c := Book(list, key, r.price)]), true)
  }

  /** One booking of customer c cancelled: its row gets one unit back. */
  function Cancel(s: Books, c: int, key: nat): Books
    requires Shaped(s) && c in s.customers && key in s.customers[c]
    requires KindOf(key) < 3 && IdOf(key) in s.tables[KindOf(key)]
  {
    var r := s.tables[KindOf(key)][IdOf(key)];
    Put(s, KindOf(key), IdOf(key),
        r.(used := r.used - 1, free := r.free + 1)).(customers := s.customers[c := s.customers[c] - {key}])
  }

  // ----- holders of a booking, before and after

  lemma HoldersAdd(s: Books, t: Books, c: int, key: nat, price: nat)
    requires c in s.customers && key !in s.customers[c]
    requires t.customers == s.customers[c := Book(s.customers[c], key, price)]
    ensures Holders(t, key) == Holders(s, key) + {c} && |Holders(t, key)| == |Holders(s, key)| + 1
    ensures forall j: nat :: j != key ==> Holders(t, j) == Holders(s, j)
  {
  }

  lemma HoldersRemove(s: Books, t: Books, c: int, key: nat)
    requires c in s.customers && key in s.customers[c]
    requires t.customers == s.customers[c := s.customers[c] - {key}]
    ensures Holders(s, key) == Holders(t, key) + {c} && |Holders(t, key)| == |Holders(s, key)| - 1
    ensures forall j: nat :: j != key ==> Holders(t, j) == Holders(s, j)
  {
    forall j: nat | j != key
      ensures Holders(t, j) == Holders(s, j)
    {
      assert j in s.customers[c] <==> j in t.customers[c];
    }
  }

  lemma NobodyHolds(s: Books, k: Kind, id: int)
    requires Shaped(s) && BookingsOk(s) && 0 <= id < RELATIONS && id !in s.tables[k]
    ensures Holders(s, ToKey(k, id)) == {}
  {
    KeyRoundTrip(k, id);
    var key: nat := ToKey(k, id);
    assert forall c :: c in s.customers ==> key !in s.customers[c];
  }

  /** Changing a row without touching its used count or price, or adding one nobody can hold yet. */
  lemma PutInv(s: Books, k: Kind, id: int, r: Row)
    requires Inv(s) && Balanced(r)
    requires if id in s.tables[k] then r.used == s.tables[k][id].used && r.price == s.tables[k][id].price
             else r.used == 0
    ensures Inv(Put(s, k, id, r))
  {
    var t := Put(s, k, id, r);
    assert forall key :: Holders(t, key) == Holders(s, key);
    if id !in s.tables[k] && 0 <= id < RELATIONS { NobodyHolds(s, k, id); }
  }

  /** A row nobody uses may go: no customer holds it and no dropped booking remembers it. */
  lemma EraseInv(s: Books, k: Kind, id: int)
    requires Inv(s) && id in s.tables[k] && s.tables[k][id].used == 0
    ensures Inv(Erase(s, k, id))
    ensures 0 <= id < RELATIONS ==> Holders(s, ToKey(k, id)) == {}
  {
    var t := Erase(s, k, id);
    SameHolders(s, t);
    EraseBookings(s, k, id);
    EraseDropped(s, k, id);
    hide ToKey, Holders, BookingsOk, DroppedOk;
  }

  /** No booking is of a row that nobody uses. */
  lemma EraseBookings(s: Books, k: Kind, id: int)
    requires Shaped(s) && RowsOk(s) && BookingsOk(s) && id in s.tables[k] && s.tables[k][id].used == 0
    ensures BookingsOk(Erase(s, k, id))
  {
    hide ToKey;
    forall c, key | c in s.customers && key in s.customers[c]
      ensures !(KindOf(key) == k && IdOf(key) == id)
    {
      assert c in Holders(s, key);
      if KindOf(key) == k && IdOf(key) == id { KeyBack(key); }
    }
  }

  lemma EraseDropped(s: Books, k: Kind, id: int)
    requires Shaped(s) && RowsOk(s) && DroppedOk(s) && id in s.tables[k] && s.tables[k][id].used == 0
    ensures DroppedOk(Erase(s, k, id))
    ensures 0 <= id < RELATIONS ==> Holders(s, ToKey(k, id)) == {}
  {
    hide ToKey;
  }

  lemma AddReservationInv(s: Books, k: Kind, id: int, num: int, price: int)
    requires Inv(s)
    ensures Inv(AddReservation(s, k, id, num, price).0)
    ensures id in s.tables[k] && s.tables[k][id].used > 0 ==> id in AddReservation(s, k, id, num, price).0.tables[k]
  {
    if id !in s.tables[k] {
      if num >= 1 && price >= 0 { PutInv(s, k, id, Row(0, num, num, price)); }
    } else {
      var r := s.tables[k][id];
      assert Balanced(r);
      if r.free + num >= 0 {
        if r.total + num == 0 {
          EraseInv(s, k, id);
        } else {
          PutInv(s, k, id, r.(free := r.free + num, total := r.total + num));
        }
      }
    }
  }

  /** Adding or removing units leaves every row balanced. */
  lemma AddReservationEven(s: Books, k: Kind, id: int, num: int, price: int)
    requires Even(s)
    ensures Even(AddReservation(s, k, id, num, price).0)
  {
  }

  lemma ReserveEven(s: Books, c: int, k: Kind, id: int)
    requires Even(s)
    ensures Even(Reserve(s, c, k, id).0)
  {
    hide ToKey;
  }

  lemma DeleteFlightInv(s: Books, id: int)
    requires Inv(s)
    ensures Inv(DeleteFlight(s, id).0)
  {
    if DeleteFlight(s, id).1 {
      assert Balanced(s.tables[FLIGHT][id]);
      EraseInv(s, FLIGHT, id);
    }
  }

  lemma AddCustomerInv(s: Books, c: int)
    requires Inv(s)
    ensures Inv(AddCustomer(s, c).0)
  {
    assert forall key :: Holders(AddCustomer(s, c).0, key) == Holders(s, key);
  }

  lemma KeysInjective(k: Kind, id: int)
    requires 0 <= id < RELATIONS
    ensures forall j: Kind, jd :: 0 <= jd < RELATIONS ==>
            0 <= ToKey(j, jd) && (ToKey(j, jd) == ToKey(k, id) <==> j == k && jd == id)
  {
  }

  lemma ReserveInv(s: Books, c: int, k: Kind, id: int)
    requires Inv(s) && 0 <= id < RELATIONS
    ensures Inv(Reserve(s, c, k, id).0)
  {
    if Reserve(s, c, k, id).1 {
      KeyRoundTrip(k, id);
      ReserveForm(s, c, k, id);
      hide RowsOk, BookingsOk, DroppedOk;
      ReserveRows(s, c, k, id);
      ReserveBookings(s, c, k, id);
    }
  }

  /** Under the invariant a booking that is already there is at the row's price, so it stays as it is. */
  lemma ReserveForm(s: Books, c: int, k: Kind, id: int)
    requires Shaped(s) && BookingsOk(s) && 0 <= id < RELATIONS && Reserve(s, c, k, id).1
    ensures ToKey(k, id) in s.customers[c] ==> Reserve(s, c, k, id).0.customers == s.customers
  {
    KeyRoundTrip(k, id);
    hide ToKey, KindOf, IdOf;
    var key, list := ToKey(k, id), s.customers[c];
    if key in list {
      SameBooking(list, key, s.tables[k][id].price);
      assert s.customers[c := list] == s.customers;
    }
  }

  /** A reservation keeps the invariant exactly if it fails or its id is one that its key leads back to. */
  lemma ReserveExact(s: Books, c: int, k: Kind, id: int)
    requires Inv(s) && -LONG <= id < LONG
    ensures Inv(Reserve(s, c, k, id).0) <==>
            !(c in s.customers && id in s.tables[k] && s.tables[k][id].free >= 1) ||
            (KindOf(ToKey(k, id)) == k && IdOf(ToKey(k, id)) == id)
  {
    KeyRoundTrip(k, id);
    hide ToKey, KindOf, IdOf, BookingsOk, DroppedOk, Holders;
    if 0 <= id < RELATIONS {
      ReserveInv(s, c, k, id);
    } else if Reserve(s, c, k, id).1 {
      var t := Reserve(s, c, k, id).0;
      assert s.tables[k][id].used == 0 && t.tables[k][id].used == 1;
    }
  }

  /** One row changes, and with it the number of its holders and dropped bookings. */
  lemma RowChange(s: Books, t: Books, k: Kind, id: int, r: Row)
    requires Shaped(s) && RowsOk(s) && 0 <= id < RELATIONS && t.tables == s.tables[k := s.tables[k][id := r]]
    requires Balanced(r) && r.used == |Holders(t, ToKey(k, id))| + Dropped(t, ToKey(k, id))
    requires forall key: nat :: key != ToKey(k, id) ==>
             Holders(t, key) == Holders(s, key) && Dropped(t, key) == Dropped(s, key)
    ensures RowsOk(t)
  {
    hide ToKey, Holders, Dropped, Balanced;
    KeysInjective(k, id);
  }

  lemma ReserveRows(s: Books, c: int, k: Kind, id: int)
    requires Shaped(s) && RowsOk(s) && 0 <= id < RELATIONS && Reserve(s, c, k, id).1
    requires ToKey(k, id) in s.customers[c] ==> Reserve(s, c, k, id).0.customers == s.customers
    ensures RowsOk(Reserve(s, c, k, id).0)
  {
    var t := Reserve(s, c, k, id).0;
    var key := ToKey(k, id);
    hide ToKey, Holders;
    assert Balanced(s.tables[k][id]);
    if key in s.customers[c] {
      SameHolders(s, t);
    } else {
      HoldersAdd(s, t, c, key, s.tables[k][id].price);
    }
    RowChange(s, t, k, id, t.tables[k][id]);
  }

  lemma SameHolders(s: Books, t: Books)
    requires t.customers == s.customers
    ensures forall key :: Holders(t, key) == Holders(s, key)
  {
  }

  lemma ReserveBookings(s: Books, c: int, k: Kind, id: int)
    requires Shaped(s) && BookingsOk(s) && DroppedOk(s) && 0 <= id < RELATIONS && Reserve(s, c, k, id).1
    requires ToKey(k, id) in s.customers[c] ==> Reserve(s, c, k, id).0.customers == s.customers
    requires KindOf(ToKey(k, id)) == k && IdOf(ToKey(k, id)) == id
    ensures BookingsOk(Reserve(s, c, k, id).0) && DroppedOk(Reserve(s, c, k, id).0)
  {
    KeysInjective(k, id);
    hide ToKey, KindOf, IdOf;
  }

  /** A booking always finds its row, with at least one unit in use. */
  lemma CancelInv(s: Books, c: int, key: nat)
    requires Inv(s) && c in s.customers && key in s.customers[c]
    ensures KindOf(key) < 3 && IdOf(key) in s.tables[KindOf(key)] && s.tables[KindOf(key)][IdOf(key)].used > 0
    ensures Inv(Cancel(s, c, key))
  {
    hide RowsOk, DroppedOk;
    assert KindOf(key) < 3 && IdOf(key) in s.tables[KindOf(key)];
    CancelRows(s, c, key);
    CancelBookings(s, c, key);
  }

  lemma CancelRows(s: Books, c: int, key: nat)
    requires Shaped(s) && RowsOk(s) && c in s.customers && key in s.customers[c]
    requires KindOf(key) < 3 && IdOf(key) in s.tables[KindOf(key)]
    ensures s.tables[KindOf(key)][IdOf(key)].used > 0 && RowsOk(Cancel(s, c, key))
  {
    var k, id := KindOf(key), IdOf(key);
    var t := Cancel(s, c, key);
    KeyBack(key);
    hide ToKey, KindOf, IdOf, Holders;
    assert Balanced(s.tables[k][id]);
    HoldersRemove(s, t, c, key);
    RowChange(s, t, k, id, t.tables[k][id]);
  }

  lemma KeyBack(key: nat)
    requires KindOf(key) < 3
    ensures ToKey(KindOf(key), IdOf(key)) == key
  {
  }

  lemma CancelBookings(s: Books, c: int, key: nat)
    requires Shaped(s) && BookingsOk(s) && DroppedOk(s) && c in s.customers && key in s.customers[c]
    requires KindOf(key) < 3 && IdOf(key) in s.tables[KindOf(key)]
    ensures BookingsOk(Cancel(s, c, key)) && DroppedOk(Cancel(s, c, key))
  {
    hide ToKey, KindOf, IdOf;
  }

  // ----- what the operations mean over a run

  function Given(r: Row, back: bool): Row { if back then r.(used := r.used - 1, free := r.free + 1) else r }

  /** Rows whose keys are in done have one unit back; all others are as before. */
  ghost predicate GaveBack(before: seq<map<int, Row>>, after: seq<map<int, Row>>, done: set<nat>)
    requires |before| == |after| == 3
  {
    forall k: Kind ::
      after[k].Keys == before[k].Keys &&
      forall id :: id in before[k] ==>
        after[k][id] == Given(before[k][id], 0 <= id < RELATIONS && ToKey(k, id) in done)
  }

  /** The row that a booking key leads to is there and in use. */
  predicate Back(tables: seq<map<int, Row>>, key: nat)
    requires |tables| == 3
  {
    KindOf(key) < 3 && IdOf(key) in tables[KindOf(key)] && tables[KindOf(key)][IdOf(key)].used != 0
  }

  ghost function Found(tables: seq<map<int, Row>>, keys: set<nat>): set<nat>
    requires |tables| == 3
  {
    set key | key in keys && Back(tables, key)
  }

  /** One more key: its row is as it was, and gets one unit back if it is there and in use. */
  lemma GaveBackOne(before: seq<map<int, Row>>, now: seq<map<int, Row>>, done: set<nat>, key: nat)
    requires |before| == |now| == 3 && GaveBack(before, now, Found(before, done)) && key !in done && KindOf(key) < 3
    ensures Back(now, key) <==> Back(before, key)
    ensures var k, id := KindOf(key), IdOf(key);
            && (!Back(before, key) ==> Found(before, done + {key}) == Found(before, done))
            && (Back(before, key) ==>
                  GaveBack(before, now[k := now[k][id := Given(now[k][id], true)]], Found(before, done + {key})))
  {
    KeyBack(key);
    KeysInjective(KindOf(key), IdOf(key));
    hide ToKey, KindOf, IdOf;
    assert forall j :: j in Found(before, done + {key}) <==>
           j in Found(before, done) || (j == key && Back(before, key));
  }

  lemma GaveBackEven(s: Books, t: Books, done: set<nat>)
    requires Even(s) && Shaped(t) && GaveBack(s.tables, t.tables, Found(s.tables, done))
    ensures Even(t)
  {
    forall k: Kind, id | id in t.tables[k]
      ensures Balanced(t.tables[k][id])
    {
      if 0 <= id < RELATIONS { KeyRoundTrip(k, id); }
      assert Balanced(s.tables[k][id]);
    }
  }

  /** Under the invariant every booking of a customer is found. */
  lemma AllFound(s: Books, c: int)
    requires Inv(s) && c in s.customers
    ensures Found(s.tables, s.customers[c].Keys) == s.customers[c].Keys
    ensures forall key :: key in s.customers[c] ==> KindOf(key) < 3 && Back(s.tables, key)
  {
    hide RowsOk, BookingsOk, DroppedOk;
    forall key | key in s.customers[c]
      ensures KindOf(key) < 3 && Back(s.tables, key)
    {
      CancelInv(s, c, key);
    }
  }

  /** A customer gone, with one unit back for each of the rows held. */
  lemma LeaveInv(s: Books, t: Books, c: int)
    requires Inv(s) && c in s.customers && Shaped(t) && t.dropped == s.dropped
    requires t.customers == s.customers[c := map[]] && GaveBack(s.tables, t.tables, s.customers[c].Keys)
    ensures Inv(t)
  {
    LeaveRows(s, t, c);
    hide RowsOk, Holders, ToKey;
  }

  lemma LeaveRows(s: Books, t: Books, c: int)
    requires Shaped(s) && RowsOk(s) && c in s.customers && Shaped(t) && t.dropped == s.dropped
    requires t.customers == s.customers[c := map[]] && GaveBack(s.tables, t.tables, s.customers[c].Keys)
    ensures RowsOk(t)
  {
    hide ToKey, Holders;
    forall k: Kind, id | id in t.tables[k]
      ensures Balanced(t.tables[k][id])
      ensures if 0 <= id < RELATIONS
              then t.tables[k][id].used == |Holders(t, ToKey(k, id))| + Dropped(t, ToKey(k, id))
              else t.tables[k][id].used == 0
    {
      assert Balanced(s.tables[k][id]);
      HoldersLeft(s, t, c, ToKey(k, id));
    }
  }

  lemma HoldersLeft(s: Books, t: Books, c: int, key: nat)
    requires c in s.customers && t.customers == s.customers[c := map[]]
    ensures |Holders(t, key)| == |Holders(s, key)| - if key in s.customers[c] then 1 else 0
  {
    assert Holders(t, key) == Holders(s, key) - {c};
  }

  /** The prices, now, of the rows a customer holds. */
  ghost function CurrentPrices(s: Books, c: int): map<nat, nat>
    requires Inv(s) && c in s.customers
  {
    map key | key in s.customers[c] :: s.tables[KindOf(key)][IdOf(key)].price
  }

  /** The prices on a customer's bill never go stale. */
  lemma PricesCurrent(s: Books, c: int)
    requires Inv(s) && c in s.customers
    ensures s.customers[c] == CurrentPrices(s, c)
  {
  }

  datatype Op =
    | Add(kind: Kind, id: int, num: int, price: int)
    | Delete(kind: Kind, id: int, num: int)
    | DropFlight(id: int)
    | Hire(customer: int, kind: Kind, id: int)
    | Enroll(customer: int)
    | Leave(customer: int)

  /** What one operation makes of the books; a customer's bookings may be visited only in part. */
  ghost predicate Happens(s: Books, op: Op, t: Books) {
    && Shaped(s) && Shaped(t)
    && match op
       case Add(k, id, num, price) => t == AddReservation(s, k, id, num, price).0
       case Delete(k, id, num) => t == AddReservation(s, k, id, -num, -1).0
       case DropFlight(id) => t == DeleteFlight(s, id).0
       case Hire(c, k, id) => t == Reserve(s, c, k, id).0
       case Enroll(c) => t == AddCustomer(s, c).0
       case Leave(c) => if c in s.customers then LeavesWith(s, c, t) else t == s
  }

  ghost predicate LeavesWith(s: Books, c: int, t: Books)
    requires Shaped(s) && Shaped(t) && c in s.customers
  {
    && t.customers == s.customers[c := map[]] && t.dropped == s.dropped
    && exists visited :: visited <= s.customers[c].Keys && GaveBack(s.tables, t.tables, Found(s.tables, visited))
  }

  /** ss are the books before and after each of the operations. */
  ghost predicate Trace(ops: seq<Op>, ss: seq<Books>) {
    |ss| == |ops| + 1 && forall i :: 0 <= i < |ops| ==> Happens(ss[i], ops[i], ss[i + 1])
  }

  class Manager {
    var tables: seq<map<int, Row>>
    var customers: map<int, map<nat, nat>>
    /** how often "No such reservation found" was reported */
    var errors: nat
    ghost var dropped: map<nat, nat>

    ghost function Abs(): Books
      reads this
    {
      Books(tables, customers, dropped)
    }

    constructor ()
      ensures Abs() == Books([map[], map[], map[]], map[], map[]) && Inv(Abs()) && errors == 0
    {
      tables, customers, errors, dropped := [map[], map[], map[]], map[], 0, map[];
    }

    /** AddReservation on one of the tables: AddCar, AddRoom, AddFlight, DeleteCar and DeleteRoom. */
    method Supply(k: Kind, id: int, num: int, price: int) returns (ok: bool)
      requires Even(Abs())
      modifies this
      ensures (Abs(), ok) == AddReservation(old(Abs()), k, id, num, price) && Even(Abs()) && errors == old(errors)
      ensures ok <==> if id in old(tables)[k] then old(tables)[k][id].free + num >= 0 else num >= 1 && price >= 0
      ensures ok && id in tables[k] ==>
                tables[k][id].free == num + if id in old(tables)[k] then old(tables)[k][id].free else 0
      ensures ok ==> (id in tables[k] <==> num + (if id in old(tables)[k] then old(tables)[k][id].total else 0) > 0)
      ensures old(Inv(Abs())) ==> Inv(Abs())
    {
      hide RowsOk, BookingsOk, DroppedOk;
      AddReservationEven(Abs(), k, id, num, price);
      if Inv(Abs()) {
        AddReservationInv(Abs(), k, id, num, price);
      }
      if id !in tables[k] {
        if num < 1 || price < 0 {
          return false;
        }
      } else {
        var row := tables[k][id];
        if row.free + num < 0 {
          return false;
        }
        row := row.(free := row.free + num);
        row := row.(total := row.total + num);
        if row.total == 0 {
          tables := tables[k := tables[k] - {id}];
          return true;
        }
        tables := tables[k := tables[k][id := row]];
        return true;
      }
      tables := tables[k := tables[k][id := Row(0, num, num, price)]];
      return true;
    }

    method WithdrawFlight(id: int) returns (ok: bool)
      requires Even(Abs())
      modifies this
      ensures (Abs(), ok) == DeleteFlight(old(Abs()), id) && Even(Abs()) && errors == old(errors)
      ensures ok <==> id in old(tables)[FLIGHT] && old(tables)[FLIGHT][id].used == 0
      ensures tables == if ok then old(tables)[FLIGHT := old(tables)[FLIGHT] - {id}] else old(tables)
      ensures old(Inv(Abs())) ==> Inv(Abs())
    {
      hide RowsOk, BookingsOk, DroppedOk;
      if Inv(Abs()) {
        DeleteFlightInv(Abs(), id);
      }
      if id !in tables[FLIGHT] || tables[FLIGHT][id].used > 0 {
        return false;
      }
      tables := tables[FLIGHT := tables[FLIGHT] - {id}];
      return true;
    }

    method EnrollCustomer(c: int) returns (ok: bool)
      requires Even(Abs())
      modifies this
      ensures (Abs(), ok) == AddCustomer(old(Abs()), c) && Even(Abs()) && errors == old(errors)
      ensures old(Inv(Abs())) ==> Inv(Abs())
    {
      hide RowsOk, BookingsOk, DroppedOk;
      if Inv(Abs()) {
        AddCustomerInv(Abs(), c);
      }
      if c in customers {
        return false;
      }
      customers := customers[c := map[]];
      return true;
    }

    /** Manager::Reserve: the unit is taken even if the customer holds the booking already. */
    method MakeBooking(c: int, k: Kind, id: int) returns (ok: bool)
      requires Even(Abs()) && -LONG <= id < LONG
      modifies this
      ensures (Abs(), ok) == Reserve(old(Abs()), c, k, id) && Even(Abs()) && errors == old(errors)
      ensures ok <==> c in old(customers) && id in old(tables)[k] && old(tables)[k][id].free > 0
      ensures ok ==> c in customers && ToKey(k, id) in customers[c] && id in tables[k] &&
                     tables[k][id].free == old(tables)[k][id].free - 1
      ensures old(Inv(Abs())) ==> (Inv(Abs()) <==> !ok || 0 <= id < RELATIONS)
    {
      hide RowsOk, BookingsOk, DroppedOk, ToKey, KindOf, IdOf;
      ReserveEven(Abs(), c, k, id);
      if Inv(Abs()) {
        ReserveExact(Abs(), c, k, id);
      }
      KeyRoundTrip(k, id);
      if c !in customers || id !in tables[k] {
        return false;
      }
      var row := tables[k][id];
      if row.free < 1 {
        return false;
      }
      row := row.(used := row.used + 1, free := row.free - 1);
      tables := tables[k := tables[k][id := row]];
      var key := ToKey(k, id);
      var found := if key in customers[c] then customers[c][key] else 0;
      if key in customers[c] {
        dropped := dropped[key := Dropped(old(Abs()), key) + 1];
      }
      if found != 0 {
        return true;
      }
      customers := customers[c := Book(customers[c], key, row.price)];
      return true;
    }

    /** CancelReservation; nothing is returned on success, so nothing is said of its value. */
    method CancelReservation(k: Kind, id: int)
      requires |tables| == 3
      modifies this`tables, this`errors
      ensures if id !in old(tables)[k] || old(tables)[k][id].used == 0
              then tables == old(tables) && errors == old(errors) + 1
              else errors == old(errors) && tables ==
                    old(tables)[k := old(tables)[k][id := Given(old(tables)[k][id], true)]]
    {
      if id !in tables[k] || tables[k][id].used == 0 {
        errors := errors + 1;
        return;
      }
      var row := tables[k][id];
      row := row.(used := row.used - 1);
      row := row.(free := row.free + 1);
      tables := tables[k := tables[k][id := row]];
    }

    /**
     Manager::DeleteCustomer: bookings are visited in any order, then the list is emptied.  A key of no
     known kind breaks off the visit, and others may then be left out.
     */
    method RemoveCustomer(c: int) returns (ok: bool, ghost visited: set<nat>)
      requires Even(Abs())
      modifies this
      ensures Even(Abs()) && dropped == old(dropped)
      ensures ok <==> c in old(customers)
      ensures !ok ==> Abs() == old(Abs()) && errors == old(errors)
      ensures ok ==> customers == old(customers)[c := map[]] && visited <= old(customers)[c].Keys
      ensures ok && (forall key :: key in old(customers)[c] ==> KindOf(key) < 3) ==> visited == old(customers)[c].Keys
      ensures ok ==> GaveBack(old(tables), tables, Found(old(tables), visited))
      ensures ok ==> errors == old(errors) + |visited - Found(old(tables), visited)|
      ensures old(Inv(Abs())) ==> Inv(Abs()) && errors == old(errors)
      ensures old(Inv(Abs())) && ok ==> GaveBack(old(tables), tables, old(customers)[c].Keys)
    {
      hide RowsOk, BookingsOk, DroppedOk, GaveBack, Back, Balanced;
      visited := {};
      if c !in customers {
        return false, {};
      }
      visited := CancelAll(customers[c].Keys);
      customers := customers[c := map[]];
      GaveBackEven(old(Abs()), Abs(), visited);
      if old(Inv(Abs())) {
        AllFound(old(Abs()), c);
        LeaveInv(old(Abs()), Abs(), c);
        assert visited - Found(old(tables), visited) == {};
      }
      return true, visited;
    }

    /** CancelAllReservations with CancelVisitor. */
    method CancelAll(keys: set<nat>) returns (ghost done: set<nat>)
      requires |tables| == 3
      modifies this`tables, this`errors
      ensures |tables| == 3 && done <= keys && GaveBack(old(tables), tables, Found(old(tables), done))
      ensures (forall key :: key in keys ==> KindOf(key) < 3) ==> done == keys
      ensures errors == old(errors) + |done - Found(old(tables), done)|
    {
      hide GaveBack, Back, KindOf, IdOf, Given;
      var todo := keys;
      done := {};
      GaveBackNone(tables);
      assert Found(tables, {}) == {};
      assert done - Found(tables, done) == {};
      while todo != {}
        invariant |tables| == 3 && done !! todo && done + todo <= keys
        invariant (forall key :: key in keys ==> KindOf(key) < 3) ==> done + todo == keys
        invariant GaveBack(old(tables), tables, Found(old(tables), done))
        invariant errors == old(errors) + |done - Found(old(tables), done)|
        decreases todo
      {
        var key :| key in todo;
        todo := todo - {key};
        if KindOf(key) < 3 {
          GaveBackOne(old(tables), tables, done, key);
          CountMisses(old(tables), done, key);
          BackIs(tables, key);
          CancelReservation(KindOf(key), IdOf(key));
          done := done + {key};
        } else {
          var rest: set<nat> :| rest <= todo;
          todo := rest;
        }
      }
    }

    /** Manager::QueryCustomerBill: the bill is the sum of today's prices of what the customer holds. */
    method QueryCustomerBill(c: int) returns (bill: int)
      ensures bill == if c in customers then Total(customers[c]) else -1
      ensures Inv(Abs()) && c in customers ==> bill == Total(CurrentPrices(Abs(), c))
    {
      if c !in customers {
        return -1;
      }
      if Inv(Abs()) {
        PricesCurrent(Abs(), c);
      }
      hide RowsOk, BookingsOk, DroppedOk, Total;
      bill := SumVisited(customers[c]);
    }

    static method SumVisited(list: map<nat, nat>) returns (bill: int)
      ensures bill == Total(list)
    {
      bill := 0;
      var todo := list;
      while todo != map[]
        invariant bill + Total(todo) == Total(list)
        decreases |todo|
      {
        var key :| key in todo;
        TotalRemove(todo, key);
        bill := bill + todo[key];
        todo := todo - {key};
      }
    }

    /**
     Any sequence of operations.  Every row balances at the end; if none of the bookings that succeeded
     was for an id its key does not lead back to, the books are right and no error was reported.
     */
    method Execute(ops: seq<Op>) returns (ghost astray: nat, ghost ss: seq<Books>)
      requires Inv(Abs())
      requires forall i :: 0 <= i < |ops| && ops[i].Hire? ==> -LONG <= ops[i].id < LONG
      modifies this
      ensures Even(Abs()) && (astray == 0 ==> Inv(Abs()) && errors == old(errors))
      ensures Trace(ops, ss) && ss[0] == old(Abs()) && ss[|ops|] == Abs()
      ensures (forall i :: 0 <= i < |ops| && ops[i].Hire? ==> 0 <= ops[i].id < RELATIONS) ==> astray == 0
    {
      hide Inv, Even, GaveBack, Found, Happens;
      InvEven(Abs());
      astray, ss := 0, [Abs()];
      var n := 0;
      while n < |ops|
        invariant n <= |ops| && Even(Abs()) && (astray == 0 ==> Inv(Abs()) && errors == old(errors))
        invariant |ss| == n + 1 && ss[0] == old(Abs()) && ss[n] == Abs()
        invariant forall i :: 0 <= i < n ==> Happens(ss[i], ops[i], ss[i + 1])
        invariant (forall i :: 0 <= i < |ops| && ops[i].Hire? ==> 0 <= ops[i].id < RELATIONS) ==> astray == 0
        decreases |ops| - n
      {
        ghost var stray := Perform(ops[n]);
        astray := astray + stray;
        ss := ss + [Abs()];
        n := n + 1;
      }
    }

    /** One operation; stray is 1 if it is a booking that succeeds for an id its key does not lead back to. */
    method Perform(op: Op) returns (ghost stray: nat)
      requires Even(Abs()) && (op.Hire? ==> -LONG <= op.id < LONG)
      modifies this
      ensures Even(Abs()) && Happens(old(Abs()), op, Abs())
      ensures stray == 0 && old(Inv(Abs())) ==> Inv(Abs()) && errors == old(errors)
      ensures stray > 0 ==> op.Hire? && !(0 <= op.id < RELATIONS)
    {
      hide Inv, RowsOk, BookingsOk, DroppedOk, GaveBack, Found, AddReservation, DeleteFlight, Reserve, AddCustomer;
      stray := 0;
      var ok;
      match op {
        case Add(k, id, num, price) => ok := Supply(k, id, num, price);
        case Delete(k, id, num) => ok := Supply(k, id, -num, -1);
        case DropFlight(id) => ok := WithdrawFlight(id);
        case Hire(c, k, id) =>
          ok := MakeBooking(c, k, id);
          stray := if ok && !(0 <= id < RELATIONS) then 1 else 0;
        case Enroll(c) => ok := EnrollCustomer(c);
        case Leave(c) =>
          ghost var visited;
          ok, visited := RemoveCustomer(c);
      }
    }
  }

  lemma CountMisses(tables: seq<map<int, Row>>, done: set<nat>, key: nat)
    requires |tables| == 3 && key !in done
    ensures |done + {key} - Found(tables, done + {key})| ==
            |done - Found(tables, done)| + if Back(tables, key) then 0 else 1
  {
    hide Back;
    if Back(tables, key) {
      assert done + {key} - Found(tables, done + {key}) == done - Found(tables, done);
    } else {
      assert done + {key} - Found(tables, done + {key}) == done - Found(tables, done) + {key};
    }
  }

  lemma BackIs(tables: seq<map<int, Row>>, key: nat)
    requires |tables| == 3
    ensures Back(tables, key) <==>
            KindOf(key) < 3 && IdOf(key) in tables[KindOf(key)] && tables[KindOf(key)][IdOf(key)].used != 0
  {
  }

  lemma GaveBackNone(tables: seq<map<int, Row>>)
    requires |tables| == 3
    ensures GaveBack(tables, tables, {})
  {
  }

  /** Writing a price of 0 again over itself changes nothing. */
  lemma SameBooking(m: map<nat, nat>, key: nat, price: nat)
    ensures key in m && m[key] == price ==> Book(m, key, price) == m
  {
  }

  /** Customer 1 has booked the only unit of car 100000. */
  function Stray(): Books {
    Books([map[RELATIONS := Row(1, 0, 1, 0)], map[], map[]], map[1 := map[RELATIONS := 0]], map[])
  }

  lemma StrayComesAbout()
    ensures var enrolled := AddCustomer(Books([map[], map[], map[]], map[], map[]), 1).0;
            var supplied := AddReservation(enrolled, CAR, RELATIONS, 1, 0).0;
            Reserve(supplied, 1, CAR, RELATIONS) == (Stray(), true)
  {
    assert ToKey(CAR, RELATIONS) == RELATIONS;
    hide ToKey;
    var enrolled := AddCustomer(Books([map[], map[], map[]], map[], map[]), 1).0;
    var supplied := AddReservation(enrolled, CAR, RELATIONS, 1, 0).0;
    assert enrolled.customers == map[1 := map[]];
    assert supplied.tables[CAR] == map[RELATIONS := Row(0, 1, 1, 0)];
    var t := Reserve(supplied, 1, CAR, RELATIONS).0;
    assert t.tables[CAR] == map[RELATIONS := Row(1, 0, 1, 0)] && t.tables[FLIGHT] == t.tables[ROOM] == map[];
    assert t.tables == [t.tables[CAR], t.tables[FLIGHT], t.tables[ROOM]];
    assert Book(map[], RELATIONS, 0) == map[RELATIONS := 0];
    assert t.customers == map[1 := map[RELATIONS := 0]];
  }

  /** Its key leads to flight 0, which is not there. */
  lemma StrayKey()
    ensures KindOf(RELATIONS) == FLIGHT && Found(Stray().tables, {RELATIONS}) == {}
    ensures forall key :: key in Stray().customers[1] ==> KindOf(key) < 3
    ensures Stray().customers[1].Keys == {RELATIONS}
  {
  }

  lemma StrayStays(tables: seq<map<int, Row>>)
    requires |tables| == 3 && GaveBack(Stray().tables, tables, {})
    ensures tables[CAR] == Stray().tables[CAR]
    ensures forall customers, dropped :: !Inv(Books(tables, customers, dropped))
  {
    hide ToKey, BookingsOk, DroppedOk, Holders;
    assert tables[CAR][RELATIONS].used == 1;
  }

  lemma EvenShaped(s: Books)
    requires Even(s)
    ensures |s.tables| == 3
  {
  }

  method BookStray() returns (m: Manager, booked: bool)
    ensures fresh(m) && booked && m.Abs() == Stray() && Even(m.Abs()) && m.errors == 0
  {
    hide Inv, Even, AddReservation, Reserve, AddCustomer, ToKey, Stray;
    m := new Manager();
    InvEven(m.Abs());
    StrayComesAbout();
    var ok := m.EnrollCustomer(1);
    ok := m.Supply(CAR, RELATIONS, 1, 0);
    booked := m.MakeBooking(1, CAR, RELATIONS);
  }

  /** The car given up: an error is reported and the car stays in use. */
  method StrayBooking() returns (m: Manager, booked: bool, left: bool)
    ensures fresh(m) && booked && left && m.errors == 1 && m.customers == map[1 := map[]]
    ensures |m.tables| == 3 && m.tables[CAR] == map[RELATIONS := Row(1, 0, 1, 0)] && !Inv(m.Abs())
  {
    hide Inv, Even, GaveBack, Found, KindOf;
    m, booked := BookStray();
    StrayKey();
    assert m.tables == Stray().tables && m.customers == Stray().customers;
    ghost var visited;
    left, visited := m.RemoveCustomer(1);
    EvenShaped(m.Abs());
    StrayStays(m.tables);
    assert {RELATIONS} - {} == {RELATIONS};
  }
}
