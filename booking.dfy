/** The booking engine's rules as values: the overlap test that rejects a
    stay, the price of an accepted stay, the per-user and per-host views of
    the orders, and the invariant that no two orders on a house overlap. */
module Booking {
  import opened Wrappers
  import opened Models
  import opened Query

  // ---------------------------------------------------------------- overlap

  /** The conflict test of `order_house`: an existing order blocks the stay
      from `arrive` to `exit` when it ends on or after the arrival day and
      starts on or before the exit day. Both bounds are inclusive, so an order
      checking out on a day blocks a new stay checking in that day. */
  predicate Overlaps(existing: Order, arrive: Day, exit: Day)
  {
    existing.exitDate >= arrive && existing.arriveDate <= exit
  }

  /** The condition of the conflict query, as a filter condition. */
  function Blocking(house: HouseId, arrive: Day, exit: Day): Order -> bool
  {
    (o: Order) => o.house == house && Overlaps(o, arrive, exit)
  }

  /** The existing orders that block a stay at `house`; the stay is rejected
      exactly when this is not empty. */
  function ConflictingOrders(orders: seq<Order>, house: HouseId, arrive: Day, exit: Day): (r: seq<Order>)
    ensures forall o :: o in r ==> o in orders && o.house == house && Overlaps(o, arrive, exit)
    ensures r == [] <==> forall o :: o in orders && o.house == house ==> !Overlaps(o, arrive, exit)
  {
    var r := Filter(orders, Blocking(house, arrive, exit));
    assert r != [] ==> r[0] in r;
    r
  }

  /** A stay that starts on the day an existing order ends is rejected,
      unless it also ends before that order starts. */
  lemma CheckoutDayBlocksCheckIn(existing: Order, exit: Day)
    requires existing.arriveDate <= exit
    ensures Overlaps(existing, existing.exitDate, exit)
  {
  }

  /** Orders for other houses never change the verdict on a stay. */
  lemma {:induction false} OtherHousesNeverConflict(orders: seq<Order>, others: seq<Order>, house: HouseId, arrive: Day, exit: Day)
    requires forall o :: o in others ==> o.house != house
    ensures ConflictingOrders(orders + others, house, arrive, exit) == ConflictingOrders(orders, house, arrive, exit)
  {
    var p := Blocking(house, arrive, exit);
    FilterAppend(orders, others, p);
    var rest := Filter(others, p);
    assert rest != [] ==> rest[0] in rest;
  }

  // ------------------------------------------------------------------ price

  /** The charge of a stay: the daily price times the number of days between
      arrival and exit. Nothing checks that exit follows arrival. */
  function TotalPrice(pricePerDay: int, arrive: Day, exit: Day): int
  {
    pricePerDay * (exit - arrive)
  }

  /** Splitting a stay at any day splits its charge: the price is per night
      and does not depend on how the range is assembled. */
  lemma PriceIsPerNight(pricePerDay: int, arrive: Day, middle: Day, exit: Day)
    ensures TotalPrice(pricePerDay, arrive, middle) + TotalPrice(pricePerDay, middle, exit)
         == TotalPrice(pricePerDay, arrive, exit)
    ensures TotalPrice(pricePerDay, arrive, arrive) == 0
  {
    assert pricePerDay * (middle - arrive) + pricePerDay * (exit - middle)
        == pricePerDay * ((middle - arrive) + (exit - middle));
  }

  /** A reversed range is not rejected by the pricing: it yields a charge of
      zero or less for a non-negative daily price, and a negative charge for a
      positive one. */
  lemma ReversedRangePrice(pricePerDay: int, arrive: Day, exit: Day)
    requires pricePerDay >= 0 && exit < arrive
    ensures TotalPrice(pricePerDay, arrive, exit) <= 0
    ensures pricePerDay > 0 ==> TotalPrice(pricePerDay, arrive, exit) < 0
  {
    var nights := arrive - exit;
    assert TotalPrice(pricePerDay, arrive, exit) == -(pricePerDay * nights);
    if pricePerDay > 0 {
      ProductOfPositives(pricePerDay, nights);
    } else {
      assert pricePerDay * nights == 0;
    }
  }

  lemma {:induction false} ProductOfPositives(a: int, b: int)
    requires a > 0 && b > 0
    ensures a * b >= b
  {
    if a > 1 {
      ProductOfPositives(a - 1, b);
      assert a * b == (a - 1) * b + b;
    }
  }

  // -------------------------------------------------------------- invariant

  /** Two orders clash when they are on the same house and the first blocks
      the second's range. */
  predicate Clash(a: Order, b: Order)
  {
    a.house == b.house && Overlaps(a, b.arriveDate, b.exitDate)
  }

  /** The overlap test is symmetric, so it does not matter which of two
      orders was stored first. */
  lemma ClashSymmetric(a: Order, b: Order)
    ensures Clash(a, b) == Clash(b, a)
  {
  }

  predicate Compatible(a: Order, b: Order)
  {
    !Clash(a, b)
  }

  /** No two stored orders on the same house overlap. */
  predicate NoDoubleBooking(orders: seq<Order>)
  {
    Pairwise(orders, Compatible)
  }

  predicate DistinctIds(a: Order, b: Order)
  {
    a.id != b.id
  }

  /** Order ids are primary keys. */
  predicate UniqueIds(orders: seq<Order>)
  {
    Pairwise(orders, DistinctIds)
  }

  /** The invariant holds of every two distinct orders, in either order. */
  lemma NoDoubleBookingEitherWay(orders: seq<Order>, i: nat, j: nat)
    requires NoDoubleBooking(orders)
    requires i < |orders| && j < |orders| && i != j
    ensures !Clash(orders[i], orders[j])
  {
    if j < i {
      assert Compatible(orders[j], orders[i]);
      ClashSymmetric(orders[i], orders[j]);
    } else {
      assert Compatible(orders[i], orders[j]);
    }
  }

  /** Storing a stay that the conflict query let through keeps the invariant. */
  lemma {:induction false} AcceptedBookingKeepsNoDoubleBooking(orders: seq<Order>, o: Order)
    requires NoDoubleBooking(orders)
    requires ConflictingOrders(orders, o.house, o.arriveDate, o.exitDate) == []
    ensures NoDoubleBooking(orders + [o])
  {
    var s := orders + [o];
    forall i, j | 0 <= i < j < |s| ensures Compatible(s[i], s[j]) {
      if j < |orders| {
        assert s[i] == orders[i] && s[j] == orders[j];
      } else {
        assert s[i] == orders[i] && orders[i] in orders && s[j] == o;
      }
    }
  }

  /** Storing an order whose id no stored order has keeps ids unique. */
  lemma {:induction false} FreshIdKeepsUniqueIds(orders: seq<Order>, o: Order)
    requires UniqueIds(orders)
    requires forall x :: x in orders ==> x.id != o.id
    ensures UniqueIds(orders + [o])
  {
    var s := orders + [o];
    forall i, j | 0 <= i < j < |s| ensures DistinctIds(s[i], s[j]) {
      if j < |orders| {
        assert s[i] == orders[i] && s[j] == orders[j];
      } else {
        assert s[i] == orders[i] && orders[i] in orders && s[j] == o;
      }
    }
  }

  /** Deleting orders keeps both invariants. */
  lemma FilterKeepsInvariants(orders: seq<Order>, p: Order -> bool)
    requires UniqueIds(orders) && NoDoubleBooking(orders)
    ensures UniqueIds(Filter(orders, p)) && NoDoubleBooking(Filter(orders, p))
  {
    FilterKeepsPairwise(orders, p, DistinctIds);
    FilterKeepsPairwise(orders, p, Compatible);
  }

  // --------------------------------------------------------------- deletion

  /** Looks an order up by id: its position in the store, if any. */
  function LookupOrder(orders: seq<Order>, id: OrderId): (r: Option<nat>)
    ensures r.Some? ==> r.value < |orders| && orders[r.value].id == id
    ensures r.None? ==> forall o :: o in orders ==> o.id != id
  {
    if orders == [] then None
    else if orders[0].id == id then Some(0)
    else
      assert orders == [orders[0]] + orders[1..];
      match LookupOrder(orders[1..], id)
      case Some(k) => Some(k + 1)
      case None => None
  }

  function IdIsNot(id: OrderId): Order -> bool
  {
    (o: Order) => o.id != id
  }

  /** The store after deleting the order with primary key `id`. */
  function WithoutOrder(orders: seq<Order>, id: OrderId): (r: seq<Order>)
    ensures forall o :: o in r <==> o in orders && o.id != id
  {
    Filter(orders, IdIsNot(id))
  }

  /** With unique ids, deleting by id removes exactly the order at its
      position and keeps every other order in place. */
  lemma {:induction false} WithoutOrderRemovesExactlyOne(orders: seq<Order>, k: nat)
    requires UniqueIds(orders)
    requires k < |orders|
    ensures WithoutOrder(orders, orders[k].id) == orders[..k] + orders[k + 1..]
  {
    var id := orders[k].id;
    var p := IdIsNot(id);
    var before, after := orders[..k], orders[k + 1..];
    assert orders == before + ([orders[k]] + after);
    OthersKeepTheirIds(orders, k);
    FilterKeepsAll(before, p);
    FilterKeepsAll(after, p);
    FilterSingleton(orders[k], p);
    FilterAppend([orders[k]], after, p);
    FilterAppend(before, [orders[k]] + after, p);
  }

  /** With unique ids, no order before or after position `k` has its id. */
  lemma OthersKeepTheirIds(orders: seq<Order>, k: nat)
    requires UniqueIds(orders)
    requires k < |orders|
    ensures forall x :: x in orders[..k] ==> IdIsNot(orders[k].id)(x)
    ensures forall x :: x in orders[k + 1..] ==> IdIsNot(orders[k].id)(x)
  {
    forall i | 0 <= i < k ensures orders[i].id != orders[k].id {
      assert DistinctIds(orders[i], orders[k]);
    }
    forall j | k < j < |orders| ensures orders[j].id != orders[k].id {
      assert DistinctIds(orders[k], orders[j]);
    }
  }

  /** Booking an order with a fresh id and then cancelling it gives back the
      store exactly as it was. */
  lemma {:induction false} CancelUndoesBooking(orders: seq<Order>, o: Order)
    requires forall x :: x in orders ==> x.id != o.id
    ensures WithoutOrder(orders + [o], o.id) == orders
  {
    var p := IdIsNot(o.id);
    FilterAppend(orders, [o], p);
    FilterKeepsAll(orders, p);
    FilterSingleton(o, p);
  }

  function NotOnHouse(house: HouseId): Order -> bool
  {
    (o: Order) => o.house != house
  }

  /** The orders left when a house is deleted: deletion cascades to the
      house's orders. */
  function WithoutHouse(orders: seq<Order>, house: HouseId): (r: seq<Order>)
    ensures forall o :: o in r <==> o in orders && o.house != house
  {
    Filter(orders, NotOnHouse(house))
  }

  function OutsideUser(user: UserId, owned: set<HouseId>): Order -> bool
  {
    (o: Order) => o.user != user && o.house !in owned
  }

  /** The orders left when a user is deleted: deletion cascades to the
      orders they placed and to the orders on the houses they own. */
  function WithoutUser(orders: seq<Order>, user: UserId, owned: set<HouseId>): (r: seq<Order>)
    ensures forall o :: o in r <==> o in orders && o.user != user && o.house !in owned
  {
    Filter(orders, OutsideUser(user, owned))
  }

  // ------------------------------------------------------------------ views

  function ByUser(user: UserId): Order -> bool
  {
    (o: Order) => o.user == user
  }

  /** The orders placed by `user`, in storage order. */
  function OrdersOf(orders: seq<Order>, user: UserId): (r: seq<Order>)
    ensures forall o :: o in r <==> o in orders && o.user == user
  {
    Filter(orders, ByUser(user))
  }

  /** The ids of the houses that `owner` owns. */
  function HousesOf(houses: map<HouseId, House>, owner: UserId): set<HouseId>
  {
    set h | h in houses && houses[h].owner == owner
  }

  function OnHouses(hs: set<HouseId>): Order -> bool
  {
    (o: Order) => o.house in hs
  }

  /** The orders on any of the houses `hs`, in storage order. */
  function ReservationsOn(orders: seq<Order>, hs: set<HouseId>): (r: seq<Order>)
    ensures forall o :: o in r <==> o in orders && o.house in hs
  {
    Filter(orders, OnHouses(hs))
  }

  /** An accepted booking appears at the end of its requester's list and of
      the list of whoever owns its house, and in no other list. */
  lemma {:induction false} BookingAppearsInViews(orders: seq<Order>, o: Order, user: UserId, hs: set<HouseId>)
    ensures OrdersOf(orders + [o], user) == OrdersOf(orders, user) + (if o.user == user then [o] else [])
    ensures ReservationsOn(orders + [o], hs) == ReservationsOn(orders, hs) + (if o.house in hs then [o] else [])
  {
    FilterAppend(orders, [o], ByUser(user));
    FilterSingleton(o, ByUser(user));
    FilterAppend(orders, [o], OnHouses(hs));
    FilterSingleton(o, OnHouses(hs));
  }

  /** Cancelling removes the order from its requester's list and from the
      reservation list of every set of houses, and keeps each list's other
      entries in their order. */
  lemma {:induction false} CancelLeavesViews(orders: seq<Order>, k: nat, user: UserId, hs: set<HouseId>)
    requires UniqueIds(orders)
    requires k < |orders|
    ensures OrdersOf(WithoutOrder(orders, orders[k].id), user)
         == OrdersOf(orders[..k], user) + OrdersOf(orders[k + 1..], user)
    ensures ReservationsOn(WithoutOrder(orders, orders[k].id), hs)
         == ReservationsOn(orders[..k], hs) + ReservationsOn(orders[k + 1..], hs)
    ensures orders[k] !in OrdersOf(WithoutOrder(orders, orders[k].id), user)
    ensures orders[k] !in ReservationsOn(WithoutOrder(orders, orders[k].id), hs)
  {
    WithoutOrderRemovesExactlyOne(orders, k);
    FilterAppend(orders[..k], orders[k + 1..], ByUser(user));
    FilterAppend(orders[..k], orders[k + 1..], OnHouses(hs));
  }
}
