/** The request handlers over one persistent store. The logged-in user is an
    explicit `requester`: a requester whose id is not a stored user stands for
    an anonymous visitor. */
module Views {
  import opened Wrappers
  import opened Models
  import opened Query
  import opened Booking
  import opened Roles

  /** Why a handler refused a request. */
  datatype Error =
    | Unauthenticated  // a login-required handler reached without a login
    | Forbidden        // the requester's role does not allow the action
    | NotFound         // no record with the given id
    | Conflict         // an existing order overlaps the requested stay

  class Store {
    var users: map<UserId, User>
    var houses: map<HouseId, House>
    var orders: seq<Order>
    var nextUserId: nat
    var nextHouseId: nat
    var nextOrderId: nat

    /** Records are keyed by their id, every stored id lies below its table's
        next key (so keys handed out later are fresh), every reference
        points at a stored record, and no two orders on a house overlap. */
    ghost predicate Valid()
      reads this
    {
      && (forall id :: id in users ==> users[id].id == id && id < nextUserId)
      && (forall id :: id in houses ==>
            houses[id].id == id && id < nextHouseId && houses[id].owner in users)
      && (forall o :: o in orders ==>
            o.id < nextOrderId && o.house in houses && o.user in users)
      && UniqueIds(orders)
      && NoDoubleBooking(orders)
    }

    constructor ()
      ensures Valid()
      ensures users == map[] && houses == map[] && orders == []
    {
      users, houses, orders := map[], map[], [];
      nextUserId, nextHouseId, nextOrderId := 1, 1, 1;
    }

    /** `signup`: stores a new user, always as a Passenger with no pending
        request. */
    method Signup() returns (id: UserId)
      requires Valid()
      modifies this`users, this`nextUserId
      ensures Valid()
      ensures id == old(nextUserId) && nextUserId == old(nextUserId) + 1
      ensures id !in old(users) && users == old(users)[id := NewUser(id)]
      ensures users[id].role == Passenger && !users[id].roleChangeRequested
    {
      id := nextUserId;
      users := users[id := NewUser(id)];
      nextUserId := nextUserId + 1;
    }

    /** `house_create`: stores a house owned by the requester. The handler
        checks no role, so any logged-in user may list a house. */
    method CreateHouse(requester: UserId, pricePerDay: int, capacity: int) returns (r: Result<HouseId, Error>)
      requires Valid()
      modifies this`houses, this`nextHouseId
      ensures Valid()
      ensures r.Ok? <==> requester in users
      ensures r.Err? ==> r.error == Unauthenticated && houses == old(houses) && nextHouseId == old(nextHouseId)
      ensures r.Ok? ==>
                && r.value == old(nextHouseId) && nextHouseId == old(nextHouseId) + 1
                && r.value !in old(houses)
                && houses == old(houses)[r.value := House(r.value, requester, pricePerDay, capacity)]
    {
      if requester !in users {
        return Err(Unauthenticated);
      }
      var id := nextHouseId;
      houses := houses[id := House(id, requester, pricePerDay, capacity)];
      nextHouseId := nextHouseId + 1;
      r := Ok(id);
    }

    /** `order_house`: books `house` for the requester from `arrive` to
        `exit`, unless a stored order on that house overlaps the stay. */
    method OrderHouse(requester: UserId, house: HouseId, arrive: Day, exit: Day, passengers: int)
      returns (r: Result<Order, Error>)
      requires Valid()
      modifies this`orders, this`nextOrderId
      ensures Valid()
      ensures requester !in users ==> r == Err(Unauthenticated)
      ensures requester in users && house !in houses ==> r == Err(NotFound)
      ensures requester in users && house in houses ==>
                (r.Ok? <==> forall o :: o in old(orders) && o.house == house ==> !Overlaps(o, arrive, exit))
      ensures r.Err? && requester in users && house in houses ==> r.error == Conflict
      ensures r.Err? ==> orders == old(orders) && nextOrderId == old(nextOrderId)
      ensures r.Ok? ==>
                && r.value == Order(old(nextOrderId), house, requester, arrive, exit, passengers,
                                    TotalPrice(houses[house].pricePerDay, arrive, exit))
                && r.value.totalPrice == houses[house].pricePerDay * (exit - arrive)
                && (forall o :: o in old(orders) ==> o.id != r.value.id)
                && orders == old(orders) + [r.value]
    {
      if requester !in users {
        return Err(Unauthenticated);
      }
      if house !in houses {
        return Err(NotFound);
      }
      if ConflictingOrders(orders, house, arrive, exit) != [] {
        return Err(Conflict);
      }
      var order := Order(nextOrderId, house, requester, arrive, exit, passengers,
                         TotalPrice(houses[house].pricePerDay, arrive, exit));
      AcceptedBookingKeepsNoDoubleBooking(orders, order);
      FreshIdKeepsUniqueIds(orders, order);
      orders := orders + [order];
      nextOrderId := nextOrderId + 1;
      r := Ok(order);
    }

    /** `cancel_order`: deletes the order with the given id. Any logged-in
        user may cancel any order; the handler checks no ownership. */
    method CancelOrder(requester: UserId, id: OrderId) returns (r: Result<Order, Error>)
      requires Valid()
      modifies this`orders
      ensures Valid()
      ensures requester !in users ==> r == Err(Unauthenticated)
      ensures requester in users ==> (r.Ok? <==> exists o :: o in old(orders) && o.id == id)
      ensures r.Err? ==> orders == old(orders)
      ensures r.Err? && requester in users ==> r.error == NotFound
      ensures r.Ok? ==>
                && r.value.id == id
                && orders == WithoutOrder(old(orders), id)
                && exists k :: 0 <= k < |old(orders)| && old(orders)[k] == r.value
                               && orders == old(orders)[..k] + old(orders)[k + 1..]
    {
      if requester !in users {
        return Err(Unauthenticated);
      }
      match LookupOrder(orders, id)
      case None =>
        r := Err(NotFound);
      case Some(k) =>
        var order := orders[k];
        WithoutOrderRemovesExactlyOne(orders, k);
        FilterKeepsInvariants(orders, IdIsNot(id));
        orders := WithoutOrder(orders, id);
        r := Ok(order);
    }

    /** The `request_role_change` branch of `user_info`: flags the
        requester's wish to become a host and keeps their role. */
    method RequestRoleChange(requester: UserId) returns (r: Result<User, Error>)
      requires Valid()
      modifies this`users
      ensures Valid()
      ensures r.Ok? <==> requester in old(users)
      ensures r.Err? ==> r.error == Unauthenticated && users == old(users)
      ensures r.Ok? ==>
                && r.value == WithRequest(old(users)[requester])
                && r.value.role == old(users)[requester].role && r.value.roleChangeRequested
                && users == old(users)[requester := r.value]
                && PendingRequests(users) == PendingRequests(old(users)) + {requester}
    {
      if requester !in users {
        return Err(Unauthenticated);
      }
      PendingAfterRequest(users, requester);
      var u := WithRequest(users[requester]);
      users := users[requester := u];
      r := Ok(u);
    }

    /** The POST branch of `manage_role_requests`: an Admin approves or
        denies the request of user `target`. For an anonymous visitor the
        handler's role test raises an error, because an anonymous user has
        no role; the model answers `Forbidden` and changes nothing. */
    method DecideRoleChange(requester: UserId, target: UserId, action: string) returns (r: Result<User, Error>)
      requires Valid()
      modifies this`users
      ensures Valid()
      ensures !(requester in old(users) && old(users)[requester].role == Admin) ==> r == Err(Forbidden)
      ensures requester in old(users) && old(users)[requester].role == Admin ==> (r.Ok? <==> target in old(users))
      ensures r.Err? ==> users == old(users)
      ensures r.Err? && requester in old(users) && old(users)[requester].role == Admin ==> r.error == NotFound
      ensures r.Ok? ==>
                && r.value == Decided(old(users)[target], action)
                && r.value.id == target
                && r.value.role == (if action == ApproveAction then Host else old(users)[target].role)
                && !r.value.roleChangeRequested
                && users == old(users)[target := r.value]
                && PendingRequests(users) == PendingRequests(old(users)) - {target}
    {
      if requester !in users || users[requester].role != Admin {
        return Err(Forbidden);
      }
      if target !in users {
        return Err(NotFound);
      }
      PendingAfterDecision(users, target, action);
      var u := Decided(users[target], action);
      users := users[target := u];
      r := Ok(u);
    }

    /** The GET branch of `manage_role_requests`: an Admin sees every user
        whose request is pending. An anonymous visitor makes the role test
        raise an error; the model answers `Forbidden`. */
    method PendingRoleRequests(requester: UserId) returns (r: Result<set<UserId>, Error>)
      ensures r.Ok? <==> requester in users && users[requester].role == Admin
      ensures r.Err? ==> r.error == Forbidden
      ensures r.Ok? ==> forall id :: id in r.value <==> id in users && users[id].roleChangeRequested
    {
      if requester !in users || users[requester].role != Admin {
        return Err(Forbidden);
      }
      r := Ok(PendingRequests(users));
    }

    /** `user_orders`: the logged-in requester's own orders. */
    method UserOrders(requester: UserId) returns (r: Result<seq<Order>, Error>)
      ensures r.Ok? <==> requester in users
      ensures r.Err? ==> r.error == Unauthenticated
      ensures r.Ok? ==> r.value == OrdersOf(orders, requester)
      ensures r.Ok? ==> forall o :: o in r.value <==> o in orders && o.user == requester
    {
      if requester !in users {
        return Err(Unauthenticated);
      }
      r := Ok(OrdersOf(orders, requester));
    }

    /** `host_houses`: a Host's own houses; everyone else is denied. */
    method HostHouses(requester: UserId) returns (r: Result<set<HouseId>, Error>)
      ensures r.Ok? <==> requester in users && users[requester].role == Host
      ensures r.Err? ==> r.error == Forbidden
      ensures r.Ok? ==> forall h :: h in r.value <==> h in houses && houses[h].owner == requester
    {
      if !(requester in users && users[requester].role == Host) {
        return Err(Forbidden);
      }
      r := Ok(HousesOf(houses, requester));
    }

    /** `host_reservations`: the orders on the houses a Host owns. */
    method HostReservations(requester: UserId) returns (r: Result<seq<Order>, Error>)
      requires Valid()
      ensures requester !in users ==> r == Err(Unauthenticated)
      ensures requester in users ==> (r.Ok? <==> users[requester].role == Host)
      ensures r.Err? && requester in users ==> r.error == Forbidden
      ensures r.Ok? ==> r.value == ReservationsOn(orders, HousesOf(houses, requester))
      ensures r.Ok? ==> forall o :: o in r.value <==> o in orders && houses[o.house].owner == requester
    {
      if requester !in users {
        return Err(Unauthenticated);
      }
      if users[requester].role != Host {
        return Err(Forbidden);
      }
      r := Ok(ReservationsOn(orders, HousesOf(houses, requester)));
    }

    /** The delete view for houses: only the owner finds the house, and its
        deletion cascades to the house's orders. */
    method DeleteHouse(requester: UserId, house: HouseId) returns (r: Result<House, Error>)
      requires Valid()
      modifies this`houses, this`orders
      ensures Valid()
      ensures requester !in users ==> r == Err(Unauthenticated)
      ensures requester in users ==>
                (r.Ok? <==> house in old(houses) && old(houses)[house].owner == requester)
      ensures r.Err? && requester in users ==> r.error == NotFound
      ensures r.Err? ==> houses == old(houses) && orders == old(orders)
      ensures r.Ok? ==>
                && r.value == old(houses)[house]
                && houses == old(houses) - {house}
                && orders == WithoutHouse(old(orders), house)
                && (forall o :: o in orders <==> o in old(orders) && o.house != house)
    {
      if requester !in users {
        return Err(Unauthenticated);
      }
      if house !in houses || houses[house].owner != requester {
        return Err(NotFound);
      }
      var h := houses[house];
      FilterKeepsInvariants(orders, NotOnHouse(house));
      orders := WithoutHouse(orders, house);
      houses := houses - {house};
      r := Ok(h);
    }

    /** Deleting a user cascades: their houses go, and so does every order
        they placed or that was placed on one of their houses. */
    method DeleteUser(id: UserId) returns (r: Result<User, Error>)
      requires Valid()
      modifies this`users, this`houses, this`orders
      ensures Valid()
      ensures r.Ok? <==> id in old(users)
      ensures r.Err? ==>
                && r.error == NotFound
                && users == old(users) && houses == old(houses) && orders == old(orders)
      ensures r.Ok? ==>
                && r.value == old(users)[id]
                && users == old(users) - {id}
                && houses == old(houses) - HousesOf(old(houses), id)
                && orders == WithoutUser(old(orders), id, HousesOf(old(houses), id))
                && (forall o :: o in orders <==>
                      o in old(orders) && o.user != id && o.house !in HousesOf(old(houses), id))
    {
      if id !in users {
        return Err(NotFound);
      }
      var u := users[id];
      var owned := HousesOf(houses, id);
      FilterKeepsInvariants(orders, OutsideUser(id, owned));
      orders := WithoutUser(orders, id, owned);
      houses := houses - owned;
      users := users - {id};
      r := Ok(u);
    }
  }

  /** A client of the handlers: the booking and role scenarios that follow
      from the contracts above alone. Days 1 to 8 stand for consecutive dates. */
  method Scenarios()
  {
    var store := new Store();
    var host := store.Signup();
    var guest := store.Signup();
    var h := store.CreateHouse(host, 100, 4);
    assert h.Ok?;
    var house := h.value;

    // a three-night stay at 100 per day costs 300
    var first := store.OrderHouse(guest, house, 1, 4, 2);
    assert first.Ok? && first.value.totalPrice == 300;

    // a stay that checks in on the first one's checkout day is rejected
    var second := store.OrderHouse(guest, house, 4, 8, 2);
    assert second == Err(Conflict);

    // asking twice for the host role leaves one pending request
    var once := store.RequestRoleChange(guest);
    var twice := store.RequestRoleChange(guest);
    assert twice.Ok? && store.users[guest].roleChangeRequested;

    // a passenger cannot decide a request
    var denied := store.DecideRoleChange(guest, guest, ApproveAction);
    assert denied == Err(Forbidden) && store.users[guest].role == Passenger;

    // cancelling an id that was never issued fails
    var missing := store.CancelOrder(guest, first.value.id + 1);
    assert missing == Err(NotFound);

    // a user who leaves and a newcomer never share an id
    var gone := store.DeleteUser(guest);
    var newcomer := store.Signup();
    assert newcomer != guest;
  }
}
