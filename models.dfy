/** The records of the reservation store: users with a role, houses owned by a
    user, and orders that bind a user to a house for a range of days. */
module Models {
  import opened Wrappers

  type UserId = nat
  type HouseId = nat
  type OrderId = nat

  /** A calendar date, as its day number in the proleptic Gregorian calendar
      (0001-01-01 is day 1). Comparing two dates compares their day numbers,
      and subtracting two dates gives the number of days between them. */
  type Day = int

  /** The three roles, stored in the database as the integers 1, 2 and 3. */
  datatype Role = Admin | Host | Passenger {

    /** The integer the database stores for this role. */
    function Code(): (c: int)
      ensures 1 <= c <= 3
    {
      match this
      case Admin => 1
      case Host => 2
      case Passenger => 3
    }
  }

  /** Reads a stored role code back; only 1, 2 and 3 are choices of the field. */
  function RoleFromCode(c: int): (r: Option<Role>)
    ensures r.Some? <==> 1 <= c <= 3
    ensures r.Some? ==> r.value.Code() == c
  {
    if c == 1 then Some(Admin)
    else if c == 2 then Some(Host)
    else if c == 3 then Some(Passenger)
    else None
  }

  /** Every role survives being stored as its code and read back. */
  lemma RoleCodeRoundTrip(r: Role)
    ensures RoleFromCode(r.Code()) == Some(r)
  {
  }

  /** The role field's default: Passenger (code 3). */
  const DefaultRole: Role := Passenger

  /** A user: the fields of the user record that the handlers read or write. */
  datatype User = User(id: UserId, role: Role, roleChangeRequested: bool)

  /** A freshly created user: the default role and no pending request. */
  function NewUser(id: UserId): User
  {
    User(id, DefaultRole, false)
  }

  /** A new user holds role code 3, Passenger, and has not asked to become
      a host. */
  lemma NewUserDefaults(id: UserId)
    ensures NewUser(id).id == id
    ensures NewUser(id).role == Passenger && NewUser(id).role.Code() == 3
    ensures !NewUser(id).roleChangeRequested
  {
  }

  /** A house with exactly one owning user. `capacity` is stored but no
      handler compares it with the number of passengers of an order. */
  datatype House = House(id: HouseId, owner: UserId, pricePerDay: int, capacity: int)

  /** An order (a reservation) of one house by one user. */
  datatype Order = Order(
    id: OrderId,
    house: HouseId,
    user: UserId,
    arriveDate: Day,
    exitDate: Day,
    countOfPassengers: int,
    totalPrice: int)
}
