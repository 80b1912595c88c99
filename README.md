# House reservation: booking engine and role workflow

A model of the core of a vacation-house booking site. Hosts list houses,
passengers book ranges of days, and administrators promote passengers who
ask to become hosts. The core consists of the request handlers in
`reservations/views.py` and the records in `reservations/models.py` that they
work on.

- `wrappers.dfy`, module `Wrappers`: `Option` and `Result`.
- `models.dfy`, module `Models`: the records `User`, `House` and `Order`, and
  the role enumeration with its stored codes 1 (Admin), 2 (Host) and
  3 (Passenger). A date is its day number in the proleptic Gregorian calendar.
  So comparing two dates compares integers, and `(exit - arrive).days` is
  `exit - arrive`.
- `query.dfy`, module `Query`: the store's filter query. `Filter` keeps the
  records that satisfy a condition, in storage order. It comes with lemmas
  about concatenation and about properties of every pair of records.
- `booking.dfy`, module `Booking`: the pure part of the booking engine:
  - the inclusive overlap test and the conflict query;
  - the price of a stay;
  - the invariant that no two orders on a house overlap;
  - deletion by id and by house;
  - the per-user and per-host order lists.
- `roles.dfy`, module `Roles`: the pure part of the role workflow: setting
  the request flag, an administrator's decision, and the pending set.
- `views.dfy`, module `Views`: class `Store`, which holds the users, houses
  and orders and the next primary key of each table. The handlers that
  change the store are methods with `modifies` clauses. Each method keeps
  `Valid()`:
  - records are keyed by id;
  - every stored id lies below its table's next key, and each new record takes that key, so an id is never handed out twice;
  - every reference points at a stored record;
  - no two orders on a house overlap.

  The logged-in user is an explicit `requester` parameter. A requester id
  that is not a stored user stands for an anonymous visitor. `Scenarios` is a
  client of these methods. It covers a three-night stay at 100 a day (price
  300), a same-day check-in that is rejected, a repeated role request, a
  passenger who tries to decide a request, and the cancellation of an unknown
  id.

Where the code does something one might not expect, the model follows the code:
- The overlap test is inclusive at both ends. A stay that checks in on
  another stay's checkout day is rejected.
- Nothing checks that the exit day follows the arrival day. A reversed range
  is booked with a price of zero or less when the daily price is not negative (`Booking.ReversedRangePrice`). No check keeps the daily price non-negative, so with a negative daily price a reversed range gets a positive charge.
- A decision applies to any existing user, not only to one with a pending
  request. Approving an Admin makes them a Host.
- Any logged-in user may cancel any order. There is no ownership check.
- `house_create` checks neither login nor role. For a visitor who is not
  logged in, the model returns `Unauthenticated`; the framework would fail
  instead.
- The role test of `manage_role_requests` reads the requester's role. An
  anonymous user has no role, so for an anonymous visitor the test raises an
  error on both the POST and the GET branch. The model answers `Forbidden`
  and changes nothing.

## Model

| member | source | states |
|---|---|---|
| `Models.Role.Code` | reservations/models.py:7-12 | every role is stored as one of the codes 1, 2, 3 |
| `Models.RoleFromCode` | reservations/models.py:7-12 | a code reads back as a role exactly when it is 1, 2 or 3, and that role is stored as the same code |
| `Models.RoleCodeRoundTrip` | reservations/models.py:7-12 | storing a role as its code and reading the code back gives the same role |
| `Query.Filter` | reservations/views.py:127-131 | the filter result holds exactly the records that satisfy the condition, each as often as in the store, and is no longer than the store |
| `Query.FilterAppend` | reservations/views.py:127-131 | filtering a concatenation is the concatenation of the filtered parts |
| `Query.FilterKeepsPairwise` | reservations/views.py:150 | a property of every ordered pair of stored records survives any deletion by filter |
| `Booking.ConflictingOrders` | reservations/views.py:127-133 | the conflict query returns only orders on the house that overlap the stay (inclusive bounds); it is empty exactly when no order on that house overlaps |
| `Booking.CheckoutDayBlocksCheckIn` | reservations/views.py:129-130 | a stay that arrives on the day an existing order exits overlaps that order, unless it ends before that order starts |
| `Booking.OtherHousesNeverConflict` | reservations/views.py:127-128 | adding orders for other houses leaves the conflict query's result for a house unchanged |
| `Booking.PriceIsPerNight` | reservations/views.py:137 | the charges of two consecutive ranges add up to the charge of the whole range, and a zero-night stay costs nothing |
| `Booking.ReversedRangePrice` | reservations/views.py:137 | an exit before the arrival gives a charge of at most zero for a non-negative daily price, and a negative charge for a positive one |
| `Booking.ClashSymmetric` | reservations/views.py:127-131 | the overlap of two stored orders on a house does not depend on which one is tested against the other |
| `Booking.NoDoubleBookingEitherWay` | reservations/views.py:127-138 | under the invariant, no two distinct stored orders clash, in either order |
| `Booking.AcceptedBookingKeepsNoDoubleBooking` | reservations/views.py:127-138 | appending a stay that the conflict query let through keeps every pair of orders on a house free of overlap |
| `Booking.FreshIdKeepsUniqueIds` | reservations/views.py:138 | saving an order under a new primary key keeps the order ids unique |
| `Booking.FilterKeepsInvariants` | reservations/views.py:150 | deleting orders keeps the ids unique and the orders free of overlap |
| `Booking.LookupOrder` | reservations/views.py:147 | finding an order by id gives a position holding that id, or reports that no stored order has it |
| `Booking.WithoutOrderRemovesExactlyOne` | reservations/views.py:147-150 | with unique ids, deleting an order by id removes the order at its position and keeps all others in order |
| `Booking.CancelUndoesBooking` | reservations/views.py:137-150 | storing an order with a fresh id and then deleting it gives back exactly the previous store |
| `Booking.BookingAppearsInViews` | reservations/views.py:185-197 | a new order is appended to its requester's list and to the reservation list of its house's owner, and changes no other list |
| `Booking.CancelLeavesViews` | reservations/views.py:150-188 | after a cancellation, a user's list and the list for any set of houses consist of their orders before and after the deleted one, and the deleted order is in neither list |
| `Roles.RequestIsIdempotent` | reservations/views.py:57-59 | making a role request a second time leaves the users unchanged |
| `Roles.PendingAfterRequest` | reservations/views.py:57-59 | a request adds exactly the requesting user to the pending set |
| `Roles.PendingAfterDecision` | reservations/views.py:168-174 | an approval or a denial removes exactly the target user from the pending set |
| `Roles.RequestThenDecide` | reservations/views.py:168-170 | for a new user, request then approval gives a Host with no pending request; request then any other action gives back the new Passenger |
| `Models.NewUserDefaults` | reservations/models.py:12-15 | a new user holds role code 3 (Passenger) and has no pending request |
| `Models.NewUser` | reservations/models.py:12-15 | the record a new user starts as: its meaning is stated by `Models.NewUserDefaults`, and `Views.Store.Signup` stores it |
| `Models.DefaultRole` | reservations/models.py:12 | the default role, Passenger: `Models.NewUserDefaults` states that a new user holds it, with code 3 |
| `Booking.Overlaps` | reservations/views.py:129-130 | the inclusive overlap test: its meaning is stated by `Booking.ConflictingOrders`, `Booking.CheckoutDayBlocksCheckIn` and `Booking.ClashSymmetric` |
| `Booking.TotalPrice` | reservations/views.py:137 | the charge daily price × nights: `Booking.PriceIsPerNight` and `Booking.ReversedRangePrice` state its properties, and `Views.Store.OrderHouse` stores it as the order's price |
| `Booking.WithoutOrder` | reservations/views.py:150 | the orders left after deleting an id are exactly the stored orders with another id; `Booking.WithoutOrderRemovesExactlyOne` and `Booking.CancelUndoesBooking` say which ones and in what order |
| `Booking.WithoutHouse` | reservations/models.py:40 | the orders left after a house is deleted are exactly the stored orders on other houses |
| `Booking.OrdersOf` | reservations/views.py:187 | a user's list holds exactly the stored orders that user placed |
| `Booking.HousesOf` | reservations/views.py:195 | the ids of the houses a user owns: `Views.Store.HostHouses` states its meaning |
| `Booking.ReservationsOn` | reservations/views.py:196 | the list for a set of houses holds exactly the stored orders on those houses |
| `Roles.WithRequest` | reservations/views.py:58 | setting the request flag: `Roles.RequestIsIdempotent`, `Roles.PendingAfterRequest` and `Views.Store.RequestRoleChange` state that it sets the flag, keeps the role and is idempotent |
| `Roles.Decided` | reservations/views.py:168-170 | an administrator's decision: `Views.Store.DecideRoleChange` states that approval sets Host, any other action keeps the role, and the flag is cleared; `Roles.PendingAfterDecision` states that the user leaves the pending set |
| `Roles.PendingRequests` | reservations/views.py:174 | the ids of the users whose flag is set: `Views.Store.PendingRoleRequests` states its meaning, and `Roles.PendingAfterRequest` and `Roles.PendingAfterDecision` state how it changes |
| `Views.Store.Valid` | reservations/models.py:28-41 | the store invariant that every handler keeps: records are keyed by id, ids are fresh, every house has a stored owner, every order a stored house and user, order ids are unique, and no two orders on a house overlap |
| `Views.Store.Signup` | reservations/views.py:15-21 | a new user is stored under the next user key, which no stored or deleted user has held, as a Passenger with no pending request, and no other user changes |
| `Views.Store.CreateHouse` | reservations/views.py:88-98 | a logged-in requester's house is stored under the next house key, which no stored or deleted house has held, with the requester as owner; otherwise nothing changes |
| `Views.Store.OrderHouse` | reservations/views.py:117-143 | the booking is refused when there is no login or the house is missing; past those checks it succeeds exactly when no stored order on the house overlaps; on success one order is appended, bound to the requester and the house, with price = daily price × nights; on any failure the orders are unchanged; the invariant is kept |
| `Views.Store.CancelOrder` | reservations/views.py:145-152 | for a logged-in requester it succeeds exactly when some order has the id; it then removes exactly that order and keeps the others in order; a missing id gives NotFound and changes nothing |
| `Views.Store.RequestRoleChange` | reservations/views.py:48-61 | a logged-in requester's flag is set, their role is kept, no other user changes, and they join the pending set |
| `Views.Store.DecideRoleChange` | reservations/views.py:162-172 | only an Admin may decide; a missing target gives NotFound; otherwise only the target changes: approval sets Host, any other action keeps the role, and the flag is cleared so the target leaves the pending set |
| `Views.Store.PendingRoleRequests` | reservations/views.py:174-175 | only an Admin may list requests; the list holds exactly the users whose flag is set |
| `Views.Store.UserOrders` | reservations/views.py:185-188 | a logged-in requester gets exactly the orders they placed, in storage order |
| `Views.Store.HostHouses` | reservations/views.py:178-183 | a Host gets exactly the houses they own; any other requester is denied |
| `Views.Store.HostReservations` | reservations/views.py:191-197 | a Host gets exactly the orders on houses they own; a non-Host is refused, and a visitor without a login is refused as unauthenticated |
| `Views.Store.DeleteHouse` | reservations/views.py:109-115 | only the owner finds the house; deleting it removes the house and exactly the orders on it; for anyone else nothing changes |
| `Booking.WithoutUser` | reservations/models.py:28-41 | the orders left after a user is deleted are exactly the stored orders neither placed by that user nor on one of their houses |
| `Views.Store.DeleteUser` | reservations/models.py:17-41 | deleting a user removes them, the houses they own, and every order they placed or that is on one of their houses; the store stays consistent |

## Left out

- Views.Store.DecideRoleChange: for an anonymous visitor the source raises an error in the role test; the model answers `Forbidden` and changes nothing.
- Views.Store.PendingRoleRequests: for an anonymous visitor the source raises an error in the role test; the model answers `Forbidden`.
- Login, logout, sessions, templates, flash messages and redirects: the requester is a parameter, and each refusal is an `Error` value.
- Form parsing and validation (`form.is_valid()`, the GET branches that only render a form): the handlers take dates and counts that are already parsed.
- `search`: a case-insensitive substring match with the database's Unicode rules.
- The image resizing in `House.save`: file I/O through an imaging library.
- The house fields that no handler reads (name, image, city, rooms, area, parkings, pool, oven), the profile fields of a user, and the profile-update branch of `user_info`: none of them takes part in a decision.
- The list, detail and update views for houses: framework wrappers with no logic beyond the owner-only query set, which `DeleteHouse` models.
- `Views.Store.OrderHouse`: the storage precision of `total_price` (ten digits, two decimals) and the integer width of the database columns are not modelled; prices are unbounded integers.
- `Views.Store.OrderHouse`: the race between the conflict query and the save is not modelled, because each handler runs as one atomic step.
- `count_of_passengers` is stored and never compared with `capacity`, so the model states no capacity bound.
- Deleting a user is declared by the cascades of the record definitions; no handler in the core calls it.
- The routing and form definitions (`reservations/urls.py`, `reservations/forms.py`): configuration only.
