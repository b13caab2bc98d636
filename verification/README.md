# Elevator booking and repair workflow of a car-repair shop

This Dafny project models the core of a small Flask application that runs a car-repair shop. Clients book a
repair on one of the shop's car elevators. Receptionists approve, reschedule and assign repairs. Mechanics
claim, complete and annotate repairs. A manager blocks and unblocks elevators. A stock keeper watches and
replenishes consumables. A role gate sits in front of every staff route except the generic employee
`dashboard`, which only requires a login.

The model is made of these modules:

- `Records` (records.dfy): the database rows as datatypes. These are elevators (status Available, Occupied or
  Maintenance), repairs (status Pending, Approved, In Progress or Completed, an optional mechanic, an optional
  cost and billing note) and consumables (quantity and threshold, the threshold defaulting to 5). It also
  holds the party making a request (`Anonymous`, `Client(id)`, `Employee(id, role)`), the form fields a request
  carries, and a typed `Outcome` in place of the flash message and redirect: `Committed`, `NotFound` (404),
  `Rejected(why)`, `Fault` (an uncaught exception). Only `Committed` persists anything. A route that returns
  without `db.session.commit()` has its session rolled back.
- `Gate` (gate.dfy): the `role_required` decorator as a higher-order function around the wrapped route.
- `Views` (views.dfy): the read-only routes. These are `home_redirect`, the repair history of `index` and
  `client_dashboard`, and the elevator lists the booking, rescheduling and unblocking forms offer.
- `Stock` (stock.dfy): the low-stock list, the replenishment amount, and the effect of a single and of the mass
  replenishment.
- `Occupancy` (occupancy.dfy): the booking invariant. An elevator is Occupied exactly when an unfinished repair
  holds it. No two unfinished repairs hold the same elevator. Every unfinished repair holds an existing elevator.
  For each kind of write the routes make, a lemma proves it keeps the invariant under a stated condition.
- `Routes` (routes.dfy): the class `Shop` holds the tables as maps from id to row. Each state-changing route is
  one method on it. The method's contract gives the outcome for every input and the whole new state. It also
  says when the booking invariant is kept.
- `Scenarios` (scenarios.dfy): fixed sequences of route calls on small databases. Dafny proves their outcomes
  from the routes' contracts. They show that each status condition the routes do not check is needed for the
  invariant. They also replay
  double booking, rescheduling, unblocking twice, an overflowing restock and a repair's full life.

The code does not keep the booking invariant in general, because several routes do not look at the status
they overwrite. The model follows the code, so the invariant is proved only under each route's condition.
These routes preserve it unconditionally: booking, assigning a mechanic and recording parts. These preserve it
only for an unfinished repair: approving, claiming, completing and rescheduling. Blocking and unblocking
preserve it only for an elevator that is not Occupied. For each of the unguarded routes, a method in
`Scenarios` replays it and proves that it takes a consistent database to an inconsistent one.

The routes behave more loosely than a strict workflow would. The model follows the code in each case:

- Approval does not require Pending.
- Claiming does not require Pending or Approved.
- Completion does not require In Progress.
- Blocking does not refuse an Occupied elevator.
- Replenishment accepts zero and negative amounts.
- A failed reschedule writes the literal "Occupied" back rather than a snapshot. That write is then rolled back
  along with the rest of the session.
- A client reaching a role-gated route crashes instead of being refused.
- A cost of 0.0 is replaced by 100.0 on completion, as `repair.cost or 100.0` treats 0.0 as missing.
- Quantities are stored in a signed 64-bit SQLite column, but `int()` parses amounts far wider than 64 bits. A
  restock whose sum leaves that range fails on commit with an uncaught exception and stores nothing.

No route cancels a repair. A repair leaves the workflow only by being completed.

## Model

| member | source | states |
|---|---|---|
| `Gate.RoleRequired` | app/utils.py:20-25 | An anonymous user is denied. A client, who has no `role` attribute, crashes the request. An employee whose role string differs from the required one is denied. The request passes exactly when the user is an employee whose role equals the required role. A passing request returns the wrapped route's answer on the unchanged arguments. |
| `Gate.RefusalIgnoresRoute` | app/utils.py:22-24 | When the user lacks the role, the gate's answer is the same for any route and any arguments. The wrapped route is never run. |
| `Gate.NoRoleHierarchy` | app/utils.py:22 | The check is exact string equality. No user passes the gates of two different roles. |
| `Gate.ManagerIsNotReceptionist` | app/utils.py:22 | A Manager is denied at a Receptionist gate. |
| `Views.HomeRedirect` | app/main/routes.py:71-95 | A user goes to a dashboard exactly when they are an employee whose role is Manager, Receptionist, Mechanic or StockKeeper. That dashboard is the one belonging to their role. Anonymous users, clients and employees with any other role go to the index page. |
| `Views.RedirectPassesGate` | app/main/routes.py:84-92 | A user the redirect sends to a dashboard passes the role gate of that dashboard. |
| `Views.RedirectDeterminesRole` | app/main/routes.py:84-95 | Two users sent to the same dashboard are employees with the same role. |
| `Views.History` | app/main/routes.py:113 | The history holds exactly the repairs whose client id is the given id, each unchanged. |
| `Views.HistoriesPartition` | app/main/routes.py:19 | Every repair is in the history of the client who booked it and in no other client's history. |
| `Views.DistinctHistoriesDisjoint` | app/main/routes.py:19 | Two different clients' histories share no repair. |
| `Views.IndexView` | app/main/routes.py:12-21 | The home page lists repairs exactly when the user is logged in and has no truthy role. It then lists the history under the user's own id. Otherwise it lists none. |
| `Views.ClientDashboard` | app/main/routes.py:97-113 | An anonymous user is sent to log in. A user with a role is sent away. Otherwise the user sees the same repair list as on the home page. |
| `Views.AvailableElevators` | app/main/routes.py:35 | The booking form offers exactly the elevators whose status is Available. |
| `Views.UnavailableElevators` | app/employee/routes.py:555 | The unblock form lists exactly the elevators whose status is not Available. |
| `Views.ElevatorListsPartition` | app/employee/routes.py:555 | The two lists are disjoint and together cover every elevator. |
| `Stock.LowStock` | app/employee/routes.py:573 | The low-stock list holds exactly the consumables whose quantity is at or below their threshold. |
| `Stock.ReorderAmount` | app/employee/routes.py:595-599 | The amount added is the parsed integer, negative numbers included. It is 10 when the field is absent or not an integer. |
| `Stock.Replenished` | app/employee/routes.py:602 | Replenishment raises the quantity by exactly the amount and changes no other field. |
| `Stock.ToppedUp` | app/employee/routes.py:623 | Mass replenishment tops an item up by its own threshold, the same as replenishing it by that threshold. |
| `Stock.MassReplenished` | app/employee/routes.py:619-623 | Every item that was low is topped up by its threshold. Every other item is unchanged. No item is added or dropped. |
| `Stock.MassReplenishedInColumn` | app/employee/routes.py:619-624 | When every topped-up low item fits the 64-bit column, every quantity of the replenished ledger fits it. |
| `Stock.ModestThresholdsFit` | app/employee/routes.py:623 | When thresholds are between zero and half the column's range, mass replenishment cannot overflow. |
| `Stock.LowAfterMassReplenish` | app/employee/routes.py:619-623 | After mass replenishment, the low items are exactly those that were low with a quantity of zero or less. |
| `Stock.NegativeThresholdDrainsStock` | app/employee/routes.py:623 | A low item with a negative threshold loses stock in mass replenishment. |
| `Stock.NegativeAmountOverdraws` | app/employee/routes.py:597-602 | A negative reorder amount can leave a quantity below zero. |
| `Stock.DefaultReplenishClearsLowItem` | app/employee/routes.py:595-602 | An item with 2 in stock and threshold 5 is low. A replenishment without an amount leaves it at 12 and no longer low. |
| `Occupancy.SetStatus` | app/employee/routes.py:371-373 | Setting the status of an existing elevator changes that status alone. A missing elevator is left alone, as are all other elevators. |
| `Occupancy.SameHoldKeepsConsistent` | app/employee/routes.py:161-165 | Rewriting a repair keeps the invariant when the new repair holds the same elevator and is unfinished exactly when the old one was. Assigning a mechanic and recording parts always make such rewrites. Approving and claiming make them only for an unfinished repair, because on a Completed repair they make it unfinished again. |
| `Occupancy.BookingKeepsConsistent` | app/main/routes.py:49-64 | Booking an Available elevator for a new unfinished repair under a fresh id keeps the invariant. |
| `Occupancy.ReleaseKeepsConsistent` | app/employee/routes.py:363-373 | Finishing an unfinished repair and releasing its elevator keeps the invariant. |
| `Occupancy.MoveKeepsConsistent` | app/employee/routes.py:211-240 | Moving an unfinished repair to an elevator keeps the invariant. The move releases the old elevator and then occupies the new one. The new elevator must be Available once the old one is released. This includes the repair's own elevator. |
| `Occupancy.IdleStatusKeepsConsistent` | app/employee/routes.py:500-548 | Moving an elevator that is not Occupied to any status other than Occupied keeps the invariant. |
| `Routes.RescheduledStatus` | app/employee/routes.py:239-240 | A reschedule turns Pending and Approved into Pending and keeps every other status. |
| `Routes.AssignedStatus` | app/employee/routes.py:294-295 | Assigning a mechanic turns Pending into Approved and keeps every other status. |
| `Routes.FinalCost` | app/employee/routes.py:366 | A completed repair always ends with a nonzero cost. A nonzero cost is kept. A missing or zero cost becomes 100.0. |
| `Routes.PartsNote` | app/employee/routes.py:417 | The billing note is the label "Parts Used: " followed by the parts text as entered, and nothing else. |
| `Routes.Shop.ScheduleRepair` | app/main/routes.py:23-66 | An anonymous user must log in, and a user with a truthy role is refused. A missing description, date or elevator id is rejected. A malformed date or an unknown elevator id crashes the request. An elevator that is not Available is rejected. In all these cases nothing changes. Otherwise the elevator becomes Occupied and exactly one repair is added under a fresh id: Pending, booked by the user, on that elevator. Booking keeps the invariant. |
| `Routes.Shop.ApproveRepair` | app/employee/routes.py:161-165 | An unknown id yields NotFound. Otherwise the repair becomes Approved whatever its status, and nothing else changes. The invariant is kept for an unfinished repair. |
| `Routes.Shop.RescheduleRepair` | app/employee/routes.py:189-243 | A missing field, a bad date or an unknown elevator commits nothing. The request commits exactly when the new elevator is Available once the old one is released. The old elevator then becomes Available and the new one Occupied. The repair takes the new date and elevator, and its status becomes `RescheduledStatus` of the old one. When the new elevator is unavailable, the session ends with the old elevator at the literal Occupied, and nothing is persisted. The invariant is kept for an unfinished repair. |
| `Routes.Shop.AssignMechanic` | app/employee/routes.py:277-296 | The request commits exactly when the chosen id is an employee whose role is Mechanic. The repair then gets that mechanic, and Pending becomes Approved. Elevators never change and the invariant is always kept. |
| `Routes.Shop.ClaimRepair` | app/employee/routes.py:325-334 | A claim on a repair assigned to another mechanic is refused with nothing changed. Otherwise the repair goes to the caller and becomes In Progress, whatever its status. The invariant is kept for an unfinished repair. |
| `Routes.Shop.CompleteRepair` | app/employee/routes.py:356-375 | Anyone but the assigned mechanic changes nothing. For the assigned mechanic, whatever the status, the repair becomes Completed and its cost is settled by `FinalCost`. Its elevator becomes Available if it exists. The invariant is kept for an unfinished repair. |
| `Routes.Shop.UpdatePartsUsed` | app/employee/routes.py:402-418 | Only the assigned mechanic, with a non-empty parts text, changes the repair. Only its billing details change. |
| `Routes.Shop.BlockElevator` | app/employee/routes.py:491-514 | An existing elevator goes into Maintenance, whatever its status, exactly when the duration is half_day, full_day, week or month. An unknown elevator or another duration changes nothing. The invariant is kept for an elevator that is not Occupied. |
| `Routes.Shop.UnblockElevator` | app/employee/routes.py:539-549 | An existing elevator becomes Available, whatever its status. An unknown one changes nothing. The invariant is kept for an elevator that is not Occupied. |
| `Routes.Shop.ReplenishStock` | app/employee/routes.py:592-603 | An unknown consumable yields NotFound. A sum outside the 64-bit column range fails and stores nothing. Otherwise the quantity grows by `ReorderAmount` of the field and nothing else changes. Every stored quantity stays in range. |
| `Routes.Shop.MassReplenish` | app/employee/routes.py:619-624 | The loop over the low items tops each up by its threshold. The request commits exactly when every topped-up quantity fits the 64-bit column. The ledger then ends as `MassReplenished` of the old ledger. Otherwise it fails and the ledger is unchanged. The items handled are `LowStock` of the old ledger. |
| `Scenarios.ApprovingFinishedRepair` | app/employee/routes.py:161-165 | Approving a Completed repair commits and leaves the database inconsistent. |
| `Scenarios.ClaimingFinishedRepair` | app/employee/routes.py:331-334 | Claiming a Completed repair commits and leaves the database inconsistent. |
| `Scenarios.CompletingTwice` | app/employee/routes.py:359-375 | Completing a repair again commits. It releases an elevator that another booking holds. |
| `Scenarios.ReschedulingFinishedRepair` | app/employee/routes.py:211-243 | Rescheduling a Completed repair commits and leaves the database inconsistent. |
| `Scenarios.BlockingBookedElevator` | app/employee/routes.py:500-514 | Blocking an Occupied elevator commits and leaves the database inconsistent. |
| `Scenarios.UnblockingBookedElevator` | app/employee/routes.py:548-549 | Unblocking an Occupied elevator commits and leaves the database inconsistent. |
| `Scenarios.DoubleBooking` | app/main/routes.py:49-64 | Of two bookings of one Available elevator, the first commits and the second is rejected as unavailable. Exactly one repair exists afterwards. |
| `Scenarios.ReschedulingOntoBusyAndOwnElevator` | app/employee/routes.py:211-228 | A reschedule onto an Occupied elevator is rejected, and the elevators and repairs right after it equal the starting ones. A later reschedule onto the repair's own elevator commits, keeping it Occupied under the new date. |
| `Scenarios.UnblockingTwice` | app/employee/routes.py:539-549 | Unblocking an elevator twice commits both times. The second call leaves the elevators exactly as the first left them. |
| `Scenarios.OverflowingReplenish` | app/employee/routes.py:597-603 | Adding the largest 64-bit amount to an item holding one unit fails and leaves it at one. A default restock afterwards commits and leaves it at 11. |
| `Scenarios.RepairLifecycle` | app/employee/routes.py:285-373 | Book, assign, claim and complete all commit. The repair ends Completed and its elevator Available. |

## Left out

- Reporting and staff management are not modelled (`revenue_report`, `manage_employee`, app/auth/routes.py). They
  are pandas aggregation over floats, password hashing and login sessions. Neither the booking workflow nor
  the stock ledger depends on them.
- The dashboards are not modelled (`manager_dashboard`, `mechanic_dashboard`, `receptionist_dashboard`,
  `stockkeeper_dashboard`, `dashboard`). Neither is the mechanics list of the assign form. Each renders a
  template, after at most one read-only query.
- Date parsing with `strptime` and localisation to Europe/Bucharest are foreign library calls. A date is an
  opaque stamp, and a date field is Blank, Malformed or Parsed.
- `int()` on the reorder amount is a foreign call. The field is Absent, Numeric(n) or NonNumeric.
- Form ids arrive as strings. A blank id is `None`. A non-numeric id is modelled as an id with no row.
- Rendering, flash messages, redirects and the GET forms are left out. Typed outcomes replace them. The lists
  the forms offer are modelled in `Views`.
- Concurrency and transactions are not modelled. Each request is one atomic step, and races between requests
  are not covered.
- Which row a session id loads (a client or an employee with the same id) is not modelled. The user loader is
  part of the application wiring.
- Costs and prices are floats in the database and real numbers here. Rounding is not modelled.
- NULL quantities and thresholds are not modelled. Both columns are nullable, but the model's fields are integers.
  The low-stock query would skip a NULL quantity, and a restock of one would raise.
- `Routes.Shop.RescheduleRepair`: the `session` result gives the session's elevator rows exactly only on commit
  and on an unavailable elevator. For the other outcomes nothing is persisted, and the contract does not
  describe the discarded session.
- The seed scripts, the application factory, the tests and run.py are not part of this model.
