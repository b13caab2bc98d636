/**
 * The records the shop keeps in its database (elevators, repairs, employees,
 * consumables), the party making a request, the form fields a request carries,
 * and the typed outcome that stands in for a flash message and a redirect.
 */
module Records {

  datatype Option<+T> = None | Some(value: T)

  /** The `status` column of an elevator; a new elevator starts Available. */
  datatype ElevatorStatus = Available | Occupied | Maintenance

  /** The `status` column of a repair; a new repair starts Pending. */
  datatype RepairStatus = Pending | Approved | InProgress | Completed

  /**
   * A scheduled date with its timezone. Parsing "YYYY-MM-DD" and localising
   * it are left to the caller, so a date is an opaque stamp here.
   */
  datatype Date = Date(stamp: int)

  datatype Elevator = Elevator(kind: string, status: ElevatorStatus)

  /**
   * A repair: the client who booked it, the elevator it holds, the mechanic
   * it is assigned to (if any), and its status, cost and billing note.
   * `cost` is a nullable float column, modelled as an optional real.
   */
  datatype Repair = Repair(
    clientId: nat,
    elevatorId: nat,
    employeeId: Option<nat>,
    description: string,
    scheduledDate: Date,
    status: RepairStatus,
    cost: Option<real>,
    billingDetails: Option<string>)

  /** A consumable in stock; `threshold` is the level at or below which it is low. */
  datatype Consumable = Consumable(name: string, quantity: int, pricePerUnit: real, threshold: int)

  /** The threshold a consumable gets when none is given. */
  const DefaultThreshold: int := 5

  /** The role strings the application hands out to employees. */
  const ManagerRole: string := "Manager"
  const ReceptionistRole: string := "Receptionist"
  const MechanicRole: string := "Mechanic"
  const StockKeeperRole: string := "StockKeeper"

  /**
   * The party behind a request. Clients carry no role attribute at all;
   * employees carry the free-form role string stored in their row.
   */
  datatype Actor = Anonymous | Client(id: nat) | Employee(id: nat, role: string) {

    predicate IsAuthenticated() {
      !Anonymous?
    }

    /** What `getattr(current_user, "role", None)` yields. */
    function RoleAttr(): (r: Option<string>)
      ensures r.Some? <==> Employee?
      ensures Employee? ==> r == Some(role)
    {
      if Employee? then Some(role) else None
    }

    /** Whether that attribute is truthy: a role that is present and non-empty. */
    predicate HasRole() {
      RoleAttr().Some? && RoleAttr().value != ""
    }
  }

  /** A date form field: left blank, filled but not a valid date, or parsed. */
  datatype DateField = Blank | Malformed | Parsed(when: Date)

  /** The `reorder_amount` form field: absent, an integer `int()` accepts, or anything else. */
  datatype AmountField = Absent | Numeric(n: int) | NonNumeric

  /** Why a request was turned away with an error message and no commit. */
  datatype Reject =
    | LoginRequired
    | ClientsOnly
    | MissingField
    | BadDate
    | UnknownElevator
    | ElevatorUnavailable
    | NotMechanic
    | ClaimedByOther
    | NotAssignee
    | InvalidDuration

  /**
   * How a request ends: its changes were committed; the repair or consumable
   * in the URL does not exist (a 404); it was turned away; or an uncaught
   * exception ended it (a 500). Only Committed persists anything.
   */
  datatype Outcome = Committed | NotFound | Rejected(why: Reject) | Fault
}
