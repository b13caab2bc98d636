/**
 * The state-changing routes of app/main/routes.py and app/employee/routes.py
 * as methods on the shop's database. Each request is one atomic step: it
 * reads rows, checks, writes, and either commits or returns early without a
 * commit, in which case the session is rolled back and nothing it wrote is
 * kept. The role gate in front of the staff routes is the `Gate` module;
 * these methods model the route bodies behind it, with the current user's id
 * as a parameter.
 */
module Routes {
  import opened Records
  import opened Occupancy
  import opened Stock
  import opened Views

  /** The status a repair is left in by a successful reschedule. */
  function RescheduledStatus(s: RepairStatus): (t: RepairStatus)
    ensures s == Pending || s == Approved ==> t == Pending
    ensures s != Pending && s != Approved ==> t == s
  {
    if s == Pending || s == Approved then Pending else s
  }

  /** The status `assign_mechanic` leaves: Pending becomes Approved. */
  function AssignedStatus(s: RepairStatus): (t: RepairStatus)
    ensures s == Pending ==> t == Approved
    ensures s != Pending ==> t == s
  {
    if s == Pending then Approved else s
  }

  /** The cost a completed repair gets when it has none. */
  const DefaultCost: real := 100.0

  /**
   * `repair.cost or 100.0`: a cost of None or of 0.0 (both falsy) becomes
   * 100.0, any other cost is kept.
   */
  function FinalCost(cost: Option<real>): (c: Option<real>)
    ensures c.Some? && c.value != 0.0
    ensures cost.Some? && cost.value != 0.0 ==> c == cost
    ensures cost.None? || cost.value == 0.0 ==> c == Some(DefaultCost)
  {
    if cost.None? || cost.value == 0.0 then Some(DefaultCost) else cost
  }

  /** The durations the block form accepts. */
  predicate IsBlockDuration(d: string) {
    d == "half_day" || d == "full_day" || d == "week" || d == "month"
  }

  /** The label `update_parts_used` puts in front of the parts text. */
  const PartsPrefix: string := "Parts Used: "

  /** The note `update_parts_used` stores in `billing_details`: the label, then the parts text as entered. */
  function PartsNote(parts: string): (note: string)
    ensures |note| == |PartsPrefix| + |parts|
    ensures note[..|PartsPrefix|] == PartsPrefix && note[|PartsPrefix|..] == parts
  {
    PartsPrefix + parts
  }

  class Shop {
    var elevators: map<nat, Elevator>
    var repairs: map<nat, Repair>
    /** Employee id to the `role` column of that employee's row. */
    var staff: map<nat, string>
    var consumables: map<nat, Consumable>
    /** The id the database hands to the next repair row. */
    var nextRepairId: nat

    ghost predicate Valid()
      reads this
    {
      && (forall id :: id in repairs ==> id < nextRepairId)
      && InColumn(consumables)
    }

    constructor (elevators: map<nat, Elevator>, repairs: map<nat, Repair>, staff: map<nat, string>,
                 consumables: map<nat, Consumable>, nextRepairId: nat)
      requires forall id :: id in repairs ==> id < nextRepairId
      requires InColumn(consumables)
      ensures Valid()
      ensures this.elevators == elevators && this.repairs == repairs && this.staff == staff
      ensures this.consumables == consumables && this.nextRepairId == nextRepairId
    {
      this.elevators := elevators;
      this.repairs := repairs;
      this.staff := staff;
      this.consumables := consumables;
      this.nextRepairId := nextRepairId;
    }

    /**
     * `schedule_repair` (POST). Only a logged-in user without a role may
     * book; every field must be filled in. A date that does not parse and an
     * elevator id with no row both end the request with an uncaught
     * exception. The chosen elevator must be Available; it becomes Occupied
     * and one new Pending repair is recorded for the user on it.
     */
    method ScheduleRepair(user: Actor, description: string, date: DateField, elevatorId: Option<nat>)
      returns (out: Outcome)
      requires Valid()
      modifies this
      ensures Valid()
      ensures staff == old(staff) && consumables == old(consumables)
      ensures !user.IsAuthenticated() ==> out == Rejected(LoginRequired)
      ensures user.IsAuthenticated() && user.HasRole() ==> out == Rejected(ClientsOnly)
      ensures out in {Rejected(LoginRequired), Rejected(ClientsOnly), Rejected(MissingField), Fault,
                      Rejected(ElevatorUnavailable), Committed}
      ensures user.IsAuthenticated() && !user.HasRole() && (description == "" || date.Blank? || elevatorId.None?)
              ==> out == Rejected(MissingField)
      ensures out == Fault <==>
                user.IsAuthenticated() && !user.HasRole() && description != "" && elevatorId.Some?
                && (date.Malformed? || (date.Parsed? && elevatorId.value !in old(elevators)))
      ensures out == Rejected(ElevatorUnavailable) <==>
                user.IsAuthenticated() && !user.HasRole() && description != "" && date.Parsed? && elevatorId.Some?
                && elevatorId.value in old(elevators) && old(elevators)[elevatorId.value].status != Available
      ensures out == Committed <==>
                user.IsAuthenticated() && !user.HasRole() && description != "" && date.Parsed? && elevatorId.Some?
                && elevatorId.value in AvailableElevators(old(elevators))
      ensures out != Committed ==>
                elevators == old(elevators) && repairs == old(repairs) && nextRepairId == old(nextRepairId)
      ensures out == Committed ==>
                && old(nextRepairId) !in old(repairs)
                && elevators == SetStatus(old(elevators), elevatorId.value, Occupied)
                && repairs == old(repairs)[old(nextRepairId) :=
                     Repair(user.id, elevatorId.value, None, description, date.when, Pending, None, None)]
                && nextRepairId == old(nextRepairId) + 1
      ensures old(Consistent(elevators, repairs)) ==> Consistent(elevators, repairs)
    {
      if !user.IsAuthenticated() {
        return Rejected(LoginRequired);
      }
      if user.HasRole() {
        return Rejected(ClientsOnly);
      }
      if description == "" || date.Blank? || elevatorId.None? {
        return Rejected(MissingField);
      }
      if date.Malformed? {
        // strptime raises ValueError, which nothing catches
        return Fault;
      }
      var e := elevatorId.value;
      if e !in elevators {
        // the lookup returned None and `.status` is read from it
        return Fault;
      }
      if elevators[e].status != Available {
        return Rejected(ElevatorUnavailable);
      }
      var booking := Repair(user.id, e, None, description, date.when, Pending, None, None);
      if Consistent(elevators, repairs) {
        BookingKeepsConsistent(elevators, repairs, nextRepairId, booking);
      }
      elevators := elevators[e := elevators[e].(status := Occupied)];
      repairs := repairs[nextRepairId := booking];
      nextRepairId := nextRepairId + 1;
      return Committed;
    }

    /**
     * `approve_repair`: the repair becomes Approved whatever its status
     * was; nothing else changes.
     */
    method ApproveRepair(repairId: nat) returns (out: Outcome)
      requires Valid()
      modifies this
      ensures Valid()
      ensures elevators == old(elevators) && staff == old(staff) && consumables == old(consumables)
      ensures nextRepairId == old(nextRepairId)
      ensures out == NotFound <==> repairId !in old(repairs)
      ensures out != NotFound ==> out == Committed
      ensures out == NotFound ==> repairs == old(repairs)
      ensures out == Committed ==>
                repairs == old(repairs)[repairId := old(repairs)[repairId].(status := Approved)]
      ensures old(Consistent(elevators, repairs)) && repairId in old(repairs) && Active(old(repairs)[repairId])
              ==> Consistent(elevators, repairs)
    {
      if repairId !in repairs {
        return NotFound;
      }
      var r := repairs[repairId].(status := Approved);
      if Consistent(elevators, repairs) && Active(repairs[repairId]) {
        SameHoldKeepsConsistent(elevators, repairs, repairId, r);
      }
      repairs := repairs[repairId := r];
      return Committed;
    }

    /**
     * `reschedule_repair` (POST). Both fields are required and the date must
     * parse. The session then marks the old elevator Available before looking
     * at the new one, so the new one may be the repair's own elevator. An
     * unknown or unavailable new elevator ends the request without a commit
     * (the old elevator is first set back to the literal Occupied, whatever
     * it was before, but that write is rolled back with the rest). Otherwise
     * the old elevator is released, the new one Occupied, the repair takes
     * the new date and elevator, and Pending or Approved becomes Pending.
     * `session` is the elevator rows as the session holds them when the
     * request ends.
     */
    method RescheduleRepair(repairId: nat, date: DateField, newElevator: Option<nat>)
      returns (out: Outcome, session: map<nat, Elevator>)
      requires Valid()
      modifies this
      ensures Valid()
      ensures staff == old(staff) && consumables == old(consumables) && nextRepairId == old(nextRepairId)
      ensures out == NotFound <==> repairId !in old(repairs)
      ensures out == Rejected(MissingField) <==> repairId in old(repairs) && (date.Blank? || newElevator.None?)
      ensures out in {NotFound, Rejected(MissingField), Rejected(BadDate), Rejected(UnknownElevator),
                      Rejected(ElevatorUnavailable), Committed}
      ensures out == Rejected(BadDate) <==> repairId in old(repairs) && date.Malformed? && newElevator.Some?
      ensures out == Rejected(UnknownElevator) <==>
                repairId in old(repairs) && date.Parsed? && newElevator.Some? && newElevator.value !in old(elevators)
      ensures out == Committed <==>
                repairId in old(repairs) && date.Parsed? && newElevator.Some?
                && newElevator.value in AvailableElevators(SetStatus(old(elevators), old(repairs)[repairId].elevatorId, Available))
      ensures out != Committed ==> elevators == old(elevators) && repairs == old(repairs)
      ensures out == Rejected(ElevatorUnavailable) ==>
                session == SetStatus(old(elevators), old(repairs)[repairId].elevatorId, Occupied)
      ensures out == Committed ==>
                var r := old(repairs)[repairId];
                && elevators == session
                && elevators == SetStatus(SetStatus(old(elevators), r.elevatorId, Available), newElevator.value, Occupied)
                && repairs == old(repairs)[repairId := r.(scheduledDate := date.when, elevatorId := newElevator.value,
                                                          status := RescheduledStatus(r.status))]
      ensures old(Consistent(elevators, repairs)) && repairId in old(repairs) && Active(old(repairs)[repairId])
              ==> Consistent(elevators, repairs)
    {
      session := elevators;
      if repairId !in repairs {
        return NotFound, session;
      }
      if date.Blank? || newElevator.None? {
        return Rejected(MissingField), session;
      }
      if date.Malformed? {
        return Rejected(BadDate), session;
      }
      var r := repairs[repairId];
      var oldId := r.elevatorId;
      if oldId in session {
        session := session[oldId := session[oldId].(status := Available)];
      }
      var newId := newElevator.value;
      if newId !in session {
        return Rejected(UnknownElevator), session;
      }
      if session[newId].status != Available {
        if oldId in session {
          session := session[oldId := session[oldId].(status := Occupied)];
        }
        return Rejected(ElevatorUnavailable), session;
      }
      session := session[newId := session[newId].(status := Occupied)];
      var moved := r.(scheduledDate := date.when, elevatorId := newId, status := RescheduledStatus(r.status));
      if Consistent(elevators, repairs) && Active(r) {
        MoveKeepsConsistent(elevators, repairs, repairId, moved);
      }
      repairs := repairs[repairId := moved];
      elevators := session;
      return Committed, session;
    }

    /**
     * `assign_mechanic` (POST): the chosen id must be an employee whose role
     * is Mechanic. The repair is then assigned to that mechanic and a
     * Pending repair becomes Approved; any other status is kept.
     */
    method AssignMechanic(repairId: nat, mechanicId: Option<nat>) returns (out: Outcome)
      requires Valid()
      modifies this
      ensures Valid()
      ensures elevators == old(elevators) && staff == old(staff) && consumables == old(consumables)
      ensures nextRepairId == old(nextRepairId)
      ensures out == NotFound <==> repairId !in old(repairs)
      ensures out == Rejected(MissingField) <==> repairId in old(repairs) && mechanicId.None?
      ensures out == Rejected(NotMechanic) <==>
                repairId in old(repairs) && mechanicId.Some?
                && !(mechanicId.value in staff && staff[mechanicId.value] == MechanicRole)
      ensures out == Committed <==>
                repairId in old(repairs) && mechanicId.Some?
                && mechanicId.value in staff && staff[mechanicId.value] == MechanicRole
      ensures out != Committed ==> repairs == old(repairs)
      ensures out == Committed ==>
                var r := old(repairs)[repairId];
                repairs == old(repairs)[repairId := r.(employeeId := mechanicId, status := AssignedStatus(r.status))]
      ensures old(Consistent(elevators, repairs)) ==> Consistent(elevators, repairs)
    {
      if repairId !in repairs {
        return NotFound;
      }
      if mechanicId.None? {
        return Rejected(MissingField);
      }
      var m := mechanicId.value;
      if !(m in staff && staff[m] == MechanicRole) {
        return Rejected(NotMechanic);
      }
      var r := repairs[repairId];
      var given := r.(employeeId := Some(m), status := AssignedStatus(r.status));
      if Consistent(elevators, repairs) {
        SameHoldKeepsConsistent(elevators, repairs, repairId, given);
      }
      repairs := repairs[repairId := given];
      return Committed;
    }

    /**
     * `assign_to_mechanic`, a mechanic claiming a repair: refused when the
     * repair is assigned to someone else. Otherwise the repair is assigned
     * to the caller and becomes In Progress, whatever its status was.
     */
    method ClaimRepair(repairId: nat, caller: nat) returns (out: Outcome)
      requires Valid()
      modifies this
      ensures Valid()
      ensures elevators == old(elevators) && staff == old(staff) && consumables == old(consumables)
      ensures nextRepairId == old(nextRepairId)
      ensures out == NotFound <==> repairId !in old(repairs)
      ensures out == Rejected(ClaimedByOther) <==>
                repairId in old(repairs) && old(repairs)[repairId].employeeId.Some?
                && old(repairs)[repairId].employeeId.value != caller
      ensures out == Committed <==>
                repairId in old(repairs) && old(repairs)[repairId].employeeId in {None, Some(caller)}
      ensures out != Committed ==> repairs == old(repairs)
      ensures out == Committed ==>
                repairs == old(repairs)[repairId := old(repairs)[repairId].(employeeId := Some(caller), status := InProgress)]
      ensures old(Consistent(elevators, repairs)) && repairId in old(repairs) && Active(old(repairs)[repairId])
              ==> Consistent(elevators, repairs)
    {
      if repairId !in repairs {
        return NotFound;
      }
      var r := repairs[repairId];
      if r.employeeId.Some? && r.employeeId.value != caller {
        return Rejected(ClaimedByOther);
      }
      var claimed := r.(employeeId := Some(caller), status := InProgress);
      if Consistent(elevators, repairs) && Active(r) {
        SameHoldKeepsConsistent(elevators, repairs, repairId, claimed);
      }
      repairs := repairs[repairId := claimed];
      return Committed;
    }

    /**
     * `complete_repair`: only the assigned mechanic may complete a repair,
     * whatever its status. It becomes Completed, its cost is settled by
     * `FinalCost`, and its elevator (if the row exists) becomes Available.
     */
    method CompleteRepair(repairId: nat, caller: nat) returns (out: Outcome)
      requires Valid()
      modifies this
      ensures Valid()
      ensures staff == old(staff) && consumables == old(consumables) && nextRepairId == old(nextRepairId)
      ensures out == NotFound <==> repairId !in old(repairs)
      ensures out == Rejected(NotAssignee) <==>
                repairId in old(repairs) && old(repairs)[repairId].employeeId != Some(caller)
      ensures out == Committed <==> repairId in old(repairs) && old(repairs)[repairId].employeeId == Some(caller)
      ensures out != Committed ==> elevators == old(elevators) && repairs == old(repairs)
      ensures out == Committed ==>
                var r := old(repairs)[repairId];
                && repairs == old(repairs)[repairId := r.(status := Completed, cost := FinalCost(r.cost))]
                && elevators == SetStatus(old(elevators), r.elevatorId, Available)
      ensures old(Consistent(elevators, repairs)) && repairId in old(repairs) && Active(old(repairs)[repairId])
              ==> Consistent(elevators, repairs)
    {
      if repairId !in repairs {
        return NotFound;
      }
      var r := repairs[repairId];
      if r.employeeId != Some(caller) {
        return Rejected(NotAssignee);
      }
      var done := r.(status := Completed, cost := FinalCost(r.cost));
      if Consistent(elevators, repairs) && Active(r) {
        ReleaseKeepsConsistent(elevators, repairs, repairId, done);
      }
      repairs := repairs[repairId := done];
      var e := r.elevatorId;
      if e in elevators {
        elevators := elevators[e := elevators[e].(status := Available)];
      }
      return Committed;
    }

    /**
     * `update_parts_used` (POST): only the assigned mechanic may record the
     * parts, and the note must not be empty; it replaces the billing details.
     */
    method UpdatePartsUsed(repairId: nat, caller: nat, parts: string) returns (out: Outcome)
      requires Valid()
      modifies this
      ensures Valid()
      ensures elevators == old(elevators) && staff == old(staff) && consumables == old(consumables)
      ensures nextRepairId == old(nextRepairId)
      ensures out == NotFound <==> repairId !in old(repairs)
      ensures out == Rejected(NotAssignee) <==>
                repairId in old(repairs) && old(repairs)[repairId].employeeId != Some(caller)
      ensures out == Rejected(MissingField) <==>
                repairId in old(repairs) && old(repairs)[repairId].employeeId == Some(caller) && parts == ""
      ensures out == Committed <==>
                repairId in old(repairs) && old(repairs)[repairId].employeeId == Some(caller) && parts != ""
      ensures out != Committed ==> repairs == old(repairs)
      ensures out == Committed ==>
                parts != "" && repairs == old(repairs)[repairId := old(repairs)[repairId].(billingDetails := Some(PartsNote(parts)))]
      ensures old(Consistent(elevators, repairs)) ==> Consistent(elevators, repairs)
    {
      if repairId !in repairs {
        return NotFound;
      }
      var r := repairs[repairId];
      if r.employeeId != Some(caller) {
        return Rejected(NotAssignee);
      }
      if parts == "" {
        return Rejected(MissingField);
      }
      var noted := r.(billingDetails := Some(PartsNote(parts)));
      if Consistent(elevators, repairs) {
        SameHoldKeepsConsistent(elevators, repairs, repairId, noted);
      }
      repairs := repairs[repairId := noted];
      return Committed;
    }

    /**
     * `block_elevator` (POST): an existing elevator goes into Maintenance
     * for one of the four known durations, whatever its status was; any
     * other duration changes nothing.
     */
    method BlockElevator(elevatorId: Option<nat>, duration: string) returns (out: Outcome)
      requires Valid()
      modifies this
      ensures Valid()
      ensures repairs == old(repairs) && staff == old(staff) && consumables == old(consumables)
      ensures nextRepairId == old(nextRepairId)
      ensures out == Rejected(UnknownElevator) <==> elevatorId.None? || elevatorId.value !in old(elevators)
      ensures out == Rejected(InvalidDuration) <==>
                elevatorId.Some? && elevatorId.value in old(elevators) && !IsBlockDuration(duration)
      ensures out == Committed <==>
                elevatorId.Some? && elevatorId.value in old(elevators) && IsBlockDuration(duration)
      ensures out != Committed ==> elevators == old(elevators)
      ensures out == Committed ==> elevators == SetStatus(old(elevators), elevatorId.value, Maintenance)
      ensures old(Consistent(elevators, repairs)) && elevatorId.Some? && elevatorId.value in old(elevators)
              && old(elevators)[elevatorId.value].status != Occupied
              ==> Consistent(elevators, repairs)
    {
      if elevatorId.None? || elevatorId.value !in elevators {
        return Rejected(UnknownElevator);
      }
      var e := elevatorId.value;
      if duration == "half_day" {
        elevators := elevators[e := elevators[e].(status := Maintenance)];
      } else if duration == "full_day" {
        elevators := elevators[e := elevators[e].(status := Maintenance)];
      } else if duration == "week" {
        elevators := elevators[e := elevators[e].(status := Maintenance)];
      } else if duration == "month" {
        elevators := elevators[e := elevators[e].(status := Maintenance)];
      } else {
        return Rejected(InvalidDuration);
      }
      if old(Consistent(elevators, repairs)) && old(elevators)[e].status != Occupied {
        IdleStatusKeepsConsistent(old(elevators), repairs, e, Maintenance);
      }
      return Committed;
    }

    /** `unblock_elevator` (POST): an existing elevator becomes Available, whatever its status was. */
    method UnblockElevator(elevatorId: Option<nat>) returns (out: Outcome)
      requires Valid()
      modifies this
      ensures Valid()
      ensures repairs == old(repairs) && staff == old(staff) && consumables == old(consumables)
      ensures nextRepairId == old(nextRepairId)
      ensures out == Rejected(UnknownElevator) <==> elevatorId.None? || elevatorId.value !in old(elevators)
      ensures out != Rejected(UnknownElevator) ==> out == Committed
      ensures out != Committed ==> elevators == old(elevators)
      ensures out == Committed ==> elevators == SetStatus(old(elevators), elevatorId.value, Available)
      ensures out == Committed ==> elevators[elevatorId.value].status == Available
      ensures old(Consistent(elevators, repairs)) && elevatorId.Some? && elevatorId.value in old(elevators)
              && old(elevators)[elevatorId.value].status != Occupied
              ==> Consistent(elevators, repairs)
    {
      if elevatorId.None? || elevatorId.value !in elevators {
        return Rejected(UnknownElevator);
      }
      var e := elevatorId.value;
      if Consistent(elevators, repairs) && elevators[e].status != Occupied {
        IdleStatusKeepsConsistent(elevators, repairs, e, Available);
      }
      elevators := elevators[e := elevators[e].(status := Available)];
      return Committed;
    }

    /**
     * `replenish_stock`: the consumable gains `ReorderAmount(amount)` units,
     * which may be negative; `added` is that amount. `int()` accepts amounts
     * far wider than 64 bits, so a sum outside the column's 64-bit range makes the commit
     * fail with an uncaught exception and nothing is stored.
     */
    method ReplenishStock(consumableId: nat, amount: AmountField) returns (out: Outcome, added: int)
      requires Valid()
      modifies this
      ensures Valid()
      ensures elevators == old(elevators) && repairs == old(repairs) && staff == old(staff)
      ensures nextRepairId == old(nextRepairId)
      ensures out == NotFound || out == Fault || out == Committed
      ensures out == NotFound <==> consumableId !in old(consumables)
      ensures out == Fault <==>
                consumableId in old(consumables) && !Storable(old(consumables)[consumableId].quantity + ReorderAmount(amount))
      ensures out != Committed ==> consumables == old(consumables)
      ensures out == Committed ==>
                && added == ReorderAmount(amount)
                && consumables == old(consumables)[consumableId := Replenished(old(consumables)[consumableId], added)]
    {
      if consumableId !in consumables {
        return NotFound, 0;
      }
      added := ReorderAmount(amount);
      var c := consumables[consumableId];
      if !Storable(c.quantity + added) {
        // The flush on commit raises; the session is rolled back.
        return Fault, added;
      }
      consumables := consumables[consumableId := c.(quantity := c.quantity + added)];
      return Committed, added;
    }

    /**
     * `mass_replenish`: the low items are listed once, then each of them is
     * topped up by its own threshold; `replenished` is that list. The commit
     * fails with an uncaught exception, storing nothing, when a topped-up
     * quantity leaves the column's 64-bit range.
     */
    method MassReplenish() returns (out: Outcome, replenished: set<nat>)
      requires Valid()
      modifies this
      ensures Valid()
      ensures elevators == old(elevators) && repairs == old(repairs) && staff == old(staff)
      ensures nextRepairId == old(nextRepairId)
      ensures replenished == LowStock(old(consumables))
      ensures out == Committed || out == Fault
      ensures out == Committed <==> MassReplenishFits(old(consumables))
      ensures out == Fault ==> consumables == old(consumables)
      ensures out == Committed ==> consumables == MassReplenished(old(consumables))
    {
      var low := LowStock(consumables);
      var before := consumables;
      var todo := low;
      while todo != {}
        invariant elevators == old(elevators) && repairs == old(repairs) && staff == old(staff)
        invariant nextRepairId == old(nextRepairId)
        invariant todo <= low
        invariant consumables.Keys == before.Keys
        invariant forall id :: id in before && id !in low ==> consumables[id] == before[id]
        invariant forall id :: id in todo ==> consumables[id] == before[id]
        invariant forall id :: id in low - todo ==> consumables[id] == ToppedUp(before[id])
        decreases todo
      {
        var id :| id in todo;
        var item := consumables[id];
        consumables := consumables[id := item.(quantity := item.quantity + item.threshold)];
        todo := todo - {id};
      }
      assert consumables == MassReplenished(before);
      replenished := low;
      if exists id :: id in low && !Storable(consumables[id].quantity) {
        // The flush on commit raises; the session is rolled back.
        consumables := before;
        return Fault, replenished;
      }
      MassReplenishedInColumn(before);
      return Committed, replenished;
    }
  }
}
