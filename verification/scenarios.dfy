/**
 * Fixed sequences of route calls on small databases, with their outcomes
 * proved from the routes' contracts. The first ones show that each status
 * condition of the booking-invariant lemmas that the routes do not check is
 * needed: the routes that do not look at a repair's status or an elevator's
 * status take a consistent database to an inconsistent one. The last ones replay the booking rules a
 * client, a receptionist and a stock keeper rely on.
 */
module Scenarios {
  import opened Records
  import opened Occupancy
  import opened Routes
  import opened Views
  import opened Stock

  const Lift: Elevator := Elevator("Standard", Available)
  const Today: Date := Date(0)

  /** Repair 0, finished by mechanic 7, on elevator 1. */
  const Finished: Repair := Repair(5, 1, Some(7), "brakes", Today, Completed, Some(250.0), None)

  /** Repair 1, booked by another client on elevator 1 after repair 0 was finished. */
  const Rebooked: Repair := Repair(6, 1, None, "oil", Today, Pending, None, None)

  /** Elevator 1 Occupied by repair 1; repair 0 is finished. */
  method RebookedShop() returns (s: Shop)
    ensures fresh(s) && s.Valid()
    ensures s.elevators == map[1 := Lift.(status := Occupied), 2 := Lift]
    ensures s.repairs == map[0 := Finished, 1 := Rebooked]
    ensures s.staff == map[7 := MechanicRole]
    ensures Consistent(s.elevators, s.repairs)
  {
    s := new Shop(map[1 := Lift.(status := Occupied), 2 := Lift], map[0 := Finished, 1 := Rebooked],
                  map[7 := MechanicRole], map[], 2);
    assert Held(s.repairs, 1) by {
      assert s.repairs[1].elevatorId == 1 && Active(s.repairs[1]);
    }
  }

  /** Repair 0 finished, elevator 1 released and not booked again. */
  method ReleasedShop() returns (s: Shop)
    ensures fresh(s) && s.Valid()
    ensures s.elevators == map[1 := Lift]
    ensures s.repairs == map[0 := Finished]
    ensures Consistent(s.elevators, s.repairs)
  {
    s := new Shop(map[1 := Lift], map[0 := Finished], map[7 := MechanicRole], map[], 1);
  }

  /** Elevator 1 Occupied by the Pending repair 0. */
  method BookedShop() returns (s: Shop)
    ensures fresh(s) && s.Valid()
    ensures s.elevators == map[1 := Lift.(status := Occupied)]
    ensures s.repairs == map[0 := Rebooked]
    ensures Consistent(s.elevators, s.repairs)
  {
    s := new Shop(map[1 := Lift.(status := Occupied)], map[0 := Rebooked], map[7 := MechanicRole], map[], 1);
    assert Held(s.repairs, 1) by {
      assert s.repairs[0].elevatorId == 1 && Active(s.repairs[0]);
    }
  }

  /**
   * Approving a finished repair makes it unfinished again while its elevator
   * stays Available: the route does not look at the status.
   */
  method ApprovingFinishedRepair() returns (out: Outcome, consistent: bool)
    ensures out == Committed && !consistent
  {
    var s := ReleasedShop();
    out := s.ApproveRepair(0);
    assert Held(s.repairs, 1) by {
      assert s.repairs[0].elevatorId == 1 && Active(s.repairs[0]);
    }
    consistent := Consistent(s.elevators, s.repairs);
  }

  /** Claiming a finished repair does the same, putting it In Progress. */
  method ClaimingFinishedRepair() returns (out: Outcome, consistent: bool)
    ensures out == Committed && !consistent
  {
    var s := ReleasedShop();
    out := s.ClaimRepair(0, 7);
    assert Held(s.repairs, 1) by {
      assert s.repairs[0].elevatorId == 1 && Active(s.repairs[0]);
    }
    consistent := Consistent(s.elevators, s.repairs);
  }

  /**
   * Completing a repair a second time releases its old elevator, which by
   * now holds another client's booking.
   */
  method CompletingTwice() returns (out: Outcome, consistent: bool)
    ensures out == Committed && !consistent
  {
    var s := RebookedShop();
    out := s.CompleteRepair(0, 7);
    assert Held(s.repairs, 1) by {
      assert s.repairs[1].elevatorId == 1 && Active(s.repairs[1]);
    }
    consistent := Consistent(s.elevators, s.repairs);
  }

  /**
   * Rescheduling a finished repair frees the elevator another booking holds
   * and occupies one that nothing holds.
   */
  method ReschedulingFinishedRepair() returns (out: Outcome, consistent: bool)
    ensures out == Committed && !consistent
  {
    var s := RebookedShop();
    var session;
    out, session := s.RescheduleRepair(0, Parsed(Today), Some(2));
    assert Held(s.repairs, 1) by {
      assert s.repairs[1].elevatorId == 1 && Active(s.repairs[1]);
    }
    consistent := Consistent(s.elevators, s.repairs);
  }

  /** Blocking an Occupied elevator puts a booked elevator into Maintenance. */
  method BlockingBookedElevator() returns (out: Outcome, consistent: bool)
    ensures out == Committed && !consistent
  {
    var s := BookedShop();
    out := s.BlockElevator(Some(1), "week");
    assert Held(s.repairs, 1) by {
      assert s.repairs[0].elevatorId == 1 && Active(s.repairs[0]);
    }
    consistent := Consistent(s.elevators, s.repairs);
  }

  /** Unblocking an Occupied elevator offers a booked elevator to the next client. */
  method UnblockingBookedElevator() returns (out: Outcome, consistent: bool)
    ensures out == Committed && !consistent
  {
    var s := BookedShop();
    out := s.UnblockElevator(Some(1));
    assert Held(s.repairs, 1) by {
      assert s.repairs[0].elevatorId == 1 && Active(s.repairs[0]);
    }
    consistent := Consistent(s.elevators, s.repairs);
  }

  /**
   * Two clients asking for the same Available elevator one after the other:
   * the first booking is committed, the second is refused and changes
   * nothing.
   */
  method DoubleBooking() returns (first: Outcome, second: Outcome, bookings: nat)
    ensures first == Committed && second == Rejected(ElevatorUnavailable) && bookings == 1
  {
    var s := new Shop(map[1 := Lift], map[], map[], map[], 0);
    first := s.ScheduleRepair(Client(5), "brakes", Parsed(Today), Some(1));
    second := s.ScheduleRepair(Client(6), "oil", Parsed(Today), Some(1));
    assert s.repairs.Keys == {0};
    bookings := |s.repairs|;
  }

  /**
   * A reschedule onto an Occupied elevator is refused and leaves the repair
   * where it was, its elevator still Occupied; a reschedule onto the
   * repair's own elevator goes through, because the old elevator is released
   * in the session before the new one is checked.
   */
  method ReschedulingOntoBusyAndOwnElevator() returns (busy: Outcome, own: Outcome, untouched: bool, moved: bool)
    ensures busy == Rejected(ElevatorUnavailable)
    ensures untouched
    ensures own == Committed
    ensures moved
  {
    var elevators := map[1 := Lift.(status := Occupied), 2 := Lift.(status := Occupied)];
    var repairs := map[0 := Rebooked, 1 := Rebooked.(elevatorId := 2)];
    var s := new Shop(elevators, repairs, map[], map[], 2);
    var session;
    assert 2 !in AvailableElevators(SetStatus(s.elevators, 1, Available));
    busy, session := s.RescheduleRepair(0, Parsed(Date(1)), Some(2));
    // After the refusal the repair is still on elevator 1, which is still Occupied.
    untouched := s.elevators == elevators && s.repairs == repairs;
    assert 1 in AvailableElevators(SetStatus(s.elevators, 1, Available));
    own, session := s.RescheduleRepair(0, Parsed(Date(1)), Some(1));
    moved := s.elevators[1].status == Occupied && s.repairs[0].scheduledDate == Date(1);
  }

  /**
   * Unblocking is idempotent: unblocking an elevator in Maintenance twice
   * commits both times and leaves it Available with nothing else changed.
   */
  method UnblockingTwice() returns (first: Outcome, second: Outcome, unchangedOtherwise: bool)
    ensures first == Committed && second == Committed
    ensures unchangedOtherwise
  {
    var elevators := map[1 := Lift.(status := Maintenance), 2 := Lift];
    var s := new Shop(elevators, map[], map[], map[], 0);
    first := s.UnblockElevator(Some(1));
    var once := s.elevators;
    second := s.UnblockElevator(Some(1));
    unchangedOtherwise := s.elevators == once == elevators[1 := Lift] && s.repairs == map[];
  }

  /**
   * A reorder amount as large as the column allows, added to an item that
   * already holds one unit, overflows the 64-bit column: the request fails
   * and the stock is left as it was. The default amount goes through.
   */
  method OverflowingReplenish() returns (huge: Outcome, default: Outcome, quantity: int)
    ensures huge == Fault && default == Committed && quantity == 11
  {
    var s := new Shop(map[], map[], map[], map[3 := Consumable("filter", 1, 4.5, 5)], 0);
    var added;
    huge, added := s.ReplenishStock(3, Numeric(MaxQuantity));
    default, added := s.ReplenishStock(3, Absent);
    quantity := s.consumables[3].quantity;
  }

  /**
   * The life of one repair: booked, assigned (which approves it), claimed,
   * and completed by its mechanic, which releases the elevator.
   */
  method RepairLifecycle() returns (outs: seq<Outcome>, status: RepairStatus, lift: ElevatorStatus)
    ensures outs == [Committed, Committed, Committed, Committed]
    ensures status == Completed && lift == Available
  {
    var s := new Shop(map[1 := Lift], map[], map[7 := MechanicRole], map[], 0);
    var booked := s.ScheduleRepair(Client(5), "brakes", Parsed(Today), Some(1));
    assert s.repairs[0].status == Pending && s.elevators[1].status == Occupied;
    var given := s.AssignMechanic(0, Some(7));
    assert s.repairs[0].status == Approved;
    var claimed := s.ClaimRepair(0, 7);
    var done := s.CompleteRepair(0, 7);
    outs := [booked, given, claimed, done];
    status := s.repairs[0].status;
    lift := s.elevators[1].status;
  }
}
