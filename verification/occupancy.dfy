/**
 * The booking invariant between elevators and repairs: an elevator is
 * Occupied exactly when an unfinished repair holds it, no two unfinished
 * repairs hold the same elevator, and every unfinished repair holds an
 * elevator that exists. The routes keep it only under the conditions the
 * lemmas below name; the scenarios in scenarios.dfy show that each status
 * condition the routes do not check is needed.
 */
module Occupancy {
  import opened Records

  /** A repair holds its elevator until it is completed. */
  predicate Active(r: Repair) {
    r.status != Completed
  }

  /** Some unfinished repair holds elevator `e`. */
  predicate Held(repairs: map<nat, Repair>, e: nat) {
    exists id :: id in repairs && Active(repairs[id]) && repairs[id].elevatorId == e
  }

  predicate Consistent(elevators: map<nat, Elevator>, repairs: map<nat, Repair>) {
    && (forall e :: e in elevators ==> (elevators[e].status == Occupied <==> Held(repairs, e)))
    && (forall a, b ::
          (a in repairs && b in repairs && Active(repairs[a]) && Active(repairs[b])
           && repairs[a].elevatorId == repairs[b].elevatorId) ==> a == b)
    && (forall id :: id in repairs && Active(repairs[id]) ==> repairs[id].elevatorId in elevators)
  }

  /**
   * `elevator.status = s` for the elevator `e`, if it exists; a missing
   * elevator (the ORM lookup returned None) is left alone.
   */
  function SetStatus(elevators: map<nat, Elevator>, e: nat, s: ElevatorStatus): (r: map<nat, Elevator>)
    ensures r.Keys == elevators.Keys
    ensures e in r ==> r[e].status == s && r[e].kind == elevators[e].kind
    ensures forall x :: x in elevators && x != e ==> r[x] == elevators[x]
  {
    if e in elevators then elevators[e := elevators[e].(status := s)] else elevators
  }

  /**
   * Replacing a repair by one that holds the same elevator and is unfinished
   * exactly when the old one was (approve, claim and assign on an unfinished
   * repair; assign and parts recording on any repair) keeps the invariant.
   */
  lemma SameHoldKeepsConsistent(elevators: map<nat, Elevator>, repairs: map<nat, Repair>, id: nat, r: Repair)
    requires Consistent(elevators, repairs)
    requires id in repairs
    requires r.elevatorId == repairs[id].elevatorId && Active(r) == Active(repairs[id])
    ensures Consistent(elevators, repairs[id := r])
  {
    var after := repairs[id := r];
    forall e | e in elevators
      ensures Held(after, e) <==> Held(repairs, e)
    {
      if Held(repairs, e) {
        var k :| k in repairs && Active(repairs[k]) && repairs[k].elevatorId == e;
        assert k in after && Active(after[k]) && after[k].elevatorId == e;
      }
      if Held(after, e) {
        var k :| k in after && Active(after[k]) && after[k].elevatorId == e;
        assert k in repairs && Active(repairs[k]) && repairs[k].elevatorId == e;
      }
    }
  }

  /**
   * Booking an Available elevator for a new unfinished repair under a fresh
   * id, and marking it Occupied, keeps the invariant.
   */
  lemma BookingKeepsConsistent(elevators: map<nat, Elevator>, repairs: map<nat, Repair>, id: nat, r: Repair)
    requires Consistent(elevators, repairs)
    requires id !in repairs && Active(r)
    requires r.elevatorId in elevators && elevators[r.elevatorId].status == Available
    ensures Consistent(SetStatus(elevators, r.elevatorId, Occupied), repairs[id := r])
  {
    var e := r.elevatorId;
    var els := SetStatus(elevators, e, Occupied);
    var after := repairs[id := r];
    assert !Held(repairs, e);
    forall k | k in repairs && Active(repairs[k])
      ensures repairs[k].elevatorId != e
    {
    }
    forall x | x in els
      ensures els[x].status == Occupied <==> Held(after, x)
    {
      if x == e {
        assert id in after && Active(after[id]) && after[id].elevatorId == e;
      } else {
        if Held(repairs, x) {
          var k :| k in repairs && Active(repairs[k]) && repairs[k].elevatorId == x;
          assert k in after && Active(after[k]) && after[k].elevatorId == x;
        }
        if Held(after, x) {
          var k :| k in after && Active(after[k]) && after[k].elevatorId == x;
          assert k in repairs && Active(repairs[k]) && repairs[k].elevatorId == x;
        }
      }
    }
  }

  /**
   * Finishing an unfinished repair and releasing its elevator keeps the
   * invariant: no other unfinished repair held that elevator.
   */
  lemma ReleaseKeepsConsistent(elevators: map<nat, Elevator>, repairs: map<nat, Repair>, id: nat, r: Repair)
    requires Consistent(elevators, repairs)
    requires id in repairs && Active(repairs[id]) && !Active(r)
    requires r.elevatorId == repairs[id].elevatorId
    ensures Consistent(SetStatus(elevators, r.elevatorId, Available), repairs[id := r])
  {
    var e := r.elevatorId;
    var els := SetStatus(elevators, e, Available);
    var after := repairs[id := r];
    forall x | x in els
      ensures els[x].status == Occupied <==> Held(after, x)
    {
      if Held(after, x) {
        var k :| k in after && Active(after[k]) && after[k].elevatorId == x;
        assert k != id;
        assert k in repairs && Active(repairs[k]) && repairs[k].elevatorId == x;
        assert x != e;
      }
      if x != e && Held(repairs, x) {
        var k :| k in repairs && Active(repairs[k]) && repairs[k].elevatorId == x;
        assert k != id;
        assert k in after && Active(after[k]) && after[k].elevatorId == x;
      }
    }
  }

  /**
   * Moving an unfinished repair to elevator `ne` — release the old elevator,
   * then book `ne`, which must be Available once the old one is released —
   * keeps the invariant, also when `ne` is the repair's own elevator.
   */
  lemma MoveKeepsConsistent(elevators: map<nat, Elevator>, repairs: map<nat, Repair>, id: nat, r: Repair)
    requires Consistent(elevators, repairs)
    requires id in repairs && Active(repairs[id]) && Active(r)
    requires var released := SetStatus(elevators, repairs[id].elevatorId, Available);
      r.elevatorId in released && released[r.elevatorId].status == Available
    ensures Consistent(SetStatus(SetStatus(elevators, repairs[id].elevatorId, Available), r.elevatorId, Occupied), repairs[id := r])
  {
    var oe, ne := repairs[id].elevatorId, r.elevatorId;
    var els := SetStatus(SetStatus(elevators, oe, Available), ne, Occupied);
    var after := repairs[id := r];
    // Apart from `id`, no unfinished repair holds the old elevator or the new one.
    if ne != oe {
      assert !Held(repairs, ne);
    }
    forall k | k in repairs && k != id && Active(repairs[k])
      ensures repairs[k].elevatorId != oe && repairs[k].elevatorId != ne
    {
    }
    forall x | x in els
      ensures els[x].status == Occupied <==> Held(after, x)
    {
      if x == ne {
        assert id in after && Active(after[id]) && after[id].elevatorId == ne;
      } else {
        if Held(after, x) {
          var k :| k in after && Active(after[k]) && after[k].elevatorId == x;
          assert k != id;
          assert k in repairs && Active(repairs[k]) && repairs[k].elevatorId == x;
        }
        if x != oe && Held(repairs, x) {
          var k :| k in repairs && Active(repairs[k]) && repairs[k].elevatorId == x;
          assert k in after && Active(after[k]) && after[k].elevatorId == x;
        }
      }
    }
  }

  /**
   * Putting an elevator that is not Occupied into any status other than
   * Occupied (block for maintenance, unblock) keeps the invariant.
   */
  lemma IdleStatusKeepsConsistent(elevators: map<nat, Elevator>, repairs: map<nat, Repair>, e: nat, s: ElevatorStatus)
    requires Consistent(elevators, repairs)
    requires e in elevators && elevators[e].status != Occupied && s != Occupied
    ensures Consistent(SetStatus(elevators, e, s), repairs)
  {
    assert !Held(repairs, e);
  }
}
