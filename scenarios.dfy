/**
 * Request sequences against an empty store, each stating the answers the
 * resources give and the state they leave.
 */
module Scenarios {
  import opened Common
  import opened Model
  import opened Store
  import EmployeeResource
  import FloorResource
  import RoomResource
  import SeatResource
  import StatsResource

  const GroundFloor := FloorResource.FloorPayload(Some("Ground"), Some(0))
  const Lab := RoomResource.RoomPayload(Some(RoomResource.EntityRef(Some(1))), Some("101"), Some("Lab"))
  const DeskA1 := SeatResource.SeatPayload(Some(RoomResource.EntityRef(Some(1))), Some("A1"))
  const Ada := EmployeeResource.EmployeePayload(Some("Ada"), Some("Engineer"), {})

  const Floor1 := Floor(Some(1), Some(0), Some("Ground"), Some(1))
  const Room1 := OfficeRoom(Some(1), Some(1), Some("101"), Some("Lab"), Some(2))
  const Seat1 := Seat(Some(1), Some(1), Some("A1"), Some(3), {})
  const Employee1 := Employee(Some(1), Some("Ada"), Some("Engineer"), {}, Some(4))

  /** The store after each of the four creates, at clock readings 1 to 4. */
  const WithFloor := EmptyDb.(floors := map[1 := Floor1], floorSeq := 2)
  const WithRoom := WithFloor.(rooms := map[1 := Room1], roomSeq := 2)
  const WithSeat := WithRoom.(seats := map[1 := Seat1], seatSeq := 2)
  const FurnishedDb := WithSeat.(employees := map[1 := Employee1], employeeSeq := 2)

  method CreateGround(db: OfficeStore)
    requires db.Valid() && db.Snapshot() == EmptyDb
    modifies db
    ensures db.Valid() && db.Snapshot() == WithFloor
  {
    assert "Ground"[0] > ' ';
    var s, f := FloorResource.CreateFloor(db, Some(GroundFloor), 1);
    assert EmptyDb.SaveFloor(FloorResource.FloorRow(GroundFloor, 1)) == WithFloor;
  }

  method CreateLab(db: OfficeStore)
    requires db.Valid() && db.Snapshot() == WithFloor
    modifies db
    ensures db.Valid() && db.Snapshot() == WithRoom
  {
    var s, r := RoomResource.CreateRoom(db, Lab, 2);
    assert WithFloor.SaveRoom(RoomResource.RoomRow(Lab, 1, 2)) == WithRoom;
  }

  method CreateDesk(db: OfficeStore)
    requires db.Valid() && db.Snapshot() == WithRoom
    modifies db
    ensures db.Valid() && db.Snapshot() == WithSeat
  {
    var s, seat := SeatResource.CreateSeat(db, DeskA1, 3);
    assert WithRoom.SaveSeat(SeatResource.SeatRow(DeskA1, 1, 3)) == WithSeat;
  }

  method CreateAda(db: OfficeStore)
    requires db.Valid() && db.Snapshot() == WithSeat
    modifies db
    ensures db.Valid() && db.Snapshot() == FurnishedDb
  {
    assert "Ada"[0] > ' ' && "Engineer"[0] > ' ';
    assert EmployeeResource.EmployeeError(Some(Ada)) == None;
    assert EmployeeResource.PostedSeats(Ada) == {};
    SaveEmployeeJoins(WithSeat, EmployeeResource.EmployeeRow(Ada, 4));
    var s, e := EmployeeResource.CreateEmployee(db, Some(Ada), 4);
    assert WithSeat.SaveEmployee(EmployeeResource.EmployeeRow(Ada, 4)) == FurnishedDb;
  }

  /** The furnished store after a rejected seat save: no new row, one seat id used up. */
  const AbortedDb := FurnishedDb.(seatSeq := 3)

  /** The seat created next, in room 1 at clock reading 6. */
  const Seat3 := Seat(Some(3), Some(1), Some("A1"), Some(6), {})

  /** The furnished store after a rejected seat and the seat posted next. */
  const ReseatedDb := AbortedDb.(seats := AbortedDb.seats[3 := Seat3], seatSeq := 4)

  method PostNumberlessSeat(db: OfficeStore) returns (status: Status)
    requires db.Valid() && db.Snapshot() == FurnishedDb
    modifies db
    ensures db.Valid() && db.Snapshot() == AbortedDb && status == Aborted
  {
    var c;
    status, c := SeatResource.CreateSeat(db, SeatResource.SeatPayload(Some(RoomResource.EntityRef(Some(1))), None), 5);
  }

  method PostSeatAfterAbort(db: OfficeStore) returns (status: Status, created: Option<Seat>)
    requires db.Valid() && db.Snapshot() == AbortedDb
    modifies db
    ensures db.Valid() && db.Snapshot() == ReseatedDb && status == Created && created == Some(Seat3)
  {
    status, created := SeatResource.CreateSeat(db, DeskA1, 6);
    assert AbortedDb.SaveSeat(SeatResource.SeatRow(DeskA1, 1, 6)) == ReseatedDb;
  }

  /**
   * A seat posted without a number is rejected on save, and the seat posted
   * after it gets id 3, not 2: the rejected save had drawn id 2.
   */
  method SeatIdAfterAbort(db: OfficeStore) returns (first: Status, second: Status, created: Option<Seat>)
    requires db.Valid() && db.Snapshot() == FurnishedDb
    modifies db
    ensures db.Valid() && db.Snapshot() == ReseatedDb
    ensures first == Aborted && second == Created && created.Some? && created.value.id == Some(3)
  {
    first := PostNumberlessSeat(db);
    second, created := PostSeatAfterAbort(db);
  }

  /** An employee posted with seat 1 in its body. */
  const Linus := EmployeeResource.EmployeePayload(Some("Linus"), Some("Engineer"), {Some(1)})

  /** An employee posted with a seat that is not stored. */
  const Ghost := EmployeeResource.EmployeePayload(Some("Ghost"), Some("Engineer"), {Some(9)})

  /** The store after Linus is created holding seat 1, and after the rejected post. */
  const LinusDb := WithSeat.(
    employees := map[1 := Employee(Some(1), Some("Linus"), Some("Engineer"), {1}, Some(4))],
    seats := map[1 := Seat1.(employees := {1})], employeeSeq := 2)
  const GhostDb := LinusDb.(employeeSeq := 3)

  method PostLinus(db: OfficeStore) returns (status: Status)
    requires db.Valid() && db.Snapshot() == WithSeat
    modifies db
    ensures db.Valid() && db.Snapshot() == LinusDb && status == Created
  {
    assert "Linus"[0] > ' ' && "Engineer"[0] > ' ';
    assert EmployeeResource.EmployeeError(Some(Linus)) == None;
    assert EmployeeResource.PostedSeats(Linus) == {1};
    assert EmployeeResource.SeatsResolved(WithSeat, Linus);
    var row := EmployeeResource.EmployeeRow(Linus, 4);
    SaveEmployeeJoins(WithSeat, row);
    var u := WithSeat.SaveEmployee(row);
    assert u.seats.Keys == {1} && u.seats[1] == Seat1.(employees := {1});
    assert u.seats == LinusDb.seats;
    var c;
    status, c := EmployeeResource.CreateEmployee(db, Some(Linus), 4);
  }

  method PostGhost(db: OfficeStore) returns (status: Status)
    requires db.Valid() && db.Snapshot() == LinusDb
    modifies db
    ensures db.Valid() && db.Snapshot() == GhostDb && status == Aborted
  {
    assert "Ghost"[0] > ' ' && "Engineer"[0] > ' ';
    assert EmployeeResource.EmployeeError(Some(Ghost)) == None;
    assert !EmployeeResource.SeatsResolved(LinusDb, Ghost) by {
      assert Some(9) in Ghost.seats && 9 !in LinusDb.seats;
    }
    var c;
    status, c := EmployeeResource.CreateEmployee(db, Some(Ghost), 5);
  }

  /**
   * Posting an employee whose body lists seat 1 creates it already holding
   * that seat, without `assignSeat`, and the seat becomes occupied; posting
   * one that lists an unknown seat is rejected at commit and uses up id 2.
   */
  method PostedSeatsAssigned(db: OfficeStore) returns (first: Status, second: Status)
    requires db.Valid() && db.Snapshot() == WithSeat
    modifies db
    ensures db.Valid() && db.Snapshot() == GhostDb
    ensures first == Created && 1 in db.employees && db.employees[1].seats == {1}
    ensures 1 in db.seats && db.seats[1].IsOccupied()
    ensures second == Aborted && db.employees.Keys == {1} && db.employeeSeq == 3
  {
    first := PostLinus(db);
    second := PostGhost(db);
  }

  /** Each of the four creates succeeds, so the store holds one row of each kind. */
  method Furnished() returns (db: OfficeStore)
    ensures fresh(db) && db.Valid() && db.Snapshot() == FurnishedDb
  {
    db := new OfficeStore();
    EmptyDbValid();
    CreateGround(db);
    CreateLab(db);
    CreateDesk(db);
    CreateAda(db);
  }

  const DeskA2 := SeatResource.SeatPayload(Some(RoomResource.EntityRef(Some(1))), Some("A2"))
  const Grace := EmployeeResource.EmployeePayload(Some("Grace"), Some("Analyst"), {})

  /** The furnished store with a second seat in room 1 and a second employee, at clock readings 7 and 8. */
  const StaffedDb := FurnishedDb.(
    seats := FurnishedDb.seats[2 := Seat(Some(2), Some(1), Some("A2"), Some(7), {})], seatSeq := 3,
    employees := FurnishedDb.employees[2 := Employee(Some(2), Some("Grace"), Some("Analyst"), {}, Some(8))],
    employeeSeq := 3)

  /** The furnished store with the second seat only. */
  const WithSecondSeat := FurnishedDb.(
    seats := FurnishedDb.seats[2 := Seat(Some(2), Some(1), Some("A2"), Some(7), {})], seatSeq := 3)

  method CreateSecondSeat(db: OfficeStore)
    requires db.Valid() && db.Snapshot() == FurnishedDb
    modifies db
    ensures db.Valid() && db.Snapshot() == WithSecondSeat
  {
    var s, seat := SeatResource.CreateSeat(db, DeskA2, 7);
    assert FurnishedDb.SaveSeat(SeatResource.SeatRow(DeskA2, 1, 7)) == WithSecondSeat;
  }

  method CreateGrace(db: OfficeStore)
    requires db.Valid() && db.Snapshot() == WithSecondSeat
    modifies db
    ensures db.Valid() && db.Snapshot() == StaffedDb
  {
    assert "Grace"[0] > ' ' && "Analyst"[0] > ' ';
    assert EmployeeResource.EmployeeError(Some(Grace)) == None;
    assert EmployeeResource.PostedSeats(Grace) == {};
    SaveEmployeeJoins(WithSecondSeat, EmployeeResource.EmployeeRow(Grace, 8));
    var s, e := EmployeeResource.CreateEmployee(db, Some(Grace), 8);
    assert WithSecondSeat.SaveEmployee(EmployeeResource.EmployeeRow(Grace, 8)) == StaffedDb;
  }

  /** Two employees, one floor, one room and two seats are counted as 2/1/1/2, and counting changes nothing. */
  method StatsOfStaffed() returns (stats: Response<StatsResource.Stats>)
    ensures stats == Response(Ok, Some(StatsResource.Stats(2, 1, 1, 2)))
  {
    var db := Furnished();
    CreateSecondSeat(db);
    CreateGrace(db);
    StaffedCounts();
    stats := StatsResource.GetStats(db.Snapshot(), None);
  }

  lemma StaffedCounts()
    ensures |StaffedDb.employees| == 2 && |StaffedDb.floors| == 1 && |StaffedDb.rooms| == 1 && |StaffedDb.seats| == 2
  {
    var e := StaffedDb.employees;
    assert e == map[1 := e[1]][2 := e[2]];
    var s := StaffedDb.seats;
    assert s == map[1 := s[1]][2 := s[2]];
  }

  /**
   * Assigning, assigning again, unassigning, and unassigning again: the
   * second assignment changes nothing (the employee still holds one seat),
   * the unassignment leaves none and frees the seat, and the second
   * unassignment is refused.
   */
  method AssignUnassign() returns (a1: Status, a2: Status, u1: Status, u2: Status,
                                   held1: nat, held2: nat, heldAfter: nat, occupied: bool, freed: bool)
    ensures a1 == Ok && a2 == Ok && u1 == Ok
    ensures held1 == 1 && held2 == 1 && heldAfter == 0
    ensures u2 == BadRequest("This seat is not assigned to the employee")
    ensures occupied && freed
  {
    var db := Furnished();
    var body;
    a1, body := EmployeeResource.AssignSeat(db, 1, 1);
    assert body.value.seats == {1};
    held1 := |body.value.seats|;
    ghost var once := db.Snapshot();
    a2, body := EmployeeResource.AssignSeat(db, 1, 1);
    assert body.value.seats == {1};
    held2 := |body.value.seats|;
    AddSeatIdempotent(once, 1, 1);
    assert db.Snapshot() == once;
    occupied := db.seats[1].IsOccupied();
    u1, body := EmployeeResource.UnassignSeat(db, 1, 1);
    assert body.value.seats == {};
    heldAfter := |body.value.seats|;
    freed := !db.seats[1].IsOccupied();
    u2, body := EmployeeResource.UnassignSeat(db, 1, 1);
  }

  /** A second floor with number 0 is refused and the store is unchanged. */
  method DuplicateRefused(db: OfficeStore) returns (dup: Status)
    requires db.Valid() && db.Snapshot() == FurnishedDb
    modifies db
    ensures dup == Conflict("A floor with number 0 already exists")
    ensures db.Valid() && db.Snapshot() == FurnishedDb
  {
    var annex := FloorResource.FloorPayload(Some("Annex"), Some(0));
    assert "Annex"[0] > ' ';
    assert FloorResource.FloorError(Some(annex)) == None;
    assert 1 in FurnishedDb.FloorsNumbered(0, None);
    assert IntToString(0) == "0";
    assert FloorResource.DuplicateNumber(0) == "A floor with number 0 already exists";
    var f;
    dup, f := FloorResource.CreateFloor(db, Some(annex), 5);
  }

  /** Floor 1 holds room 1, so deleting it is refused and the store is unchanged. */
  method OccupiedFloorKept(db: OfficeStore) returns (del: Status)
    requires db.Valid() && db.Snapshot() == FurnishedDb
    modifies db
    ensures del == BadRequest("Cannot delete floor that has rooms")
    ensures db.Valid() && db.Snapshot() == FurnishedDb
  {
    assert 1 in FurnishedDb.RoomsOf(1);
    del := FloorResource.DeleteFloor(db, 1);
  }

  /** A floor number already in use is refused, and so is deleting a floor that has rooms. */
  method FloorGuards() returns (dup: Status, del: Status, floors: nat)
    ensures dup == Conflict("A floor with number 0 already exists")
    ensures del == BadRequest("Cannot delete floor that has rooms")
    ensures floors == 1
  {
    var db := Furnished();
    dup := DuplicateRefused(db);
    del := OccupiedFloorKept(db);
    floors := |db.floors|;
  }

  /** Deleting an employee who holds a seat frees the seat and leaves it in the store. */
  method DeleteHolder() returns (del: Status, seatStatus: Status, occupied: bool, employees: nat)
    ensures del == NoContent && seatStatus == Ok && !occupied && employees == 0
  {
    var db := Furnished();
    var s, body := EmployeeResource.AssignSeat(db, 1, 1);
    ghost var t := db.Snapshot();
    del := EmployeeResource.DeleteEmployee(db, 1);
    RemoveEmployeeSparesOthers(t, 1);
    var seat := SeatResource.GetSeat(db.Snapshot(), 1);
    seatStatus := seat.status;
    occupied := seat.entity.value.IsOccupied();
    employees := |db.employees|;
  }

  /** The furnished store with an SVG plan for floor 1, written at clock reading 6. */
  const PlannedDb := FurnishedDb.(plans := map[1 := FloorPlanimetry(Some(1), Some("<svg/>"), Some(6))])

  method WritePlan(db: OfficeStore) returns (put: Status)
    requires db.Valid() && db.Snapshot() == FurnishedDb
    modifies db
    ensures put == Ok
    ensures db.Valid() && db.Snapshot() == PlannedDb
  {
    assert "<svg/>"[0] > ' ';
    assert 1 in FurnishedDb.floors;
    put := FloorResource.UpdateFloorPlan(db, 1, Some("<svg/>"), 6);
    assert FurnishedDb.PutPlan(1, FloorResource.PlanRecord(1, "<svg/>", 6)) == PlannedDb;
  }

  /** Reading the plans of `PlannedDb`. */
  lemma PlannedDbServesPlan()
    ensures FloorResource.GetFloorPlan(PlannedDb, 1)
            == FloorResource.PlanResponse(Ok, Some("<svg/>"), Some("inline; filename=floor1.svg"))
    ensures FloorResource.GetFloorPlan(PlannedDb, 2).status == NotFound(Some("No floor plan found for floor ID: 2"))
  {
    assert IntToString(1) == "1" && IntToString(2) == "2";
    assert FloorResource.Disposition(1) == "inline; filename=floor1.svg";
    assert "No floor plan found for floor ID: " + IntToString(2) == "No floor plan found for floor ID: 2";
  }

  /** A plan written for floor 1 is served back with its file name; floor 2 has none. */
  method PlanRoundTrip() returns (put: Status, got: FloorResource.PlanResponse, other: Status)
    ensures put == Ok
    ensures got == FloorResource.PlanResponse(Ok, Some("<svg/>"), Some("inline; filename=floor1.svg"))
    ensures other == NotFound(Some("No floor plan found for floor ID: 2"))
  {
    var db := Furnished();
    put := WritePlan(db);
    PlannedDbServesPlan();
    got := FloorResource.GetFloorPlan(db.Snapshot(), 1);
    other := FloorResource.GetFloorPlan(db.Snapshot(), 2).status;
  }
}
