/**
 * The database one request's session works on: one table per entity keyed
 * by id, the floor-plan table keyed by floor id, and one id sequence per
 * entity table (allocation size 1, starting at 1).
 *
 * `Db` is the value of all tables together. Its `Valid()` collects the
 * integrity rules every committed request keeps; each write is a `Db`
 * function, and the lemmas below prove which writes keep `Valid()`.
 * `OfficeStore` is the mutable store the resources change in place; each of
 * its methods is specified by the `Db` function it applies.
 */
module Store {
  import opened Common
  import opened Model

  datatype Db = Db(
    floors: map<Id, Floor>,
    rooms: map<Id, OfficeRoom>,
    seats: map<Id, Seat>,
    employees: map<Id, Employee>,
    plans: map<Id, FloorPlanimetry>,
    floorSeq: Id,
    roomSeq: Id,
    seatSeq: Id,
    employeeSeq: Id)
  {
    /** Every row carries its own key, drawn from its table's sequence; a plan shares its floor's key. */
    predicate KeysAreIds() {
      && 0 < floorSeq && 0 < roomSeq && 0 < seatSeq && 0 < employeeSeq
      && (forall k | k in floors :: floors[k].id == Some(k) && 0 < k < floorSeq)
      && (forall k | k in rooms :: rooms[k].id == Some(k) && 0 < k < roomSeq)
      && (forall k | k in seats :: seats[k].id == Some(k) && 0 < k < seatSeq)
      && (forall k | k in employees :: employees[k].id == Some(k) && 0 < k < employeeSeq)
      && (forall k | k in plans :: k in floors && plans[k].floorId == Some(k))
    }

    /** What `createFloor` and `updateFloor` validate before they write. */
    predicate FloorsWellFormed() {
      forall k | k in floors ::
        Present(floors[k].name) && floors[k].floorNumber.Some? && floors[k].floorNumber.value >= 0
    }

    /** No two floors share a floor number. */
    predicate UniqueFloorNumbers() {
      forall i, j | i in floors && j in floors && floors[i].floorNumber == floors[j].floorNumber :: i == j
    }

    /** Every room is on a stored floor. */
    predicate RoomsOnFloors() {
      forall k | k in rooms :: rooms[k].floor.Some? && rooms[k].floor.value in floors
    }

    /** The NOT NULL columns of `seats`: `room_id` (naming a stored room), `seat_number`, `created_at`. */
    predicate SeatsWellFormed() {
      forall k | k in seats ::
        && seats[k].room.Some? && seats[k].room.value in rooms
        && seats[k].seatNumber.Some? && seats[k].createdAt.Some?
    }

    /** What `createEmployee` validates before it writes. */
    predicate EmployeesWellFormed() {
      forall k | k in employees :: Present(employees[k].fullName) && Present(employees[k].occupation)
    }

    /** Assignments only link stored seats and stored employees. */
    predicate AssignmentsClosed() {
      && (forall e | e in employees :: employees[e].seats <= seats.Keys)
      && (forall s | s in seats :: seats[s].employees <= employees.Keys)
    }

    /** The two sides of the assignment relation agree. */
    predicate Symmetric() {
      forall e, s | e in employees && s in seats :: s in employees[e].seats <==> e in seats[s].employees
    }

    predicate Valid() {
      && KeysAreIds()
      && FloorsWellFormed() && UniqueFloorNumbers() && RoomsOnFloors()
      && SeatsWellFormed() && EmployeesWellFormed()
      && AssignmentsClosed() && Symmetric()
    }

    /** `floor.getRooms()`: the rooms whose owning reference is floor `f`. */
    function RoomsOf(f: Id): set<Id> {
      set r | r in rooms && rooms[r].floor == Some(f)
    }

    /** `room.getSeats()`: the seats whose owning reference is room `r`. */
    function SeatsOf(r: Id): set<Id> {
      set s | s in seats && seats[s].room == Some(r)
    }

    /** The persisted holders of seat `s`: the join table is written from the owning side, `Employee.seats`. */
    function HoldersOf(s: Id): set<Id> {
      set e | e in employees && s in employees[e].seats
    }

    /** The keys of the floors numbered `n`, leaving out `exclude` (the duplicate-number count query). */
    function FloorsNumbered(n: Int32, exclude: Option<Id>): set<Id> {
      set k | k in floors && floors[k].floorNumber == Some(n) && Some(k) != exclude
    }

    /** `session.save(floor)`: the row gets the next value of the floor sequence as its id. */
    function SaveFloor(f: Floor): Db {
      this.(floors := floors[floorSeq := f.(id := Some(floorSeq))], floorSeq := floorSeq + 1)
    }

    function SaveRoom(r: OfficeRoom): Db {
      this.(rooms := rooms[roomSeq := r.(id := Some(roomSeq))], roomSeq := roomSeq + 1)
    }

    function SaveSeat(s: Seat): Db {
      this.(seats := seats[seatSeq := s.(id := Some(seatSeq))], seatSeq := seatSeq + 1)
    }

    /** A failed `session.save(seat)`: the seat sequence has handed out its next value, which no row takes. */
    function SkipSeatId(): Db {
      this.(seatSeq := seatSeq + 1)
    }

    /**
     * `session.save(employee)`: the row gets the next value of the employee
     * sequence, and `Employee.seats`, the owning side, writes one join row per
     * seat it holds, which each of those seats then lists.
     */
    function SaveEmployee(e: Employee): Db {
      this.(employees := employees[employeeSeq := e.(id := Some(employeeSeq))],
            seats := JoinSeats(e.seats, employeeSeq),
            employeeSeq := employeeSeq + 1)
    }

    /** The seats after employee `n` is joined to each seat of `held`. */
    function JoinSeats(held: set<Id>, n: Id): map<Id, Seat> {
      map k | k in seats :: if k in held then seats[k].WithHolder(n) else seats[k]
    }

    /** A failed `session.save(employee)`: the employee sequence has handed out its next value, which no row takes. */
    function SkipEmployeeId(): Db {
      this.(employeeSeq := employeeSeq + 1)
    }

    /** Flushing a changed floor row `k`. */
    function PutFloor(k: Id, f: Floor): Db {
      this.(floors := floors[k := f])
    }

    /** `DELETE FROM FloorPlanimetry WHERE floorId = k` followed by `session.delete(floor)`. */
    function DeleteFloor(k: Id): Db {
      this.(floors := floors - {k}, plans := plans - {k})
    }

    /** Saving a new plan or flushing a changed one, keyed by floor `k`. */
    function PutPlan(k: Id, p: FloorPlanimetry): Db {
      this.(plans := plans[k := p])
    }

    /** `employee.addSeat(seat)`: the pair is added to both sides. */
    function AddSeat(e: Id, s: Id): (u: Db)
      requires e in employees && s in seats
      ensures u.employees.Keys == employees.Keys && u.seats.Keys == seats.Keys
      ensures u.employees[e] == employees[e].(seats := employees[e].seats + {s})
      ensures u.seats[s] == seats[s].WithHolder(e) && u.seats[s].IsOccupied()
      ensures forall k | k in employees && k != e :: u.employees[k] == employees[k]
      ensures forall k | k in seats && k != s :: u.seats[k] == seats[k]
      ensures u.(employees := employees, seats := seats) == this
    {
      this.(employees := employees[e := employees[e].(seats := employees[e].seats + {s})],
            seats := seats[s := seats[s].WithHolder(e)])
    }

    /** `employee.removeSeat(seat)`: the pair is removed from both sides. */
    function RemoveSeat(e: Id, s: Id): (u: Db)
      requires e in employees && s in seats
      ensures u.employees.Keys == employees.Keys && u.seats.Keys == seats.Keys
      ensures u.employees[e] == employees[e].(seats := employees[e].seats - {s})
      ensures u.seats[s] == seats[s].WithoutHolder(e)
      ensures forall k | k in employees && k != e :: u.employees[k] == employees[k]
      ensures forall k | k in seats && k != s :: u.seats[k] == seats[k]
      ensures u.(employees := employees, seats := seats) == this
    {
      this.(employees := employees[e := employees[e].(seats := employees[e].seats - {s})],
            seats := seats[s := seats[s].WithoutHolder(e)])
    }

    /** `seat.getEmployees().remove(employee)` on seat `s` alone. */
    function RemoveHolder(s: Id, e: Id): Db
      requires s in seats
    {
      this.(seats := seats[s := seats[s].WithoutHolder(e)])
    }

    /** The seats table after `e` has been taken off each seat in `done`. */
    function SeatsWithout(e: Id, done: set<Id>): map<Id, Seat> {
      map s | s in seats :: if s in done then seats[s].WithoutHolder(e) else seats[s]
    }

    /**
     * Everything `deleteEmployee` writes: the employee is taken off every
     * seat it holds and its row (with its join rows) is deleted.
     */
    function RemoveEmployee(e: Id): Db
      requires e in employees
    {
      this.(seats := SeatsWithout(e, employees[e].seats), employees := employees - {e})
    }
  }

  const EmptyDb := Db(map[], map[], map[], map[], map[], 1, 1, 1, 1)

  lemma EmptyDbValid()
    ensures EmptyDb.Valid()
  {
  }

  /** In a valid store the in-memory inverse side agrees with the persisted owning side. */
  lemma InverseSideAgrees(t: Db, s: Id)
    requires t.Valid() && s in t.seats
    ensures t.seats[s].employees == t.HoldersOf(s)
  {
    forall e | e in t.seats[s].employees ensures e in t.HoldersOf(s) {
      assert e in t.employees;
    }
    forall e | e in t.HoldersOf(s) ensures e in t.seats[s].employees {
      assert s in t.employees[e].seats;
    }
  }

  /** `isOccupied()` holds exactly when some stored employee holds the seat. */
  lemma OccupiedIffHeld(t: Db, s: Id)
    requires t.Valid() && s in t.seats
    ensures t.seats[s].IsOccupied() <==> exists e :: e in t.employees && s in t.employees[e].seats
  {
    InverseSideAgrees(t, s);
    if t.seats[s].IsOccupied() {
      HasElement(t.seats[s].employees);
      var e :| e in t.seats[s].employees;
      assert e in t.HoldersOf(s);
    }
  }

  /**
   * `setSeats` replaces the owning side without touching the seats' employee
   * sets, so unlike `addSeat`/`removeSeat` it breaks symmetry in every valid
   * store where the new set drops a seat the employee holds.
   */
  lemma SetSeatsBreaksSymmetry(t: Db, e: Id, s: Id, replacement: set<Id>)
    requires t.Valid() && e in t.employees && s in t.employees[e].seats && s !in replacement
    ensures !t.(employees := t.employees[e := t.employees[e].(seats := replacement)]).Symmetric()
  {
    var u := t.(employees := t.employees[e := t.employees[e].(seats := replacement)]);
    assert s in t.seats;
    assert e in t.seats[s].employees;
    assert s !in u.employees[e].seats && e in u.seats[s].employees;
  }

  lemma SaveFloorKeepsValid(t: Db, f: Floor)
    requires t.Valid()
    requires Present(f.name) && f.floorNumber.Some? && f.floorNumber.value >= 0
    requires t.FloorsNumbered(f.floorNumber.value, None) == {}
    ensures t.floorSeq !in t.floors && t.SaveFloor(f).Valid()
  {
    var u := t.SaveFloor(f);
    forall k | k in t.floors ensures t.floors[k].floorNumber != f.floorNumber {
      assert k !in t.FloorsNumbered(f.floorNumber.value, None);
    }
  }

  lemma SaveRoomKeepsValid(t: Db, r: OfficeRoom)
    requires t.Valid()
    requires r.floor.Some? && r.floor.value in t.floors
    ensures t.roomSeq !in t.rooms && t.SaveRoom(r).Valid()
  {
  }

  lemma SaveSeatKeepsValid(t: Db, s: Seat)
    requires t.Valid()
    requires s.room.Some? && s.room.value in t.rooms && s.seatNumber.Some? && s.createdAt.Some?
    requires s.employees == {}
    ensures t.seatSeq !in t.seats && t.SaveSeat(s).Valid()
  {
    var u := t.SaveSeat(s);
    assert forall e | e in u.employees :: t.seatSeq !in u.employees[e].seats;
  }

  /** A seat id drawn and left unused keeps the store valid: every stored key stays below the sequence. */
  lemma SkipSeatIdKeepsValid(t: Db)
    requires t.Valid()
    ensures t.SkipSeatId().Valid()
    ensures t.SkipSeatId().seats == t.seats && t.seatSeq !in t.SkipSeatId().seats
  {
  }

  /** An employee id drawn and left unused keeps the store valid and every table as it was. */
  lemma SkipEmployeeIdKeepsValid(t: Db)
    requires t.Valid()
    ensures t.SkipEmployeeId().Valid()
    ensures t.SkipEmployeeId().employees == t.employees && t.employeeSeq !in t.SkipEmployeeId().employees
  {
  }

  /**
   * Saving an employee adds it to exactly the seats it holds, and leaves
   * every seat's other fields and holders as they were.
   */
  lemma SaveEmployeeJoins(t: Db, e: Employee)
    ensures t.SaveEmployee(e).seats.Keys == t.seats.Keys
    ensures forall s | s in t.seats ::
              && t.SaveEmployee(e).seats[s].employees == (if s in e.seats then t.seats[s].employees + {t.employeeSeq} else t.seats[s].employees)
              && t.SaveEmployee(e).seats[s].(employees := {}) == t.seats[s].(employees := {})
    ensures e.seats == {} ==> t.SaveEmployee(e).seats == t.seats
  {
    var u := t.SaveEmployee(e);
    assert u.seats.Keys == t.seats.Keys;
    if e.seats == {} {
      assert forall s | s in t.seats :: u.seats[s] == t.seats[s];
    }
  }

  lemma SaveEmployeeKeepsValid(t: Db, e: Employee)
    requires t.Valid()
    requires Present(e.fullName) && Present(e.occupation) && e.seats <= t.seats.Keys
    ensures t.employeeSeq !in t.employees && t.SaveEmployee(e).Valid()
  {
    var n := t.employeeSeq;
    var u := t.SaveEmployee(e);
    SaveEmployeeJoins(t, e);
    assert n !in t.employees;
    assert u.KeysAreIds() && u.FloorsWellFormed() && u.UniqueFloorNumbers() && u.RoomsOnFloors();
    assert u.SeatsWellFormed() by {
      forall k | k in u.seats ensures u.seats[k].room == t.seats[k].room && u.seats[k].seatNumber == t.seats[k].seatNumber
        && u.seats[k].createdAt == t.seats[k].createdAt {
        assert u.seats[k].(employees := {}) == t.seats[k].(employees := {});
      }
    }
    assert u.EmployeesWellFormed();
    assert u.AssignmentsClosed();
    assert u.Symmetric() by {
      forall x, y | x in u.employees && y in u.seats ensures y in u.employees[x].seats <==> x in u.seats[y].employees {
        if x == n {
          assert n !in t.seats[y].employees;
        } else {
          assert y in t.employees[x].seats <==> x in t.seats[y].employees;
        }
      }
    }
  }

  /** Changing a floor's name and number keeps the store valid when the number is not held by another floor. */
  lemma PutFloorKeepsValid(t: Db, k: Id, f: Floor)
    requires t.Valid() && k in t.floors && f.id == Some(k)
    requires Present(f.name) && f.floorNumber.Some? && f.floorNumber.value >= 0
    requires t.FloorsNumbered(f.floorNumber.value, Some(k)) == {}
    ensures t.PutFloor(k, f).Valid()
  {
    forall o | o in t.floors && o != k ensures t.floors[o].floorNumber != f.floorNumber {
      assert o !in t.FloorsNumbered(f.floorNumber.value, Some(k));
    }
  }

  /** Deleting a floor with no rooms, together with its plan, keeps the store valid. */
  lemma DeleteFloorKeepsValid(t: Db, k: Id)
    requires t.Valid() && k in t.floors && t.RoomsOf(k) == {}
    ensures t.DeleteFloor(k).Valid()
  {
    var u := t.DeleteFloor(k);
    forall r | r in u.rooms ensures u.rooms[r].floor.value in u.floors {
      assert r !in t.RoomsOf(k);
    }
  }

  lemma PutPlanKeepsValid(t: Db, k: Id, p: FloorPlanimetry)
    requires t.Valid() && k in t.floors && p.floorId == Some(k)
    ensures t.PutPlan(k, p).Valid()
  {
  }

  /** `addSeat` keeps both sides in agreement. */
  lemma AddSeatKeepsValid(t: Db, e: Id, s: Id)
    requires t.Valid() && e in t.employees && s in t.seats
    ensures t.AddSeat(e, s).Valid()
  {
    var u := t.AddSeat(e, s);
    assert u.KeysAreIds() && u.FloorsWellFormed() && u.UniqueFloorNumbers() && u.RoomsOnFloors();
    assert u.SeatsWellFormed() && u.EmployeesWellFormed();
    assert u.AssignmentsClosed();
    assert u.Symmetric() by {
      forall x, y | x in u.employees && y in u.seats
        ensures y in u.employees[x].seats <==> x in u.seats[y].employees
      {
        assert y in t.employees[x].seats <==> x in t.seats[y].employees;
      }
    }
  }

  /** `removeSeat` keeps both sides in agreement. */
  lemma RemoveSeatKeepsValid(t: Db, e: Id, s: Id)
    requires t.Valid() && e in t.employees && s in t.seats
    ensures t.RemoveSeat(e, s).Valid()
  {
    var u := t.RemoveSeat(e, s);
    assert u.KeysAreIds() && u.FloorsWellFormed() && u.UniqueFloorNumbers() && u.RoomsOnFloors();
    assert u.SeatsWellFormed() && u.EmployeesWellFormed();
    assert u.AssignmentsClosed();
    assert u.Symmetric() by {
      forall x, y | x in u.employees && y in u.seats
        ensures y in u.employees[x].seats <==> x in u.seats[y].employees
      {
        assert y in t.employees[x].seats <==> x in t.seats[y].employees;
      }
    }
  }

  /** Both sides are sets: adding a pair that is already held changes nothing. */
  lemma AddSeatIdempotent(t: Db, e: Id, s: Id)
    requires t.Valid() && e in t.employees && s in t.seats
    ensures s in t.employees[e].seats ==> t.AddSeat(e, s) == t
    ensures t.AddSeat(e, s).AddSeat(e, s) == t.AddSeat(e, s)
  {
    var u := t.AddSeat(e, s);
    if s in t.employees[e].seats {
      assert e in t.seats[s].employees;
      assert t.employees[e].(seats := t.employees[e].seats + {s}) == t.employees[e];
      assert t.seats[s].WithHolder(e) == t.seats[s];
      assert u.employees == t.employees;
      assert u.seats == t.seats;
    }
    assert u.employees[e].(seats := u.employees[e].seats + {s}) == u.employees[e];
    assert u.seats[s].WithHolder(e) == u.seats[s];
    assert u.AddSeat(e, s).employees == u.employees;
    assert u.AddSeat(e, s).seats == u.seats;
  }

  /** After `removeSeat` the pair is gone from both sides, so a second removal finds nothing. */
  lemma RemoveSeatRemovesPair(t: Db, e: Id, s: Id)
    requires t.Valid() && e in t.employees && s in t.seats
    ensures s !in t.RemoveSeat(e, s).employees[e].seats
    ensures e !in t.RemoveSeat(e, s).seats[s].employees
    ensures t.seats[s].employees <= {e} ==> !t.RemoveSeat(e, s).seats[s].IsOccupied()
  {
  }

  /** Taking `e` off one more seat `s`. */
  lemma SeatsWithoutStep(t: Db, e: Id, done: set<Id>, s: Id)
    requires s in t.seats && s !in done
    ensures s in t.SeatsWithout(e, done)
    ensures t.(seats := t.SeatsWithout(e, done)).RemoveHolder(s, e) == t.(seats := t.SeatsWithout(e, done + {s}))
  {
    var m := t.SeatsWithout(e, done);
    assert m[s := m[s].WithoutHolder(e)] == t.SeatsWithout(e, done + {s});
  }

  /** Deleting an employee keeps the store valid. */
  lemma RemoveEmployeeKeepsValid(t: Db, e: Id)
    requires t.Valid() && e in t.employees
    ensures t.RemoveEmployee(e).Valid()
  {
    var u := t.RemoveEmployee(e);
    var held := t.employees[e].seats;
    assert u.seats.Keys == t.seats.Keys;
    forall s | s in u.seats ensures u.seats[s].employees <= u.employees.Keys {
      if s !in held {
        assert e !in t.seats[s].employees;
      }
    }
    forall x, y | x in u.employees && y in u.seats
      ensures y in u.employees[x].seats <==> x in u.seats[y].employees
    {
      assert y in t.employees[x].seats <==> x in t.seats[y].employees;
    }
  }

  /**
   * Deleting employee `e` takes `e` off every seat and leaves every other
   * pair as it was.
   */
  lemma RemoveEmployeeSparesOthers(t: Db, e: Id)
    requires t.Valid() && e in t.employees
    ensures t.RemoveEmployee(e).employees == t.employees - {e}
    ensures t.RemoveEmployee(e).seats.Keys == t.seats.Keys
    ensures forall s | s in t.seats :: t.RemoveEmployee(e).seats[s].employees == t.seats[s].employees - {e}
    ensures forall s | s in t.seats :: t.RemoveEmployee(e).seats[s].(employees := t.seats[s].employees) == t.seats[s]
  {
    var u := t.RemoveEmployee(e);
    forall s | s in t.seats ensures u.seats[s].employees == t.seats[s].employees - {e} {
      if s !in t.employees[e].seats {
        assert e !in t.seats[s].employees;
      }
    }
  }

  /** The mutable store a request works on; each method applies one `Db` write. */
  class OfficeStore {
    var floors: map<Id, Floor>
    var rooms: map<Id, OfficeRoom>
    var seats: map<Id, Seat>
    var employees: map<Id, Employee>
    var plans: map<Id, FloorPlanimetry>
    /** The next value of each entity's id sequence. */
    var floorSeq: Id
    var roomSeq: Id
    var seatSeq: Id
    var employeeSeq: Id

    /** The tables' current contents. */
    function Snapshot(): Db
      reads this
    {
      Db(floors, rooms, seats, employees, plans, floorSeq, roomSeq, seatSeq, employeeSeq)
    }

    predicate Valid()
      reads this
    {
      Snapshot().Valid()
    }

    /** An empty database whose sequences start at 1. */
    constructor ()
      ensures Snapshot() == EmptyDb && Valid()
    {
      floors, rooms, seats, employees, plans := map[], map[], map[], map[], map[];
      floorSeq, roomSeq, seatSeq, employeeSeq := 1, 1, 1, 1;
      EmptyDbValid();
    }

    method SaveFloor(f: Floor) returns (id: Id)
      modifies this
      ensures id == old(floorSeq) && Snapshot() == old(Snapshot()).SaveFloor(f)
    {
      id := floorSeq;
      floors, floorSeq := floors[id := f.(id := Some(id))], floorSeq + 1;
    }

    method SaveRoom(r: OfficeRoom) returns (id: Id)
      modifies this
      ensures id == old(roomSeq) && Snapshot() == old(Snapshot()).SaveRoom(r)
    {
      id := roomSeq;
      rooms, roomSeq := rooms[id := r.(id := Some(id))], roomSeq + 1;
    }

    method SaveSeat(s: Seat) returns (id: Id)
      modifies this
      ensures id == old(seatSeq) && Snapshot() == old(Snapshot()).SaveSeat(s)
    {
      id := seatSeq;
      seats, seatSeq := seats[id := s.(id := Some(id))], seatSeq + 1;
    }

    /** `seat_seq.nextval` drawn by a save whose row is then rejected; the value is not given back. */
    method SkipSeatId()
      modifies this
      ensures Snapshot() == old(Snapshot()).SkipSeatId()
    {
      seatSeq := seatSeq + 1;
    }

    method SaveEmployee(e: Employee) returns (id: Id)
      modifies this
      ensures id == old(employeeSeq) && Snapshot() == old(Snapshot()).SaveEmployee(e)
    {
      id := employeeSeq;
      seats := Snapshot().JoinSeats(e.seats, id);
      employees, employeeSeq := employees[id := e.(id := Some(id))], employeeSeq + 1;
    }

    /** `employee_seq.nextval` drawn by a save whose row is then rejected; the value is not given back. */
    method SkipEmployeeId()
      modifies this
      ensures Snapshot() == old(Snapshot()).SkipEmployeeId()
    {
      employeeSeq := employeeSeq + 1;
    }

    method PutFloor(k: Id, f: Floor)
      modifies this
      ensures Snapshot() == old(Snapshot()).PutFloor(k, f)
    {
      floors := floors[k := f];
    }

    method DeleteFloor(k: Id)
      modifies this
      ensures Snapshot() == old(Snapshot()).DeleteFloor(k)
    {
      plans := plans - {k};
      floors := floors - {k};
    }

    method PutPlan(k: Id, p: FloorPlanimetry)
      modifies this
      ensures Snapshot() == old(Snapshot()).PutPlan(k, p)
    {
      plans := plans[k := p];
    }

    /** `Employee.addSeat`: `seats.add(seat)` then `seat.getEmployees().add(this)`. */
    method AddSeat(e: Id, s: Id)
      requires e in employees && s in seats
      modifies this
      ensures Snapshot() == old(Snapshot()).AddSeat(e, s)
    {
      employees := employees[e := employees[e].(seats := employees[e].seats + {s})];
      seats := seats[s := seats[s].WithHolder(e)];
    }

    /** `Employee.removeSeat`: `seats.remove(seat)` then `seat.getEmployees().remove(this)`. */
    method RemoveSeat(e: Id, s: Id)
      requires e in employees && s in seats
      modifies this
      ensures Snapshot() == old(Snapshot()).RemoveSeat(e, s)
    {
      employees := employees[e := employees[e].(seats := employees[e].seats - {s})];
      seats := seats[s := seats[s].WithoutHolder(e)];
    }

    /** `seat.getEmployees().remove(employee)`. */
    method RemoveHolder(s: Id, e: Id)
      requires s in seats
      modifies this
      ensures Snapshot() == old(Snapshot()).RemoveHolder(s, e)
    {
      seats := seats[s := seats[s].WithoutHolder(e)];
    }

    /** `employee.getSeats().clear()`. */
    method ClearSeats(e: Id)
      requires e in employees
      modifies this
      ensures Snapshot() == old(Snapshot()).(employees := old(employees)[e := old(employees)[e].(seats := {})])
    {
      employees := employees[e := employees[e].(seats := {})];
    }

    /** `session.delete(employee)`. */
    method DeleteEmployee(e: Id)
      modifies this
      ensures Snapshot() == old(Snapshot()).(employees := old(employees) - {e})
    {
      employees := employees - {e};
    }
  }
}
