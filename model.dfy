/**
 * The persistent entities, one record per table row. A reference from one
 * entity to another (`OfficeRoom.floor`, `Seat.room`, the members of
 * `Employee.seats` and `Seat.employees`) is held as the referenced row's key:
 * inside one session Hibernate hands out a single object per key, so the key
 * identifies the object. A Java setter is the record update `r.(field := v)`,
 * which changes that field and no other.
 *
 * The mapped-by collections `Floor.rooms` and `OfficeRoom.seats` are never
 * written by the code; they are derived from the owning references by
 * `Store.Db.RoomsOf` and `Store.Db.SeatsOf`.
 */
module Model {
  import opened Common

  /** A row of `floors`. */
  datatype Floor = Floor(
    id: Option<Id>,
    floorNumber: Option<Int32>,
    name: Option<string>,
    createdAt: Option<Timestamp>)

  /** A row of `office_rooms`; `floor` is the `floor_id` join column. */
  datatype OfficeRoom = OfficeRoom(
    id: Option<Id>,
    floor: Option<Id>,
    roomNumber: Option<string>,
    name: Option<string>,
    createdAt: Option<Timestamp>)

  /** A row of `seats`; `employees` is the in-memory inverse side of `Employee.seats`. */
  datatype Seat = Seat(
    id: Option<Id>,
    room: Option<Id>,
    seatNumber: Option<string>,
    createdAt: Option<Timestamp>,
    employees: set<Id>)
  {
    /** The transient `occupied` property: computed from the employee set, it changes nothing. */
    predicate IsOccupied() {
      employees != {}
    }

    /** `seat.getEmployees().add(e)`. */
    function WithHolder(e: Id): (s: Seat)
      ensures s.employees == employees + {e} && s.IsOccupied()
      ensures s.(employees := employees) == this
    {
      this.(employees := employees + {e})
    }

    /** `seat.getEmployees().remove(e)`. */
    function WithoutHolder(e: Id): (s: Seat)
      ensures s.employees == employees - {e} && e !in s.employees
      ensures employees <= {e} ==> !s.IsOccupied()
      ensures s.(employees := employees) == this
    {
      this.(employees := employees - {e})
    }
  }

  /** A row of `employees`; `seats` is the owning side of `employee_seat_assignments`. */
  datatype Employee = Employee(
    id: Option<Id>,
    fullName: Option<string>,
    occupation: Option<string>,
    seats: set<Id>,
    createdAt: Option<Timestamp>)

  /**
   * A row of `floor_planimetry`. Its key `floorId` is also its reference to
   * the floor (`@MapsId`), so a floor has at most one plan.
   */
  datatype FloorPlanimetry = FloorPlanimetry(
    floorId: Option<Id>,
    planimetry: Option<string>,
    lastUpdated: Option<Timestamp>)
  {
    /** `setPlanimetry(v)`: stores the text and refreshes `lastUpdated` from the clock. */
    function SetPlanimetry(v: Option<string>, now: Timestamp): (p: FloorPlanimetry)
      ensures p.planimetry == v && p.lastUpdated == Some(now) && p.floorId == floorId
    {
      this.(planimetry := v, lastUpdated := Some(now))
    }
  }

  /** A seat as `new Seat()` leaves it: no holders, so not occupied. */
  function NewSeat(): (s: Seat)
    ensures s.employees == {} && !s.IsOccupied()
    ensures s.id == None && s.room == None && s.seatNumber == None && s.createdAt == None
  {
    Seat(None, None, None, None, {})
  }

  /** An employee as `new Employee()` leaves it: no seats. */
  function NewEmployee(): (e: Employee)
    ensures e.seats == {}
    ensures e.id == None && e.fullName == None && e.occupation == None && e.createdAt == None
  {
    Employee(None, None, None, {}, None)
  }

  /**
   * `new Floor(id, name, level)`: the projection used to list floors; `createdAt`
   * stays null and `rooms` is the fresh empty set, so a listed floor shows no rooms.
   * (A `Floor` value carries no room set: a stored floor's rooms are `RoomsOf`.)
   */
  function FloorProjection(id: Option<Id>, name: Option<string>, level: Option<Int32>): (f: Floor)
    ensures f.id == id && f.name == name && f.floorNumber == level && f.createdAt == None
  {
    Floor(id, level, name, None)
  }

  /**
   * `new FloorPlanimetry(floor, text)`: the record of floor `floor` (its key
   * through `@MapsId`), stamped with the clock. It is the record the no-argument
   * constructor reaches after `setFloor(floor)` and `setPlanimetry(text)`.
   */
  function NewPlanimetry(floor: Id, text: Option<string>, now: Timestamp): (p: FloorPlanimetry)
    ensures p.floorId == Some(floor) && p.planimetry == text && p.lastUpdated == Some(now)
    ensures p == FloorPlanimetry(None, None, None).(floorId := Some(floor)).SetPlanimetry(text, now)
  {
    FloorPlanimetry(Some(floor), text, Some(now))
  }
}
