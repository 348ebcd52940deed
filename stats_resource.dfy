/**
 * `/stats`: the number of rows of each table.
 */
module StatsResource {
  import opened Common
  import opened Model
  import opened Store

  /** The counts `getStats` answers with. */
  datatype Stats = Stats(totalEmployees: nat, totalFloors: nat, totalOffices: nat, totalSeats: nat)

  /** An exception thrown while counting; `message` is `e.getMessage()`, which may be null. */
  datatype Fault = Fault(message: Option<string>)

  /** Java's `"..." + s` prints a null `s` as `null`. */
  function JavaConcat(prefix: string, s: Option<string>): string {
    prefix + (if s.Some? then s.value else "null")
  }

  /** `GET /stats`: the four counts, or 500 with the exception's message when a query fails. */
  function GetStats(t: Db, failure: Option<Fault>): (r: Response<Stats>)
    ensures failure.None? ==>
              && r.status == Ok && r.entity.Some?
              && r.entity.value.totalEmployees == |t.employees| && r.entity.value.totalFloors == |t.floors|
              && r.entity.value.totalOffices == |t.rooms| && r.entity.value.totalSeats == |t.seats|
    ensures failure.Some? ==>
              r == Response(InternalServerError(JavaConcat("Failed to retrieve stats: ", failure.value.message)), None)
  {
    if failure.Some? then
      Response(InternalServerError(JavaConcat("Failed to retrieve stats: ", failure.value.message)), None)
    else
      Response(Ok, Some(Stats(|t.employees|, |t.floors|, |t.rooms|, |t.seats|)))
  }

  /** Each successful create adds exactly one to its own count and none to the others. */
  lemma CreatesCountOnce(t: Db, f: Floor, r: OfficeRoom, s: Seat, e: Employee)
    requires t.KeysAreIds()
    ensures GetStats(t.SaveFloor(f), None).entity.value == GetStats(t, None).entity.value.(totalFloors := |t.floors| + 1)
    ensures GetStats(t.SaveRoom(r), None).entity.value == GetStats(t, None).entity.value.(totalOffices := |t.rooms| + 1)
    ensures GetStats(t.SaveSeat(s), None).entity.value == GetStats(t, None).entity.value.(totalSeats := |t.seats| + 1)
    ensures GetStats(t.SaveEmployee(e), None).entity.value == GetStats(t, None).entity.value.(totalEmployees := |t.employees| + 1)
  {
    assert t.floorSeq !in t.floors && t.roomSeq !in t.rooms;
    assert t.seatSeq !in t.seats && t.employeeSeq !in t.employees;
    SaveEmployeeJoins(t, e);
  }

  /** Deleting a floor takes exactly one off the floor count. */
  lemma DeleteFloorCountsOnce(t: Db, k: Id)
    requires t.Valid() && k in t.floors
    ensures GetStats(t.DeleteFloor(k), None).entity.value == GetStats(t, None).entity.value.(totalFloors := |t.floors| - 1)
  {
  }

  /** Deleting an employee takes exactly one off the employee count; seats stay. */
  lemma DeleteEmployeeCountsOnce(t: Db, e: Id)
    requires t.Valid() && e in t.employees
    ensures GetStats(t.RemoveEmployee(e), None).entity.value == GetStats(t, None).entity.value.(totalEmployees := |t.employees| - 1)
  {
    RemoveEmployeeSparesOthers(t, e);
    assert t.RemoveEmployee(e).seats.Keys == t.seats.Keys;
  }
}
