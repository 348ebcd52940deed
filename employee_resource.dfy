/**
 * `/employees`: creating and reading employees, assigning and unassigning
 * seats, deleting an employee, and the paged case-insensitive search.
 * Every error answer leaves the store as it was: the source returns before
 * it commits. The one exception is a create whose commit fails, which has
 * already drawn an employee id.
 */
module EmployeeResource {
  import opened Common
  import opened Model
  import opened Store

  /**
   * The fields of a posted employee that `createEmployee` reads. `seats` are
   * the posted seat references, by id (`None` for a seat posted without one);
   * `Employee.seats` owns the assignment table, so they are saved as posted.
   */
  datatype EmployeePayload = EmployeePayload(fullName: Option<string>, occupation: Option<string>, seats: set<Option<Id>>)

  /** The seat ids a payload names. */
  function PostedSeats(p: EmployeePayload): set<Id> {
    set o | o in p.seats && o.Some? :: o.value
  }

  /** Every posted seat names a stored seat, so the join rows satisfy their foreign key. */
  predicate SeatsResolved(t: Db, p: EmployeePayload) {
    forall o | o in p.seats :: o.Some? && o.value in t.seats
  }

  /** The 400 message `createEmployee` answers with, checking the name before the occupation. */
  function EmployeeError(p: Option<EmployeePayload>): (m: Option<string>)
    ensures m.None? <==> p.Some? && Present(p.value.fullName) && Present(p.value.occupation)
    ensures (p.None? || !Present(p.value.fullName)) ==> m == Some("Employee full name is required")
    ensures p.Some? && Present(p.value.fullName) && !Present(p.value.occupation) ==>
              m == Some("Employee occupation is required")
  {
    if p.None? || !Present(p.value.fullName) then Some("Employee full name is required")
    else if !Present(p.value.occupation) then Some("Employee occupation is required")
    else None
  }

  /** The row `createEmployee` saves: the posted fields and seats, and the server's clock. */
  function EmployeeRow(p: EmployeePayload, now: Timestamp): Employee {
    NewEmployee().(fullName := p.fullName, occupation := p.occupation, seats := PostedSeats(p), createdAt := Some(now))
  }

  /**
   * `POST /employees`: 400 for a missing name, then a missing occupation. A
   * posted seat without an id (transient) or with an unknown id (a foreign
   * key violation) makes the commit fail after `save` has drawn an employee
   * id. Otherwise the employee is saved holding exactly the posted seats,
   * and each of those seats lists it.
   */
  method CreateEmployee(db: OfficeStore, p: Option<EmployeePayload>, now: Timestamp)
    returns (status: Status, created: Option<Employee>)
    requires db.Valid()
    modifies db
    ensures db.Valid()
    ensures EmployeeError(p).Some? ==>
              status == BadRequest(EmployeeError(p).value) && created.None?
              && db.Snapshot() == old(db.Snapshot())
    ensures EmployeeError(p).None? && !SeatsResolved(old(db.Snapshot()), p.value) ==>
              status == Aborted && created.None? && db.Snapshot() == old(db.Snapshot()).SkipEmployeeId()
    ensures EmployeeError(p).None? && SeatsResolved(old(db.Snapshot()), p.value) ==>
              && status == Created
              && db.Snapshot() == old(db.Snapshot()).SaveEmployee(EmployeeRow(p.value, now))
              && old(db.employeeSeq) !in old(db.employees)
              && |db.employees| == |old(db.employees)| + 1
              && created == Some(db.employees[old(db.employeeSeq)])
              && created.value.id == Some(old(db.employeeSeq)) && created.value.seats == PostedSeats(p.value)
              && created.value.createdAt == Some(now)
              && (forall s | s in db.seats :: old(db.employeeSeq) in db.seats[s].employees <==> s in PostedSeats(p.value))
  {
    var error := EmployeeError(p);
    if error.Some? {
      return BadRequest(error.value), None;
    }
    if !SeatsResolved(db.Snapshot(), p.value) {
      SkipEmployeeIdKeepsValid(db.Snapshot());
      db.SkipEmployeeId();
      return Aborted, None;
    }
    var row := EmployeeRow(p.value, now);
    SaveEmployeeJoins(db.Snapshot(), row);
    assert row.seats <= db.seats.Keys;
    assert old(db.employeeSeq) !in old(db.employees);
    assert forall s | s in old(db.seats) :: old(db.employeeSeq) !in old(db.seats[s].employees);
    SaveEmployeeKeepsValid(db.Snapshot(), row);
    var id := db.SaveEmployee(row);
    status, created := Created, Some(db.employees[id]);
  }

  /** `GET /employees/{id}`: 404 with no body for an unknown id. */
  function GetEmployee(t: Db, id: Id): (r: Response<Employee>)
    ensures r.status == Ok <==> id in t.employees
    ensures r.status != Ok ==> r == Response(NotFound(None), None)
    ensures r.status == Ok ==> r.entity == Some(t.employees[id])
    ensures r.status == Ok && t.KeysAreIds() ==> r.entity.value.id == Some(id)
  {
    if id in t.employees then Response(Ok, Some(t.employees[id])) else Response(NotFound(None), None)
  }

  /** `GET /employees/{id}/seats`: the employee's seats, keyed by seat id. */
  function GetEmployeeSeats(t: Db, id: Id): (r: Response<map<Id, Seat>>)
    ensures r.status == Ok <==> id in t.employees
    ensures r.status != Ok ==> r == Response(NotFound(None), None)
    ensures r.status == Ok && t.Valid() ==>
              && r.entity.Some? && r.entity.value.Keys == t.employees[id].seats
              && (forall s | s in r.entity.value :: r.entity.value[s] == t.seats[s] && id in t.seats[s].employees)
  {
    if id !in t.employees then Response(NotFound(None), None)
    else Response(Ok, Some(map s | s in t.employees[id].seats && s in t.seats :: t.seats[s]))
  }

  /**
   * `PUT /employees/{id}/assign-seat/{seatId}`. The employee is looked up
   * before the seat; on success the answer is the employee with its whole
   * seat set.
   */
  method AssignSeat(db: OfficeStore, eid: Id, sid: Id) returns (status: Status, body: Option<Employee>)
    requires db.Valid()
    modifies db
    ensures db.Valid()
    ensures eid !in old(db.employees) ==>
              status == NotFound(Some("Employee not found")) && body.None? && db.Snapshot() == old(db.Snapshot())
    ensures eid in old(db.employees) && sid !in old(db.seats) ==>
              status == NotFound(Some("Seat not found")) && body.None? && db.Snapshot() == old(db.Snapshot())
    ensures eid in old(db.employees) && sid in old(db.seats) ==>
              && status == Ok
              && db.Snapshot() == old(db.Snapshot()).AddSeat(eid, sid)
              && body == Some(db.employees[eid])
              && body.value.seats == old(db.employees[eid].seats) + {sid}
              && db.seats[sid].employees == old(db.seats[sid].employees) + {eid}
  {
    if eid !in db.employees {
      return NotFound(Some("Employee not found")), None;
    }
    if sid !in db.seats {
      return NotFound(Some("Seat not found")), None;
    }
    AddSeatKeepsValid(db.Snapshot(), eid, sid);
    db.AddSeat(eid, sid);
    status, body := Ok, Some(db.employees[eid]);
  }

  /**
   * `DELETE /employees/{employeeId}/unassign-seat/{seatId}`: the same two
   * lookups, then 400 when the seat is not among the employee's seats.
   */
  method UnassignSeat(db: OfficeStore, eid: Id, sid: Id) returns (status: Status, body: Option<Employee>)
    requires db.Valid()
    modifies db
    ensures db.Valid()
    ensures eid !in old(db.employees) ==>
              status == NotFound(Some("Employee not found")) && body.None? && db.Snapshot() == old(db.Snapshot())
    ensures eid in old(db.employees) && sid !in old(db.seats) ==>
              status == NotFound(Some("Seat not found")) && body.None? && db.Snapshot() == old(db.Snapshot())
    ensures eid in old(db.employees) && sid in old(db.seats) && sid !in old(db.employees[eid].seats) ==>
              && status == BadRequest("This seat is not assigned to the employee")
              && body.None? && db.Snapshot() == old(db.Snapshot())
    ensures eid in old(db.employees) && sid in old(db.seats) && sid in old(db.employees[eid].seats) ==>
              && status == Ok
              && db.Snapshot() == old(db.Snapshot()).RemoveSeat(eid, sid)
              && body == Some(db.employees[eid])
              && body.value.seats == old(db.employees[eid].seats) - {sid}
              && db.seats[sid].employees == old(db.seats[sid].employees) - {eid}
  {
    if eid !in db.employees {
      return NotFound(Some("Employee not found")), None;
    }
    if sid !in db.seats {
      return NotFound(Some("Seat not found")), None;
    }
    if sid !in db.employees[eid].seats {
      return BadRequest("This seat is not assigned to the employee"), None;
    }
    RemoveSeatKeepsValid(db.Snapshot(), eid, sid);
    db.RemoveSeat(eid, sid);
    status, body := Ok, Some(db.employees[eid]);
  }

  /**
   * `DELETE /employees/{id}`: takes the employee off each seat of a copy of
   * its seat set, clears the set, then deletes the row.
   */
  method DeleteEmployee(db: OfficeStore, id: Id) returns (status: Status)
    requires db.Valid()
    modifies db
    ensures db.Valid()
    ensures id !in old(db.employees) ==>
              status == NotFound(Some("Employee not found")) && db.Snapshot() == old(db.Snapshot())
    ensures id in old(db.employees) ==>
              status == NoContent && db.Snapshot() == old(db.Snapshot()).RemoveEmployee(id)
  {
    if id !in db.employees {
      return NotFound(Some("Employee not found"));
    }
    ghost var t := db.Snapshot();
    var held := db.employees[id].seats;
    TakeOffSeats(db, id, held);
    db.ClearSeats(id);
    db.DeleteEmployee(id);
    assert db.employees == t.employees - {id};
    RemoveEmployeeKeepsValid(t, id);
    status := NoContent;
  }

  /** The loop of `deleteEmployee`: `seat.getEmployees().remove(employee)` for each seat of the copy `held`. */
  method TakeOffSeats(db: OfficeStore, id: Id, held: set<Id>)
    requires held <= db.seats.Keys
    modifies db
    ensures db.Snapshot() == old(db.Snapshot()).(seats := old(db.Snapshot()).SeatsWithout(id, held))
  {
    ghost var t := db.Snapshot();
    var todo := held;
    ghost var done: set<Id> := {};
    while todo != {}
      invariant todo <= held && done == held - todo
      invariant db.Snapshot() == t.(seats := t.SeatsWithout(id, done))
      decreases |todo|
    {
      HasElement(todo);
      var sid :| sid in todo;
      SeatsWithoutStep(t, id, done, sid);
      db.RemoveHolder(sid, id);
      todo, done := todo - {sid}, done + {sid};
    }
  }

  // ---------------------------------------------------------------------
  // Search

  /** The largest page size `searchEmployees` accepts. */
  const MaxPageSize: Int32 := 100

  /** The 400 message for bad paging parameters, checked in the source's order. */
  function PagingError(page: Int32, size: Int32): (m: Option<string>)
    ensures m.None? <==> 0 <= page && 0 < size <= MaxPageSize
    ensures page < 0 ==> m == Some("Page number cannot be negative")
    ensures 0 <= page && size <= 0 ==> m == Some("Page size must be positive")
    ensures 0 <= page && size > MaxPageSize ==> m == Some("Page size cannot exceed 100")
  {
    if page < 0 then Some("Page number cannot be negative")
    else if size <= 0 then Some("Page size must be positive")
    else if size > MaxPageSize then Some("Page size cannot exceed 100")
    else None
  }

  /**
   * `lower(e.fullName) like lower('%' + term + '%') or lower(e.occupation) like ...`;
   * a null column matches nothing.
   */
  predicate Matches(e: Employee, term: string) {
    || (e.fullName.Some? && ContainsSubstring(Lower(e.fullName.value), Lower(term)))
    || (e.occupation.Some? && ContainsSubstring(Lower(e.occupation.value), Lower(term)))
  }

  /** The keys of all matching employees: what `count(distinct e)` counts. */
  function MatchingKeys(employees: map<Id, Employee>, term: string): set<Id> {
    set k | k in employees && Matches(employees[k], term)
  }

  /** The keys of `order` that are in `keep`, in the order of `order`. */
  function Filter(order: seq<Id>, keep: set<Id>): (r: seq<Id>)
    ensures |r| <= |order|
    ensures forall i :: 0 <= i < |r| ==> r[i] in order && r[i] in keep
    ensures forall k :: k in order && k in keep ==> k in r
    decreases |order|
  {
    if order == [] then []
    else
      var rest := Filter(order[1..], keep);
      if order[0] in keep then [order[0]] + rest else rest
  }

  /** Filtering distributes over concatenation, so the kept keys stay in the order of `order`. */
  lemma {:induction false} FilterAppend(a: seq<Id>, b: seq<Id>, keep: set<Id>)
    ensures Filter(a + b, keep) == Filter(a, keep) + Filter(b, keep)
    decreases |a|
  {
    if a == [] {
      assert a + b == b;
    } else {
      assert (a + b)[0] == a[0] && (a + b)[1..] == a[1..] + b;
      FilterAppend(a[1..], b, keep);
    }
  }

  /** Filtering a duplicate-free order keeps it duplicate-free. */
  lemma {:induction false} FilterDistinct(order: seq<Id>, keep: set<Id>)
    requires Distinct(order)
    ensures Distinct(Filter(order, keep))
    decreases |order|
  {
    if order != [] {
      var tail := order[1..];
      assert Distinct(tail) by {
        forall i, j | 0 <= i < j < |tail| ensures tail[i] != tail[j] {
          assert tail[i] == order[i + 1] && tail[j] == order[j + 1];
        }
      }
      FilterDistinct(tail, keep);
      var rest := Filter(tail, keep);
      if order[0] in keep {
        HeadNotInTail(order);
        var r := [order[0]] + rest;
        assert Filter(order, keep) == r;
        forall i, j | 0 <= i < j < |r| ensures r[i] != r[j] {
          assert r[j] == rest[j - 1];
          if i > 0 {
            assert r[i] == rest[i - 1];
          }
        }
      }
    }
  }

  /** Filtering a duplicate-free order keeps each kept key exactly once. */
  lemma {:induction false} FilterCount(order: seq<Id>, keep: set<Id>)
    requires Distinct(order)
    ensures |Filter(order, keep)| == |set k | k in keep && k in order|
    decreases |order|
  {
    if order != [] {
      var tail := order[1..];
      assert Distinct(tail) by {
        forall i, j | 0 <= i < j < |tail| ensures tail[i] != tail[j] {
          assert tail[i] == order[i + 1] && tail[j] == order[j + 1];
        }
      }
      FilterCount(tail, keep);
      HeadNotInTail(order);
      var S := set k | k in keep && k in order;
      var T := set k | k in keep && k in tail;
      assert forall k :: k in order <==> k == order[0] || k in tail;
      if order[0] in keep {
        assert Filter(order, keep) == [order[0]] + Filter(tail, keep);
        assert S == T + {order[0]};
      } else {
        assert S == T;
      }
    }
  }

  /** The head of a duplicate-free order does not occur in its tail. */
  lemma HeadNotInTail(order: seq<Id>)
    requires order != [] && Distinct(order)
    ensures order[0] !in order[1..]
  {
    assert forall j | 0 <= j < |order[1..]| :: order[1..][j] == order[j + 1];
  }

  /** The rows listed by `ids`. */
  function Rows(ids: seq<Id>, employees: map<Id, Employee>): (r: seq<Employee>)
    requires forall i :: 0 <= i < |ids| ==> ids[i] in employees
    ensures |r| == |ids| && forall i :: 0 <= i < |ids| ==> r[i] == employees[ids[i]]
  {
    seq(|ids|, i requires 0 <= i < |ids| => employees[ids[i]])
  }

  /** `setFirstResult(offset).setMaxResults(limit)`. */
  function Page<T>(rows: seq<T>, offset: nat, limit: nat): (r: seq<T>)
    ensures |r| <= limit
    ensures offset >= |rows| ==> r == []
    ensures offset < |rows| ==> |r| == if offset + limit <= |rows| then limit else |rows| - offset
    ensures forall i :: 0 <= i < |r| ==> offset + i < |rows| && r[i] == rows[offset + i]
  {
    if offset >= |rows| then [] else if offset + limit <= |rows| then rows[offset..offset + limit] else rows[offset..]
  }

  /** `(int) Math.ceil(totalElements / (double) size)`, as an integer ceiling division. */
  function TotalPages(total: nat, size: nat): (p: nat)
    requires size > 0
    ensures total == 0 <==> p == 0
    ensures total <= p * size
    ensures p > 0 ==> (p - 1) * size < total
  {
    CeilDivBounds(total, size);
    (total + size - 1) / size
  }

  lemma CeilDivBounds(total: nat, size: nat)
    requires size > 0
    ensures var p := (total + size - 1) / size;
            p >= 0 && (total == 0 <==> p == 0) && total <= p * size && (p > 0 ==> (p - 1) * size < total)
  {
    var p := (total + size - 1) / size;
    var q := (total + size - 1) % size;
    assert total + size - 1 == p * size + q && 0 <= q < size;
    if p > 0 {
      assert (p - 1) * size == p * size - size;
    }
  }

  /** The page object the search answers with. */
  datatype PageResponse = PageResponse(
    content: seq<Employee>,
    totalElements: nat,
    totalPages: nat,
    currentPage: Int32,
    size: Int32)

  /** The four-argument `PageResponse` constructor: it derives `totalPages` from the total and the size. */
  function MakePageResponse(content: seq<Employee>, total: nat, page: Int32, size: Int32): (r: PageResponse)
    requires size > 0
    ensures r.content == content && r.totalElements == total && r.currentPage == page && r.size == size
    ensures r.totalPages as int * size as int >= total
    ensures r.totalPages > 0 ==> (r.totalPages - 1) * size as int < total
    ensures total == 0 <==> r.totalPages == 0
  {
    PageResponse(content, total, TotalPages(total, size as nat), page, size)
  }

  /** The first row of the requested page. */
  function SearchOffset(page: Int32, size: Int32): (offset: nat)
    requires 0 <= page && 0 < size
    ensures offset == page as int * size as int
    ensures offset < 0x8000_0000 ==> offset == SearchOffsetAsWritten(page, size) as int
    ensures offset >= 0x8000_0000 ==> offset != SearchOffsetAsWritten(page, size) as int
  {
    page as nat * size as nat
  }

  /** The first row as the source computes it: `page * size` in 32-bit `int` arithmetic. */
  function SearchOffsetAsWritten(page: Int32, size: Int32): (offset: Int32)
    ensures -0x8000_0000 <= page as int * size as int < 0x8000_0000 ==> offset as int == page as int * size as int
  {
    Wrap32(page as int * size as int)
  }

  /**
   * Accepted paging parameters whose product leaves the `int` range make the
   * source ask for the wrong rows: page 42949673 of size 100 starts at row 4,
   * and page 21474837 of size 100 at a negative row.
   */
  lemma OffsetOverflows()
    ensures PagingError(42949673, 100).None? && SearchOffsetAsWritten(42949673, 100) == 4
    ensures SearchOffset(42949673, 100) == 4294967300
    ensures PagingError(21474837, 100).None? && SearchOffsetAsWritten(21474837, 100) < 0
  {
  }

  /**
   * `GET /employees/search`. `order` is the order the database returns the
   * employee rows in (the query has no ORDER BY).
   */
  function SearchEmployees(t: Db, order: seq<Id>, term: string, page: Int32, size: Int32): (r: Response<PageResponse>)
    requires IsListing(order, t.employees.Keys)
    ensures PagingError(page, size).Some? ==> r == Response(BadRequest(PagingError(page, size).value), None)
    ensures PagingError(page, size).None? ==>
              && r.status == Ok && r.entity.Some?
              && var body := r.entity.value;
              && |body.content| <= size as int
              && (forall e | e in body.content :: e in t.employees.Values && Matches(e, term))
              && body.totalElements == |MatchingKeys(t.employees, term)|
              && body.totalPages as int * size as int >= body.totalElements
              && (body.totalPages > 0 ==> (body.totalPages - 1) * size as int < body.totalElements)
              && body.currentPage == page && body.size == size
  {
    var error := PagingError(page, size);
    if error.Some? then Response(BadRequest(error.value), None)
    else
      var matching := Filter(order, MatchingKeys(t.employees, term));
      var content := Page(Rows(matching, t.employees), SearchOffset(page, size), size as nat);
      SearchTotal(t, order, term);
      Response(Ok, Some(MakePageResponse(content, |MatchingKeys(t.employees, term)|, page, size)))
  }

  /** `totalElements` is also the length of the unpaged result. */
  lemma SearchTotal(t: Db, order: seq<Id>, term: string)
    requires IsListing(order, t.employees.Keys)
    ensures |Filter(order, MatchingKeys(t.employees, term))| == |MatchingKeys(t.employees, term)|
  {
    var keep := MatchingKeys(t.employees, term);
    FilterCount(order, keep);
    FilterDistinct(order, keep);
    forall k | k in keep ensures k in order {
      assert k in t.employees;
    }
    assert (set k | k in keep && k in order) == keep;
  }

  /**
   * Page `page` of a search holds the rows `page*size` up to
   * `page*size + size` of the unpaged result.
   */
  function Min(a: int, b: int): int { if a <= b then a else b }

  function Max(a: int, b: int): int { if a >= b then a else b }

  lemma SearchPages(t: Db, order: seq<Id>, term: string, page: Int32, size: Int32)
    requires IsListing(order, t.employees.Keys)
    requires PagingError(page, size).None?
    ensures var body := SearchEmployees(t, order, term, page, size).entity.value;
            var all := Rows(Filter(order, MatchingKeys(t.employees, term)), t.employees);
            && |all| == body.totalElements
            && |body.content| == Min(size as int, Max(0, body.totalElements - page as int * size as int))
            && (forall i :: 0 <= i < |body.content| ==> body.content[i] == all[page as int * size as int + i])
  {
    SearchTotal(t, order, term);
    var all := Rows(Filter(order, MatchingKeys(t.employees, term)), t.employees);
    var body := SearchEmployees(t, order, term, page, size).entity.value;
    assert body.content == Page(all, SearchOffset(page, size), size as nat);
  }

  /** The pages before `totalPages` are non-empty and every page from it on is empty. */
  lemma SearchPagesEnd(t: Db, order: seq<Id>, term: string, page: Int32, size: Int32)
    requires IsListing(order, t.employees.Keys)
    requires PagingError(page, size).None?
    ensures var body := SearchEmployees(t, order, term, page, size).entity.value;
            && (page as int >= body.totalPages ==> body.content == [])
            && (page as int < body.totalPages ==> |body.content| > 0)
  {
    SearchTotal(t, order, term);
    var all := Rows(Filter(order, MatchingKeys(t.employees, term)), t.employees);
    var body := SearchEmployees(t, order, term, page, size).entity.value;
    assert body.content == Page(all, SearchOffset(page, size), size as nat);
    var p := body.totalPages;
    if page as int >= p {
      MulMonotone(page as int, p, size as int);
    } else {
      MulMonotone(p - 1, page as int, size as int);
    }
  }

  lemma MulMonotone(a: int, b: int, c: nat)
    requires a >= b
    ensures a * c >= b * c
  {
    assert a * c - b * c == (a - b) * c;
  }
}
