# Office store model

This project models the core of an office-management web service. The
service stores floors, the office rooms on each floor, the seats in each
room, and the employees assigned to seats. Each floor may also have one
SVG floor plan. Over HTTP it offers:

- create, read, update and delete operations with validation;
- a two-sided seat↔employee assignment relation;
- a paged, case-insensitive employee search;
- table counts.

The model works on rows held as values:

- **Model** holds one datatype per table. References are held as the referenced row's key, and a Java setter is the record update `r.(f := v)`.
- **Store.Db** holds all the tables. `Db.Valid()` is the conjunction of the store invariants:
  - keys and ids agree;
  - the NOT NULL columns are filled;
  - floor numbers are unique;
  - every reference names a stored row;
  - the two sides of the assignment relation agree.
- **Db functions** such as `AddSeat`, `RemoveEmployee` and `DeleteFloor` specify each write. Lemmas prove which writes keep `Valid()`.
- **Store.OfficeStore** is the mutable store a request works on. Each of its methods applies one `Db` write.
- **Resource modules** hold one method per state-changing endpoint, and a function per read-only one. Each states:
  - every status it can answer with, in the source's order of checks;
  - that an error answer leaves the store unchanged, except for the id that an aborted `createSeat` or `createEmployee` consumes;
  - the new state as a `Db` write on the old state;
  - that `Valid()` is preserved.
- **Scenarios** hold request sequences against an empty store.

The source's integers are modelled as follows:

- Java `int` is the `Int32` newtype.
- Java's `int` multiplication wraps modulo 2^32 (`Wrap32`).
- Keys are unbounded integers.

## Model

| member | source | states |
|---|---|---|
| Model.Seat.IsOccupied | src/main/java/com/officemanagement/model/Seat.java:40-46 | occupied is derived from the employee set; it is a predicate and changes nothing |
| Model.Seat.WithHolder | src/main/java/com/officemanagement/model/Employee.java:79 | the holder is added to the seat's set, the seat becomes occupied, no other field changes |
| Model.Seat.WithoutHolder | src/main/java/com/officemanagement/model/Employee.java:84 | the holder leaves the seat's set; removing the last holder leaves the seat unoccupied; no other field changes |
| Model.FloorPlanimetry.SetPlanimetry | src/main/java/com/officemanagement/model/FloorPlanimetry.java:58-61 | the text is stored and lastUpdated is refreshed from the clock; the key is untouched |
| Model.NewSeat | src/main/java/com/officemanagement/model/Seat.java:38 | a new seat has no holders and so is not occupied |
| Model.NewEmployee | src/main/java/com/officemanagement/model/Employee.java:35 | a new employee holds no seats |
| Model.FloorProjection | src/main/java/com/officemanagement/model/Floor.java:55-59 | the three-argument constructor sets id, name and number from level and leaves createdAt null; a `Floor` value holds no room set, so a listed floor shows none, as the fresh empty `rooms` set does |
| Model.NewPlanimetry | src/main/java/com/officemanagement/model/FloorPlanimetry.java:31-35 | the two-argument constructor gives the record of its floor (the key), with the text and the clock reading, the same record that setFloor then setPlanimetry make from an empty one |
| Store.Db.AddSeat | src/main/java/com/officemanagement/model/Employee.java:77-80 | the seat joins the employee's set and the employee joins the seat's set; no other row and no other table changes |
| Store.Db.RemoveSeat | src/main/java/com/officemanagement/model/Employee.java:82-85 | the pair leaves both sets; no other row and no other table changes |
| Store.InverseSideAgrees | src/main/java/com/officemanagement/model/Seat.java:35-38 | in a valid store a seat's employee set equals the holders recorded on the owning side |
| Store.OccupiedIffHeld | src/main/java/com/officemanagement/model/Seat.java:44-46 | a seat is occupied exactly when some stored employee holds it |
| Store.SetSeatsBreaksSymmetry | src/main/java/com/officemanagement/model/Employee.java:73-75 | in every valid store, replacing an employee's seat set wholesale by a set that drops a seat it holds leaves the two sides disagreeing |
| Store.SaveFloorKeepsValid | src/main/java/com/officemanagement/resource/FloorResource.java:113-117 | saving a validated floor whose number is unused keeps every invariant, so floor numbers stay distinct |
| Store.SaveRoomKeepsValid | src/main/java/com/officemanagement/resource/RoomResource.java:45-51 | saving a room on a stored floor keeps every invariant |
| Store.SaveSeatKeepsValid | src/main/java/com/officemanagement/resource/SeatResource.java:51-58 | saving a seat in a stored room, with number and timestamp and no holders, keeps every invariant |
| Store.SaveEmployeeKeepsValid | src/main/java/com/officemanagement/resource/EmployeeResource.java:117-121 | saving a validated employee whose posted seats are all stored keeps every invariant, symmetry of the join table included |
| Store.SaveEmployeeJoins | src/main/java/com/officemanagement/model/Employee.java:27-35 | saving an employee adds it to exactly the seats its owning-side set holds, and leaves every other holder and seat field; with no posted seats the seat table is unchanged |
| Store.SkipEmployeeIdKeepsValid | src/main/java/com/officemanagement/resource/EmployeeResource.java:119-120 | an employee id drawn by a save whose commit fails keeps the store valid and the employee table as it was; the drawn id is never a stored employee's |
| Store.PutFloorKeepsValid | src/main/java/com/officemanagement/resource/FloorResource.java:158-161 | rewriting a floor whose new number no other floor holds keeps every invariant |
| Store.DeleteFloorKeepsValid | src/main/java/com/officemanagement/resource/FloorResource.java:205-211 | deleting a floor without rooms, with its plan, keeps every invariant |
| Store.PutPlanKeepsValid | src/main/java/com/officemanagement/model/FloorPlanimetry.java:13-20 | a plan stored under its own floor's key keeps every invariant: a floor has at most one plan |
| Store.AddSeatKeepsValid | src/main/java/com/officemanagement/model/Employee.java:77-80 | addSeat keeps the two sides in agreement and every other invariant |
| Store.RemoveSeatKeepsValid | src/main/java/com/officemanagement/model/Employee.java:82-85 | removeSeat keeps the two sides in agreement and every other invariant |
| Store.AddSeatIdempotent | src/main/java/com/officemanagement/model/Employee.java:78-79 | adding a pair already held changes nothing, and adding twice equals adding once |
| Store.RemoveSeatRemovesPair | src/main/java/com/officemanagement/model/Employee.java:82-85 | after removeSeat the pair is on neither side; removing the last holder frees the seat |
| Store.SeatsWithoutStep | src/main/java/com/officemanagement/resource/EmployeeResource.java:258-261 | one more iteration of the delete loop takes the employee off one more seat |
| Store.RemoveEmployeeKeepsValid | src/main/java/com/officemanagement/resource/EmployeeResource.java:254-268 | deleting an employee after taking it off its seats keeps every invariant |
| Store.RemoveEmployeeSparesOthers | src/main/java/com/officemanagement/resource/EmployeeResource.java:254-268 | the employee leaves every seat's set and the table; every other pair and every seat's other fields stay |
| Store.OfficeStore.SaveFloor | src/main/java/com/officemanagement/model/Floor.java:24-29 | the row gets the next value of the floor sequence as its id |
| Store.OfficeStore.SaveRoom | src/main/java/com/officemanagement/model/OfficeRoom.java:13-18 | the row gets the next value of the room sequence as its id |
| Store.OfficeStore.SaveSeat | src/main/java/com/officemanagement/model/Seat.java:14-19 | the row gets the next value of the seat sequence as its id |
| Store.SkipSeatIdKeepsValid | src/main/java/com/officemanagement/model/Seat.java:14-16 | a save rejected after the id was drawn keeps the store valid and the seat table as it was; the drawn id is never a stored seat's |
| Store.OfficeStore.SkipSeatId | src/main/java/com/officemanagement/model/Seat.java:14-16 | the store becomes Db.SkipSeatId: the seat sequence moves on by one and nothing else changes |
| Store.OfficeStore.SaveEmployee | src/main/java/com/officemanagement/resource/EmployeeResource.java:119 | the store becomes Db.SaveEmployee: the row gets the next value of the employee sequence as its id, and its seats list it |
| Store.OfficeStore.SkipEmployeeId | src/main/java/com/officemanagement/resource/EmployeeResource.java:119-120 | the store becomes Db.SkipEmployeeId: the employee sequence moves on by one and nothing else changes |
| Store.OfficeStore.PutFloor | src/main/java/com/officemanagement/resource/FloorResource.java:161 | the floor row under the key is replaced |
| Store.OfficeStore.DeleteFloor | src/main/java/com/officemanagement/resource/FloorResource.java:205-210 | the floor and its plan leave the store |
| Store.OfficeStore.PutPlan | src/main/java/com/officemanagement/resource/FloorResource.java:245-250 | the plan row under the floor's key is written |
| Store.OfficeStore.AddSeat | src/main/java/com/officemanagement/model/Employee.java:77-80 | applies Db.AddSeat to the store |
| Store.OfficeStore.RemoveSeat | src/main/java/com/officemanagement/model/Employee.java:82-85 | applies Db.RemoveSeat to the store |
| Store.OfficeStore.RemoveHolder | src/main/java/com/officemanagement/resource/EmployeeResource.java:259 | the employee leaves one seat's set; nothing else changes |
| Store.OfficeStore.ClearSeats | src/main/java/com/officemanagement/resource/EmployeeResource.java:264 | the employee's seat set becomes empty; nothing else changes |
| Store.OfficeStore.DeleteEmployee | src/main/java/com/officemanagement/resource/EmployeeResource.java:268 | the employee row leaves the table |
| EmployeeResource.EmployeeError | src/main/java/com/officemanagement/resource/EmployeeResource.java:105-115 | a payload is rejected exactly when it is null or its name or occupation is null or blank, with the name checked first |
| EmployeeResource.CreateEmployee | src/main/java/com/officemanagement/resource/EmployeeResource.java:102-124 | 400 with the message and nothing stored; a posted seat without an id or with an unknown id aborts the commit, storing nothing but using up one employee id; otherwise 201, one more employee, with the next id, exactly the posted seats (each of which then lists it) and the server's createdAt |
| EmployeeResource.GetEmployee | src/main/java/com/officemanagement/resource/EmployeeResource.java:56-77 | 404 with no body exactly when the id is unknown; otherwise the stored employee, whose id is the key |
| EmployeeResource.GetEmployeeSeats | src/main/java/com/officemanagement/resource/EmployeeResource.java:79-100 | 404 for an unknown employee; otherwise exactly its seats, each of which lists it as a holder |
| EmployeeResource.AssignSeat | src/main/java/com/officemanagement/resource/EmployeeResource.java:126-185 | 404 for the employee, then 404 for the seat, store unchanged; otherwise 200 with both sides updated and the employee's whole seat set |
| EmployeeResource.UnassignSeat | src/main/java/com/officemanagement/resource/EmployeeResource.java:187-238 | the same lookups, then 400 with the store unchanged when the pair is absent; otherwise 200 with the pair gone from both sides |
| EmployeeResource.DeleteEmployee | src/main/java/com/officemanagement/resource/EmployeeResource.java:240-273 | 404 with the store unchanged for an unknown id; otherwise 204 and the store is RemoveEmployee of the old one |
| EmployeeResource.TakeOffSeats | src/main/java/com/officemanagement/resource/EmployeeResource.java:254-261 | the loop over the copied set takes the employee off exactly the seats in the copy |
| EmployeeResource.PagingError | src/main/java/com/officemanagement/resource/EmployeeResource.java:283-301 | paging is accepted exactly when page >= 0 and 0 < size <= 100; otherwise the first failed check's message |
| EmployeeResource.Filter | src/main/java/com/officemanagement/resource/EmployeeResource.java:314-325 | the kept keys of the row order, each drawn from the order and the kept set, and every kept key of the order present |
| EmployeeResource.FilterAppend | src/main/java/com/officemanagement/resource/EmployeeResource.java:314 | filtering distributes over concatenation, so kept rows keep their relative order |
| EmployeeResource.FilterDistinct | src/main/java/com/officemanagement/resource/EmployeeResource.java:314 | on duplicate-free rows the filtered list is duplicate-free (distinct) |
| EmployeeResource.FilterCount | src/main/java/com/officemanagement/resource/EmployeeResource.java:314 | on duplicate-free rows the filtered list has exactly one entry per kept key |
| EmployeeResource.Page | src/main/java/com/officemanagement/resource/EmployeeResource.java:323-324 | at most limit rows, the rows starting at offset, and none when the offset is past the end |
| EmployeeResource.TotalPages | src/main/java/com/officemanagement/resource/EmployeeResource.java:30 | the ceiling of total/size: the least page count whose pages hold every row |
| EmployeeResource.MakePageResponse | src/main/java/com/officemanagement/resource/EmployeeResource.java:25-31 | content, total, page and size are kept, and totalPages is the ceiling of total/size |
| EmployeeResource.SearchOffset | src/main/java/com/officemanagement/resource/EmployeeResource.java:323 | the exact first row of a page; it agrees with the int product the source computes exactly when that product is below 2^31 |
| EmployeeResource.SearchOffsetAsWritten | src/main/java/com/officemanagement/resource/EmployeeResource.java:323 | page*size in 32-bit int arithmetic agrees with the product only while the product fits in an int |
| EmployeeResource.OffsetOverflows | src/main/java/com/officemanagement/resource/EmployeeResource.java:283-301 | paging parameters the checks accept make the 32-bit product wrap to the wrong row, even to a negative one |
| EmployeeResource.SearchEmployees | src/main/java/com/officemanagement/resource/EmployeeResource.java:275-333 | 400 with the paging message; otherwise 200 with at most size matching stored employees, all matches counted, totalPages bounding them, page and size echoed |
| EmployeeResource.SearchTotal | src/main/java/com/officemanagement/resource/EmployeeResource.java:305-325 | the count query and the row query agree: totalElements is the length of the unpaged result |
| EmployeeResource.SearchPages | src/main/java/com/officemanagement/resource/EmployeeResource.java:321-329 | the unpaged result has totalElements rows; page p holds min(size, max(0, totalElements - p*size)) rows, its rows from p*size onward |
| EmployeeResource.SearchPagesEnd | src/main/java/com/officemanagement/resource/EmployeeResource.java:321-329 | pages before totalPages are non-empty and every page from totalPages on is empty |
| FloorResource.FloorError | src/main/java/com/officemanagement/resource/FloorResource.java:88-98 | a payload is rejected exactly when it is null, its name is null or blank, or its number is null or negative; the name is checked first |
| FloorResource.Detail | src/main/java/com/officemanagement/resource/FloorResource.java:42-50 | the floor with exactly the rooms whose floor reference is it |
| FloorResource.GetAllFloors | src/main/java/com/officemanagement/resource/FloorResource.java:27-35 | one projection per stored floor, in the database's row order, with each floor's id, name and number and no createdAt or rooms |
| FloorResource.GetAllFloorsIds | src/main/java/com/officemanagement/resource/FloorResource.java:27-35 | with keys equal to ids, the listed ids are the row order's keys, one per position |
| FloorResource.GetFloor | src/main/java/com/officemanagement/resource/FloorResource.java:37-58 | 404 with no body exactly when the id is unknown; otherwise the floor with its rooms |
| FloorResource.GetFloorPlan | src/main/java/com/officemanagement/resource/FloorResource.java:60-83 | 404 with "No floor plan found for floor ID: id" exactly when no plan is stored or its text is null or empty; otherwise the exact text and the file name floor<id>.svg |
| FloorResource.CreateFloor | src/main/java/com/officemanagement/resource/FloorResource.java:85-119 | 400, then 409 naming the number when any floor holds it, store unchanged; otherwise 201 and the floor saved with the next id and the server's createdAt |
| FloorResource.UpdateFloor | src/main/java/com/officemanagement/resource/FloorResource.java:121-178 | 400, then 404, then 409 when another floor holds the number, store unchanged; otherwise only name and number change and 200 with the floor and its rooms |
| FloorResource.OwnNumberAllowed | src/main/java/com/officemanagement/resource/FloorResource.java:146-150 | in a valid store no floor other than itself holds a floor's number, so keeping it is never a conflict |
| FloorResource.DeleteFloor | src/main/java/com/officemanagement/resource/FloorResource.java:180-214 | 404, then 400 while the floor has rooms, store unchanged; otherwise 204 and the floor and its plan are gone |
| FloorResource.UpdateFloorPlan | src/main/java/com/officemanagement/resource/FloorResource.java:216-256 | 400 for null or blank text, then 404, store unchanged; otherwise the floor's single plan is created or overwritten with the text and the clock, and reads back |
| FloorResource.PlanRoundTrip | src/main/java/com/officemanagement/resource/FloorResource.java:239-251 | what the upload stores is what the read serves, and other floors' plans are unchanged |
| FloorResource.NewFloorHasNoRooms | src/main/java/com/officemanagement/model/Floor.java:49 | a floor just created has an empty rooms set |
| FloorResource.DeletedFloorHasNoPlan | src/main/java/com/officemanagement/resource/FloorResource.java:205-210 | after a delete, both the floor and its plan read as 404 |
| RoomResource.CreateRoom | src/main/java/com/officemanagement/resource/RoomResource.java:26-57 | 400 without a floor id, 400 for an unknown floor, store unchanged; otherwise 201 and the room saved on that floor with the server's createdAt, listed among the floor's rooms |
| RoomResource.GetRoomSeats | src/main/java/com/officemanagement/resource/RoomResource.java:59-77 | 404 with no body exactly when the room is unknown; otherwise exactly the seats whose room reference is the room |
| RoomResource.NewRoomHasNoSeats | src/main/java/com/officemanagement/model/OfficeRoom.java:40 | a room just created lists no seats |
| SeatResource.GetSeat | src/main/java/com/officemanagement/resource/SeatResource.java:24-36 | 404 with no body exactly when the seat is unknown; otherwise the stored seat |
| SeatResource.GetSeatReportsOccupancy | src/main/java/com/officemanagement/model/Seat.java:40-46 | the occupied flag of a read seat is true exactly when some stored employee holds it |
| SeatResource.CreateSeat | src/main/java/com/officemanagement/resource/SeatResource.java:38-64 | 400 for an unknown room id with no write; when the room or the number is missing, no row is written but one seat id is used up; otherwise 201 and the seat saved in that room, unoccupied, with the server's createdAt |
| StatsResource.GetStats | src/main/java/com/officemanagement/resource/StatsResource.java:55-78 | the four counts are the sizes of the tables; a failure is 500 with "Failed to retrieve stats: " and the message |
| StatsResource.CreatesCountOnce | src/main/java/com/officemanagement/resource/StatsResource.java:58-68 | each create raises its own count by one and leaves the others |
| StatsResource.DeleteFloorCountsOnce | src/main/java/com/officemanagement/resource/StatsResource.java:61-62 | deleting a floor lowers the floor count by one and leaves the others |
| StatsResource.DeleteEmployeeCountsOnce | src/main/java/com/officemanagement/resource/StatsResource.java:58-59 | deleting an employee lowers the employee count by one and leaves the others, seats included |
| Scenarios.Furnished | src/main/java/com/officemanagement/resource/RoomResource.java:26-57 | creating a floor (FloorResource.java:85-119), a room on it, a seat in it (SeatResource.java:38-64) and an employee (EmployeeResource.java:102-124) all succeed, leaving one row of each kind |
| Scenarios.StatsOfStaffed | src/main/java/com/officemanagement/resource/StatsResource.java:55-71 | after two employees, one floor, one room and two seats are created, the stats are 2/1/1/2 |
| Scenarios.AssignUnassign | src/main/java/com/officemanagement/resource/EmployeeResource.java:126-238 | assign, assign again, unassign all succeed; the employee holds one seat after each assign and none after the unassign; the seat is occupied then freed; a second unassign is 400 |
| Scenarios.PostedSeatsAssigned | src/main/java/com/officemanagement/resource/EmployeeResource.java:117-121 | an employee posted with seat 1 in its body is created holding it and the seat becomes occupied; one posted with an unknown seat is Aborted and uses up employee id 2 |
| Scenarios.SeatIdAfterAbort | src/main/java/com/officemanagement/resource/SeatResource.java:54-57 | a seat posted without a number is rejected, and the next seat created gets id 3, because the rejected save drew id 2 |
| Scenarios.FloorGuards | src/main/java/com/officemanagement/resource/FloorResource.java:102-111 | a second floor numbered 0 is 409, and deleting a floor with a room is 400; one floor remains |
| Scenarios.DeleteHolder | src/main/java/com/officemanagement/resource/EmployeeResource.java:240-273 | deleting an employee who holds a seat is 204 and the seat remains, unoccupied |
| Scenarios.PlanRoundTrip | src/main/java/com/officemanagement/resource/FloorResource.java:216-256 | an uploaded plan reads back under floor1.svg; a floor without a plan reads 404 |

## Left out

- Entities are values rather than shared objects. Hibernate's one-object-per-key session identity is modelled by key references, so there is no aliasing between rows.
- Request bodies carry only the fields each resource reads. Ids, created dates, the legacy `Floor.planimetry` column and the inverse-side collections (`Floor.rooms`, `OfficeRoom.seats`, `Seat.employees`, all `mappedBy`) in a posted body are ignored. A posted `Employee.seats` is different: it is the owning side of the assignment table, so `createEmployee` saves it, and the model carries it as the payload's seat references. This means the rows each method saves are modelled as the method builds them, not as Hibernate would merge a client-sent id.
- JSON serialization, JSON views, JAX-RS routing, status-code plumbing and media types are out of scope. A response is a status and an entity.
- The Hibernate session lifecycle, StatsResource's own `SessionFactory` and its `@PreDestroy` are out of scope. So are the re-fetch queries that load associations before serialization; the model answers with the current rows instead.
- `LocalDateTime.now()` is a `now` parameter. `updateFloorPlan` reads the clock twice (once in `setPlanimetry`, once in `setLastUpdated`); the model passes one reading to both.
- The database's row order for the unordered search and floor listing is a parameter `order`, a duplicate-free listing of the table's keys.
- `LIKE` wildcards (`%` and `_` inside the term) are not modelled. Lower-casing covers ASCII letters only and ignores the database locale. The match is a plain case-insensitive substring test.
- EmployeeResource.TotalPages: `Math.ceil` on a `double` and its `(int)` cast are modelled as exact integer ceiling division. They agree while the page count fits in an `int`, which holds for every table of fewer than 2^31 rows. Above that the `(int)` cast saturates at 2^31-1 (size 1 and 2^31 matching rows report 2147483647 pages), and the model does not capture the saturation.
- EmployeeResource.SearchEmployees: a missing query parameter is modelled as the caller passing its `@DefaultValue` (search "", page 0, size 10; EmployeeResource.java:278-280).
- EmployeeResource.CreateEmployee: the posted seats are a set of ids, so a seat posted twice counts once; the source's `HashSet` of distinct posted objects would insert the join row twice. The 201 body lists the posted seat references, which the model shows as the stored seats. The exception a failed commit raises, and the HTTP status it becomes, are not modelled.
- EmployeeResource.SearchEmployees: it uses the corrected offset `SearchOffset`. With the offset as written, Hibernate rejects a negative first result with an exception; that path is not modelled (see Findings).
- SeatResource.CreateSeat: a seat with no resolved room or no seat number violates a NOT NULL column on save. The model answers `Aborted`. No table changes, but one seat id is consumed, because the sequence value drawn by `save` is not rolled back. The driver's exception text and the HTTP status it becomes are not modelled. The repository's SeatResourceTest.java:32-44 expects 400 for a seat with neither room nor number; the code has no such check, and the model follows the code.
- A null request body for `createRoom` or `createSeat` makes the source throw a NullPointerException. This is not modelled: their payloads are never null.
- StatsResource.GetStats: the exception that makes a count query fail is an input (`failure`), because query failures come from the database. A null exception message prints as `null`, as Java string concatenation does.
- `getRoomSeats` assigns the room's `Set<Seat>` to a `List<Seat>` variable (RoomResource.java line 74), which does not compile as written. The model returns the room's seat set.
- Concurrency is not modelled. That includes the race between the duplicate-number check and the insert in `createFloor`.
- Room and seat geometry are not modelled because floating point is out of scope.
- There is no room-number or seat-number uniqueness, no seat update or delete, and no room delete: the source has none of these operations.
- Seat, Floor, OfficeRoom, Employee and FloorPlanimetry setters (other than `setPlanimetry`, which also stamps the clock and is `SetPlanimetry`) are record updates `r.(f := v)`. Dafny guarantees that such an update changes one field only, so the model has no separate member per setter.

## Findings

| source | as written | input that shows it | evidently intended | confidence | as-written member | corrected member |
|---|---|---|---|---|---|---|
| src/main/java/com/officemanagement/resource/EmployeeResource.java:323 | `setFirstResult(page * size)` multiplies two `int`s, so the offset wraps modulo 2^32 although the checks accept any `page >= 0` | page 42949673, size 100 passes every paging check; the 32-bit product is 4, so page 42949673 serves rows 4 to 103. Page 21474837, size 100 gives a negative first result | the page starts at row page*size, so any page past the end is empty | not executed | EmployeeResource.OffsetOverflows | EmployeeResource.SearchPages |
