/**
 * `/floors`: listing, reading, creating, updating and deleting floors, and
 * storing and serving each floor's SVG plan. Every error answer leaves the
 * store as it was.
 */
module FloorResource {
  import opened Common
  import opened Model
  import opened Store

  /** The fields of a posted floor that `createFloor` and `updateFloor` read. */
  datatype FloorPayload = FloorPayload(name: Option<string>, floorNumber: Option<Int32>)

  /** A floor with the rooms `floor.getRooms()` loads (the inverse side of `OfficeRoom.floor`). */
  datatype FloorDetail = FloorDetail(floor: Floor, rooms: map<Id, OfficeRoom>)

  /** The answer of `GET /floors/{id}/svg`: status, SVG text, and the `Content-Disposition` header. */
  datatype PlanResponse = PlanResponse(status: Status, svg: Option<string>, disposition: Option<string>)

  /** The 400 message shared by create and update, checking the name before the number. */
  function FloorError(p: Option<FloorPayload>): (m: Option<string>)
    ensures m.None? <==>
              p.Some? && Present(p.value.name) && p.value.floorNumber.Some? && p.value.floorNumber.value >= 0
    ensures (p.None? || !Present(p.value.name)) ==> m == Some("Floor name is required")
    ensures p.Some? && Present(p.value.name) && !(p.value.floorNumber.Some? && p.value.floorNumber.value >= 0) ==>
              m == Some("Valid floor number is required (must be 0 or greater)")
  {
    if p.None? || !Present(p.value.name) then Some("Floor name is required")
    else if p.value.floorNumber.None? || p.value.floorNumber.value < 0 then
      Some("Valid floor number is required (must be 0 or greater)")
    else None
  }

  function DuplicateNumber(n: Int32): string {
    "A floor with number " + IntToString(n as int) + " already exists"
  }

  /** The row `createFloor` saves: the posted fields and the server's clock. */
  function FloorRow(p: FloorPayload, now: Timestamp): Floor {
    Floor(None, p.floorNumber, p.name, Some(now))
  }

  /** The floor `id` with its rooms. */
  function Detail(t: Db, id: Id): (d: FloorDetail)
    requires id in t.floors
    ensures d.floor == t.floors[id]
    ensures forall r :: r in d.rooms <==> r in t.rooms && t.rooms[r].floor == Some(id)
    ensures forall r | r in d.rooms :: d.rooms[r] == t.rooms[r]
  {
    FloorDetail(t.floors[id], map r | r in t.RoomsOf(id) :: t.rooms[r])
  }

  /**
   * `GET /floors`: every floor as `new Floor(f.id, f.name, f.floorNumber)`,
   * in the database's row order `order`.
   */
  function GetAllFloors(t: Db, order: seq<Id>): (r: seq<Floor>)
    requires IsListing(order, t.floors.Keys)
    ensures |r| == |order|
    ensures forall i :: 0 <= i < |r| ==> r[i].name == t.floors[order[i]].name
    ensures forall i :: 0 <= i < |r| ==> r[i].floorNumber == t.floors[order[i]].floorNumber
    ensures forall i :: 0 <= i < |r| ==> r[i].createdAt == None
    ensures forall i :: 0 <= i < |r| ==> r[i].id == t.floors[order[i]].id
  {
    seq(|order|, i requires 0 <= i < |order| =>
      var f := t.floors[order[i]]; FloorProjection(f.id, f.name, f.floorNumber))
  }

  /** With keys equal to ids, the listing carries the database's row order as its ids. */
  lemma GetAllFloorsIds(t: Db, order: seq<Id>)
    requires IsListing(order, t.floors.Keys) && t.KeysAreIds()
    ensures forall i :: 0 <= i < |order| ==> GetAllFloors(t, order)[i].id == Some(order[i])
  {
    var r := GetAllFloors(t, order);
    forall i | 0 <= i < |order| ensures r[i].id == Some(order[i]) {
      var k := order[i];
      assert k in t.floors;
      assert t.floors[k].id == Some(k);
      assert r[i].id == t.floors[k].id;
    }
  }

  /** `GET /floors/{id}`: 404 with no body for an unknown id. */
  function GetFloor(t: Db, id: Id): (r: Response<FloorDetail>)
    ensures r.status == Ok <==> id in t.floors
    ensures r.status != Ok ==> r == Response(NotFound(None), None)
    ensures r.status == Ok ==> r.entity == Some(Detail(t, id))
  {
    if id in t.floors then Response(Ok, Some(Detail(t, id))) else Response(NotFound(None), None)
  }

  function Disposition(id: Id): string {
    "inline; filename=floor" + IntToString(id) + ".svg"
  }

  /** `GET /floors/{id}/svg`: the stored text, or 404 when there is no plan or its text is null or empty. */
  function GetFloorPlan(t: Db, id: Id): (r: PlanResponse)
    ensures r.status == Ok <==>
              id in t.plans && t.plans[id].planimetry.Some? && t.plans[id].planimetry.value != ""
    ensures r.status == Ok ==> r == PlanResponse(Ok, t.plans[id].planimetry, Some(Disposition(id)))
    ensures r.status != Ok ==>
              r == PlanResponse(NotFound(Some("No floor plan found for floor ID: " + IntToString(id))), None, None)
  {
    if id in t.plans && t.plans[id].planimetry.Some? && t.plans[id].planimetry.value != "" then
      PlanResponse(Ok, t.plans[id].planimetry, Some(Disposition(id)))
    else
      PlanResponse(NotFound(Some("No floor plan found for floor ID: " + IntToString(id))), None, None)
  }

  method CreateFloor(db: OfficeStore, p: Option<FloorPayload>, now: Timestamp)
    returns (status: Status, created: Option<Floor>)
    requires db.Valid()
    modifies db
    ensures db.Valid()
    ensures FloorError(p).Some? ==>
              status == BadRequest(FloorError(p).value) && created.None? && db.Snapshot() == old(db.Snapshot())
    ensures FloorError(p).None? && old(db.Snapshot()).FloorsNumbered(p.value.floorNumber.value, None) != {} ==>
              && status == Conflict(DuplicateNumber(p.value.floorNumber.value))
              && created.None? && db.Snapshot() == old(db.Snapshot())
    ensures FloorError(p).None? && old(db.Snapshot()).FloorsNumbered(p.value.floorNumber.value, None) == {} ==>
              && status == Created
              && db.Snapshot() == old(db.Snapshot()).SaveFloor(FloorRow(p.value, now))
              && old(db.floorSeq) !in old(db.floors)
              && created == Some(db.floors[old(db.floorSeq)])
              && created.value.id == Some(old(db.floorSeq)) && created.value.createdAt == Some(now)
  {
    var error := FloorError(p);
    if error.Some? {
      return BadRequest(error.value), None;
    }
    var n := p.value.floorNumber.value;
    if db.Snapshot().FloorsNumbered(n, None) != {} {
      return Conflict(DuplicateNumber(n)), None;
    }
    var row := FloorRow(p.value, now);
    SaveFloorKeepsValid(db.Snapshot(), row);
    var id := db.SaveFloor(row);
    status, created := Created, Some(db.floors[id]);
  }

  /**
   * `PUT /floors/{id}`: validation, then 404 for an unknown floor, then 409
   * when another floor holds the number; on success only the name and the
   * number change.
   */
  method UpdateFloor(db: OfficeStore, id: Id, p: Option<FloorPayload>)
    returns (status: Status, updated: Option<FloorDetail>)
    requires db.Valid()
    modifies db
    ensures db.Valid()
    ensures FloorError(p).Some? ==>
              status == BadRequest(FloorError(p).value) && updated.None? && db.Snapshot() == old(db.Snapshot())
    ensures FloorError(p).None? && id !in old(db.floors) ==>
              status == NotFound(Some("Floor not found")) && updated.None? && db.Snapshot() == old(db.Snapshot())
    ensures FloorError(p).None? && id in old(db.floors)
            && old(db.Snapshot()).FloorsNumbered(p.value.floorNumber.value, Some(id)) != {} ==>
              && status == Conflict(DuplicateNumber(p.value.floorNumber.value))
              && updated.None? && db.Snapshot() == old(db.Snapshot())
    ensures FloorError(p).None? && id in old(db.floors)
            && old(db.Snapshot()).FloorsNumbered(p.value.floorNumber.value, Some(id)) == {} ==>
              && status == Ok
              && db.Snapshot() == old(db.Snapshot()).PutFloor(id,
                   old(db.floors[id]).(name := p.value.name, floorNumber := p.value.floorNumber))
              && db.floors[id].id == old(db.floors[id].id) && db.floors[id].createdAt == old(db.floors[id].createdAt)
              && db.rooms == old(db.rooms)
              && updated == Some(Detail(db.Snapshot(), id))
  {
    var error := FloorError(p);
    if error.Some? {
      return BadRequest(error.value), None;
    }
    if id !in db.floors {
      return NotFound(Some("Floor not found")), None;
    }
    var n := p.value.floorNumber.value;
    if db.Snapshot().FloorsNumbered(n, Some(id)) != {} {
      return Conflict(DuplicateNumber(n)), None;
    }
    var row := db.floors[id].(name := p.value.name, floorNumber := p.value.floorNumber);
    PutFloorKeepsValid(db.Snapshot(), id, row);
    db.PutFloor(id, row);
    status, updated := Ok, Some(Detail(db.Snapshot(), id));
  }

  /** A floor may keep its own number: the update's duplicate query leaves the floor itself out. */
  lemma OwnNumberAllowed(t: Db, id: Id)
    requires t.Valid() && id in t.floors
    ensures t.FloorsNumbered(t.floors[id].floorNumber.value, Some(id)) == {}
  {
    var ks := t.FloorsNumbered(t.floors[id].floorNumber.value, Some(id));
    if ks != {} {
      HasElement(ks);
      assert false;
    }
  }

  /** `DELETE /floors/{id}`: 404, then 400 while the floor has rooms; otherwise the plan and the floor go. */
  method DeleteFloor(db: OfficeStore, id: Id) returns (status: Status)
    requires db.Valid()
    modifies db
    ensures db.Valid()
    ensures id !in old(db.floors) ==>
              status == NotFound(Some("Floor not found")) && db.Snapshot() == old(db.Snapshot())
    ensures id in old(db.floors) && old(db.Snapshot()).RoomsOf(id) != {} ==>
              status == BadRequest("Cannot delete floor that has rooms") && db.Snapshot() == old(db.Snapshot())
    ensures id in old(db.floors) && old(db.Snapshot()).RoomsOf(id) == {} ==>
              && status == NoContent
              && db.Snapshot() == old(db.Snapshot()).DeleteFloor(id)
              && id !in db.floors && id !in db.plans
  {
    if id !in db.floors {
      return NotFound(Some("Floor not found"));
    }
    if db.Snapshot().RoomsOf(id) != {} {
      return BadRequest("Cannot delete floor that has rooms");
    }
    DeleteFloorKeepsValid(db.Snapshot(), id);
    db.DeleteFloor(id);
    status := NoContent;
  }

  /** The plan record `updateFloorPlan` leaves for floor `id`, whether it created or updated it. */
  function PlanRecord(id: Id, svg: string, now: Timestamp): FloorPlanimetry {
    FloorPlanimetry(Some(id), Some(svg), Some(now))
  }

  /**
   * `PUT /floors/{id}/svg`: 400 for a null or blank text, 404 for an unknown
   * floor; otherwise the floor's plan is created or overwritten and stamped.
   */
  method UpdateFloorPlan(db: OfficeStore, id: Id, svg: Option<string>, now: Timestamp) returns (status: Status)
    requires db.Valid()
    modifies db
    ensures db.Valid()
    ensures !Present(svg) ==>
              status == BadRequest("SVG data cannot be empty") && db.Snapshot() == old(db.Snapshot())
    ensures Present(svg) && id !in old(db.floors) ==>
              status == NotFound(Some("Floor not found")) && db.Snapshot() == old(db.Snapshot())
    ensures Present(svg) && id in old(db.floors) ==>
              && status == Ok
              && db.Snapshot() == old(db.Snapshot()).PutPlan(id, PlanRecord(id, svg.value, now))
              && GetFloorPlan(db.Snapshot(), id) == PlanResponse(Ok, svg, Some(Disposition(id)))
  {
    if !Present(svg) {
      return BadRequest("SVG data cannot be empty");
    }
    if id !in db.floors {
      return NotFound(Some("Floor not found"));
    }
    var plan: FloorPlanimetry;
    if id !in db.plans {
      // a new record: setFloor, setPlanimetry, setLastUpdated; the key is copied from the floor on save
      plan := FloorPlanimetry(None, None, None).SetPlanimetry(svg, now).(lastUpdated := Some(now));
      plan := plan.(floorId := Some(id));
    } else {
      plan := db.plans[id].SetPlanimetry(svg, now).(lastUpdated := Some(now));
    }
    assert plan == PlanRecord(id, svg.value, now);
    PutPlanKeepsValid(db.Snapshot(), id, plan);
    db.PutPlan(id, plan);
    PlanRoundTrip(old(db.Snapshot()), id, svg.value, now);
    status := Ok;
  }

  /** What `updateFloorPlan` stores is what `getFloorPlan` serves, and plans of other floors are untouched. */
  lemma PlanRoundTrip(t: Db, id: Id, svg: string, now: Timestamp)
    requires !Blank(svg)
    ensures GetFloorPlan(t.PutPlan(id, PlanRecord(id, svg, now)), id) == PlanResponse(Ok, Some(svg), Some(Disposition(id)))
    ensures forall o | o != id :: GetFloorPlan(t.PutPlan(id, PlanRecord(id, svg, now)), o) == GetFloorPlan(t, o)
  {
    assert svg != "" by {
      if svg == "" {
        assert Blank(svg);
      }
    }
  }

  /** A floor `createFloor` has just saved has no rooms yet. */
  lemma NewFloorHasNoRooms(t: Db, f: Floor)
    requires t.Valid()
    ensures GetFloor(t.SaveFloor(f), t.floorSeq).entity.value.rooms == map[]
  {
    var u := t.SaveFloor(f);
    assert forall r | r in u.rooms :: u.rooms[r].floor.value in t.floors;
    assert t.floorSeq !in t.floors;
    assert u.RoomsOf(t.floorSeq) == {};
  }

  /** Once a floor is deleted its plan is gone: reading it gives 404. */
  lemma DeletedFloorHasNoPlan(t: Db, id: Id)
    ensures GetFloorPlan(t.DeleteFloor(id), id).status.NotFound?
    ensures GetFloor(t.DeleteFloor(id), id).status.NotFound?
  {
  }
}
