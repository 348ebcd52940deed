/**
 * `/rooms`: creating a room on an existing floor and listing a room's seats.
 */
module RoomResource {
  import opened Common
  import opened Model
  import opened Store

  /** A posted reference to another entity: only its id is read. */
  datatype EntityRef = EntityRef(id: Option<Id>)

  /** The fields of a posted room that `createRoom` reads. */
  datatype RoomPayload = RoomPayload(floor: Option<EntityRef>, roomNumber: Option<string>, name: Option<string>)

  /** The floor id a payload names, if it names one. */
  function FloorRef(p: RoomPayload): Option<Id> {
    if p.floor.Some? && p.floor.value.id.Some? then Some(p.floor.value.id.value) else None
  }

  /** The row `createRoom` saves: on floor `fid`, stamped with the clock. */
  function RoomRow(p: RoomPayload, fid: Id, now: Timestamp): OfficeRoom {
    OfficeRoom(None, Some(fid), p.roomNumber, p.name, Some(now))
  }

  /**
   * `POST /rooms`: 400 when no floor id is given, 400 when it names no
   * stored floor; otherwise the room is saved on that floor.
   */
  method CreateRoom(db: OfficeStore, p: RoomPayload, now: Timestamp) returns (status: Status, created: Option<OfficeRoom>)
    requires db.Valid()
    modifies db
    ensures db.Valid()
    ensures FloorRef(p).None? ==>
              status == BadRequest("Floor reference is required") && created.None? && db.Snapshot() == old(db.Snapshot())
    ensures FloorRef(p).Some? && FloorRef(p).value !in old(db.floors) ==>
              status == BadRequest("Referenced floor does not exist") && created.None? && db.Snapshot() == old(db.Snapshot())
    ensures FloorRef(p).Some? && FloorRef(p).value in old(db.floors) ==>
              && status == Created
              && db.Snapshot() == old(db.Snapshot()).SaveRoom(RoomRow(p, FloorRef(p).value, now))
              && old(db.roomSeq) !in old(db.rooms)
              && created == Some(db.rooms[old(db.roomSeq)])
              && created.value.id == Some(old(db.roomSeq)) && created.value.floor == FloorRef(p)
              && created.value.createdAt == Some(now)
              && old(db.roomSeq) in db.Snapshot().RoomsOf(FloorRef(p).value)
  {
    var fid := FloorRef(p);
    if fid.None? {
      return BadRequest("Floor reference is required"), None;
    }
    if fid.value !in db.floors {
      return BadRequest("Referenced floor does not exist"), None;
    }
    var row := RoomRow(p, fid.value, now);
    SaveRoomKeepsValid(db.Snapshot(), row);
    var id := db.SaveRoom(row);
    status, created := Created, Some(db.rooms[id]);
  }

  /** `GET /rooms/{id}/seats`: the seats whose room is `id`, or 404 with no body. */
  function GetRoomSeats(t: Db, id: Id): (r: Response<map<Id, Seat>>)
    ensures r.status == Ok <==> id in t.rooms
    ensures r.status != Ok ==> r == Response(NotFound(None), None)
    ensures r.status == Ok ==>
              && r.entity.Some?
              && (forall s :: s in r.entity.value <==> s in t.seats && t.seats[s].room == Some(id))
              && (forall s | s in r.entity.value :: r.entity.value[s] == t.seats[s])
  {
    if id !in t.rooms then Response(NotFound(None), None)
    else Response(Ok, Some(map s | s in t.SeatsOf(id) :: t.seats[s]))
  }

  /** A newly created room has no seats yet. */
  lemma NewRoomHasNoSeats(t: Db, p: RoomPayload, fid: Id, now: Timestamp)
    requires t.Valid() && fid in t.floors
    ensures GetRoomSeats(t.SaveRoom(RoomRow(p, fid, now)), t.roomSeq) == Response(Ok, Some(map[]))
  {
    var u := t.SaveRoom(RoomRow(p, fid, now));
    assert forall s | s in u.seats :: u.seats[s].room.value in t.rooms;
    assert t.roomSeq !in t.rooms;
    assert u.SeatsOf(t.roomSeq) == {};
  }
}
