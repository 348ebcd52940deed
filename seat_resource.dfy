/**
 * `/seats`: reading one seat and creating a seat in an existing room.
 */
module SeatResource {
  import opened Common
  import opened Model
  import opened Store
  import opened RoomResource

  /** The fields of a posted seat that `createSeat` reads. */
  datatype SeatPayload = SeatPayload(room: Option<EntityRef>, seatNumber: Option<string>)

  /** The room id a payload names, if it names one. */
  function RoomRef(p: SeatPayload): Option<Id> {
    if p.room.Some? && p.room.value.id.Some? then Some(p.room.value.id.value) else None
  }

  /** The row `createSeat` saves: in room `rid`, no holders, stamped with the clock. */
  function SeatRow(p: SeatPayload, rid: Id, now: Timestamp): Seat {
    NewSeat().(room := Some(rid), seatNumber := p.seatNumber, createdAt := Some(now))
  }

  /** `GET /seats/{id}`: the seat, or 404 with no body. */
  function GetSeat(t: Db, id: Id): (r: Response<Seat>)
    ensures r.status == Ok <==> id in t.seats
    ensures r.status != Ok ==> r == Response(NotFound(None), None)
    ensures r.status == Ok ==> r.entity == Some(t.seats[id])
  {
    if id in t.seats then Response(Ok, Some(t.seats[id])) else Response(NotFound(None), None)
  }

  /** The `occupied` flag `getSeat` reports is true exactly when some employee holds the seat. */
  lemma GetSeatReportsOccupancy(t: Db, id: Id)
    requires t.Valid() && id in t.seats
    ensures GetSeat(t, id).entity.value.IsOccupied() <==> t.HoldersOf(id) != {}
  {
    InverseSideAgrees(t, id);
  }

  /**
   * `POST /seats`: 400 when the posted room id names no stored room. A seat
   * whose room is not resolved, or that has no seat number, breaks a NOT
   * NULL column on save: no row is written, but the save has already drawn
   * the next seat id, so the seat created after it gets the id after that.
   */
  method CreateSeat(db: OfficeStore, p: SeatPayload, now: Timestamp) returns (status: Status, created: Option<Seat>)
    requires db.Valid()
    modifies db
    ensures db.Valid()
    ensures RoomRef(p).Some? && RoomRef(p).value !in old(db.rooms) ==>
              status == BadRequest("Referenced room does not exist") && created.None? && db.Snapshot() == old(db.Snapshot())
    ensures (RoomRef(p).None? || p.seatNumber.None?) && !(RoomRef(p).Some? && RoomRef(p).value !in old(db.rooms)) ==>
              status == Aborted && created.None? && db.Snapshot() == old(db.Snapshot()).SkipSeatId()
    ensures RoomRef(p).Some? && RoomRef(p).value in old(db.rooms) && p.seatNumber.Some? ==>
              && status == Created
              && db.Snapshot() == old(db.Snapshot()).SaveSeat(SeatRow(p, RoomRef(p).value, now))
              && old(db.seatSeq) !in old(db.seats)
              && created == Some(db.seats[old(db.seatSeq)])
              && created.value.id == Some(old(db.seatSeq)) && created.value.room == RoomRef(p)
              && created.value.createdAt == Some(now) && !created.value.IsOccupied()
              && old(db.seatSeq) in db.Snapshot().SeatsOf(RoomRef(p).value)
  {
    var rid := RoomRef(p);
    if rid.Some? && rid.value !in db.rooms {
      return BadRequest("Referenced room does not exist"), None;
    }
    if rid.None? || p.seatNumber.None? {
      SkipSeatIdKeepsValid(db.Snapshot());
      db.SkipSeatId();
      return Aborted, None;
    }
    var row := SeatRow(p, rid.value, now);
    SaveSeatKeepsValid(db.Snapshot(), row);
    var id := db.SaveSeat(row);
    status, created := Created, Some(db.seats[id]);
  }
}
