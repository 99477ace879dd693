/**
 * The room rules (domain/impl/RoomDomainImpl.java): a room belongs to a
 * stored hotel and is created once; an update replaces an existing room;
 * a room with bookings, or the rooms of a hotel that has bookings, cannot
 * be deleted. The first failing check is the error.
 */
module RoomDomain {
  import opened Wrappers
  import opened Guard
  import opened Records
  import opened Entities
  import opened Tables
  import opened Storage
  import RoomMapper
  import RoomService
  import HotelService
  import BookingService

  /** The message for a hotel that is not stored. */
  function NoHotel(hotelId: string): string {
    "Hotel with id " + hotelId + " does not exist"
  }

  /** The hotel check of the room rules, run on an id that has passed its guard. */
  function RequireHotelExists(s: State, hotelId: Option<string>): (r: Result<()>)
    requires HasText(hotelId)
    ensures r.Ok? <==> HasHotel(s, hotelId.value)
    ensures r.Err? ==> r.error == Invalid(NoHotel(hotelId.value))
  {
    if !HotelService.ExistsById(s, hotelId).value then Err(Invalid(NoHotel(hotelId.value))) else Ok(())
  }

  /** The checks of `createRoom`, in their order; the room itself when all pass. */
  function CreateChecks(s: State, room: Option<RoomData>): (r: Result<RoomData>)
    ensures r.Ok? <==>
      && room.Some? && HasText(room.value.id) && HasText(room.value.number) && HasText(room.value.hotelId)
      && !HasRoom(s, room.value.id.value) && HasHotel(s, room.value.hotelId.value)
    ensures r.Ok? ==> r.value == room.value
  {
    var x :- RequireNonNull(room, "room");
    var _ :- RequireNonBlank(x.id, "room id");
    var _ :- RequireNonBlank(x.number, "room number");
    var _ :- RequireNonBlank(x.hotelId, "hotel id");
    if RoomService.ExistsById(s, x.id).value then Err(Conflict("room already exists: " + x.id.value))
    else
      var _ :- RequireHotelExists(s, x.hotelId);
      Ok(x)
  }

  /** The error `createRoom` reports is the one of the first check that fails: a taken id before a missing hotel. */
  lemma CreateCheckOrder(s: State, x: RoomData)
    ensures CreateChecks(s, None) == Err(Absent(NullMessage("room")))
    ensures !HasText(x.id) ==> CreateChecks(s, Some(x)) == Err(RequireNonBlank(x.id, "room id").error)
    ensures HasText(x.id) && !HasText(x.number) ==>
      CreateChecks(s, Some(x)) == Err(RequireNonBlank(x.number, "room number").error)
    ensures HasText(x.id) && HasText(x.number) && !HasText(x.hotelId) ==>
      CreateChecks(s, Some(x)) == Err(RequireNonBlank(x.hotelId, "hotel id").error)
    ensures (&& HasText(x.id) && HasText(x.number) && HasText(x.hotelId)
             && HasRoom(s, x.id.value)) ==>
      CreateChecks(s, Some(x)) == Err(Conflict("room already exists: " + x.id.value))
    ensures (&& HasText(x.id) && HasText(x.number) && HasText(x.hotelId)
             && !HasRoom(s, x.id.value) && !HasHotel(s, x.hotelId.value)) ==>
      CreateChecks(s, Some(x)) == Err(Invalid(NoHotel(x.hotelId.value)))
  {
  }

  /** `createRoom`: the checks, then `save`; a failed check stores nothing. */
  function CreateRoom(s: State, room: Option<RoomData>): (o: Outcome<RoomData>)
    ensures o.result.Ok? <==> CreateChecks(s, room).Ok?
    ensures o.result.Err? ==> o == Outcome(Err(CreateChecks(s, room).error), s)
    ensures o.result.Ok? ==> o == RoomService.Save(s, room)
  {
    match CreateChecks(s, room)
    case Err(e) => Outcome(Err(e), s)
    case Ok(x) => RoomService.Save(s, Some(x))
  }

  /** A created room is new: the table grows by one row, which `findById` then returns. */
  lemma CreateRoomAdds(s: State, x: RoomData)
    requires Valid(s) && CreateChecks(s, Some(x)).Ok?
    ensures Valid(CreateRoom(s, Some(x)).after)
    ensures |CreateRoom(s, Some(x)).after.rooms| == |s.rooms| + 1
    ensures RoomService.FindById(CreateRoom(s, Some(x)).after, x.id) == Ok(Some(CreateRoom(s, Some(x)).result.value))
  {
    RoomService.SaveThenFind(s, x, x.id.value);
  }

  /** A room stored under the rules points to a stored hotel, and no stored room disappears, so integrity is kept. */
  lemma StoringKeepsIntegrity(s: State, x: RoomData)
    requires Integrity(s) && HasText(x.id) && HasText(x.hotelId) && HasHotel(s, x.hotelId.value)
    ensures Integrity(RoomService.Save(s, Some(x)).after)
  {
    var after := RoomService.Save(s, Some(x)).after;
    var row := RoomService.Row(x);
    forall e | e in after.rooms
      ensures HotelResolves(after, e.hotel)
    {
      if e != row {
        assert e in s.rooms;
      }
    }
    forall e | e in after.bookings
      ensures RoomResolves(after, e.room)
    {
      UpsertHas(s.rooms, RoomKey, row, e.room.value.id.value);
    }
  }

  /** `createRoom` keeps the stores consistent. */
  lemma CreateRoomKeepsIntegrity(s: State, room: Option<RoomData>)
    requires Integrity(s)
    ensures Integrity(CreateRoom(s, room).after)
  {
    if CreateChecks(s, room).Ok? {
      StoringKeepsIntegrity(s, room.value);
    }
  }

  /** `getRoomById`: the guarded lookup of the room service. */
  function GetRoomById(s: State, id: Option<string>): (r: Result<Option<RoomData>>)
    ensures !HasText(id) ==> r == Err(RequireNonBlank(id, "room id").error)
    ensures HasText(id) ==> r.Ok? && (r.value.Some? <==> HasRoom(s, id.value))
    ensures r.Ok? && r.value.Some? ==> r.value.value.id == id
    ensures HasText(id) ==> r == RoomService.FindById(s, id)
  {
    var _ :- RequireNonBlank(id, "room id");
    RoomService.FindById(s, id)
  }

  /** `getAllRooms`: every stored room. */
  function GetAllRooms(s: State): (r: seq<RoomData>)
    ensures |r| == |s.rooms|
    ensures r == RoomService.FindAll(s)
    ensures forall i | 0 <= i < |r| :: r[i] == RoomMapper.Domain(s.rooms[i])
  {
    RoomService.FindAll(s)
  }

  /** `getRoomsByHotel`: the hotel must be stored; then its rooms. */
  function GetRoomsByHotel(s: State, hotelId: Option<string>): (r: Result<seq<RoomData>>)
    ensures !HasText(hotelId) ==> r == Err(RequireNonBlank(hotelId, "hotel id").error)
    ensures HasText(hotelId) && !HasHotel(s, hotelId.value) ==> r == Err(Invalid(NoHotel(hotelId.value)))
    ensures r.Ok? <==> HasText(hotelId) && HasHotel(s, hotelId.value)
    ensures r.Ok? ==> r == RoomService.FindByHotelId(s, hotelId)
  {
    var _ :- RequireNonBlank(hotelId, "hotel id");
    var _ :- RequireHotelExists(s, hotelId);
    RoomService.FindByHotelId(s, hotelId)
  }

  /** `getRoomsByHotelAndType`: both arguments are guarded before the hotel is looked up; then the rooms of that type. */
  function GetRoomsByHotelAndType(s: State, hotelId: Option<string>, roomType: Option<string>): (r: Result<seq<RoomData>>)
    ensures !HasText(hotelId) ==> r == Err(RequireNonBlank(hotelId, "hotel id").error)
    ensures HasText(hotelId) && !HasText(roomType) ==> r == Err(RequireNonBlank(roomType, "room type").error)
    ensures HasText(hotelId) && HasText(roomType) && !HasHotel(s, hotelId.value) ==>
      r == Err(Invalid(NoHotel(hotelId.value)))
    ensures r.Ok? <==> HasText(hotelId) && HasText(roomType) && HasHotel(s, hotelId.value)
    ensures r.Ok? ==> r == RoomService.FindByHotelIdAndType(s, hotelId, roomType)
  {
    var _ :- RequireNonBlank(hotelId, "hotel id");
    var _ :- RequireNonBlank(roomType, "room type");
    var _ :- RequireHotelExists(s, hotelId);
    RoomService.FindByHotelIdAndType(s, hotelId, roomType)
  }

  /** The checks of `updateRoom`, in their order; the room under the given id when all pass. */
  function UpdateChecks(s: State, id: Option<string>, room: Option<RoomData>): (r: Result<RoomData>)
    ensures r.Ok? <==>
      && HasText(id) && room.Some? && HasText(room.value.number) && HasText(room.value.hotelId)
      && HasRoom(s, id.value) && HasHotel(s, room.value.hotelId.value)
    ensures r.Ok? ==> r.value == room.value.(id := id)
  {
    var key :- RequireNonBlank(id, "room id");
    var x :- RequireNonNull(room, "room");
    var _ :- RequireNonBlank(x.number, "room number");
    var _ :- RequireNonBlank(x.hotelId, "hotel id");
    if !RoomService.ExistsById(s, id).value then Err(Invalid("Room with id " + key + " does not exist"))
    else
      var _ :- RequireHotelExists(s, x.hotelId);
      Ok(x.(id := id))
  }

  /** The error `updateRoom` reports is the one of the first check that fails; the room's own id is never read. */
  lemma UpdateCheckOrder(s: State, id: Option<string>, x: RoomData)
    ensures !HasText(id) ==> UpdateChecks(s, id, Some(x)) == Err(RequireNonBlank(id, "room id").error)
    ensures HasText(id) ==> UpdateChecks(s, id, None) == Err(Absent(NullMessage("room")))
    ensures HasText(id) && !HasText(x.number) ==>
      UpdateChecks(s, id, Some(x)) == Err(RequireNonBlank(x.number, "room number").error)
    ensures HasText(id) && HasText(x.number) && !HasText(x.hotelId) ==>
      UpdateChecks(s, id, Some(x)) == Err(RequireNonBlank(x.hotelId, "hotel id").error)
    ensures HasText(id) && HasText(x.number) && HasText(x.hotelId) && !HasRoom(s, id.value) ==>
      UpdateChecks(s, id, Some(x)) == Err(Invalid("Room with id " + id.value + " does not exist"))
    ensures (&& HasText(id) && HasText(x.number) && HasText(x.hotelId) && HasRoom(s, id.value)
             && !HasHotel(s, x.hotelId.value)) ==>
      UpdateChecks(s, id, Some(x)) == Err(Invalid(NoHotel(x.hotelId.value)))
    ensures UpdateChecks(s, id, Some(x)) == UpdateChecks(s, id, Some(x.(id := None)))
  {
  }

  /** `updateRoom`: the checks, then the room is given the id and saved; a failed check stores nothing. */
  function UpdateRoom(s: State, id: Option<string>, room: Option<RoomData>): (o: Outcome<RoomData>)
    ensures o.result.Ok? <==> UpdateChecks(s, id, room).Ok?
    ensures o.result.Err? ==> o == Outcome(Err(UpdateChecks(s, id, room).error), s)
    ensures o.result.Ok? ==> o == RoomService.Save(s, Some(room.value.(id := id)))
  {
    match UpdateChecks(s, id, room)
    case Err(e) => Outcome(Err(e), s)
    case Ok(x) => RoomService.Save(s, Some(x))
  }

  /** An update replaces the stored room: no row is added, and the id now finds the new values. */
  lemma UpdateRoomReplaces(s: State, id: string, x: RoomData)
    requires Valid(s) && UpdateChecks(s, Some(id), Some(x)).Ok?
    ensures Valid(UpdateRoom(s, Some(id), Some(x)).after)
    ensures |UpdateRoom(s, Some(id), Some(x)).after.rooms| == |s.rooms|
    ensures RoomService.FindById(UpdateRoom(s, Some(id), Some(x)).after, Some(id))
         == Ok(Some(UpdateRoom(s, Some(id), Some(x)).result.value))
  {
    RoomService.SaveThenFind(s, x.(id := Some(id)), id);
  }

  /** `updateRoom` keeps the stores consistent. */
  lemma UpdateRoomKeepsIntegrity(s: State, id: Option<string>, room: Option<RoomData>)
    requires Integrity(s)
    ensures Integrity(UpdateRoom(s, id, room).after)
  {
    if UpdateChecks(s, id, room).Ok? {
      StoringKeepsIntegrity(s, room.value.(id := id));
    }
  }

  /** `deleteRoom`: false for an unknown room; a room with bookings is refused; otherwise it is deleted. */
  function DeleteRoom(s: State, id: Option<string>): (o: Outcome<bool>)
    ensures !HasText(id) ==> o == Outcome(Err(RequireNonBlank(id, "room id").error), s)
    ensures HasText(id) && !HasRoom(s, id.value) ==> o == Outcome(Ok(false), s)
    ensures HasText(id) && HasRoom(s, id.value) && (exists e | e in s.bookings :: BookingOfRoom(e, id.value)) ==>
      o == Outcome(Err(Invalid("cannot delete room " + id.value + " because it has bookings")), s)
    ensures o.result == Ok(true) <==>
      HasText(id) && HasRoom(s, id.value) && forall e | e in s.bookings :: !BookingOfRoom(e, id.value)
    ensures o.result == Ok(true) ==> o.after == s.(rooms := Remove(s.rooms, RoomKey, id.value))
  {
    match RequireNonBlank(id, "room id")
    case Err(e) => Outcome(Err(e), s)
    case Ok(key) =>
      if !RoomService.ExistsById(s, id).value then Outcome(Ok(false), s)
      else if BookingService.ExistsByRoomId(s, id).value then
        Outcome(Err(Invalid("cannot delete room " + key + " because it has bookings")), s)
      else RoomService.DeleteById(s, id)
  }

  /** Deleting a room never leaves a booking pointing at it, so integrity is kept. */
  lemma DeleteRoomKeepsIntegrity(s: State, id: Option<string>)
    requires Integrity(s)
    ensures Integrity(DeleteRoom(s, id).after)
  {
    var o := DeleteRoom(s, id);
    if o.result == Ok(true) {
      var after := o.after;
      forall e | e in after.bookings
        ensures RoomResolves(after, e.room)
      {
        RemoveHas(s.rooms, RoomKey, id.value, e.room.value.id.value);
      }
    }
  }

  /** `deleteRoomsByHotel`: the hotel must be stored and none of its rooms booked; then its rooms are deleted and counted. */
  function DeleteRoomsByHotel(s: State, hotelId: Option<string>): (o: Outcome<int>)
    ensures !HasText(hotelId) ==> o == Outcome(Err(RequireNonBlank(hotelId, "hotel id").error), s)
    ensures HasText(hotelId) && !HasHotel(s, hotelId.value) ==> o == Outcome(Err(Invalid(NoHotel(hotelId.value))), s)
    ensures (&& HasText(hotelId) && HasHotel(s, hotelId.value)
             && exists e | e in s.bookings :: BookingInHotel(e, (s.rooms, hotelId.value))) ==>
      o == Outcome(Err(Invalid("cannot delete rooms for hotel " + hotelId.value + " because there are bookings")), s)
    ensures o.result.Ok? <==> (&& HasText(hotelId) && HasHotel(s, hotelId.value)
                               && forall e | e in s.bookings :: !BookingInHotel(e, (s.rooms, hotelId.value)))
    ensures o.result.Ok? ==> o == RoomService.DeleteByHotelId(s, hotelId)
  {
    match RequireNonBlank(hotelId, "hotel id")
    case Err(e) => Outcome(Err(e), s)
    case Ok(key) =>
      if !HotelService.ExistsById(s, hotelId).value then Outcome(Err(Invalid(NoHotel(key))), s)
      else if BookingService.ExistsByHotelId(s, hotelId).value then
        Outcome(Err(Invalid("cannot delete rooms for hotel " + key + " because there are bookings")), s)
      else RoomService.DeleteByHotelId(s, hotelId)
  }

  /** Deleting the rooms of a hotel without bookings never leaves a booking pointing at a deleted room. */
  lemma DeleteRoomsByHotelKeepsIntegrity(s: State, hotelId: Option<string>)
    requires Integrity(s)
    ensures Integrity(DeleteRoomsByHotel(s, hotelId).after)
  {
    var o := DeleteRoomsByHotel(s, hotelId);
    if o.result.Ok? {
      var h := hotelId.value;
      var after := o.after;
      forall e | e in after.bookings
        ensures RoomResolves(after, e.room)
      {
        var k := e.room.value.id.value;
        HasMember(s.rooms, RoomKey, k);
        var y :| y in s.rooms && RoomKey(y) == Some(k);
        assert !RoomOfHotel(y, h) by {
          assert !BookingInHotel(e, (s.rooms, h));
        }
        assert y in after.rooms;
        HasMember(after.rooms, RoomKey, k);
      }
    }
  }
}

/** The room rules object, which runs its checks on the shared repositories and writes through the room service. */
module RoomDomainImpl {
  import opened Wrappers
  import opened Guard
  import opened Records
  import opened Storage
  import RoomDomain
  import RoomService
  import HotelService
  import BookingService
  import RoomServiceImpl
  import HotelServiceImpl
  import BookingServiceImpl

  class RoomDomainImpl {
    const roomService: RoomServiceImpl.RoomServiceImpl
    const hotelService: HotelServiceImpl.HotelServiceImpl
    const bookingService: BookingServiceImpl.BookingServiceImpl

    /** The three services work on the same repositories. */
    predicate Wired() {
      hotelService.repos == roomService.repos && bookingService.repos == roomService.repos
    }

    constructor (roomService: RoomServiceImpl.RoomServiceImpl, hotelService: HotelServiceImpl.HotelServiceImpl,
                 bookingService: BookingServiceImpl.BookingServiceImpl)
      ensures this.roomService == roomService && this.hotelService == hotelService
      ensures this.bookingService == bookingService
    {
      this.roomService := roomService;
      this.hotelService := hotelService;
      this.bookingService := bookingService;
    }

    /** What the shared repositories hold now. */
    function Stores(): State
      reads roomService.repos
    {
      roomService.repos.Contents()
    }

    method CreateRoom(room: Room?) returns (r: Result<RoomData>)
      requires Wired()
      modifies roomService.repos
      ensures Outcome(r, Stores()) == RoomDomain.CreateRoom(old(Stores()), RoomOf(room))
    {
      var checked :- RoomDomain.CreateChecks(Stores(), RoomOf(room));
      r := roomService.Save(room);
    }

    /** `updateRoom`, which also gives the caller's room object the id, once the checks have passed. */
    method UpdateRoom(id: Option<string>, room: Room?) returns (r: Result<RoomData>)
      requires Wired()
      modifies roomService.repos, room
      ensures Outcome(r, Stores()) == RoomDomain.UpdateRoom(old(Stores()), id, old(RoomOf(room)))
      ensures room != null ==> room.Data() == if r.Ok? then old(room.Data()).(id := id) else old(room.Data())
    {
      var checked :- RoomDomain.UpdateChecks(Stores(), id, RoomOf(room));
      room.SetId(id);
      r := roomService.Save(room);
    }

    method DeleteRoom(id: Option<string>) returns (r: Result<bool>)
      requires Wired()
      modifies roomService.repos
      ensures Outcome(r, Stores()) == RoomDomain.DeleteRoom(old(Stores()), id)
    {
      var key :- RequireNonBlank(id, "room id");
      if !RoomService.ExistsById(Stores(), id).value {
        return Ok(false);
      }
      if BookingService.ExistsByRoomId(Stores(), id).value {
        return Err(Invalid("cannot delete room " + key + " because it has bookings"));
      }
      r := roomService.DeleteById(id);
    }

    method DeleteRoomsByHotel(hotelId: Option<string>) returns (r: Result<int>)
      requires Wired()
      modifies roomService.repos
      ensures Outcome(r, Stores()) == RoomDomain.DeleteRoomsByHotel(old(Stores()), hotelId)
    {
      var key :- RequireNonBlank(hotelId, "hotel id");
      if !HotelService.ExistsById(Stores(), hotelId).value {
        return Err(Invalid(RoomDomain.NoHotel(key)));
      }
      if BookingService.ExistsByHotelId(Stores(), hotelId).value {
        return Err(Invalid("cannot delete rooms for hotel " + key + " because there are bookings"));
      }
      r := roomService.DeleteByHotelId(hotelId);
    }
  }
}
