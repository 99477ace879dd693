/**
 * The room service (service/impl/RoomServiceImpl.java): queries over the
 * room table as functions of the stored state, and the writes `Save`,
 * `DeleteById` and `DeleteByHotelId` as transitions of it.
 */
module RoomService {
  import opened Wrappers
  import opened Guard
  import opened Records
  import opened Entities
  import opened Tables
  import opened Storage
  import RoomMapper

  /** `existsById`: the id is guarded, then looked up. */
  function ExistsById(s: State, id: Option<string>): (r: Result<bool>)
    ensures !HasText(id) ==> r == Err(RequireNonBlank(id, "room id").error)
    ensures HasText(id) ==> r == Ok(exists e | e in s.rooms :: e.id == id)
  {
    var key :- RequireNonBlank(id, "room id");
    HasMember(s.rooms, RoomKey, key);
    Ok(HasRoom(s, key))
  }

  /** `findById`: the stored room with that id, if any. */
  function FindById(s: State, id: Option<string>): (r: Result<Option<RoomData>>)
    ensures !HasText(id) ==> r == Err(RequireNonBlank(id, "room id").error)
    ensures HasText(id) ==> r.Ok? && (r.value.Some? <==> HasRoom(s, id.value))
    ensures r.Ok? && r.value.Some? ==>
      r.value.value.id == id && exists e | e in s.rooms :: r.value.value == RoomMapper.Domain(e)
  {
    var key :- RequireNonBlank(id, "room id");
    match Find(s.rooms, RoomKey, key)
    case None => Ok(None)
    case Some(e) => Ok(Some(RoomMapper.Domain(e)))
  }

  /** `findAll`: one room per stored row, in repository order, each the row's values. */
  function FindAll(s: State): (r: seq<RoomData>)
    ensures |r| == |s.rooms|
    ensures forall i | 0 <= i < |r| :: r[i] == RoomMapper.Domain(s.rooms[i])
    ensures forall i | 0 <= i < |r| ::
      && r[i].id == s.rooms[i].id && r[i].number == s.rooms[i].number
      && r[i].roomType == s.rooms[i].roomType && r[i].pricePerNight == s.rooms[i].pricePerNight
      && r[i].hotelId == RoomMapper.EntityHotelId(Some(s.rooms[i]))
  {
    MapAll(s.rooms, RoomMapper.Domain)
  }

  /** `findByHotelId`: exactly the stored rooms of that hotel, in repository order. */
  function FindByHotelId(s: State, hotelId: Option<string>): (r: Result<seq<RoomData>>)
    ensures !HasText(hotelId) ==> r == Err(RequireNonBlank(hotelId, "hotel id").error)
    ensures HasText(hotelId) ==> r.Ok?
    ensures r.Ok? ==> forall room | room in r.value :: room.hotelId == hotelId
    ensures r.Ok? ==> forall e | e in s.rooms && RoomOfHotel(e, hotelId.value) :: RoomMapper.Domain(e) in r.value
    ensures r.Ok? ==> forall room | room in r.value :: exists e | e in s.rooms :: room == RoomMapper.Domain(e)
    ensures r.Ok? ==> Subsequence(r.value, FindAll(s))
  {
    var key :- RequireNonBlank(hotelId, "hotel id");
    SelectInOrder(s.rooms, RoomOfHotel, key);
    MapAllInOrder(Select(s.rooms, RoomOfHotel, key), s.rooms, RoomMapper.Domain);
    Ok(MapAll(Select(s.rooms, RoomOfHotel, key), RoomMapper.Domain))
  }

  /**
   * `findByHotelIdAndType`: the hotel id is guarded before the type; then
   * exactly the stored rooms of that hotel and type, in repository order.
   */
  function FindByHotelIdAndType(s: State, hotelId: Option<string>, roomType: Option<string>): (r: Result<seq<RoomData>>)
    ensures !HasText(hotelId) ==> r == Err(RequireNonBlank(hotelId, "hotel id").error)
    ensures HasText(hotelId) && !HasText(roomType) ==> r == Err(RequireNonBlank(roomType, "room type").error)
    ensures HasText(hotelId) && HasText(roomType) ==> r.Ok?
    ensures r.Ok? ==> forall room | room in r.value :: room.hotelId == hotelId && room.roomType == roomType
    ensures r.Ok? ==> forall e | e in s.rooms && RoomOfHotelAndType(e, (hotelId.value, roomType.value)) ::
      RoomMapper.Domain(e) in r.value
    ensures r.Ok? ==> forall room | room in r.value :: exists e | e in s.rooms :: room == RoomMapper.Domain(e)
    ensures r.Ok? ==> Subsequence(r.value, FindAll(s))
  {
    var hotel :- RequireNonBlank(hotelId, "hotel id");
    var kind :- RequireNonBlank(roomType, "room type");
    SelectInOrder(s.rooms, RoomOfHotelAndType, (hotel, kind));
    MapAllInOrder(Select(s.rooms, RoomOfHotelAndType, (hotel, kind)), s.rooms, RoomMapper.Domain);
    Ok(MapAll(Select(s.rooms, RoomOfHotelAndType, (hotel, kind)), RoomMapper.Domain))
  }

  /** The rooms of a hotel with a given type are those of the hotel that have that type. */
  lemma TypedRoomsOfHotel(s: State, hotelId: string, roomType: string)
    requires HasText(Some(hotelId)) && HasText(Some(roomType))
    ensures forall room | room in FindByHotelIdAndType(s, Some(hotelId), Some(roomType)).value ::
      room in FindByHotelId(s, Some(hotelId)).value && room.roomType == Some(roomType)
  {
    var typed := FindByHotelIdAndType(s, Some(hotelId), Some(roomType)).value;
    forall room | room in typed
      ensures room in FindByHotelId(s, Some(hotelId)).value
    {
      var e :| e in Select(s.rooms, RoomOfHotelAndType, (hotelId, roomType)) && room == RoomMapper.Domain(e);
    }
  }

  /** The row `save` writes for a room. */
  function Row(room: RoomData): (e: RoomEntity)
    ensures e.id == room.id && e.number == room.number
  {
    RoomMapper.ToEntity(Some(room)).value
  }

  /**
   * `save`: a null room is refused; otherwise the mapped row is merged into
   * the table and returned mapped back. The stored id must be present.
   */
  function Save(s: State, room: Option<RoomData>): (o: Outcome<RoomData>)
    requires room.Some? ==> room.value.id.Some?
    ensures room.None? ==> o == Outcome(Err(Absent(NullMessage("room"))), s)
    ensures room.Some? ==> o.result.Ok? && o.after == s.(rooms := o.after.rooms)
    ensures room.Some? ==> o.after.rooms == Upsert(s.rooms, RoomKey, Row(room.value))
    ensures room.Some? ==> o.result.value == RoomMapper.Domain(Row(room.value))
  {
    match RequireNonNull(room, "room")
    case Err(e) => Outcome(Err(e), s)
    case Ok(r) =>
      var row := Row(r);
      Outcome(Ok(RoomMapper.Domain(row)), s.(rooms := Upsert(s.rooms, RoomKey, row)))
  }

  /** After a save the room is found under its id; every other id finds what it found before. */
  lemma SaveThenFind(s: State, room: RoomData, id: string)
    requires Valid(s) && HasText(room.id)
    ensures Valid(Save(s, Some(room)).after)
    ensures FindById(Save(s, Some(room)).after, room.id) == Ok(Some(Save(s, Some(room)).result.value))
    ensures HasText(Some(id)) && Some(id) != room.id ==>
      FindById(Save(s, Some(room)).after, Some(id)) == FindById(s, Some(id))
  {
    var row := Row(room);
    UpsertKeyed(s.rooms, RoomKey, row);
    UpsertFind(s.rooms, RoomKey, row, id);
  }

  /** `deleteById`: false and no change for an unknown id; otherwise that room is removed and true returned. */
  function DeleteById(s: State, id: Option<string>): (o: Outcome<bool>)
    ensures !HasText(id) ==> o == Outcome(Err(RequireNonBlank(id, "room id").error), s)
    ensures HasText(id) ==> o.result == Ok(HasRoom(s, id.value))
    ensures o.result == Ok(false) ==> o.after == s
    ensures o.result == Ok(true) ==> o.after == s.(rooms := Remove(s.rooms, RoomKey, id.value))
  {
    match RequireNonBlank(id, "room id")
    case Err(e) => Outcome(Err(e), s)
    case Ok(key) =>
      if !HasRoom(s, key) then Outcome(Ok(false), s)
      else Outcome(Ok(true), s.(rooms := Remove(s.rooms, RoomKey, key)))
  }

  /** A deletion removes exactly the room with that id. */
  lemma DeleteByIdRemovesExactly(s: State, id: string, other: string)
    requires Valid(s) && HasText(Some(id))
    ensures Valid(DeleteById(s, Some(id)).after)
    ensures FindById(DeleteById(s, Some(id)).after, Some(id)) == Ok(None)
    ensures HasText(Some(other)) && other != id ==>
      FindById(DeleteById(s, Some(id)).after, Some(other)) == FindById(s, Some(other))
    ensures |DeleteById(s, Some(id)).after.rooms| == |s.rooms| - (if HasRoom(s, id) then 1 else 0)
  {
    var after := DeleteById(s, Some(id)).after;
    RemoveKeyed(s.rooms, RoomKey, id);
    RemoveCount(s.rooms, RoomKey, id);
    HasMember(after.rooms, RoomKey, id);
    if HasText(Some(other)) && other != id {
      var f := Find(s.rooms, RoomKey, other);
      if f.Some? {
        FindUnique(after.rooms, RoomKey, f.value);
      } else {
        HasMember(s.rooms, RoomKey, other);
        HasMember(after.rooms, RoomKey, other);
      }
    }
  }

  /** `deleteByHotelId`: every room of the hotel is removed and their number returned. */
  function DeleteByHotelId(s: State, hotelId: Option<string>): (o: Outcome<int>)
    ensures !HasText(hotelId) ==> o == Outcome(Err(RequireNonBlank(hotelId, "hotel id").error), s)
    ensures HasText(hotelId) ==> o.result.Ok? && o.after == s.(rooms := o.after.rooms)
    ensures HasText(hotelId) ==> o.result.value == |FindByHotelId(s, hotelId).value|
    ensures HasText(hotelId) ==> forall e | e in o.after.rooms :: e in s.rooms && !RoomOfHotel(e, hotelId.value)
    ensures HasText(hotelId) ==> forall e | e in s.rooms && !RoomOfHotel(e, hotelId.value) :: e in o.after.rooms
    ensures HasText(hotelId) ==> Subsequence(o.after.rooms, s.rooms)
  {
    match RequireNonBlank(hotelId, "hotel id")
    case Err(e) => Outcome(Err(e), s)
    case Ok(key) =>
      RejectInOrder(s.rooms, RoomOfHotel, key);
      Outcome(Ok(|Select(s.rooms, RoomOfHotel, key)|), s.(rooms := Reject(s.rooms, RoomOfHotel, key)))
  }

  /** After deleting a hotel's rooms none is left, and the count is the number of rows that went. */
  lemma DeleteByHotelIdEmpties(s: State, hotelId: string)
    requires HasText(Some(hotelId))
    ensures Valid(s) ==> Valid(DeleteByHotelId(s, Some(hotelId)).after)
    ensures FindByHotelId(DeleteByHotelId(s, Some(hotelId)).after, Some(hotelId)) == Ok([])
    ensures DeleteByHotelId(s, Some(hotelId)).result.value
         == |s.rooms| - |DeleteByHotelId(s, Some(hotelId)).after.rooms|
  {
    SelectRejectCount(s.rooms, RoomOfHotel, hotelId);
    if Valid(s) {
      RejectKeyed(s.rooms, RoomKey, RoomOfHotel, hotelId);
    }
  }
}

/** The room service object, which changes the shared repositories as `RoomService` says. */
module RoomServiceImpl {
  import opened Wrappers
  import opened Guard
  import opened Records
  import opened Entities
  import opened Tables
  import opened Storage
  import RoomMapper
  import RoomService

  class RoomServiceImpl {
    const repos: Repositories

    constructor (repos: Repositories)
      ensures this.repos == repos
    {
      this.repos := repos;
    }

    method Save(room: Room?) returns (r: Result<RoomData>)
      requires room != null ==> room.id.Some?
      modifies repos
      ensures Outcome(r, repos.Contents()) == RoomService.Save(old(repos.Contents()), RoomOf(room))
    {
      if room == null {
        return Err(Absent(NullMessage("room")));
      }
      var row := RoomService.Row(room.Data());
      repos.rooms := Upsert(repos.rooms, RoomKey, row);
      r := Ok(RoomMapper.Domain(row));
    }

    method DeleteById(id: Option<string>) returns (r: Result<bool>)
      modifies repos
      ensures Outcome(r, repos.Contents()) == RoomService.DeleteById(old(repos.Contents()), id)
    {
      var key :- RequireNonBlank(id, "room id");
      if !HasRoom(repos.Contents(), key) {
        return Ok(false);
      }
      repos.rooms := Remove(repos.rooms, RoomKey, key);
      r := Ok(true);
    }

    method DeleteByHotelId(hotelId: Option<string>) returns (r: Result<int>)
      modifies repos
      ensures Outcome(r, repos.Contents()) == RoomService.DeleteByHotelId(old(repos.Contents()), hotelId)
    {
      var key :- RequireNonBlank(hotelId, "hotel id");
      var removed := |Select(repos.rooms, RoomOfHotel, key)|;
      repos.rooms := Reject(repos.rooms, RoomOfHotel, key);
      r := Ok(removed);
    }
  }
}
