/**
 * The booking service (service/impl/BookingServiceImpl.java). Its queries
 * are functions of the stored state; `save` and the deletions are methods
 * of `BookingServiceImpl` that change the booking table as the functions
 * `Save`, `DeleteById`, `DeleteByGuestId` and `DeleteByRoomId` say.
 */
module BookingService {
  import opened Wrappers
  import opened Guard
  import opened Records
  import opened Entities
  import opened Tables
  import opened Storage
  import BookingMapper

  /** `existsById`: the id is guarded, then looked up. */
  function ExistsById(s: State, id: Option<string>): (r: Result<bool>)
    ensures !HasText(id) ==> r == Err(RequireNonBlank(id, "booking id").error)
    ensures HasText(id) ==> r == Ok(exists e | e in s.bookings :: e.id == id)
  {
    var key :- RequireNonBlank(id, "booking id");
    HasMember(s.bookings, BookingKey, key);
    Ok(HasBooking(s, key))
  }

  /** `existsByGuestId`: some booking points to the guest. */
  function ExistsByGuestId(s: State, guestId: Option<string>): (r: Result<bool>)
    ensures !HasText(guestId) ==> r == Err(RequireNonBlank(guestId, "guest id").error)
    ensures HasText(guestId) ==> r == Ok(FindAllByGuestId(s, guestId).value != [])
  {
    var key :- RequireNonBlank(guestId, "guest id");
    Ok(exists e | e in s.bookings :: BookingOfGuest(e, key))
  }

  /** `existsByRoomId`: some booking points to the room. */
  function ExistsByRoomId(s: State, roomId: Option<string>): (r: Result<bool>)
    ensures !HasText(roomId) ==> r == Err(RequireNonBlank(roomId, "room id").error)
    ensures HasText(roomId) ==> r == Ok(FindAllByRoomId(s, roomId).value != [])
  {
    var key :- RequireNonBlank(roomId, "room id");
    Ok(exists e | e in s.bookings :: BookingOfRoom(e, key))
  }

  /**
   * `existsByHotelId`, which the booking service interface does not declare:
   * some booking points to a room of the hotel, as `findAllByHotelId` selects them.
   */
  function ExistsByHotelId(s: State, hotelId: Option<string>): (r: Result<bool>)
    ensures !HasText(hotelId) ==> r == Err(RequireNonBlank(hotelId, "hotel id").error)
    ensures HasText(hotelId) ==> r == Ok(FindAllByHotelId(s, hotelId).value != [])
  {
    var key :- RequireNonBlank(hotelId, "hotel id");
    Ok(exists e | e in s.bookings :: BookingInHotel(e, (s.rooms, key)))
  }

  /** `findAll`: one booking per stored row, in repository order, each the row's values. */
  function FindAll(s: State): (r: seq<BookingData>)
    ensures |r| == |s.bookings|
    ensures forall i | 0 <= i < |r| :: r[i] == BookingMapper.Domain(s.bookings[i])
    ensures forall i | 0 <= i < |r| ::
      && r[i].id == s.bookings[i].id
      && r[i].roomId == BookingMapper.EntityRoomId(Some(s.bookings[i]))
      && r[i].guestId == BookingMapper.EntityGuestId(Some(s.bookings[i]))
      && r[i].checkIn == s.bookings[i].checkIn && r[i].checkOut == s.bookings[i].checkOut
  {
    MapAll(s.bookings, BookingMapper.Domain)
  }

  /** `findById`: the stored booking with that id, if any. */
  function FindById(s: State, id: Option<string>): (r: Result<Option<BookingData>>)
    ensures !HasText(id) ==> r == Err(RequireNonBlank(id, "booking id").error)
    ensures HasText(id) ==> r.Ok? && (r.value.Some? <==> HasBooking(s, id.value))
    ensures r.Ok? && r.value.Some? ==>
      r.value.value.id == id && exists e | e in s.bookings :: r.value.value == BookingMapper.Domain(e)
  {
    var key :- RequireNonBlank(id, "booking id");
    match Find(s.bookings, BookingKey, key)
    case None => Ok(None)
    case Some(e) => Ok(Some(BookingMapper.Domain(e)))
  }

  /** `findAllByRoomId`: exactly the stored bookings of that room, in repository order. */
  function FindAllByRoomId(s: State, roomId: Option<string>): (r: Result<seq<BookingData>>)
    ensures !HasText(roomId) ==> r == Err(RequireNonBlank(roomId, "room id").error)
    ensures HasText(roomId) ==> r.Ok?
    ensures r.Ok? ==> forall b | b in r.value :: b.roomId == roomId
    ensures r.Ok? ==> forall e | e in s.bookings && BookingOfRoom(e, roomId.value) :: BookingMapper.Domain(e) in r.value
    ensures r.Ok? ==> forall b | b in r.value :: exists e | e in s.bookings :: b == BookingMapper.Domain(e)
    ensures r.Ok? ==> Subsequence(r.value, FindAll(s))
  {
    var key :- RequireNonBlank(roomId, "room id");
    SelectInOrder(s.bookings, BookingOfRoom, key);
    MapAllInOrder(Select(s.bookings, BookingOfRoom, key), s.bookings, BookingMapper.Domain);
    Ok(MapAll(Select(s.bookings, BookingOfRoom, key), BookingMapper.Domain))
  }

  /** `findAllByGuestId`: exactly the stored bookings of that guest, in repository order. */
  function FindAllByGuestId(s: State, guestId: Option<string>): (r: Result<seq<BookingData>>)
    ensures !HasText(guestId) ==> r == Err(RequireNonBlank(guestId, "guest id").error)
    ensures HasText(guestId) ==> r.Ok?
    ensures r.Ok? ==> forall b | b in r.value :: b.guestId == guestId
    ensures r.Ok? ==> forall e | e in s.bookings && BookingOfGuest(e, guestId.value) :: BookingMapper.Domain(e) in r.value
    ensures r.Ok? ==> forall b | b in r.value :: exists e | e in s.bookings :: b == BookingMapper.Domain(e)
    ensures r.Ok? ==> Subsequence(r.value, FindAll(s))
  {
    var key :- RequireNonBlank(guestId, "guest id");
    SelectInOrder(s.bookings, BookingOfGuest, key);
    MapAllInOrder(Select(s.bookings, BookingOfGuest, key), s.bookings, BookingMapper.Domain);
    Ok(MapAll(Select(s.bookings, BookingOfGuest, key), BookingMapper.Domain))
  }

  /** `findAllByHotelId`: the stored bookings whose room is a stored room of the hotel, in repository order. */
  function FindAllByHotelId(s: State, hotelId: Option<string>): (r: Result<seq<BookingData>>)
    ensures !HasText(hotelId) ==> r == Err(RequireNonBlank(hotelId, "hotel id").error)
    ensures HasText(hotelId) ==> r.Ok?
    ensures r.Ok? ==> forall b | b in r.value ::
      exists room | room in s.rooms :: room.id == b.roomId && RoomOfHotel(room, hotelId.value)
    ensures r.Ok? ==> forall e | e in s.bookings && BookingInHotel(e, (s.rooms, hotelId.value)) ::
      BookingMapper.Domain(e) in r.value
    ensures r.Ok? ==> forall b | b in r.value ::
      exists e | e in s.bookings && BookingInHotel(e, (s.rooms, hotelId.value)) :: b == BookingMapper.Domain(e)
    ensures r.Ok? ==> Subsequence(r.value, FindAll(s))
  {
    var key :- RequireNonBlank(hotelId, "hotel id");
    SelectInOrder(s.bookings, BookingInHotel, (s.rooms, key));
    MapAllInOrder(Select(s.bookings, BookingInHotel, (s.rooms, key)), s.bookings, BookingMapper.Domain);
    Ok(MapAll(Select(s.bookings, BookingInHotel, (s.rooms, key)), BookingMapper.Domain))
  }

  /** The row `save` writes for a booking. */
  function Row(b: BookingData): (e: BookingEntity)
    ensures e.id == b.id
  {
    BookingMapper.ToEntity(Some(b)).value
  }

  /**
   * `save`: a null booking is refused before anything is mapped; otherwise
   * the mapped row is merged into the table and returned mapped back.
   * The stored id must be present, as the relational store demands of every row.
   */
  function Save(s: State, booking: Option<BookingData>): (o: Outcome<BookingData>)
    requires booking.Some? ==> booking.value.id.Some?
    ensures booking.None? ==> o == Outcome(Err(Absent(NullMessage("booking"))), s)
    ensures booking.Some? ==> o.result.Ok? && o.after == s.(bookings := o.after.bookings)
    ensures booking.Some? ==> o.after.bookings == Upsert(s.bookings, BookingKey, Row(booking.value))
    ensures booking.Some? ==> o.result.value == BookingMapper.Domain(Row(booking.value))
  {
    match booking
    case None => Outcome(Err(Absent(NullMessage("booking"))), s)
    case Some(b) =>
      var row := Row(b);
      Outcome(Ok(BookingMapper.Domain(row)), s.(bookings := Upsert(s.bookings, BookingKey, row)))
  }

  /** After a save the booking is found under its id; every other id finds what it found before. */
  lemma SaveThenFind(s: State, b: BookingData, id: string)
    requires Valid(s) && HasText(b.id)
    ensures Valid(Save(s, Some(b)).after)
    ensures FindById(Save(s, Some(b)).after, b.id) == Ok(Some(Save(s, Some(b)).result.value))
    ensures HasText(Some(id)) && Some(id) != b.id ==>
      FindById(Save(s, Some(b)).after, Some(id)) == FindById(s, Some(id))
  {
    var row := Row(b);
    UpsertKeyed(s.bookings, BookingKey, row);
    UpsertFind(s.bookings, BookingKey, row, id);
  }

  /** `deleteById`: false and no change for an unknown id; otherwise that booking is removed and true returned. */
  function DeleteById(s: State, id: Option<string>): (o: Outcome<bool>)
    ensures !HasText(id) ==> o == Outcome(Err(RequireNonBlank(id, "booking id").error), s)
    ensures HasText(id) ==> o.result == Ok(HasBooking(s, id.value))
    ensures o.result == Ok(false) ==> o.after == s
    ensures o.result == Ok(true) ==> o.after == s.(bookings := Remove(s.bookings, BookingKey, id.value))
  {
    match RequireNonBlank(id, "booking id")
    case Err(e) => Outcome(Err(e), s)
    case Ok(key) =>
      if !HasBooking(s, key) then Outcome(Ok(false), s)
      else Outcome(Ok(true), s.(bookings := Remove(s.bookings, BookingKey, key)))
  }

  /** A deletion removes exactly the booking with that id: it is no longer found, the others still are, and one row fewer remains. */
  lemma DeleteByIdRemovesExactly(s: State, id: string, other: string)
    requires Valid(s) && HasText(Some(id))
    ensures Valid(DeleteById(s, Some(id)).after)
    ensures FindById(DeleteById(s, Some(id)).after, Some(id)) == Ok(None)
    ensures HasText(Some(other)) && other != id ==>
      FindById(DeleteById(s, Some(id)).after, Some(other)) == FindById(s, Some(other))
    ensures |DeleteById(s, Some(id)).after.bookings| == |s.bookings| - (if HasBooking(s, id) then 1 else 0)
  {
    var after := DeleteById(s, Some(id)).after;
    RemoveKeyed(s.bookings, BookingKey, id);
    RemoveCount(s.bookings, BookingKey, id);
    HasMember(after.bookings, BookingKey, id);
    if HasText(Some(other)) && other != id {
      var f := Find(s.bookings, BookingKey, other);
      if f.Some? {
        FindUnique(after.bookings, BookingKey, f.value);
      } else {
        HasMember(s.bookings, BookingKey, other);
        HasMember(after.bookings, BookingKey, other);
      }
    }
  }

  /** `deleteByGuestId`: every booking of the guest is removed and their number returned. */
  function DeleteByGuestId(s: State, guestId: Option<string>): (o: Outcome<int>)
    ensures !HasText(guestId) ==> o == Outcome(Err(RequireNonBlank(guestId, "guest id").error), s)
    ensures HasText(guestId) ==> o.result.Ok? && o.after == s.(bookings := o.after.bookings)
    ensures HasText(guestId) ==> o.result.value == |FindAllByGuestId(s, guestId).value|
    ensures HasText(guestId) ==> forall e | e in o.after.bookings :: e in s.bookings && !BookingOfGuest(e, guestId.value)
    ensures HasText(guestId) ==> forall e | e in s.bookings && !BookingOfGuest(e, guestId.value) :: e in o.after.bookings
    ensures HasText(guestId) ==> Subsequence(o.after.bookings, s.bookings)
  {
    match RequireNonBlank(guestId, "guest id")
    case Err(e) => Outcome(Err(e), s)
    case Ok(key) =>
      RejectInOrder(s.bookings, BookingOfGuest, key);
      Outcome(Ok(|Select(s.bookings, BookingOfGuest, key)|), s.(bookings := Reject(s.bookings, BookingOfGuest, key)))
  }

  /** After deleting a guest's bookings none is left, and the count is the number of rows that went. */
  lemma DeleteByGuestIdEmpties(s: State, guestId: string)
    requires HasText(Some(guestId))
    ensures Valid(s) ==> Valid(DeleteByGuestId(s, Some(guestId)).after)
    ensures ExistsByGuestId(DeleteByGuestId(s, Some(guestId)).after, Some(guestId)) == Ok(false)
    ensures DeleteByGuestId(s, Some(guestId)).result.value
         == |s.bookings| - |DeleteByGuestId(s, Some(guestId)).after.bookings|
  {
    SelectRejectCount(s.bookings, BookingOfGuest, guestId);
    if Valid(s) {
      RejectKeyed(s.bookings, BookingKey, BookingOfGuest, guestId);
    }
  }

  /** `deleteByRoomId`: every booking of the room is removed and their number returned. */
  function DeleteByRoomId(s: State, roomId: Option<string>): (o: Outcome<int>)
    ensures !HasText(roomId) ==> o == Outcome(Err(RequireNonBlank(roomId, "room id").error), s)
    ensures HasText(roomId) ==> o.result.Ok? && o.after == s.(bookings := o.after.bookings)
    ensures HasText(roomId) ==> o.result.value == |FindAllByRoomId(s, roomId).value|
    ensures HasText(roomId) ==> forall e | e in o.after.bookings :: e in s.bookings && !BookingOfRoom(e, roomId.value)
    ensures HasText(roomId) ==> forall e | e in s.bookings && !BookingOfRoom(e, roomId.value) :: e in o.after.bookings
    ensures HasText(roomId) ==> Subsequence(o.after.bookings, s.bookings)
  {
    match RequireNonBlank(roomId, "room id")
    case Err(e) => Outcome(Err(e), s)
    case Ok(key) =>
      RejectInOrder(s.bookings, BookingOfRoom, key);
      Outcome(Ok(|Select(s.bookings, BookingOfRoom, key)|), s.(bookings := Reject(s.bookings, BookingOfRoom, key)))
  }

  /** After deleting a room's bookings none is left, and the count is the number of rows that went. */
  lemma DeleteByRoomIdEmpties(s: State, roomId: string)
    requires HasText(Some(roomId))
    ensures Valid(s) ==> Valid(DeleteByRoomId(s, Some(roomId)).after)
    ensures ExistsByRoomId(DeleteByRoomId(s, Some(roomId)).after, Some(roomId)) == Ok(false)
    ensures DeleteByRoomId(s, Some(roomId)).result.value
         == |s.bookings| - |DeleteByRoomId(s, Some(roomId)).after.bookings|
  {
    SelectRejectCount(s.bookings, BookingOfRoom, roomId);
    if Valid(s) {
      RejectKeyed(s.bookings, BookingKey, BookingOfRoom, roomId);
    }
  }
}

/** The booking service object, which changes the shared repositories as `BookingService` says. */
module BookingServiceImpl {
  import opened Wrappers
  import opened Guard
  import opened Records
  import opened Entities
  import opened Tables
  import opened Storage
  import BookingMapper
  import BookingService

  class BookingServiceImpl {
    const repos: Repositories

    constructor (repos: Repositories)
      ensures this.repos == repos
    {
      this.repos := repos;
    }

    method Save(booking: Booking?) returns (r: Result<BookingData>)
      requires booking != null ==> booking.id.Some?
      modifies repos
      ensures Outcome(r, repos.Contents()) == BookingService.Save(old(repos.Contents()), BookingOf(booking))
    {
      if booking == null {
        return Err(Absent(NullMessage("booking")));
      }
      var row := BookingService.Row(booking.Data());
      repos.bookings := Upsert(repos.bookings, BookingKey, row);
      r := Ok(BookingMapper.Domain(row));
    }

    method DeleteById(id: Option<string>) returns (r: Result<bool>)
      modifies repos
      ensures Outcome(r, repos.Contents()) == BookingService.DeleteById(old(repos.Contents()), id)
    {
      var key :- RequireNonBlank(id, "booking id");
      if !HasBooking(repos.Contents(), key) {
        return Ok(false);
      }
      repos.bookings := Remove(repos.bookings, BookingKey, key);
      r := Ok(true);
    }

    method DeleteByGuestId(guestId: Option<string>) returns (r: Result<int>)
      modifies repos
      ensures Outcome(r, repos.Contents()) == BookingService.DeleteByGuestId(old(repos.Contents()), guestId)
    {
      var key :- RequireNonBlank(guestId, "guest id");
      var removed := |Select(repos.bookings, BookingOfGuest, key)|;
      repos.bookings := Reject(repos.bookings, BookingOfGuest, key);
      r := Ok(removed);
    }

    method DeleteByRoomId(roomId: Option<string>) returns (r: Result<int>)
      modifies repos
      ensures Outcome(r, repos.Contents()) == BookingService.DeleteByRoomId(old(repos.Contents()), roomId)
    {
      var key :- RequireNonBlank(roomId, "room id");
      var removed := |Select(repos.bookings, BookingOfRoom, key)|;
      repos.bookings := Reject(repos.bookings, BookingOfRoom, key);
      r := Ok(removed);
    }
  }
}
