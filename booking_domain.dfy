/**
 * The booking rules (domain/impl/BookingDomainImpl.java): a booking may be
 * stored only for a stored guest and a stored room, with a valid stay, and
 * only once; an update replaces an existing booking. The checks run in the
 * order the rules list them, and the first that fails is the error.
 */
module BookingDomain {
  import opened Wrappers
  import opened Guard
  import opened Records
  import opened Entities
  import opened Tables
  import opened Storage
  import opened BookingDates
  import BookingMapper
  import BookingService
  import RoomService
  import GuestService
  import HotelService

  /** `requireBookingExists`, run on an id that has passed its guard. */
  function RequireBookingExists(s: State, id: Option<string>): (r: Result<()>)
    requires HasText(id)
    ensures r.Ok? <==> HasBooking(s, id.value)
    ensures r.Err? ==> r.error == Invalid("booking not found: " + id.value)
  {
    if !BookingService.ExistsById(s, id).value then Err(Invalid("booking not found: " + id.value)) else Ok(())
  }

  /** `requireRoomExists`, run on an id that has passed its guard. */
  function RequireRoomExists(s: State, id: Option<string>): (r: Result<()>)
    requires HasText(id)
    ensures r.Ok? <==> HasRoom(s, id.value)
    ensures r.Err? ==> r.error == Invalid("room not found: " + id.value)
  {
    if !RoomService.ExistsById(s, id).value then Err(Invalid("room not found: " + id.value)) else Ok(())
  }

  /** `requireGuestExists`, run on an id that has passed its guard. */
  function RequireGuestExists(s: State, id: Option<string>): (r: Result<()>)
    requires HasText(id)
    ensures r.Ok? <==> HasGuest(s, id.value)
    ensures r.Err? ==> r.error == Invalid("guest not found: " + id.value)
  {
    if !GuestService.ExistsById(s, id).value then Err(Invalid("guest not found: " + id.value)) else Ok(())
  }

  /** `requireHotelExists`, run on an id that has passed its guard. */
  function RequireHotelExists(s: State, id: Option<string>): (r: Result<()>)
    requires HasText(id)
    ensures r.Ok? <==> HasHotel(s, id.value)
    ensures r.Err? ==> r.error == Invalid("hotel not found: " + id.value)
  {
    if !HotelService.ExistsById(s, id).value then Err(Invalid("hotel not found: " + id.value)) else Ok(())
  }

  /** What a booking must satisfy to be stored: ids with text, a stored guest and room, and a valid stay. */
  ghost predicate Storable(s: State, b: BookingData) {
    && HasText(b.id) && HasText(b.roomId) && HasText(b.guestId)
    && HasGuest(s, b.guestId.value) && HasRoom(s, b.roomId.value)
    && ValidateDates(b.checkIn, b.checkOut).Ok?
  }

  /** The checks of `createBooking`, in their order; the booking itself when all pass. */
  function CreateChecks(s: State, booking: Option<BookingData>): (r: Result<BookingData>)
    ensures r.Ok? <==> booking.Some? && Storable(s, booking.value) && !HasBooking(s, booking.value.id.value)
    ensures r.Ok? ==> r.value == booking.value
  {
    var b :- RequireNonNull(booking, "booking");
    var _ :- RequireNonBlank(b.id, "booking id");
    var _ :- RequireNonBlank(b.roomId, "room id");
    var _ :- RequireNonBlank(b.guestId, "guest id");
    var _ :- RequireGuestExists(s, b.guestId);
    var _ :- RequireRoomExists(s, b.roomId);
    var _ :- ValidateDates(b.checkIn, b.checkOut);
    if BookingService.ExistsById(s, b.id).value then Err(Invalid("booking already exists: " + b.id.value)) else Ok(b)
  }

  /** The error `createBooking` reports is the one of the first check that fails. */
  lemma CreateCheckOrder(s: State, b: BookingData)
    ensures CreateChecks(s, None) == Err(Absent(NullMessage("booking")))
    ensures !HasText(b.id) ==> CreateChecks(s, Some(b)) == Err(RequireNonBlank(b.id, "booking id").error)
    ensures HasText(b.id) && !HasText(b.roomId) ==>
      CreateChecks(s, Some(b)) == Err(RequireNonBlank(b.roomId, "room id").error)
    ensures HasText(b.id) && HasText(b.roomId) && !HasText(b.guestId) ==>
      CreateChecks(s, Some(b)) == Err(RequireNonBlank(b.guestId, "guest id").error)
    ensures HasText(b.id) && HasText(b.roomId) && HasText(b.guestId) && !HasGuest(s, b.guestId.value) ==>
      CreateChecks(s, Some(b)) == Err(Invalid("guest not found: " + b.guestId.value))
    ensures (&& HasText(b.id) && HasText(b.roomId) && HasText(b.guestId) && HasGuest(s, b.guestId.value)
             && !HasRoom(s, b.roomId.value)) ==>
      CreateChecks(s, Some(b)) == Err(Invalid("room not found: " + b.roomId.value))
    ensures (&& HasText(b.id) && HasText(b.roomId) && HasText(b.guestId) && HasGuest(s, b.guestId.value)
             && HasRoom(s, b.roomId.value) && ValidateDates(b.checkIn, b.checkOut).Err?) ==>
      CreateChecks(s, Some(b)) == Err(ValidateDates(b.checkIn, b.checkOut).error)
    ensures Storable(s, b) && HasBooking(s, b.id.value) ==>
      CreateChecks(s, Some(b)) == Err(Invalid("booking already exists: " + b.id.value))
  {
  }

  /** `createBooking`: the checks, then `save`; a failed check stores nothing. */
  function CreateBooking(s: State, booking: Option<BookingData>): (o: Outcome<BookingData>)
    ensures o.result.Ok? <==> CreateChecks(s, booking).Ok?
    ensures o.result.Err? ==> o == Outcome(Err(CreateChecks(s, booking).error), s)
    ensures o.result.Ok? ==> o == BookingService.Save(s, booking)
  {
    match CreateChecks(s, booking)
    case Err(e) => Outcome(Err(e), s)
    case Ok(b) => BookingService.Save(s, Some(b))
  }

  /** A created booking is new: the table grows by one row, and that row is what `findById` then returns. */
  lemma CreateBookingAdds(s: State, b: BookingData)
    requires Valid(s) && CreateChecks(s, Some(b)).Ok?
    ensures Valid(CreateBooking(s, Some(b)).after)
    ensures |CreateBooking(s, Some(b)).after.bookings| == |s.bookings| + 1
    ensures BookingService.FindById(CreateBooking(s, Some(b)).after, b.id)
         == Ok(Some(CreateBooking(s, Some(b)).result.value))
  {
    BookingService.SaveThenFind(s, b, b.id.value);
  }

  /** A booking stored by the rules points to its stored room and guest, so referential integrity is kept. */
  lemma StoringKeepsIntegrity(s: State, b: BookingData)
    requires Integrity(s) && Storable(s, b)
    ensures Integrity(BookingService.Save(s, Some(b)).after)
  {
    var after := BookingService.Save(s, Some(b)).after;
    var row := BookingService.Row(b);
    assert RoomResolves(after, row.room) && GuestResolves(after, row.guest);
    forall e | e in after.bookings
      ensures RoomResolves(after, e.room) && GuestResolves(after, e.guest)
    {
      if e != row {
        assert e in s.bookings;
      }
    }
  }

  /** `createBooking` keeps the stores consistent. */
  lemma CreateBookingKeepsIntegrity(s: State, booking: Option<BookingData>)
    requires Integrity(s)
    ensures Integrity(CreateBooking(s, booking).after)
  {
    if CreateChecks(s, booking).Ok? {
      StoringKeepsIntegrity(s, booking.value);
    }
  }

  /** `getBookingById`: the guarded lookup of the booking service. */
  function GetBookingById(s: State, id: Option<string>): (r: Result<Option<BookingData>>)
    ensures !HasText(id) ==> r == Err(RequireNonBlank(id, "booking id").error)
    ensures HasText(id) ==> r.Ok? && (r.value.Some? <==> HasBooking(s, id.value))
    ensures r.Ok? && r.value.Some? ==> r.value.value.id == id
    ensures HasText(id) ==> r == BookingService.FindById(s, id)
  {
    var _ :- RequireNonBlank(id, "booking id");
    BookingService.FindById(s, id)
  }

  /** `getAllBookings`: every stored booking. */
  function GetAllBookings(s: State): (r: seq<BookingData>)
    ensures |r| == |s.bookings|
    ensures r == BookingService.FindAll(s)
    ensures forall i | 0 <= i < |r| :: r[i] == BookingMapper.Domain(s.bookings[i])
  {
    BookingService.FindAll(s)
  }

  /** `getBookingsByRoomId`: the room must be stored; then its bookings. */
  function GetBookingsByRoomId(s: State, roomId: Option<string>): (r: Result<seq<BookingData>>)
    ensures !HasText(roomId) ==> r == Err(RequireNonBlank(roomId, "room id").error)
    ensures HasText(roomId) && !HasRoom(s, roomId.value) ==> r == Err(Invalid("room not found: " + roomId.value))
    ensures r.Ok? <==> HasText(roomId) && HasRoom(s, roomId.value)
    ensures r.Ok? ==> r == BookingService.FindAllByRoomId(s, roomId)
  {
    var _ :- RequireNonBlank(roomId, "room id");
    var _ :- RequireRoomExists(s, roomId);
    BookingService.FindAllByRoomId(s, roomId)
  }

  /** `getBookingsByGuestId`: the guest must be stored; then its bookings. */
  function GetBookingsByGuestId(s: State, guestId: Option<string>): (r: Result<seq<BookingData>>)
    ensures !HasText(guestId) ==> r == Err(RequireNonBlank(guestId, "guest id").error)
    ensures HasText(guestId) && !HasGuest(s, guestId.value) ==> r == Err(Invalid("guest not found: " + guestId.value))
    ensures r.Ok? <==> HasText(guestId) && HasGuest(s, guestId.value)
    ensures r.Ok? ==> r == BookingService.FindAllByGuestId(s, guestId)
  {
    var _ :- RequireNonBlank(guestId, "guest id");
    var _ :- RequireGuestExists(s, guestId);
    BookingService.FindAllByGuestId(s, guestId)
  }

  /** `getBookingsByHotelId`: the hotel must be stored; then the bookings of its rooms. */
  function GetBookingsByHotelId(s: State, hotelId: Option<string>): (r: Result<seq<BookingData>>)
    ensures !HasText(hotelId) ==> r == Err(RequireNonBlank(hotelId, "hotel id").error)
    ensures HasText(hotelId) && !HasHotel(s, hotelId.value) ==> r == Err(Invalid("hotel not found: " + hotelId.value))
    ensures r.Ok? <==> HasText(hotelId) && HasHotel(s, hotelId.value)
    ensures r.Ok? ==> r == BookingService.FindAllByHotelId(s, hotelId)
  {
    var _ :- RequireNonBlank(hotelId, "hotel id");
    var _ :- RequireHotelExists(s, hotelId);
    BookingService.FindAllByHotelId(s, hotelId)
  }

  /** The checks of `updateBooking`, in their order; the booking under the given id when all pass. */
  function UpdateChecks(s: State, id: Option<string>, booking: Option<BookingData>): (r: Result<BookingData>)
    ensures r.Ok? <==> HasText(id) && booking.Some? && HasBooking(s, id.value) && Storable(s, booking.value.(id := id))
    ensures r.Ok? ==> r.value == booking.value.(id := id)
  {
    var key :- RequireNonBlank(id, "booking id");
    var b :- RequireNonNull(booking, "booking");
    var _ :- RequireNonBlank(b.roomId, "room id");
    var _ :- RequireNonBlank(b.guestId, "guest id");
    var _ :- RequireBookingExists(s, id);
    var _ :- RequireGuestExists(s, b.guestId);
    var _ :- RequireRoomExists(s, b.roomId);
    var _ :- ValidateDates(b.checkIn, b.checkOut);
    Ok(b.(id := id))
  }

  /** The error `updateBooking` reports is the one of the first check that fails; the id of the booking itself is never checked. */
  lemma UpdateCheckOrder(s: State, id: Option<string>, b: BookingData)
    ensures !HasText(id) ==> UpdateChecks(s, id, Some(b)) == Err(RequireNonBlank(id, "booking id").error)
    ensures HasText(id) ==> UpdateChecks(s, id, None) == Err(Absent(NullMessage("booking")))
    ensures HasText(id) && !HasText(b.roomId) ==>
      UpdateChecks(s, id, Some(b)) == Err(RequireNonBlank(b.roomId, "room id").error)
    ensures HasText(id) && HasText(b.roomId) && !HasText(b.guestId) ==>
      UpdateChecks(s, id, Some(b)) == Err(RequireNonBlank(b.guestId, "guest id").error)
    ensures HasText(id) && HasText(b.roomId) && HasText(b.guestId) && !HasBooking(s, id.value) ==>
      UpdateChecks(s, id, Some(b)) == Err(Invalid("booking not found: " + id.value))
    ensures (&& HasText(id) && HasText(b.roomId) && HasText(b.guestId) && HasBooking(s, id.value)
             && !HasGuest(s, b.guestId.value)) ==>
      UpdateChecks(s, id, Some(b)) == Err(Invalid("guest not found: " + b.guestId.value))
    ensures (&& HasText(id) && HasText(b.roomId) && HasText(b.guestId) && HasBooking(s, id.value)
             && HasGuest(s, b.guestId.value) && !HasRoom(s, b.roomId.value)) ==>
      UpdateChecks(s, id, Some(b)) == Err(Invalid("room not found: " + b.roomId.value))
    ensures (&& HasText(id) && HasText(b.roomId) && HasText(b.guestId) && HasBooking(s, id.value)
             && HasGuest(s, b.guestId.value) && HasRoom(s, b.roomId.value)
             && ValidateDates(b.checkIn, b.checkOut).Err?) ==>
      UpdateChecks(s, id, Some(b)) == Err(ValidateDates(b.checkIn, b.checkOut).error)
    ensures UpdateChecks(s, id, Some(b)) == UpdateChecks(s, id, Some(b.(id := None)))
  {
  }

  /** `updateBooking`: the checks, then the booking is given the id and saved; a failed check stores nothing. */
  function UpdateBooking(s: State, id: Option<string>, booking: Option<BookingData>): (o: Outcome<BookingData>)
    ensures o.result.Ok? <==> UpdateChecks(s, id, booking).Ok?
    ensures o.result.Err? ==> o == Outcome(Err(UpdateChecks(s, id, booking).error), s)
    ensures o.result.Ok? ==> o == BookingService.Save(s, Some(booking.value.(id := id)))
  {
    match UpdateChecks(s, id, booking)
    case Err(e) => Outcome(Err(e), s)
    case Ok(b) => BookingService.Save(s, Some(b))
  }

  /** An update replaces the stored booking: no row is added, and the id now finds the new values. */
  lemma UpdateBookingReplaces(s: State, id: string, b: BookingData)
    requires Valid(s) && UpdateChecks(s, Some(id), Some(b)).Ok?
    ensures Valid(UpdateBooking(s, Some(id), Some(b)).after)
    ensures |UpdateBooking(s, Some(id), Some(b)).after.bookings| == |s.bookings|
    ensures BookingService.FindById(UpdateBooking(s, Some(id), Some(b)).after, Some(id))
         == Ok(Some(UpdateBooking(s, Some(id), Some(b)).result.value))
  {
    BookingService.SaveThenFind(s, b.(id := Some(id)), id);
  }

  /** `updateBooking` keeps the stores consistent. */
  lemma UpdateBookingKeepsIntegrity(s: State, id: Option<string>, booking: Option<BookingData>)
    requires Integrity(s)
    ensures Integrity(UpdateBooking(s, id, booking).after)
  {
    if UpdateChecks(s, id, booking).Ok? {
      StoringKeepsIntegrity(s, booking.value.(id := id));
    }
  }

  /** `deleteBooking`: the guarded deletion of the booking service. */
  function DeleteBooking(s: State, id: Option<string>): (o: Outcome<bool>)
    ensures !HasText(id) ==> o == Outcome(Err(RequireNonBlank(id, "booking id").error), s)
    ensures HasText(id) ==> o == BookingService.DeleteById(s, id)
  {
    match RequireNonBlank(id, "booking id")
    case Err(e) => Outcome(Err(e), s)
    case Ok(_) => BookingService.DeleteById(s, id)
  }

  /** `deleteBookingsByGuestId`: the guest must be stored; then all its bookings are deleted and counted. */
  function DeleteBookingsByGuestId(s: State, guestId: Option<string>): (o: Outcome<int>)
    ensures !HasText(guestId) ==> o == Outcome(Err(RequireNonBlank(guestId, "guest id").error), s)
    ensures HasText(guestId) && !HasGuest(s, guestId.value) ==>
      o == Outcome(Err(Invalid("guest not found: " + guestId.value)), s)
    ensures HasText(guestId) && HasGuest(s, guestId.value) ==> o == BookingService.DeleteByGuestId(s, guestId)
  {
    match RequireNonBlank(guestId, "guest id")
    case Err(e) => Outcome(Err(e), s)
    case Ok(_) =>
      match RequireGuestExists(s, guestId)
      case Err(e) => Outcome(Err(e), s)
      case Ok(_) => BookingService.DeleteByGuestId(s, guestId)
  }

  /** `deleteBookingsByRoomId`: the room must be stored; then all its bookings are deleted and counted. */
  function DeleteBookingsByRoomId(s: State, roomId: Option<string>): (o: Outcome<int>)
    ensures !HasText(roomId) ==> o == Outcome(Err(RequireNonBlank(roomId, "room id").error), s)
    ensures HasText(roomId) && !HasRoom(s, roomId.value) ==>
      o == Outcome(Err(Invalid("room not found: " + roomId.value)), s)
    ensures HasText(roomId) && HasRoom(s, roomId.value) ==> o == BookingService.DeleteByRoomId(s, roomId)
  {
    match RequireNonBlank(roomId, "room id")
    case Err(e) => Outcome(Err(e), s)
    case Ok(_) =>
      match RequireRoomExists(s, roomId)
      case Err(e) => Outcome(Err(e), s)
      case Ok(_) => BookingService.DeleteByRoomId(s, roomId)
  }

  /** Removing bookings never breaks a reference, since no row refers to a booking. */
  lemma DropBookingsKeepsIntegrity(s: State, kept: seq<BookingEntity>)
    requires Integrity(s)
    requires forall e | e in kept :: e in s.bookings
    ensures Integrity(s.(bookings := kept))
  {
    var after := s.(bookings := kept);
    forall e | e in kept
      ensures RoomResolves(after, e.room) && GuestResolves(after, e.guest)
    {
      assert e in s.bookings;
    }
  }

  /** Every deletion of the booking rules keeps the stores consistent. */
  lemma DeletionsKeepIntegrity(s: State, id: Option<string>)
    requires Integrity(s)
    ensures Integrity(DeleteBooking(s, id).after)
    ensures Integrity(DeleteBookingsByGuestId(s, id).after)
    ensures Integrity(DeleteBookingsByRoomId(s, id).after)
  {
    if HasText(id) {
      DropBookingsKeepsIntegrity(s, Remove(s.bookings, BookingKey, id.value));
      DropBookingsKeepsIntegrity(s, Reject(s.bookings, BookingOfGuest, id.value));
      DropBookingsKeepsIntegrity(s, Reject(s.bookings, BookingOfRoom, id.value));
    }
  }
}

/** The booking rules object, which runs its checks on the shared repositories and writes through the booking service. */
module BookingDomainImpl {
  import opened Wrappers
  import opened Guard
  import opened Records
  import opened Storage
  import BookingDomain
  import BookingServiceImpl
  import RoomServiceImpl
  import GuestServiceImpl
  import HotelServiceImpl

  class BookingDomainImpl {
    const bookingService: BookingServiceImpl.BookingServiceImpl
    const roomService: RoomServiceImpl.RoomServiceImpl
    const guestService: GuestServiceImpl.GuestServiceImpl
    const hotelService: HotelServiceImpl.HotelServiceImpl

    /** All four services work on the same repositories. */
    predicate Wired() {
      && roomService.repos == bookingService.repos
      && guestService.repos == bookingService.repos
      && hotelService.repos == bookingService.repos
    }

    constructor (bookingService: BookingServiceImpl.BookingServiceImpl, roomService: RoomServiceImpl.RoomServiceImpl,
                 guestService: GuestServiceImpl.GuestServiceImpl, hotelService: HotelServiceImpl.HotelServiceImpl)
      ensures this.bookingService == bookingService && this.roomService == roomService
      ensures this.guestService == guestService && this.hotelService == hotelService
    {
      this.bookingService := bookingService;
      this.roomService := roomService;
      this.guestService := guestService;
      this.hotelService := hotelService;
    }

    /** What the shared repositories hold now. */
    function Stores(): State
      reads bookingService.repos
    {
      bookingService.repos.Contents()
    }

    method CreateBooking(booking: Booking?) returns (r: Result<BookingData>)
      requires Wired()
      modifies bookingService.repos
      ensures Outcome(r, Stores()) == BookingDomain.CreateBooking(old(Stores()), BookingOf(booking))
    {
      var checked :- BookingDomain.CreateChecks(Stores(), BookingOf(booking));
      r := bookingService.Save(booking);
    }

    /** `updateBooking`, which also gives the caller's booking object the id, once the checks have passed. */
    method UpdateBooking(id: Option<string>, booking: Booking?) returns (r: Result<BookingData>)
      requires Wired()
      modifies bookingService.repos, booking
      ensures Outcome(r, Stores()) == BookingDomain.UpdateBooking(old(Stores()), id, old(BookingOf(booking)))
      ensures booking != null ==> booking.Data() == if r.Ok? then old(booking.Data()).(id := id) else old(booking.Data())
    {
      var checked :- BookingDomain.UpdateChecks(Stores(), id, BookingOf(booking));
      booking.SetId(id);
      r := bookingService.Save(booking);
    }

    method DeleteBooking(id: Option<string>) returns (r: Result<bool>)
      requires Wired()
      modifies bookingService.repos
      ensures Outcome(r, Stores()) == BookingDomain.DeleteBooking(old(Stores()), id)
    {
      var _ :- RequireNonBlank(id, "booking id");
      r := bookingService.DeleteById(id);
    }

    method DeleteBookingsByGuestId(guestId: Option<string>) returns (r: Result<int>)
      requires Wired()
      modifies bookingService.repos
      ensures Outcome(r, Stores()) == BookingDomain.DeleteBookingsByGuestId(old(Stores()), guestId)
    {
      var _ :- RequireNonBlank(guestId, "guest id");
      var _ :- BookingDomain.RequireGuestExists(Stores(), guestId);
      r := bookingService.DeleteByGuestId(guestId);
    }

    method DeleteBookingsByRoomId(roomId: Option<string>) returns (r: Result<int>)
      requires Wired()
      modifies bookingService.repos
      ensures Outcome(r, Stores()) == BookingDomain.DeleteBookingsByRoomId(old(Stores()), roomId)
    {
      var _ :- RequireNonBlank(roomId, "room id");
      var _ :- BookingDomain.RequireRoomExists(Stores(), roomId);
      r := bookingService.DeleteByRoomId(roomId);
    }
  }
}
