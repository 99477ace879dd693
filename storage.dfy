/**
 * The two stores behind the services: the relational tables hotel, room,
 * guest and booking, and the document collection of guest preferences.
 * Each table is the sequence of its rows in repository order. The derived
 * queries of the repositories (`findByRoomId`, `findByHotel_Id`,
 * `findByRoomHotelId`, …) are the predicates below.
 */
module Storage {
  import opened Wrappers
  import opened Guard
  import opened Entities
  import opened Tables

  /** The contents of both stores at one moment. */
  datatype State = State(
    hotels: seq<HotelEntity>, rooms: seq<RoomEntity>, guests: seq<GuestEntity>,
    bookings: seq<BookingEntity>, preferences: seq<PreferencesDocument>)

  /** A result together with the stores as the operation left them. */
  datatype Outcome<+T> = Outcome(result: Result<T>, after: State)

  const Empty: State := State([], [], [], [], [])

  /** Every table is keyed by its primary key (the guest id for preference documents). */
  ghost predicate Valid(s: State) {
    && Keyed(s.hotels, HotelKey) && Keyed(s.rooms, RoomKey) && Keyed(s.guests, GuestKey)
    && Keyed(s.bookings, BookingKey) && Keyed(s.preferences, DocumentKey)
  }

  predicate HasHotel(s: State, id: string) { Has(s.hotels, HotelKey, id) }
  predicate HasRoom(s: State, id: string) { Has(s.rooms, RoomKey, id) }
  predicate HasGuest(s: State, id: string) { Has(s.guests, GuestKey, id) }
  predicate HasBooking(s: State, id: string) { Has(s.bookings, BookingKey, id) }
  predicate HasPreferences(s: State, guestId: string) { Has(s.preferences, DocumentKey, guestId) }

  /** `findByRoomId`: the booking row points to that room. */
  predicate BookingOfRoom(e: BookingEntity, roomId: string) {
    e.room.Some? && e.room.value.id == Some(roomId)
  }

  /** `findByGuestId`: the booking row points to that guest. */
  predicate BookingOfGuest(e: BookingEntity, guestId: string) {
    e.guest.Some? && e.guest.value.id == Some(guestId)
  }

  /** `findByHotel_Id`: the room row points to that hotel. */
  predicate RoomOfHotel(e: RoomEntity, hotelId: string) {
    e.hotel.Some? && e.hotel.value.id == Some(hotelId)
  }

  /** `findByHotel_IdAndType`: the room row points to that hotel and has exactly that type. */
  predicate RoomOfHotelAndType(e: RoomEntity, query: (string, string)) {
    RoomOfHotel(e, query.0) && e.roomType == Some(query.1)
  }

  /** `findByHotelName`: the hotel row has exactly that name. */
  predicate HotelNamed(e: HotelEntity, name: string) {
    e.hotelName == Some(name)
  }

  /** `findByRoomHotelId`: the booking's room is a stored room of that hotel (an inner join through the room table). */
  predicate BookingInHotel(e: BookingEntity, query: (seq<RoomEntity>, string)) {
    e.room.Some? && e.room.value.id.Some?
    && exists r | r in query.0 :: r.id == e.room.value.id && RoomOfHotel(r, query.1)
  }

  /** A reference that names a stored row. */
  predicate RoomResolves(s: State, ref: Option<RoomRef>) {
    ref.Some? && ref.value.id.Some? && HasRoom(s, ref.value.id.value)
  }

  predicate GuestResolves(s: State, ref: Option<GuestRef>) {
    ref.Some? && ref.value.id.Some? && HasGuest(s, ref.value.id.value)
  }

  predicate HotelResolves(s: State, ref: Option<HotelRef>) {
    ref.Some? && ref.value.id.Some? && HasHotel(s, ref.value.id.value)
  }

  /**
   * Referential integrity across both stores: every booking points to a
   * stored room and a stored guest, every room to a stored hotel, and every
   * preferences document belongs to a stored guest.
   */
  ghost predicate Integrity(s: State) {
    && (forall e | e in s.bookings :: RoomResolves(s, e.room) && GuestResolves(s, e.guest))
    && (forall e | e in s.rooms :: HotelResolves(s, e.hotel))
    && (forall d | d in s.preferences :: d.guestId.Some? && HasGuest(s, d.guestId.value))
  }

  /** The empty stores are valid and consistent. */
  lemma EmptyIsConsistent()
    ensures Valid(Empty) && Integrity(Empty)
  {
  }

  /** The repositories of the application: one mutable field per table. */
  class Repositories {
    var hotels: seq<HotelEntity>
    var rooms: seq<RoomEntity>
    var guests: seq<GuestEntity>
    var bookings: seq<BookingEntity>
    var preferences: seq<PreferencesDocument>

    /** What the tables hold now. */
    function Contents(): State
      reads this
    {
      State(hotels, rooms, guests, bookings, preferences)
    }

    constructor ()
      ensures Contents() == Empty
    {
      hotels, rooms, guests, bookings, preferences := [], [], [], [], [];
    }
  }
}
