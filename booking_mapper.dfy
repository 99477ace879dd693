/**
 * The booking mapper (mapper/jpa/BookingMapper.java and the implementation
 * generated from it): the room and guest ids of a booking become references
 * to rows, and a reference becomes the id it points to.
 */
module BookingMapper {
  import opened Wrappers
  import opened Guard
  import opened Records
  import opened Entities

  /** `mapRoom`: no reference for a null or blank id, otherwise a reference to that id. */
  function MapRoom(roomId: Option<string>): (r: Option<RoomRef>)
    ensures r.None? <==> !HasText(roomId)
    ensures r.Some? ==> r.value.id == roomId
  {
    if roomId.None? || Blank(roomId.value) then None else Some(RoomRef(roomId))
  }

  /** `mapGuest`: no reference for a null or blank id, otherwise a reference to that id. */
  function MapGuest(guestId: Option<string>): (r: Option<GuestRef>)
    ensures r.None? <==> !HasText(guestId)
    ensures r.Some? ==> r.value.id == guestId
  {
    if guestId.None? || Blank(guestId.value) then None else Some(GuestRef(guestId))
  }

  /** `entityRoomId`: the id of the referenced room, null when the booking, the reference or its id is null. */
  function EntityRoomId(entity: Option<BookingEntity>): (id: Option<string>)
    ensures id.Some? <==> entity.Some? && entity.value.room.Some? && entity.value.room.value.id.Some?
    ensures id.Some? ==> id == entity.value.room.value.id
  {
    match entity
    case None => None
    case Some(e) =>
      match e.room
      case None => None
      case Some(room) => room.id
  }

  /** `entityGuestId`: the id of the referenced guest, null when the booking, the reference or its id is null. */
  function EntityGuestId(entity: Option<BookingEntity>): (id: Option<string>)
    ensures id.Some? <==> entity.Some? && entity.value.guest.Some? && entity.value.guest.value.id.Some?
    ensures id.Some? ==> id == entity.value.guest.value.id
  {
    match entity
    case None => None
    case Some(e) =>
      match e.guest
      case None => None
      case Some(guest) => guest.id
  }

  /** `toEntity`: null to null; otherwise id and dates copied, room and guest through `mapRoom`/`mapGuest`. */
  function ToEntity(domain: Option<BookingData>): (entity: Option<BookingEntity>)
    ensures entity.Some? <==> domain.Some?
    ensures entity.Some? ==>
      && entity.value.id == domain.value.id
      && entity.value.checkIn == domain.value.checkIn && entity.value.checkOut == domain.value.checkOut
      && (entity.value.room.Some? <==> HasText(domain.value.roomId))
      && (entity.value.guest.Some? <==> HasText(domain.value.guestId))
  {
    match domain
    case None => None
    case Some(b) => Some(BookingEntity(b.id, MapRoom(b.roomId), MapGuest(b.guestId), b.checkIn, b.checkOut))
  }

  /** `toDomain`: null to null; otherwise id and dates copied, room and guest ids read through the references. */
  function ToDomain(entity: Option<BookingEntity>): (domain: Option<BookingData>)
    ensures domain.Some? <==> entity.Some?
    ensures domain.Some? ==>
      && domain.value.id == entity.value.id
      && domain.value.checkIn == entity.value.checkIn && domain.value.checkOut == entity.value.checkOut
      && domain.value.roomId == EntityRoomId(entity) && domain.value.guestId == EntityGuestId(entity)
  {
    match entity
    case None => None
    case Some(e) => Some(BookingData(e.id, EntityRoomId(entity), EntityGuestId(entity), e.checkIn, e.checkOut))
  }

  /** `toDomain` of a row that is known to be there. */
  function Domain(e: BookingEntity): BookingData {
    ToDomain(Some(e)).value
  }

  /** A booking comes back from storage unchanged, except that a blank room or guest id comes back null. */
  lemma RoundTrip(b: BookingData)
    ensures ToDomain(ToEntity(Some(b))) == Some(b.(roomId := Kept(b.roomId), guestId := Kept(b.guestId)))
    ensures ToDomain(ToEntity(Some(b))) == Some(b) <==>
      (b.roomId.None? || HasText(b.roomId)) && (b.guestId.None? || HasText(b.guestId))
  {
  }

  /** A row is rebuilt exactly from its booking when every reference it holds carries an id with text. */
  lemma EntityRoundTrip(e: BookingEntity)
    ensures ToEntity(ToDomain(Some(e))) == Some(e) <==>
      && (e.room.None? || HasText(e.room.value.id))
      && (e.guest.None? || HasText(e.guest.value.id))
  {
  }

  /** Null maps to null in both directions. */
  lemma NullMapsToNull()
    ensures ToEntity(None) == None && ToDomain(None) == None
  {
  }
}
