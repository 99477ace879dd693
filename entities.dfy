/**
 * The stored forms of the records: rows of the relational tables hotel,
 * room, guest and booking, and documents of the guest-preferences
 * collection. A row that refers to another row holds only its key, as the
 * join column does.
 */
module Entities {
  import opened Wrappers
  import opened Records

  datatype HotelEntity = HotelEntity(id: Option<string>, hotelName: Option<string>, address: Option<string>)

  /** The hotel a room row points to, by key. */
  datatype HotelRef = HotelRef(id: Option<string>)

  datatype RoomEntity = RoomEntity(
    id: Option<string>, number: Option<string>, roomType: Option<string>,
    pricePerNight: Double, hotel: Option<HotelRef>)

  /** The room a booking row points to, by key. */
  datatype RoomRef = RoomRef(id: Option<string>)

  /** The guest a booking row points to, by key. */
  datatype GuestRef = GuestRef(id: Option<string>)

  datatype GuestEntity = GuestEntity(id: Option<string>, name: Option<string>, email: Option<string>, phone: Option<string>)

  datatype BookingEntity = BookingEntity(
    id: Option<string>, room: Option<RoomRef>, guest: Option<GuestRef>,
    checkIn: Option<string>, checkOut: Option<string>)

  /** A document of the preferences collection, whose key is the guest id. */
  datatype PreferencesDocument = PreferencesDocument(
    guestId: Option<string>, prefersSmokingRoom: bool,
    bedTypePreference: Option<string>, needsAccessibilityFeatures: bool)

  function HotelKey(e: HotelEntity): Option<string> { e.id }
  function RoomKey(e: RoomEntity): Option<string> { e.id }
  function GuestKey(e: GuestEntity): Option<string> { e.id }
  function BookingKey(e: BookingEntity): Option<string> { e.id }
  function DocumentKey(d: PreferencesDocument): Option<string> { d.guestId }
}
