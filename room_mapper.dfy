/**
 * The room mapper (mapper/jpa/RoomMapper.java and the implementation
 * generated from it): the hotel id of a room becomes a reference to a hotel
 * row, and the reference becomes the id it points to.
 */
module RoomMapper {
  import opened Wrappers
  import opened Guard
  import opened Records
  import opened Entities

  /** `map(String)`: no hotel for a null or blank id, otherwise a reference to that id. */
  function MapHotelId(hotelId: Option<string>): (r: Option<HotelRef>)
    ensures r.None? <==> !HasText(hotelId)
    ensures r.Some? ==> r.value.id == hotelId
  {
    if hotelId.None? || Blank(hotelId.value) then None else Some(HotelRef(hotelId))
  }

  /** `map(HotelEntity)`: null for no hotel, otherwise the hotel's id. */
  function MapHotel(hotel: Option<HotelRef>): (id: Option<string>)
    ensures hotel.None? ==> id.None?
    ensures hotel.Some? ==> id == hotel.value.id
  {
    if hotel.Some? then hotel.value.id else None
  }

  /** `entityHotelId`: the id of the referenced hotel, null when the room, the reference or its id is null. */
  function EntityHotelId(entity: Option<RoomEntity>): (id: Option<string>)
    ensures id.Some? <==> entity.Some? && entity.value.hotel.Some? && entity.value.hotel.value.id.Some?
    ensures id.Some? ==> id == entity.value.hotel.value.id
  {
    match entity
    case None => None
    case Some(e) =>
      match e.hotel
      case None => None
      case Some(hotel) => hotel.id
  }

  /** `toEntity`: null to null; otherwise id, number, type and price copied, hotel through `map(String)`. */
  function ToEntity(domain: Option<RoomData>): (entity: Option<RoomEntity>)
    ensures entity.Some? <==> domain.Some?
    ensures entity.Some? ==>
      && entity.value.id == domain.value.id && entity.value.number == domain.value.number
      && entity.value.roomType == domain.value.roomType
      && entity.value.pricePerNight == domain.value.pricePerNight
      && (entity.value.hotel.Some? <==> HasText(domain.value.hotelId))
  {
    match domain
    case None => None
    case Some(r) => Some(RoomEntity(r.id, r.number, r.roomType, r.pricePerNight, MapHotelId(r.hotelId)))
  }

  /** `toDomain`: null to null; otherwise the same fields copied, the hotel id read through the reference. */
  function ToDomain(entity: Option<RoomEntity>): (domain: Option<RoomData>)
    ensures domain.Some? <==> entity.Some?
    ensures domain.Some? ==>
      && domain.value.id == entity.value.id && domain.value.number == entity.value.number
      && domain.value.roomType == entity.value.roomType
      && domain.value.pricePerNight == entity.value.pricePerNight
      && domain.value.hotelId == MapHotel(entity.value.hotel)
  {
    match entity
    case None => None
    case Some(e) => Some(RoomData(e.id, e.number, e.roomType, e.pricePerNight, EntityHotelId(entity)))
  }

  /** `toDomain` of a row that is known to be there. */
  function Domain(e: RoomEntity): RoomData {
    ToDomain(Some(e)).value
  }

  /** The generated null-safe extraction agrees with the declared `map(HotelEntity)`. */
  lemma ExtractionAgrees(e: RoomEntity)
    ensures EntityHotelId(Some(e)) == MapHotel(e.hotel)
  {
  }

  /** A room comes back from storage unchanged, except that a blank hotel id comes back null. */
  lemma RoundTrip(r: RoomData)
    ensures ToDomain(ToEntity(Some(r))) == Some(r.(hotelId := Kept(r.hotelId)))
    ensures ToDomain(ToEntity(Some(r))) == Some(r) <==> r.hotelId.None? || HasText(r.hotelId)
  {
  }

  /** A row is rebuilt exactly from its room when its hotel reference, if any, carries an id with text. */
  lemma EntityRoundTrip(e: RoomEntity)
    ensures ToEntity(ToDomain(Some(e))) == Some(e) <==> e.hotel.None? || HasText(e.hotel.value.id)
  {
  }

  /** Null maps to null in both directions. */
  lemma NullMapsToNull()
    ensures ToEntity(None) == None && ToDomain(None) == None
  {
  }
}
