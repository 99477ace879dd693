/** The hotel mapper (the implementation generated from mapper/jpa/HotelMapper.java): a plain field copy. */
module HotelMapper {
  import opened Wrappers
  import opened Records
  import opened Entities

  /** `toEntity`: null to null; otherwise id, name and address copied. */
  function ToEntity(domain: Option<HotelData>): (entity: Option<HotelEntity>)
    ensures entity.Some? <==> domain.Some?
    ensures entity.Some? ==>
      && entity.value.id == domain.value.id && entity.value.hotelName == domain.value.hotelName
      && entity.value.address == domain.value.address
  {
    match domain
    case None => None
    case Some(h) => Some(HotelEntity(h.id, h.hotelName, h.address))
  }

  /** `toDomain`: null to null; otherwise id, name and address copied. */
  function ToDomain(entity: Option<HotelEntity>): (domain: Option<HotelData>)
    ensures domain.Some? <==> entity.Some?
    ensures domain.Some? ==>
      && domain.value.id == entity.value.id && domain.value.hotelName == entity.value.hotelName
      && domain.value.address == entity.value.address
  {
    match entity
    case None => None
    case Some(e) => Some(HotelData(e.id, e.hotelName, e.address))
  }

  /** `toDomain` of a row that is known to be there. */
  function Domain(e: HotelEntity): HotelData {
    ToDomain(Some(e)).value
  }

  /** Both round trips are the identity, null included. */
  lemma RoundTrips(h: Option<HotelData>, e: Option<HotelEntity>)
    ensures ToDomain(ToEntity(h)) == h
    ensures ToEntity(ToDomain(e)) == e
  {
  }
}
