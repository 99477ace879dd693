/**
 * The hotel rules (domain/impl/HotelDomainImpl.java): creation is
 * idempotent on the id, an update replaces an existing hotel, and a
 * deletion only checks the id: it neither looks at the rooms of the hotel
 * nor removes them. Unlike the other rules, the hotel rules write their
 * null and blank checks by hand, and a null id at creation is reported as
 * a blank one.
 */
module HotelDomain {
  import opened Wrappers
  import opened Guard
  import opened Records
  import opened Entities
  import opened Tables
  import opened Storage
  import HotelMapper
  import HotelService

  /** The checks of `createHotel`, in their order; they read no store. */
  function CreateChecks(hotel: Option<HotelData>): (r: Result<HotelData>)
    ensures r.Ok? <==> hotel.Some? && HasText(hotel.value.id) && HasText(hotel.value.hotelName)
    ensures r.Ok? ==> r.value == hotel.value
    ensures hotel.None? ==> r == Err(Absent("hotel must not be null"))
    ensures hotel.Some? && !HasText(hotel.value.id) ==> r == Err(Invalid("hotel id must not be blank"))
    ensures hotel.Some? && HasText(hotel.value.id) && !HasText(hotel.value.hotelName) ==>
      r == Err(Invalid("hotel name must not be blank"))
  {
    if hotel.None? then Err(Absent("hotel must not be null"))
    else if !HasText(hotel.value.id) then Err(Invalid("hotel id must not be blank"))
    else if !HasText(hotel.value.hotelName) then Err(Invalid("hotel name must not be blank"))
    else Ok(hotel.value)
  }

  /** A null id at creation is reported with the invalid kind, where the shared guard would report the absent kind. */
  lemma CreateNullIdIsInvalid(h: HotelData)
    requires h.id.None?
    ensures CreateChecks(Some(h)).error.Invalid?
    ensures RequireNonBlank(h.id, "hotel id").error.Absent?
  {
  }

  /**
   * `createHotel`: the checks; then the hotel stored under that id is
   * returned and nothing is saved, or, for a new id, the hotel is saved.
   */
  function CreateHotel(s: State, hotel: Option<HotelData>): (o: Outcome<HotelData>)
    ensures o.result.Ok? <==> CreateChecks(hotel).Ok?
    ensures o.result.Err? ==> o == Outcome(Err(CreateChecks(hotel).error), s)
    ensures o.result.Ok? && HasHotel(s, hotel.value.id.value) ==>
      o == Outcome(Ok(HotelMapper.Domain(Find(s.hotels, HotelKey, hotel.value.id.value).value)), s)
    ensures o.result.Ok? && !HasHotel(s, hotel.value.id.value) ==> o == HotelService.Save(s, hotel)
  {
    match CreateChecks(hotel)
    case Err(e) => Outcome(Err(e), s)
    case Ok(h) =>
      match HotelService.FindById(s, h.id).value
      case Some(found) => Outcome(Ok(found), s)
      case None => HotelService.Save(s, Some(h))
  }

  /**
   * Creating a hotel twice is creating it once: the hotel returned is the
   * one stored under its id, and a second creation returns it again and
   * changes nothing.
   */
  lemma CreateHotelIdempotent(s: State, h: HotelData)
    requires Valid(s) && CreateChecks(Some(h)).Ok?
    ensures Valid(CreateHotel(s, Some(h)).after)
    ensures HotelService.FindById(CreateHotel(s, Some(h)).after, h.id) == Ok(Some(CreateHotel(s, Some(h)).result.value))
    ensures CreateHotel(CreateHotel(s, Some(h)).after, Some(h)) == Outcome(CreateHotel(s, Some(h)).result, CreateHotel(s, Some(h)).after)
  {
    var o := CreateHotel(s, Some(h));
    if !HasHotel(s, h.id.value) {
      HotelService.SaveThenFind(s, h, h.id.value);
    }
  }

  /** Creating a hotel only ever adds a hotel, so the stores stay consistent. */
  lemma CreateHotelKeepsIntegrity(s: State, hotel: Option<HotelData>)
    requires Integrity(s)
    ensures Integrity(CreateHotel(s, hotel).after)
  {
    var o := CreateHotel(s, hotel);
    if o.result.Ok? && !HasHotel(s, hotel.value.id.value) {
      var row := HotelMapper.ToEntity(hotel).value;
      forall e | e in o.after.rooms
        ensures HotelResolves(o.after, e.hotel)
      {
        UpsertHas(s.hotels, HotelKey, row, e.hotel.value.id.value);
      }
    }
  }

  /** `getHotelById`: null and blank ids are refused, then the lookup of the hotel service. */
  function GetHotelById(s: State, id: Option<string>): (r: Result<Option<HotelData>>)
    ensures id.None? ==> r == Err(Absent("hotel id must not be null"))
    ensures id.Some? && Blank(id.value) ==> r == Err(Invalid("hotel id must not be blank"))
    ensures HasText(id) ==> r.Ok? && (r.value.Some? <==> HasHotel(s, id.value))
    ensures r.Ok? && r.value.Some? ==> r.value.value.id == id && HotelMapper.ToEntity(r.value) == Find(s.hotels, HotelKey, id.value)
  {
    if id.None? then Err(Absent("hotel id must not be null"))
    else if Blank(id.value) then Err(Invalid("hotel id must not be blank"))
    else HotelService.FindById(s, id)
  }

  /** `getAllHotels`: every stored hotel, in repository order. */
  function GetAllHotels(s: State): (r: seq<HotelData>)
    ensures |r| == |s.hotels|
    ensures forall i | 0 <= i < |r| :: HotelMapper.ToEntity(Some(r[i])) == Some(s.hotels[i])
  {
    HotelService.FindAll(s)
  }

  /** The checks of `updateHotel`, in their order; the hotel under the given id when all pass. */
  function UpdateChecks(s: State, id: Option<string>, hotel: Option<HotelData>): (r: Result<HotelData>)
    ensures r.Ok? <==> HasText(id) && hotel.Some? && HasText(hotel.value.hotelName) && HasHotel(s, id.value)
    ensures r.Ok? ==> r.value == hotel.value.(id := id)
  {
    if id.None? then Err(Absent("hotel id must not be null"))
    else if hotel.None? then Err(Absent("hotel must not be null"))
    else if Blank(id.value) then Err(Invalid("hotel id must not be blank"))
    else if !HasText(hotel.value.hotelName) then Err(Invalid("hotel name must not be blank"))
    else if !HotelService.ExistsById(s, id).value then Err(Invalid("hotel not found: " + id.value))
    else Ok(hotel.value.(id := id))
  }

  /**
   * The error `updateHotel` reports is the one of the first check that
   * fails: a null hotel is reported before a blank id, and the hotel's own
   * id is never read.
   */
  lemma UpdateCheckOrder(s: State, id: string, h: HotelData)
    ensures UpdateChecks(s, None, Some(h)) == Err(Absent("hotel id must not be null"))
    ensures UpdateChecks(s, None, None) == Err(Absent("hotel id must not be null"))
    ensures UpdateChecks(s, Some(id), None) == Err(Absent("hotel must not be null"))
    ensures Blank(id) ==> UpdateChecks(s, Some(id), Some(h)) == Err(Invalid("hotel id must not be blank"))
    ensures !Blank(id) && !HasText(h.hotelName) ==> UpdateChecks(s, Some(id), Some(h)) == Err(Invalid("hotel name must not be blank"))
    ensures !Blank(id) && HasText(h.hotelName) && !HasHotel(s, id) ==>
      UpdateChecks(s, Some(id), Some(h)) == Err(Invalid("hotel not found: " + id))
    ensures UpdateChecks(s, Some(id), Some(h)) == UpdateChecks(s, Some(id), Some(h.(id := None)))
  {
  }

  /** `updateHotel`: the checks; then the hotel gets the id and is saved. */
  function UpdateHotel(s: State, id: Option<string>, hotel: Option<HotelData>): (o: Outcome<HotelData>)
    ensures o.result.Ok? <==> UpdateChecks(s, id, hotel).Ok?
    ensures o.result.Err? ==> o == Outcome(Err(UpdateChecks(s, id, hotel).error), s)
    ensures o.result.Ok? ==> o == HotelService.Save(s, Some(hotel.value.(id := id)))
  {
    match UpdateChecks(s, id, hotel)
    case Err(e) => Outcome(Err(e), s)
    case Ok(h) => HotelService.Save(s, Some(h))
  }

  /** An update replaces the stored hotel: no row is added, the id finds the new values, and other ids find what they found. */
  lemma UpdateHotelReplaces(s: State, id: string, h: HotelData, other: string)
    requires Valid(s) && UpdateChecks(s, Some(id), Some(h)).Ok?
    ensures Valid(UpdateHotel(s, Some(id), Some(h)).after)
    ensures |UpdateHotel(s, Some(id), Some(h)).after.hotels| == |s.hotels|
    ensures HotelService.FindById(UpdateHotel(s, Some(id), Some(h)).after, Some(id)) == Ok(Some(h.(id := Some(id))))
    ensures HasText(Some(other)) && other != id ==>
      HotelService.FindById(UpdateHotel(s, Some(id), Some(h)).after, Some(other)) == HotelService.FindById(s, Some(other))
  {
    HotelService.SaveThenFind(s, h.(id := Some(id)), other);
  }

  /** Updating a stored hotel keeps its id, so the stores stay consistent. */
  lemma UpdateHotelKeepsIntegrity(s: State, id: Option<string>, hotel: Option<HotelData>)
    requires Integrity(s)
    ensures Integrity(UpdateHotel(s, id, hotel).after)
  {
    var o := UpdateHotel(s, id, hotel);
    if o.result.Ok? {
      var row := HotelMapper.ToEntity(Some(hotel.value.(id := id))).value;
      forall e | e in o.after.rooms
        ensures HotelResolves(o.after, e.hotel)
      {
        UpsertHas(s.hotels, HotelKey, row, e.hotel.value.id.value);
      }
    }
  }

  /**
   * `deleteHotel`: the id is checked, then the hotel service deletes the
   * hotel; rooms and bookings are left as they are.
   */
  function DeleteHotel(s: State, id: Option<string>): (o: Outcome<bool>)
    ensures id.None? ==> o == Outcome(Err(Absent("hotel id must not be null")), s)
    ensures id.Some? && Blank(id.value) ==> o == Outcome(Err(Invalid("hotel id must not be blank")), s)
    ensures HasText(id) ==> o.result == Ok(HasHotel(s, id.value))
    ensures o.after == s.(hotels := o.after.hotels)
    ensures o.result == Ok(true) ==> o.after.hotels == Remove(s.hotels, HotelKey, id.value)
    ensures o.result != Ok(true) ==> o.after == s
  {
    if id.None? then Outcome(Err(Absent("hotel id must not be null")), s)
    else if Blank(id.value) then Outcome(Err(Invalid("hotel id must not be blank")), s)
    else HotelService.DeleteById(s, id)
  }

  /** Deleting a hotel that no room belongs to keeps the stores consistent. */
  lemma DeleteHotelKeepsIntegrity(s: State, id: Option<string>)
    requires Integrity(s)
    requires HasText(id) ==> forall e | e in s.rooms :: !RoomOfHotel(e, id.value)
    ensures Integrity(DeleteHotel(s, id).after)
  {
    var o := DeleteHotel(s, id);
    if o.result == Ok(true) {
      forall e | e in o.after.rooms
        ensures HotelResolves(o.after, e.hotel)
      {
        RemoveHas(s.hotels, HotelKey, id.value, e.hotel.value.id.value);
      }
    }
  }

  /**
   * Deleting a hotel that still has rooms succeeds and leaves those rooms
   * pointing to no stored hotel: the rules do not guard this deletion, and
   * only a foreign key in the relational store would refuse it.
   */
  lemma DeleteHotelOrphansRooms(s: State, id: string, room: RoomEntity)
    requires Integrity(s) && HasText(Some(id))
    requires room in s.rooms && RoomOfHotel(room, id)
    ensures DeleteHotel(s, Some(id)).result == Ok(true)
    ensures room in DeleteHotel(s, Some(id)).after.rooms
    ensures !HotelResolves(DeleteHotel(s, Some(id)).after, room.hotel)
    ensures !Integrity(DeleteHotel(s, Some(id)).after)
  {
    RemoveHas(s.hotels, HotelKey, id, id);
  }

  /** `findHotelsByName`: null and blank names are refused, then exactly the hotels with that name. */
  function FindHotelsByName(s: State, name: Option<string>): (r: Result<seq<HotelData>>)
    ensures name.None? ==> r == Err(Absent("name must not be null"))
    ensures name.Some? && Blank(name.value) ==> r == Err(Invalid("name must not be blank"))
    ensures HasText(name) ==> r.Ok?
    ensures r.Ok? ==> forall h | h in r.value :: h.hotelName == name && HotelMapper.ToEntity(Some(h)).value in s.hotels
    ensures r.Ok? ==> forall e | e in s.hotels && e.hotelName == name :: HotelMapper.Domain(e) in r.value
    ensures r.Ok? ==> r == HotelService.FindByName(s, name) && Subsequence(r.value, HotelService.FindAll(s))
  {
    if name.None? then Err(Absent("name must not be null"))
    else if Blank(name.value) then Err(Invalid("name must not be blank"))
    else HotelService.FindByName(s, name)
  }
}

/** The hotel rules object, which runs its checks on the repositories of the hotel service and writes through it. */
module HotelDomainImpl {
  import opened Wrappers
  import opened Guard
  import opened Records
  import opened Storage
  import HotelDomain
  import HotelService
  import HotelServiceImpl

  class HotelDomainImpl {
    const hotelService: HotelServiceImpl.HotelServiceImpl

    constructor (hotelService: HotelServiceImpl.HotelServiceImpl)
      ensures this.hotelService == hotelService
    {
      this.hotelService := hotelService;
    }

    /** What the repositories hold now. */
    function Stores(): State
      reads hotelService.repos
    {
      hotelService.repos.Contents()
    }

    method CreateHotel(hotel: Hotel?) returns (r: Result<HotelData>)
      modifies hotelService.repos
      ensures Outcome(r, Stores()) == HotelDomain.CreateHotel(old(Stores()), HotelOf(hotel))
    {
      var checked :- HotelDomain.CreateChecks(HotelOf(hotel));
      var found := HotelService.FindById(Stores(), hotel.id).value;
      if found.Some? {
        return Ok(found.value);
      }
      r := hotelService.Save(hotel);
    }

    /** `updateHotel`, which gives the caller's hotel object the id once the checks have passed. */
    method UpdateHotel(id: Option<string>, hotel: Hotel?) returns (r: Result<HotelData>)
      modifies hotelService.repos, hotel
      ensures Outcome(r, Stores()) == HotelDomain.UpdateHotel(old(Stores()), id, old(HotelOf(hotel)))
      ensures hotel != null ==> hotel.Data() == if r.Ok? then old(hotel.Data()).(id := id) else old(hotel.Data())
    {
      var checked :- HotelDomain.UpdateChecks(Stores(), id, HotelOf(hotel));
      hotel.SetId(id);
      r := hotelService.Save(hotel);
    }

    method DeleteHotel(id: Option<string>) returns (r: Result<bool>)
      modifies hotelService.repos
      ensures Outcome(r, Stores()) == HotelDomain.DeleteHotel(old(Stores()), id)
    {
      if id.None? {
        return Err(Absent("hotel id must not be null"));
      }
      if Blank(id.value) {
        return Err(Invalid("hotel id must not be blank"));
      }
      r := hotelService.DeleteById(id);
    }
  }
}
