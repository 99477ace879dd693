/**
 * The hotel service (service/impl/HotelServiceImpl.java): queries over the
 * hotel table as functions of the stored state, and `Save` and `DeleteById`
 * as transitions of it. Its own null and blank checks give the same
 * exceptions and messages as the shared guard, so they are written with it.
 */
module HotelService {
  import opened Wrappers
  import opened Guard
  import opened Records
  import opened Entities
  import opened Tables
  import opened Storage
  import HotelMapper

  /** The null checks of the hotel service itself: the same kind and text as the shared guard gives. */
  lemma OwnNullChecksMatchGuard()
    ensures RequireNonNull<HotelData>(None, "hotel").error == Absent("hotel must not be null")
    ensures RequireNonBlank(None, "hotel id").error == Absent("hotel id must not be null")
    ensures RequireNonBlank(None, "name").error == Absent("name must not be null")
  {
    assert NullMessage("hotel") == "hotel must not be null";
    assert NullMessage("hotel id") == "hotel id must not be null";
    assert NullMessage("name") == "name must not be null";
  }

  /** The blank checks of the hotel service itself: the same kind and text as the shared guard gives. */
  lemma OwnBlankChecksMatchGuard(blank: string)
    requires Blank(blank)
    ensures RequireNonBlank(Some(blank), "hotel id").error == Invalid("hotel id must not be blank")
    ensures RequireNonBlank(Some(blank), "name").error == Invalid("name must not be blank")
  {
    assert BlankMessage("hotel id") == "hotel id must not be blank";
    assert BlankMessage("name") == "name must not be blank";
  }

  /** `existsById`: the id is checked for null, then for blank, then looked up. */
  function ExistsById(s: State, id: Option<string>): (r: Result<bool>)
    ensures !HasText(id) ==> r == Err(RequireNonBlank(id, "hotel id").error)
    ensures HasText(id) ==> r == Ok(exists e | e in s.hotels :: e.id == id)
  {
    var key :- RequireNonBlank(id, "hotel id");
    HasMember(s.hotels, HotelKey, key);
    Ok(HasHotel(s, key))
  }

  /** `findById`: the stored hotel with that id, if any. */
  function FindById(s: State, id: Option<string>): (r: Result<Option<HotelData>>)
    ensures !HasText(id) ==> r == Err(RequireNonBlank(id, "hotel id").error)
    ensures HasText(id) ==> r.Ok? && (r.value.Some? <==> HasHotel(s, id.value))
    ensures r.Ok? && r.value.Some? ==>
      r.value.value.id == id && HotelMapper.ToEntity(r.value) == Find(s.hotels, HotelKey, id.value)
  {
    var key :- RequireNonBlank(id, "hotel id");
    Ok(HotelMapper.ToDomain(Find(s.hotels, HotelKey, key)))
  }

  /** `findAll`: every stored hotel, in repository order. */
  function FindAll(s: State): (r: seq<HotelData>)
    ensures |r| == |s.hotels|
    ensures forall i | 0 <= i < |r| :: HotelMapper.ToEntity(Some(r[i])) == Some(s.hotels[i])
  {
    MapAll(s.hotels, HotelMapper.Domain)
  }

  /** `findByName`: the name is checked for null, then for blank; then exactly the hotels with that name. */
  function FindByName(s: State, name: Option<string>): (r: Result<seq<HotelData>>)
    ensures !HasText(name) ==> r == Err(RequireNonBlank(name, "name").error)
    ensures HasText(name) ==> r.Ok?
    ensures r.Ok? ==> forall h | h in r.value :: h.hotelName == name && HotelMapper.ToEntity(Some(h)).value in s.hotels
    ensures r.Ok? ==> forall e | e in s.hotels && e.hotelName == name :: HotelMapper.Domain(e) in r.value
    ensures r.Ok? ==> Subsequence(r.value, FindAll(s))
  {
    var key :- RequireNonBlank(name, "name");
    SelectInOrder(s.hotels, HotelNamed, key);
    MapAllInOrder(Select(s.hotels, HotelNamed, key), s.hotels, HotelMapper.Domain);
    Ok(MapAll(Select(s.hotels, HotelNamed, key), HotelMapper.Domain))
  }

  /**
   * `save`: a null hotel is refused; otherwise it is merged into the table
   * and returned as stored. The stored id must be present.
   */
  function Save(s: State, hotel: Option<HotelData>): (o: Outcome<HotelData>)
    requires hotel.Some? ==> hotel.value.id.Some?
    ensures hotel.None? ==> o == Outcome(Err(Absent(NullMessage("hotel"))), s)
    ensures hotel.Some? ==> o == Outcome(Ok(hotel.value), s.(hotels := o.after.hotels))
    ensures hotel.Some? ==> o.after.hotels == Upsert(s.hotels, HotelKey, HotelMapper.ToEntity(hotel).value)
  {
    match RequireNonNull(hotel, "hotel")
    case Err(e) => Outcome(Err(e), s)
    case Ok(h) =>
      var row := HotelMapper.ToEntity(Some(h)).value;
      Outcome(Ok(HotelMapper.Domain(row)), s.(hotels := Upsert(s.hotels, HotelKey, row)))
  }

  /** After a save the hotel is found exactly as given; every other id finds what it found before. */
  lemma SaveThenFind(s: State, h: HotelData, id: string)
    requires Valid(s) && HasText(h.id)
    ensures Valid(Save(s, Some(h)).after)
    ensures FindById(Save(s, Some(h)).after, h.id) == Ok(Some(h))
    ensures HasText(Some(id)) && Some(id) != h.id ==>
      FindById(Save(s, Some(h)).after, Some(id)) == FindById(s, Some(id))
  {
    var row := HotelMapper.ToEntity(Some(h)).value;
    UpsertKeyed(s.hotels, HotelKey, row);
    UpsertFind(s.hotels, HotelKey, row, id);
  }

  /** `deleteById`: false and no change for an unknown id; otherwise that hotel is removed and true returned. */
  function DeleteById(s: State, id: Option<string>): (o: Outcome<bool>)
    ensures !HasText(id) ==> o == Outcome(Err(RequireNonBlank(id, "hotel id").error), s)
    ensures HasText(id) ==> o.result == Ok(HasHotel(s, id.value))
    ensures o.result == Ok(false) ==> o.after == s
    ensures o.result == Ok(true) ==> o.after == s.(hotels := Remove(s.hotels, HotelKey, id.value))
  {
    match RequireNonBlank(id, "hotel id")
    case Err(e) => Outcome(Err(e), s)
    case Ok(key) =>
      if !HasHotel(s, key) then Outcome(Ok(false), s)
      else Outcome(Ok(true), s.(hotels := Remove(s.hotels, HotelKey, key)))
  }

  /** A deletion removes exactly the hotel with that id. */
  lemma DeleteByIdRemovesExactly(s: State, id: string, other: string)
    requires Valid(s) && HasText(Some(id))
    ensures Valid(DeleteById(s, Some(id)).after)
    ensures FindById(DeleteById(s, Some(id)).after, Some(id)) == Ok(None)
    ensures HasText(Some(other)) && other != id ==>
      FindById(DeleteById(s, Some(id)).after, Some(other)) == FindById(s, Some(other))
    ensures |DeleteById(s, Some(id)).after.hotels| == |s.hotels| - (if HasHotel(s, id) then 1 else 0)
  {
    var after := DeleteById(s, Some(id)).after;
    RemoveKeyed(s.hotels, HotelKey, id);
    RemoveCount(s.hotels, HotelKey, id);
    HasMember(after.hotels, HotelKey, id);
    if HasText(Some(other)) && other != id {
      var f := Find(s.hotels, HotelKey, other);
      if f.Some? {
        FindUnique(after.hotels, HotelKey, f.value);
      } else {
        HasMember(s.hotels, HotelKey, other);
        HasMember(after.hotels, HotelKey, other);
      }
    }
  }
}

/** The hotel service object, which changes the shared repositories as `HotelService` says. */
module HotelServiceImpl {
  import opened Wrappers
  import opened Guard
  import opened Records
  import opened Entities
  import opened Tables
  import opened Storage
  import HotelMapper
  import HotelService

  class HotelServiceImpl {
    const repos: Repositories

    constructor (repos: Repositories)
      ensures this.repos == repos
    {
      this.repos := repos;
    }

    method Save(hotel: Hotel?) returns (r: Result<HotelData>)
      requires hotel != null ==> hotel.id.Some?
      modifies repos
      ensures Outcome(r, repos.Contents()) == HotelService.Save(old(repos.Contents()), HotelOf(hotel))
    {
      if hotel == null {
        return Err(Absent(NullMessage("hotel")));
      }
      var row := HotelMapper.ToEntity(Some(hotel.Data())).value;
      repos.hotels := Upsert(repos.hotels, HotelKey, row);
      r := Ok(HotelMapper.Domain(row));
    }

    method DeleteById(id: Option<string>) returns (r: Result<bool>)
      modifies repos
      ensures Outcome(r, repos.Contents()) == HotelService.DeleteById(old(repos.Contents()), id)
    {
      var key :- RequireNonBlank(id, "hotel id");
      if !HasHotel(repos.Contents(), key) {
        return Ok(false);
      }
      repos.hotels := Remove(repos.hotels, HotelKey, key);
      r := Ok(true);
    }
  }
}
