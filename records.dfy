/**
 * The domain records of the hotel (domain/model): mutable objects whose
 * setters overwrite one field each, and whose `equals`/`hashCode` look at
 * the identifier only. Every record also has a value snapshot (`…Data`),
 * which is how a record travels once the services have copied it.
 */
module Records {
  import opened Wrappers
  import opened JavaHash

  /** A Java `double`, carried as its 64 bits: the model copies prices and never computes with them. */
  datatype Double = Double(bits: bv64)

  /** `0.0`, the value of a `double` field nobody assigned. */
  const PositiveZero: Double := Double(0)

  datatype BookingData = BookingData(
    id: Option<string>, roomId: Option<string>, guestId: Option<string>,
    checkIn: Option<string>, checkOut: Option<string>)

  datatype RoomData = RoomData(
    id: Option<string>, number: Option<string>, roomType: Option<string>,
    pricePerNight: Double, hotelId: Option<string>)

  datatype HotelData = HotelData(id: Option<string>, hotelName: Option<string>, address: Option<string>)

  datatype PreferencesData = PreferencesData(
    guestId: Option<string>, prefersSmokingRoom: bool,
    bedTypePreference: Option<string>, needsAccessibilityFeatures: bool)

  datatype GuestData = GuestData(
    id: Option<string>, name: Option<string>, email: Option<string>, phone: Option<string>,
    preferences: Option<PreferencesData>)

  /** A stay of a guest in a room; the dates are ISO texts the rules layer validates. */
  class Booking {
    var id: Option<string>
    var roomId: Option<string>
    var guestId: Option<string>
    var checkIn: Option<string>
    var checkOut: Option<string>

    function Data(): BookingData
      reads this
    {
      BookingData(id, roomId, guestId, checkIn, checkOut)
    }

    constructor ()
      ensures Data() == BookingData(None, None, None, None, None)
    {
      id, roomId, guestId, checkIn, checkOut := None, None, None, None, None;
    }

    constructor WithId(id: Option<string>)
      ensures Data() == BookingData(id, None, None, None, None)
    {
      this.id := id;
      roomId, guestId, checkIn, checkOut := None, None, None, None;
    }

    constructor Of(id: Option<string>, roomId: Option<string>, guestId: Option<string>,
                   checkIn: Option<string>, checkOut: Option<string>)
      ensures Data() == BookingData(id, roomId, guestId, checkIn, checkOut)
    {
      this.id, this.roomId, this.guestId, this.checkIn, this.checkOut := id, roomId, guestId, checkIn, checkOut;
    }

    method SetId(id: Option<string>)
      modifies this
      ensures Data() == old(Data()).(id := id)
    {
      this.id := id;
    }

    method SetRoomId(roomId: Option<string>)
      modifies this
      ensures Data() == old(Data()).(roomId := roomId)
    {
      this.roomId := roomId;
    }

    method SetGuestId(guestId: Option<string>)
      modifies this
      ensures Data() == old(Data()).(guestId := guestId)
    {
      this.guestId := guestId;
    }

    method SetCheckIn(checkIn: Option<string>)
      modifies this
      ensures Data() == old(Data()).(checkIn := checkIn)
    {
      this.checkIn := checkIn;
    }

    method SetCheckOut(checkOut: Option<string>)
      modifies this
      ensures Data() == old(Data()).(checkOut := checkOut)
    {
      this.checkOut := checkOut;
    }

    /** `equals`: the same object, or another booking with the same non-null id. */
    function Equals(obj: object?): (eq: bool)
      reads this, obj
      ensures this == obj ==> eq
      ensures eq ==> obj is Booking
      ensures eq && this != obj ==> id.Some?
    {
      this == obj || (obj is Booking && id.Some? && id == (obj as Booking).id)
    }

    /** `hashCode`: `Objects.hash(id)`. */
    function HashCode(): (h: int)
      reads this
      ensures MinInt <= h <= MaxInt
      ensures id.None? ==> h == 31
    {
      ObjectsHash(id)
    }
  }

  /** Two distinct bookings are equal exactly when they share a non-null id; equality is symmetric and agrees with the hash. */
  lemma BookingEquality(a: Booking, b: Booking)
    ensures a != b ==> (a.Equals(b) <==> a.id.Some? && a.id == b.id)
    ensures a.Equals(b) <==> b.Equals(a)
    ensures a.id == b.id ==> a.HashCode() == b.HashCode()
    ensures a.Equals(b) ==> a.HashCode() == b.HashCode()
  {
  }

  /** A room of a hotel. */
  class Room {
    var id: Option<string>
    var number: Option<string>
    var roomType: Option<string>
    var pricePerNight: Double
    var hotelId: Option<string>

    function Data(): RoomData
      reads this
    {
      RoomData(id, number, roomType, pricePerNight, hotelId)
    }

    constructor ()
      ensures Data() == RoomData(None, None, None, PositiveZero, None)
    {
      id, number, roomType, pricePerNight, hotelId := None, None, None, PositiveZero, None;
    }

    constructor WithId(id: Option<string>)
      ensures Data() == RoomData(id, None, None, PositiveZero, None)
    {
      this.id := id;
      number, roomType, pricePerNight, hotelId := None, None, PositiveZero, None;
    }

    constructor Of(id: Option<string>, number: Option<string>, roomType: Option<string>,
                   pricePerNight: Double, hotelId: Option<string>)
      ensures Data() == RoomData(id, number, roomType, pricePerNight, hotelId)
    {
      this.id, this.number, this.roomType, this.pricePerNight, this.hotelId := id, number, roomType, pricePerNight, hotelId;
    }

    method SetId(id: Option<string>)
      modifies this
      ensures Data() == old(Data()).(id := id)
    {
      this.id := id;
    }

    method SetNumber(number: Option<string>)
      modifies this
      ensures Data() == old(Data()).(number := number)
    {
      this.number := number;
    }

    method SetType(roomType: Option<string>)
      modifies this
      ensures Data() == old(Data()).(roomType := roomType)
    {
      this.roomType := roomType;
    }

    method SetPricePerNight(pricePerNight: Double)
      modifies this
      ensures Data() == old(Data()).(pricePerNight := pricePerNight)
    {
      this.pricePerNight := pricePerNight;
    }

    method SetHotelId(hotelId: Option<string>)
      modifies this
      ensures Data() == old(Data()).(hotelId := hotelId)
    {
      this.hotelId := hotelId;
    }

    /** `equals`: the same object, or another room with the same non-null id. */
    function Equals(obj: object?): (eq: bool)
      reads this, obj
      ensures this == obj ==> eq
      ensures eq ==> obj is Room
      ensures eq && this != obj ==> id.Some?
    {
      this == obj || (obj is Room && id.Some? && id == (obj as Room).id)
    }

    /** `hashCode`: `Objects.hash(id)`. */
    function HashCode(): (h: int)
      reads this
      ensures MinInt <= h <= MaxInt
      ensures id.None? ==> h == 31
    {
      ObjectsHash(id)
    }
  }

  /** Two distinct rooms are equal exactly when they share a non-null id; equality is symmetric and agrees with the hash. */
  lemma RoomEquality(a: Room, b: Room)
    ensures a != b ==> (a.Equals(b) <==> a.id.Some? && a.id == b.id)
    ensures a.Equals(b) <==> b.Equals(a)
    ensures a.id == b.id ==> a.HashCode() == b.HashCode()
    ensures a.Equals(b) ==> a.HashCode() == b.HashCode()
  {
  }

  /** The stated preferences of one guest, identified by the guest's id. */
  class GuestPreferences {
    var guestId: Option<string>
    var prefersSmokingRoom: bool
    var bedTypePreference: Option<string>
    var needsAccessibilityFeatures: bool

    function Data(): PreferencesData
      reads this
    {
      PreferencesData(guestId, prefersSmokingRoom, bedTypePreference, needsAccessibilityFeatures)
    }

    constructor ()
      ensures Data() == PreferencesData(None, false, None, false)
    {
      guestId, prefersSmokingRoom, bedTypePreference, needsAccessibilityFeatures := None, false, None, false;
    }

    constructor ForGuest(guestId: Option<string>)
      ensures Data() == PreferencesData(guestId, false, None, false)
    {
      this.guestId := guestId;
      prefersSmokingRoom, bedTypePreference, needsAccessibilityFeatures := false, None, false;
    }

    constructor Of(guestId: Option<string>, prefersSmokingRoom: bool, bedTypePreference: Option<string>,
                   needsAccessibilityFeatures: bool)
      ensures Data() == PreferencesData(guestId, prefersSmokingRoom, bedTypePreference, needsAccessibilityFeatures)
    {
      this.guestId, this.prefersSmokingRoom := guestId, prefersSmokingRoom;
      this.bedTypePreference, this.needsAccessibilityFeatures := bedTypePreference, needsAccessibilityFeatures;
    }

    method SetGuestId(guestId: Option<string>)
      modifies this
      ensures Data() == old(Data()).(guestId := guestId)
    {
      this.guestId := guestId;
    }

    method SetPrefersSmokingRoom(prefersSmokingRoom: bool)
      modifies this
      ensures Data() == old(Data()).(prefersSmokingRoom := prefersSmokingRoom)
    {
      this.prefersSmokingRoom := prefersSmokingRoom;
    }

    method SetBedTypePreference(bedTypePreference: Option<string>)
      modifies this
      ensures Data() == old(Data()).(bedTypePreference := bedTypePreference)
    {
      this.bedTypePreference := bedTypePreference;
    }

    method SetNeedsAccessibilityFeatures(needsAccessibilityFeatures: bool)
      modifies this
      ensures Data() == old(Data()).(needsAccessibilityFeatures := needsAccessibilityFeatures)
    {
      this.needsAccessibilityFeatures := needsAccessibilityFeatures;
    }

    /** `equals`: the same object, or other preferences with the same non-null guest id. */
    function Equals(obj: object?): (eq: bool)
      reads this, obj
      ensures this == obj ==> eq
      ensures eq ==> obj is GuestPreferences
      ensures eq && this != obj ==> guestId.Some?
    {
      this == obj || (obj is GuestPreferences && guestId.Some? && guestId == (obj as GuestPreferences).guestId)
    }

    /** `hashCode`: `Objects.hash(guestId)`. */
    function HashCode(): (h: int)
      reads this
      ensures MinInt <= h <= MaxInt
      ensures guestId.None? ==> h == 31
    {
      ObjectsHash(guestId)
    }
  }

  /** Distinct preferences are equal exactly when they share a non-null guest id; equality is symmetric and agrees with the hash. */
  lemma PreferencesEquality(a: GuestPreferences, b: GuestPreferences)
    ensures a != b ==> (a.Equals(b) <==> a.guestId.Some? && a.guestId == b.guestId)
    ensures a.Equals(b) <==> b.Equals(a)
    ensures a.guestId == b.guestId ==> a.HashCode() == b.HashCode()
    ensures a.Equals(b) ==> a.HashCode() == b.HashCode()
  {
  }

  /** A guest of the hotel, with the preferences attached to it, if any. */
  class Guest {
    var id: Option<string>
    var name: Option<string>
    var email: Option<string>
    var phone: Option<string>
    var preferences: GuestPreferences?

    /** The guest's fields and the values of its attached preferences. */
    function Data(): GuestData
      reads this, preferences
    {
      GuestData(id, name, email, phone, if preferences == null then None else Some(preferences.Data()))
    }

    constructor ()
      ensures Data() == GuestData(None, None, None, None, None)
      ensures preferences == null
    {
      id, name, email, phone, preferences := None, None, None, None, null;
    }

    constructor WithId(id: Option<string>)
      ensures Data() == GuestData(id, None, None, None, None)
      ensures preferences == null
    {
      this.id := id;
      name, email, phone, preferences := None, None, None, null;
    }

    constructor Of(id: Option<string>, name: Option<string>, email: Option<string>, phone: Option<string>)
      ensures Data() == GuestData(id, name, email, phone, None)
      ensures preferences == null
    {
      this.id, this.name, this.email, this.phone := id, name, email, phone;
      preferences := null;
    }

    constructor WithPreferences(id: Option<string>, name: Option<string>, email: Option<string>,
                                phone: Option<string>, preferences: GuestPreferences?)
      ensures this.preferences == preferences
      ensures id == this.id && name == this.name && email == this.email && phone == this.phone
    {
      this.id, this.name, this.email, this.phone := id, name, email, phone;
      this.preferences := preferences;
    }

    method SetId(id: Option<string>)
      modifies this
      ensures this.id == id && preferences == old(preferences)
      ensures name == old(name) && email == old(email) && phone == old(phone)
    {
      this.id := id;
    }

    method SetName(name: Option<string>)
      modifies this
      ensures this.name == name && preferences == old(preferences)
      ensures id == old(id) && email == old(email) && phone == old(phone)
    {
      this.name := name;
    }

    method SetEmail(email: Option<string>)
      modifies this
      ensures this.email == email && preferences == old(preferences)
      ensures id == old(id) && name == old(name) && phone == old(phone)
    {
      this.email := email;
    }

    method SetPhone(phone: Option<string>)
      modifies this
      ensures this.phone == phone && preferences == old(preferences)
      ensures id == old(id) && name == old(name) && email == old(email)
    {
      this.phone := phone;
    }

    /** `setPreferences`: null detaches the preferences. */
    method SetPreferences(preferences: GuestPreferences?)
      modifies this
      ensures this.preferences == preferences
      ensures id == old(id) && name == old(name) && email == old(email) && phone == old(phone)
    {
      this.preferences := preferences;
    }

    /** `equals`: the same object, or another guest with the same non-null id. */
    function Equals(obj: object?): (eq: bool)
      reads this, obj
      ensures this == obj ==> eq
      ensures eq ==> obj is Guest
      ensures eq && this != obj ==> id.Some?
    {
      this == obj || (obj is Guest && id.Some? && id == (obj as Guest).id)
    }

    /** `hashCode`: `Objects.hash(id)`. */
    function HashCode(): (h: int)
      reads this
      ensures MinInt <= h <= MaxInt
      ensures id.None? ==> h == 31
    {
      ObjectsHash(id)
    }
  }

  /** Two distinct guests are equal exactly when they share a non-null id, whatever their preferences; equality is symmetric and agrees with the hash. */
  lemma GuestEquality(a: Guest, b: Guest)
    ensures a != b ==> (a.Equals(b) <==> a.id.Some? && a.id == b.id)
    ensures a.Equals(b) <==> b.Equals(a)
    ensures a.id == b.id ==> a.HashCode() == b.HashCode()
    ensures a.Equals(b) ==> a.HashCode() == b.HashCode()
  {
  }

  /** A hotel. */
  class Hotel {
    var id: Option<string>
    var hotelName: Option<string>
    var address: Option<string>

    function Data(): HotelData
      reads this
    {
      HotelData(id, hotelName, address)
    }

    constructor ()
      ensures Data() == HotelData(None, None, None)
    {
      id, hotelName, address := None, None, None;
    }

    constructor WithId(id: Option<string>)
      ensures Data() == HotelData(id, None, None)
    {
      this.id := id;
      hotelName, address := None, None;
    }

    constructor Named(hotelName: Option<string>, address: Option<string>)
      ensures Data() == HotelData(None, hotelName, address)
    {
      id := None;
      this.hotelName, this.address := hotelName, address;
    }

    constructor Of(id: Option<string>, hotelName: Option<string>, address: Option<string>)
      ensures Data() == HotelData(id, hotelName, address)
    {
      this.id, this.hotelName, this.address := id, hotelName, address;
    }

    method SetId(id: Option<string>)
      modifies this
      ensures Data() == old(Data()).(id := id)
    {
      this.id := id;
    }

    method SetHotelName(hotelName: Option<string>)
      modifies this
      ensures Data() == old(Data()).(hotelName := hotelName)
    {
      this.hotelName := hotelName;
    }

    method SetAddress(address: Option<string>)
      modifies this
      ensures Data() == old(Data()).(address := address)
    {
      this.address := address;
    }

    /** `equals`: the same object, or another hotel with the same non-null id. */
    function Equals(obj: object?): (eq: bool)
      reads this, obj
      ensures this == obj ==> eq
      ensures eq ==> obj is Hotel
      ensures eq && this != obj ==> id.Some?
    {
      this == obj || (obj is Hotel && id.Some? && id == (obj as Hotel).id)
    }

    /** `hashCode`: `Objects.hash(id)`. */
    function HashCode(): (h: int)
      reads this
      ensures MinInt <= h <= MaxInt
      ensures id.None? ==> h == 31
    {
      ObjectsHash(id)
    }
  }

  /** Two distinct hotels are equal exactly when they share a non-null id; equality is symmetric and agrees with the hash. */
  lemma HotelEquality(a: Hotel, b: Hotel)
    ensures a != b ==> (a.Equals(b) <==> a.id.Some? && a.id == b.id)
    ensures a.Equals(b) <==> b.Equals(a)
    ensures a.id == b.id ==> a.HashCode() == b.HashCode()
    ensures a.Equals(b) ==> a.HashCode() == b.HashCode()
  {
  }

  /** The values of a record passed by reference: null stays null. */
  function BookingOf(b: Booking?): Option<BookingData>
    reads b
  {
    if b == null then None else Some(b.Data())
  }

  function RoomOf(r: Room?): Option<RoomData>
    reads r
  {
    if r == null then None else Some(r.Data())
  }

  function HotelOf(h: Hotel?): Option<HotelData>
    reads h
  {
    if h == null then None else Some(h.Data())
  }

  function PreferencesOf(p: GuestPreferences?): Option<PreferencesData>
    reads p
  {
    if p == null then None else Some(p.Data())
  }

  /** The objects a guest's values are read from: the guest and its attached preferences. */
  function GuestFootprint(g: Guest?): set<object>
    reads g
  {
    if g == null then {} else if g.preferences == null then {g} else {g, g.preferences}
  }

  function GuestOf(g: Guest?): Option<GuestData>
    reads GuestFootprint(g)
  {
    if g == null then None else Some(g.Data())
  }

  /** Objects of different record classes are never equal, whatever their ids. */
  lemma DifferentClassesUnequal(b: Booking, r: Room, g: Guest, p: GuestPreferences, h: Hotel)
    ensures !b.Equals(r) && !r.Equals(g) && !g.Equals(p) && !p.Equals(h) && !h.Equals(b)
  {
  }
}
