# Hotel Puerto rules layer, in Dafny

This project models the rules layer of the Hotel Puerto back end. That layer sits between the REST controllers and the storage repositories, and this model covers:

- **The argument guard** (`Guard`). It separates an absent value from a blank one. An absent value is Java's `null` and raises `NullPointerException`. A blank value is empty or all whitespace and raises `IllegalArgumentException`.
- **The four domain rule services** (`BookingDomainImpl`, `RoomDomainImpl`, `GuestDomainImpl`, `HotelDomainImpl`). Each runs its checks in a fixed order, stops at the first failure and only then writes to the stores.
- **The four store services** (`BookingServiceImpl`, `RoomServiceImpl`, `GuestServiceImpl`, `HotelServiceImpl`) and the mappers between domain records and stored rows.
- **The domain records** (`Booking`, `Room`, `Guest`, `GuestPreferences`, `Hotel`), whose equality and hash code depend only on their identifier.

How Java's runtime maps onto the model:

- **Null** becomes `Option`.
- **Exceptions** become `Guard.Result`. Its error is `Absent` (`NullPointerException`), `Invalid` (`IllegalArgumentException`) or `Conflict` (`IllegalStateException`), and it carries the message.
- **The stores** are one `Storage.State`. It holds five tables: hotels, rooms, guests and bookings in the relational store, and guest preferences in the document store, keyed by guest id.
  - The repositories' `save` is a merge by key (`Tables.Upsert`), and `deleteById` removes by key (`Tables.Remove`).
  - Derived queries are selections in repository order (`Tables.Select`, `Tables.Reject`). `Tables.SelectInOrder`, `Tables.RejectInOrder` and `Tables.RemoveInOrder` prove that what they return, or what they leave, is a subsequence of the table (`Tables.Subsequence`).
- **Each service and each rule service** has two forms:
  - a module of functions over the state (`BookingService`, `BookingDomain`, …), which states what every operation returns and how the stores change;
  - a class over the shared `Storage.Repositories` object (`BookingServiceImpl.BookingServiceImpl`, …). Its methods change the repositories, and the caller's records where the Java code does, and each method's postcondition ties it to the matching function.

The properties proved are about those functions:

- **Order of checks.** The error reported is the error of the first failing check, with its exact kind and message.
- **Round trips.** A saved row is found again, a deleted row is no longer found, and every other key finds what it found before.
- **Keys.** Every operation keeps each table keyed.
- **Referential integrity.** `Storage.Integrity` means every booking points to a stored room and guest, every room to a stored hotel, and every preferences document to a stored guest. It is preserved by every write of the rules layer except a hotel deletion.
- **Hotel deletion.** `HotelDomain.DeleteHotelOrphansRooms` shows that deleting a hotel that still has rooms succeeds and leaves those rooms without their hotel.

Booking dates are ISO 8601 calendar dates in the complete extended format, YYYY-MM-DD (section 4.1.2.2 of ISO 8601:2004). They are parsed as `LocalDate.parse` does for four-digit years, and parsing and formatting are proved inverse.

## Model

| member | source | states |
|---|---|---|
| Guard.RequireNonBlank | src/main/java/org/docencia/hotel/validation/Guard.java:20-28 | null gives the absent kind with "<field> must not be null"; blank gives the invalid kind with "<field> must not be blank", never for null; text is returned unchanged |
| Guard.RequireNonNull | src/main/java/org/docencia/hotel/validation/Guard.java:39-41 | null gives the absent kind with "<field> must not be null"; any other value is returned unchanged |
| Guard.Kept | src/main/java/org/docencia/hotel/mapper/jpa/BookingMapper.java:43-47 | a reference id survives storage exactly when it has text; otherwise it comes back null |
| Guard.BlankOrText | src/main/java/org/docencia/hotel/validation/Guard.java:24-27 | every string is either blank or has a non-whitespace character, never both |
| JavaHash.ObjectsHash | src/main/java/org/docencia/hotel/domain/model/Booking.java:120-123 | `Objects.hash(id)` is a 32-bit int, and 31 for a null id |
| BookingDates.DaysInMonth | src/main/java/org/docencia/hotel/domain/impl/BookingDomainImpl.java:197-198 | months have 28 to 31 days, 29 exactly for February of a leap year |
| BookingDates.ParseDate | src/main/java/org/docencia/hotel/domain/impl/BookingDomainImpl.java:197-198 | a parsed text has the YYYY-MM-DD shape and denotes a valid calendar date |
| BookingDates.FormatDate | src/main/java/org/docencia/hotel/domain/impl/BookingDomainImpl.java:197-198 | the text of a date has the YYYY-MM-DD shape |
| BookingDates.ParseFormat | src/main/java/org/docencia/hotel/domain/impl/BookingDomainImpl.java:197-198 | parsing the text of a valid date gives the date back |
| BookingDates.FormatParse | src/main/java/org/docencia/hotel/domain/impl/BookingDomainImpl.java:197-198 | a text that parses is the text of its date, so parsing is injective |
| BookingDates.BeforeIsStrictOrder | src/main/java/org/docencia/hotel/domain/impl/BookingDomainImpl.java:200 | `isBefore` is irreflexive, transitive and asymmetric |
| BookingDates.ValidateDates | src/main/java/org/docencia/hotel/domain/impl/BookingDomainImpl.java:185-206 | both dates absent or blank is accepted; exactly one gives "checkIn and checkOut must be provided together"; an unparsable date gives the format message; two parsable dates whose check-in is not strictly before the check-out give the order message; every failure is the invalid kind |
| BookingDates.SameDayRefused | src/main/java/org/docencia/hotel/domain/impl/BookingDomainImpl.java:200-202 | a stay that starts and ends on the same day is refused with the order message |
| BookingDates.OrderedStayExamples | src/main/java/org/docencia/hotel/domain/impl/BookingDomainImpl.java:196-205 | equal and reversed date pairs are refused; an ordered pair is accepted |
| BookingDates.NoStayAccepted | src/main/java/org/docencia/hotel/domain/impl/BookingDomainImpl.java:186-191 | both dates null or blank is accepted |
| Records.Booking.constructor | src/main/java/org/docencia/hotel/domain/model/Booking.java:45-46 | the no-argument constructor leaves every field null |
| Records.Booking.WithId | src/main/java/org/docencia/hotel/domain/model/Booking.java:53-55 | the id-only constructor sets only the id |
| Records.Booking.Of | src/main/java/org/docencia/hotel/domain/model/Booking.java:66-72 | the full constructor sets exactly id, roomId, guestId, checkIn and checkOut |
| Records.Booking.SetId | src/main/java/org/docencia/hotel/domain/model/Booking.java:78-80 | `setId` changes only the id |
| Records.Booking.SetRoomId | src/main/java/org/docencia/hotel/domain/model/Booking.java:86-88 | `setRoomId` changes only the room id |
| Records.Booking.SetGuestId | src/main/java/org/docencia/hotel/domain/model/Booking.java:94-96 | `setGuestId` changes only the guest id |
| Records.Booking.SetCheckIn | src/main/java/org/docencia/hotel/domain/model/Booking.java:102-104 | `setCheckIn` changes only the check-in |
| Records.Booking.SetCheckOut | src/main/java/org/docencia/hotel/domain/model/Booking.java:110-112 | `setCheckOut` changes only the check-out |
| Records.Booking.Equals | src/main/java/org/docencia/hotel/domain/model/Booking.java:133-139 | the same object is equal; an equal object is a Booking, and a distinct equal one has a non-null id |
| Records.Booking.HashCode | src/main/java/org/docencia/hotel/domain/model/Booking.java:120-123 | the hash is a 32-bit int computed from the id alone, 31 for a null id |
| Records.BookingEquality | src/main/java/org/docencia/hotel/domain/model/Booking.java:133-139 | distinct bookings are equal iff they share a non-null id; equality is symmetric; equal bookings hash alike |
| Records.Room.constructor | src/main/java/org/docencia/hotel/domain/model/Room.java:43-44 | the no-argument constructor leaves every field unset |
| Records.Room.WithId | src/main/java/org/docencia/hotel/domain/model/Room.java:51-53 | the id-only constructor sets only the id |
| Records.Room.Of | src/main/java/org/docencia/hotel/domain/model/Room.java:64-70 | the full constructor sets exactly id, number, type, price and hotelId |
| Records.Room.SetId | src/main/java/org/docencia/hotel/domain/model/Room.java:76-78 | `setId` changes only the id |
| Records.Room.SetNumber | src/main/java/org/docencia/hotel/domain/model/Room.java:84-86 | `setNumber` changes only the number |
| Records.Room.SetType | src/main/java/org/docencia/hotel/domain/model/Room.java:92-94 | `setType` changes only the type |
| Records.Room.SetPricePerNight | src/main/java/org/docencia/hotel/domain/model/Room.java:100-102 | `setPricePerNight` changes only the price |
| Records.Room.SetHotelId | src/main/java/org/docencia/hotel/domain/model/Room.java:108-110 | `setHotelId` changes only the hotel id |
| Records.Room.Equals | src/main/java/org/docencia/hotel/domain/model/Room.java:131-137 | the same object is equal; an equal object is a Room, and a distinct equal one has a non-null id |
| Records.Room.HashCode | src/main/java/org/docencia/hotel/domain/model/Room.java:118-121 | the hash is computed from the id alone |
| Records.RoomEquality | src/main/java/org/docencia/hotel/domain/model/Room.java:131-137 | distinct rooms are equal iff they share a non-null id; equality is symmetric; equal rooms hash alike |
| Records.GuestPreferences.constructor | src/main/java/org/docencia/hotel/domain/model/GuestPreferences.java:36-37 | the no-argument constructor leaves the guest id and bed type null and both flags false |
| Records.GuestPreferences.ForGuest | src/main/java/org/docencia/hotel/domain/model/GuestPreferences.java:43-45 | the guest-id constructor sets only the guest id; both flags stay false and the bed type null |
| Records.GuestPreferences.Of | src/main/java/org/docencia/hotel/domain/model/GuestPreferences.java:55-61 | the full constructor sets exactly the four fields |
| Records.GuestPreferences.SetGuestId | src/main/java/org/docencia/hotel/domain/model/GuestPreferences.java:67-69 | `setGuestId` changes only the guest id |
| Records.GuestPreferences.SetPrefersSmokingRoom | src/main/java/org/docencia/hotel/domain/model/GuestPreferences.java:75-77 | changes only the smoking flag |
| Records.GuestPreferences.SetBedTypePreference | src/main/java/org/docencia/hotel/domain/model/GuestPreferences.java:83-85 | changes only the bed type |
| Records.GuestPreferences.SetNeedsAccessibilityFeatures | src/main/java/org/docencia/hotel/domain/model/GuestPreferences.java:91-93 | changes only the accessibility flag |
| Records.GuestPreferences.Equals | src/main/java/org/docencia/hotel/domain/model/GuestPreferences.java:114-120 | the same object is equal; an equal object is a GuestPreferences, and a distinct equal one has a non-null guest id |
| Records.GuestPreferences.HashCode | src/main/java/org/docencia/hotel/domain/model/GuestPreferences.java:101-104 | the hash is computed from the guest id alone |
| Records.PreferencesEquality | src/main/java/org/docencia/hotel/domain/model/GuestPreferences.java:114-120 | distinct preferences are equal iff they share a non-null guest id; symmetric; equal ones hash alike |
| Records.Guest.constructor | src/main/java/org/docencia/hotel/domain/model/Guest.java:43-44 | the no-argument constructor leaves every field null, preferences included |
| Records.Guest.WithId | src/main/java/org/docencia/hotel/domain/model/Guest.java:51-53 | the id-only constructor sets only the id |
| Records.Guest.Of | src/main/java/org/docencia/hotel/domain/model/Guest.java:63-68 | the four-argument constructor sets id, name, email and phone, and no preferences |
| Records.Guest.WithPreferences | src/main/java/org/docencia/hotel/domain/model/Guest.java:79-85 | the five-argument constructor also attaches the given preferences |
| Records.Guest.SetId | src/main/java/org/docencia/hotel/domain/model/Guest.java:91-93 | `setId` changes only the id |
| Records.Guest.SetName | src/main/java/org/docencia/hotel/domain/model/Guest.java:99-101 | `setName` changes only the name |
| Records.Guest.SetEmail | src/main/java/org/docencia/hotel/domain/model/Guest.java:107-109 | `setEmail` changes only the email |
| Records.Guest.SetPhone | src/main/java/org/docencia/hotel/domain/model/Guest.java:115-117 | `setPhone` changes only the phone |
| Records.Guest.SetPreferences | src/main/java/org/docencia/hotel/domain/model/Guest.java:123-125 | `setPreferences` replaces only the preferences, null allowed |
| Records.Guest.Equals | src/main/java/org/docencia/hotel/domain/model/Guest.java:146-152 | the same object is equal; an equal object is a Guest, and a distinct equal one has a non-null id |
| Records.Guest.HashCode | src/main/java/org/docencia/hotel/domain/model/Guest.java:133-136 | the hash is computed from the id alone |
| Records.GuestEquality | src/main/java/org/docencia/hotel/domain/model/Guest.java:146-152 | distinct guests are equal iff they share a non-null id, whatever their preferences; symmetric; equal guests hash alike |
| Records.Hotel.constructor | src/main/java/org/docencia/hotel/domain/model/Hotel.java:33-34 | the no-argument constructor leaves every field null |
| Records.Hotel.WithId | src/main/java/org/docencia/hotel/domain/model/Hotel.java:41-43 | the id-only constructor leaves name and address null |
| Records.Hotel.Named | src/main/java/org/docencia/hotel/domain/model/Hotel.java:51-54 | the name-and-address constructor leaves the id null |
| Records.Hotel.Of | src/main/java/org/docencia/hotel/domain/model/Hotel.java:63-67 | the full constructor sets id, name and address |
| Records.Hotel.SetId | src/main/java/org/docencia/hotel/domain/model/Hotel.java:73-75 | `setId` changes only the id |
| Records.Hotel.SetHotelName | src/main/java/org/docencia/hotel/domain/model/Hotel.java:81-83 | `setHotelName` changes only the name |
| Records.Hotel.SetAddress | src/main/java/org/docencia/hotel/domain/model/Hotel.java:89-91 | `setAddress` changes only the address |
| Records.Hotel.Equals | src/main/java/org/docencia/hotel/domain/model/Hotel.java:113-119 | the same object is equal; an equal object is a Hotel, and a distinct equal one has a non-null id |
| Records.Hotel.HashCode | src/main/java/org/docencia/hotel/domain/model/Hotel.java:100-103 | the hash is computed from the id alone |
| Records.HotelEquality | src/main/java/org/docencia/hotel/domain/model/Hotel.java:113-119 | distinct hotels are equal iff they share a non-null id; symmetric; equal hotels hash alike |
| Records.DifferentClassesUnequal | src/main/java/org/docencia/hotel/domain/model/Hotel.java:116-117 | objects of different record classes are never equal, whatever their ids |
| HotelMapper.ToEntity | target/generated-sources/annotations/org/docencia/hotel/mapper/jpa/HotelMapperImpl.java:17-29 | null maps to null; otherwise id, name and address are copied |
| HotelMapper.ToDomain | target/generated-sources/annotations/org/docencia/hotel/mapper/jpa/HotelMapperImpl.java:32-44 | null maps to null; otherwise id, name and address are copied |
| HotelMapper.RoundTrips | target/generated-sources/annotations/org/docencia/hotel/mapper/jpa/HotelMapperImpl.java:17-44 | both round trips are the identity, null included |
| RoomMapper.MapHotelId | src/main/java/org/docencia/hotel/mapper/jpa/RoomMapper.java:41-46 | no hotel reference exactly for a null or blank id; otherwise a reference to exactly that id |
| RoomMapper.MapHotel | src/main/java/org/docencia/hotel/mapper/jpa/RoomMapper.java:54-56 | null for no hotel, otherwise the hotel's id |
| RoomMapper.EntityHotelId | target/generated-sources/annotations/org/docencia/hotel/mapper/jpa/RoomMapperImpl.java:51-64 | the referenced hotel's id, null when the room, the reference or its id is null |
| RoomMapper.ToEntity | target/generated-sources/annotations/org/docencia/hotel/mapper/jpa/RoomMapperImpl.java:18-32 | null maps to null; id, number, type and price are copied; the hotel comes from the hotel id |
| RoomMapper.ToDomain | target/generated-sources/annotations/org/docencia/hotel/mapper/jpa/RoomMapperImpl.java:35-49 | null maps to null; the same fields are copied; the hotel id is read from the reference |
| RoomMapper.ExtractionAgrees | src/main/java/org/docencia/hotel/mapper/jpa/RoomMapper.java:32-33 | the generated id extraction agrees with the declared `map(HotelEntity)` |
| RoomMapper.RoundTrip | target/generated-sources/annotations/org/docencia/hotel/mapper/jpa/RoomMapperImpl.java:18-49 | a room survives storage except that a blank hotel id comes back null, and it survives exactly when its hotel id is null or has text |
| RoomMapper.EntityRoundTrip | target/generated-sources/annotations/org/docencia/hotel/mapper/jpa/RoomMapperImpl.java:18-49 | a row is rebuilt exactly iff its hotel reference is absent or carries an id with text |
| RoomMapper.NullMapsToNull | target/generated-sources/annotations/org/docencia/hotel/mapper/jpa/RoomMapperImpl.java:19-21 | null maps to null both ways |
| BookingMapper.MapRoom | src/main/java/org/docencia/hotel/mapper/jpa/BookingMapper.java:43-48 | no room reference exactly for a null or blank id; otherwise a reference to exactly that id |
| BookingMapper.MapGuest | src/main/java/org/docencia/hotel/mapper/jpa/BookingMapper.java:56-61 | no guest reference exactly for a null or blank id; otherwise a reference to exactly that id |
| BookingMapper.EntityRoomId | target/generated-sources/annotations/org/docencia/hotel/mapper/jpa/BookingMapperImpl.java:52-65 | the referenced room's id, null when the booking, the reference or its id is null |
| BookingMapper.EntityGuestId | target/generated-sources/annotations/org/docencia/hotel/mapper/jpa/BookingMapperImpl.java:67-80 | the referenced guest's id, null when the booking, the reference or its id is null |
| BookingMapper.ToEntity | target/generated-sources/annotations/org/docencia/hotel/mapper/jpa/BookingMapperImpl.java:19-33 | null maps to null; id and dates are copied; room and guest come through `mapRoom` and `mapGuest` |
| BookingMapper.ToDomain | target/generated-sources/annotations/org/docencia/hotel/mapper/jpa/BookingMapperImpl.java:36-50 | null maps to null; id and dates are copied; room and guest ids are read from the references |
| BookingMapper.RoundTrip | target/generated-sources/annotations/org/docencia/hotel/mapper/jpa/BookingMapperImpl.java:19-50 | a booking survives storage except that a blank room or guest id comes back null, and it survives exactly when neither is blank |
| BookingMapper.EntityRoundTrip | target/generated-sources/annotations/org/docencia/hotel/mapper/jpa/BookingMapperImpl.java:19-50 | a row is rebuilt exactly iff each reference it holds carries an id with text |
| BookingMapper.NullMapsToNull | target/generated-sources/annotations/org/docencia/hotel/mapper/jpa/BookingMapperImpl.java:20-22 | null maps to null both ways |
| GuestMapper.ToEntity | src/main/java/org/docencia/hotel/mapper/jpa/GuestMapper.java:30 | the guest row has the guest's id, name, email and phone |
| GuestMapper.ToDomain | src/main/java/org/docencia/hotel/mapper/jpa/GuestMapper.java:21-22 | a guest read from a row has its fields and no preferences |
| GuestMapper.ToDocument | src/main/java/org/docencia/hotel/mapper/nosql/GuestPreferencesMapper.java:19 | the document has the preferences' four fields |
| GuestMapper.ToPreferences | src/main/java/org/docencia/hotel/mapper/nosql/GuestPreferencesMapper.java:27 | the preferences read from a document have its four fields |
| GuestMapper.RoundTrips | src/main/java/org/docencia/hotel/mapper/jpa/GuestMapper.java:21-30 | rows and documents survive their round trips; a guest survives without its preferences |
| HotelService.OwnNullChecksMatchGuard | src/main/java/org/docencia/hotel/service/impl/HotelServiceImpl.java:38-88 | the service's own null checks give the absent kind and the same messages as the guard |
| HotelService.OwnBlankChecksMatchGuard | src/main/java/org/docencia/hotel/service/impl/HotelServiceImpl.java:47-88 | the service's own blank checks give the invalid kind and the same messages as the guard |
| HotelService.ExistsById | src/main/java/org/docencia/hotel/service/impl/HotelServiceImpl.java:47-56 | null and blank ids are refused; otherwise true iff a stored hotel has the id |
| HotelService.FindById | src/main/java/org/docencia/hotel/service/impl/HotelServiceImpl.java:58-67 | null and blank ids are refused; otherwise a hotel iff one is stored, and it is that row |
| HotelService.FindAll | src/main/java/org/docencia/hotel/service/impl/HotelServiceImpl.java:69-75 | one hotel per stored row, each the row's values, in order |
| HotelService.FindByName | src/main/java/org/docencia/hotel/service/impl/HotelServiceImpl.java:77-88 | null and blank names are refused; otherwise exactly the stored hotels with that name, as a subsequence of `findAll`, so in repository order |
| HotelService.Save | src/main/java/org/docencia/hotel/service/impl/HotelServiceImpl.java:38-45 | null is refused with "hotel must not be null"; otherwise the hotel is merged by id, returned, and the other tables are unchanged |
| HotelService.SaveThenFind | src/main/java/org/docencia/hotel/service/impl/HotelServiceImpl.java:38-67 | a saved hotel is found exactly as given; every other id finds what it found; the table stays keyed |
| HotelService.DeleteById | src/main/java/org/docencia/hotel/service/impl/HotelServiceImpl.java:90-104 | null and blank ids are refused; the result says whether the hotel was stored; false changes nothing; true removes that hotel |
| HotelService.DeleteByIdRemovesExactly | src/main/java/org/docencia/hotel/service/impl/HotelServiceImpl.java:90-104 | after a deletion the id finds nothing, other ids find what they found, and at most one row is gone |
| HotelServiceImpl.HotelServiceImpl.constructor | src/main/java/org/docencia/hotel/service/impl/HotelServiceImpl.java:33-36 | the service works on the given repositories |
| HotelServiceImpl.HotelServiceImpl.Save | src/main/java/org/docencia/hotel/service/impl/HotelServiceImpl.java:38-45 | result and repositories are as `HotelService.Save` says |
| HotelServiceImpl.HotelServiceImpl.DeleteById | src/main/java/org/docencia/hotel/service/impl/HotelServiceImpl.java:90-104 | result and repositories are as `HotelService.DeleteById` says |
| RoomService.ExistsById | src/main/java/org/docencia/hotel/service/impl/RoomServiceImpl.java:47-52 | null and blank ids are refused; otherwise true iff a stored room has the id |
| RoomService.FindById | src/main/java/org/docencia/hotel/service/impl/RoomServiceImpl.java:54-60 | null and blank ids are refused; otherwise a room iff one is stored, and it is that row |
| RoomService.FindAll | src/main/java/org/docencia/hotel/service/impl/RoomServiceImpl.java:62-68 | one room per stored row, in repository order, each with the row's id, number, type, price and hotel id |
| RoomService.FindByHotelId | src/main/java/org/docencia/hotel/service/impl/RoomServiceImpl.java:70-78 | the hotel id is guarded; every result is a stored room of that hotel and every stored room of that hotel is a result; the results are a subsequence of `findAll`, so they keep repository order |
| RoomService.FindByHotelIdAndType | src/main/java/org/docencia/hotel/service/impl/RoomServiceImpl.java:80-89 | the hotel id then the type are guarded; every result is a stored room of that hotel with exactly that type, and every such stored room is a result; the results keep repository order |
| RoomService.TypedRoomsOfHotel | src/main/java/org/docencia/hotel/service/impl/RoomServiceImpl.java:80-89 | every room found by hotel and type is also found by hotel |
| RoomService.Save | src/main/java/org/docencia/hotel/service/impl/RoomServiceImpl.java:38-45 | null is refused; otherwise the room is merged by id and returned as read back from its row |
| RoomService.SaveThenFind | src/main/java/org/docencia/hotel/service/impl/RoomServiceImpl.java:38-60 | a saved room is found as returned; other ids find what they found; the table stays keyed |
| RoomService.DeleteById | src/main/java/org/docencia/hotel/service/impl/RoomServiceImpl.java:91-101 | ids are guarded; false for an absent room with no change; otherwise that room is removed and true returned |
| RoomService.DeleteByIdRemovesExactly | src/main/java/org/docencia/hotel/service/impl/RoomServiceImpl.java:91-101 | after a deletion the id finds nothing, other ids find what they found, and at most one row is gone |
| RoomService.DeleteByHotelId | src/main/java/org/docencia/hotel/service/impl/RoomServiceImpl.java:103-108 | the hotel id is guarded; exactly the rooms of that hotel are removed and their number returned; the remaining rooms are a subsequence of the old table, so they keep their order |
| RoomService.DeleteByHotelIdEmpties | src/main/java/org/docencia/hotel/service/impl/RoomServiceImpl.java:103-108 | afterwards the hotel has no rooms, the count is the number of rows removed, and the table stays keyed |
| RoomServiceImpl.RoomServiceImpl.constructor | src/main/java/org/docencia/hotel/service/impl/RoomServiceImpl.java:33-36 | the service works on the given repositories |
| RoomServiceImpl.RoomServiceImpl.Save | src/main/java/org/docencia/hotel/service/impl/RoomServiceImpl.java:38-45 | result and repositories are as `RoomService.Save` says |
| RoomServiceImpl.RoomServiceImpl.DeleteById | src/main/java/org/docencia/hotel/service/impl/RoomServiceImpl.java:91-101 | result and repositories are as `RoomService.DeleteById` says |
| RoomServiceImpl.RoomServiceImpl.DeleteByHotelId | src/main/java/org/docencia/hotel/service/impl/RoomServiceImpl.java:103-108 | result and repositories are as `RoomService.DeleteByHotelId` says |
| BookingService.ExistsById | src/main/java/org/docencia/hotel/service/impl/BookingServiceImpl.java:41-46 | null and blank ids are refused; otherwise true iff a stored booking has the id |
| BookingService.ExistsByGuestId | src/main/java/org/docencia/hotel/service/impl/BookingServiceImpl.java:48-52 | the guest id is guarded; true iff the bookings of that guest are not empty |
| BookingService.ExistsByRoomId | src/main/java/org/docencia/hotel/service/impl/BookingServiceImpl.java:54-58 | the room id is guarded; true iff the bookings of that room are not empty |
| BookingService.ExistsByHotelId | src/main/java/org/docencia/hotel/domain/impl/RoomDomainImpl.java:140 | the hotel id is guarded; true iff the bookings in that hotel are not empty |
| BookingService.FindAll | src/main/java/org/docencia/hotel/service/impl/BookingServiceImpl.java:60-66 | one booking per stored row, in repository order, each with the row's id, room id, guest id, check-in and check-out |
| BookingService.FindById | src/main/java/org/docencia/hotel/service/impl/BookingServiceImpl.java:68-74 | ids are guarded; a booking iff one is stored, and it is that row |
| BookingService.FindAllByRoomId | src/main/java/org/docencia/hotel/service/impl/BookingServiceImpl.java:76-84 | the room id is guarded; exactly the stored bookings pointing to that room, as a subsequence of `findAll` |
| BookingService.FindAllByGuestId | src/main/java/org/docencia/hotel/service/impl/BookingServiceImpl.java:86-94 | the guest id is guarded; exactly the stored bookings pointing to that guest, as a subsequence of `findAll` |
| BookingService.FindAllByHotelId | src/main/java/org/docencia/hotel/service/impl/BookingServiceImpl.java:96-104 | the hotel id is guarded; every result is a stored booking whose room is a stored room of that hotel, every such booking is a result, and the results keep repository order |
| BookingService.Save | src/main/java/org/docencia/hotel/service/impl/BookingServiceImpl.java:31-39 | null is refused; otherwise the booking is merged by id and returned as read back from its row |
| BookingService.SaveThenFind | src/main/java/org/docencia/hotel/service/impl/BookingServiceImpl.java:31-74 | a saved booking is found as returned; other ids find what they found; the table stays keyed |
| BookingService.DeleteById | src/main/java/org/docencia/hotel/service/impl/BookingServiceImpl.java:106-116 | ids are guarded; false with no change for an absent booking; otherwise it is removed and true returned |
| BookingService.DeleteByIdRemovesExactly | src/main/java/org/docencia/hotel/service/impl/BookingServiceImpl.java:106-116 | after a deletion the id finds nothing, other ids find what they found, and at most one row is gone |
| BookingService.DeleteByGuestId | src/main/java/org/docencia/hotel/service/impl/BookingServiceImpl.java:118-123 | the guest id is guarded; that guest's bookings are removed and their number returned; the other bookings stay, in their order |
| BookingService.DeleteByGuestIdEmpties | src/main/java/org/docencia/hotel/service/impl/BookingServiceImpl.java:118-123 | afterwards the guest has no bookings, the count is the number of rows removed, and the table stays keyed |
| BookingService.DeleteByRoomId | src/main/java/org/docencia/hotel/service/impl/BookingServiceImpl.java:125-130 | the room id is guarded; that room's bookings are removed and their number returned; the other bookings stay, in their order |
| BookingService.DeleteByRoomIdEmpties | src/main/java/org/docencia/hotel/service/impl/BookingServiceImpl.java:125-130 | afterwards the room has no bookings, the count is the number of rows removed, and the table stays keyed |
| BookingServiceImpl.BookingServiceImpl.constructor | src/main/java/org/docencia/hotel/service/impl/BookingServiceImpl.java:26-29 | the service works on the given repositories |
| BookingServiceImpl.BookingServiceImpl.Save | src/main/java/org/docencia/hotel/service/impl/BookingServiceImpl.java:31-39 | result and repositories are as `BookingService.Save` says |
| BookingServiceImpl.BookingServiceImpl.DeleteById | src/main/java/org/docencia/hotel/service/impl/BookingServiceImpl.java:106-116 | result and repositories are as `BookingService.DeleteById` says |
| BookingServiceImpl.BookingServiceImpl.DeleteByGuestId | src/main/java/org/docencia/hotel/service/impl/BookingServiceImpl.java:118-123 | result and repositories are as `BookingService.DeleteByGuestId` says |
| BookingServiceImpl.BookingServiceImpl.DeleteByRoomId | src/main/java/org/docencia/hotel/service/impl/BookingServiceImpl.java:125-130 | result and repositories are as `BookingService.DeleteByRoomId` says |
| GuestService.PreferencesFor | src/main/java/org/docencia/hotel/service/impl/GuestServiceImpl.java:124-126 | the preferences stored under a guest id, if any, read back from their document |
| GuestService.Attached | src/main/java/org/docencia/hotel/service/impl/GuestServiceImpl.java:145-154 | a guest row with the preferences stored under its id attached |
| GuestService.Save | src/main/java/org/docencia/hotel/service/impl/GuestServiceImpl.java:70-93 | null is refused; the guest row is merged; only when preferences are attached is a document merged, with the saved guest's id; the result carries those preferences |
| GuestService.Stamped | src/main/java/org/docencia/hotel/service/impl/GuestServiceImpl.java:80-84 | the attached preferences, if any, with the guest's id as their guest id |
| GuestService.SaveThenFind | src/main/java/org/docencia/hotel/service/impl/GuestServiceImpl.java:70-130 | a guest saved with preferences is found as returned; a guest saved without them is found with the preferences stored before |
| GuestService.SavedPreferences | src/main/java/org/docencia/hotel/service/impl/GuestServiceImpl.java:95-104 | null preferences, then a null or blank guest id, are refused; otherwise they are merged by guest id, without checking the guest exists |
| GuestService.SavedPreferencesThenFind | src/main/java/org/docencia/hotel/service/impl/GuestServiceImpl.java:95-104 | saved preferences are found under their guest id; other guest ids find what they found |
| GuestService.ExistsById | src/main/java/org/docencia/hotel/service/impl/GuestServiceImpl.java:106-110 | ids are guarded; true iff a stored guest has the id |
| GuestService.FindGuestById | src/main/java/org/docencia/hotel/service/impl/GuestServiceImpl.java:112-130 | ids are guarded; a guest iff one is stored, with the preferences stored under its id or none |
| GuestService.FindAllGuests | src/main/java/org/docencia/hotel/service/impl/GuestServiceImpl.java:132-156 | one guest per stored row, in order, each with the row's fields and with the preferences stored under its id (none for a null id) |
| GuestService.FindAllAgreesWithFindById | src/main/java/org/docencia/hotel/service/impl/GuestServiceImpl.java:112-156 | each guest listed by `findAllGuests` is what `findGuestById` gives for its id |
| GuestService.FindPreferencesByGuestId | src/main/java/org/docencia/hotel/service/impl/GuestServiceImpl.java:158-164 | guest ids are guarded; the preferences stored under that id, if any |
| GuestService.DeletePreferencesByGuestId | src/main/java/org/docencia/hotel/service/impl/GuestServiceImpl.java:166-176 | ids are guarded; false with no change when none are stored; otherwise the document is removed and true returned; only the document store changes |
| GuestService.DeletePreferencesRemovesExactly | src/main/java/org/docencia/hotel/service/impl/GuestServiceImpl.java:166-176 | afterwards no preferences are stored under the id, other ids find what they found, and the table stays keyed |
| GuestService.DeleteGuestById | src/main/java/org/docencia/hotel/service/impl/GuestServiceImpl.java:178-188 | ids are guarded; false with no change for an absent guest; otherwise the row is removed and true returned; only the relational store changes |
| GuestService.DeleteGuestRemovesExactly | src/main/java/org/docencia/hotel/service/impl/GuestServiceImpl.java:178-188 | afterwards the id finds no guest, other ids find what they found, and the table stays keyed |
| GuestServiceImpl.GuestServiceImpl.constructor | src/main/java/org/docencia/hotel/service/impl/GuestServiceImpl.java:60-67 | the service works on the given repositories |
| GuestServiceImpl.GuestServiceImpl.Save | src/main/java/org/docencia/hotel/service/impl/GuestServiceImpl.java:70-93 | result and repositories are as `GuestService.Save` says; the caller's preferences object gets the guest id |
| GuestServiceImpl.GuestServiceImpl.SavedPreferences | src/main/java/org/docencia/hotel/service/impl/GuestServiceImpl.java:95-104 | result and repositories are as `GuestService.SavedPreferences` says |
| GuestServiceImpl.GuestServiceImpl.FindAllGuests | src/main/java/org/docencia/hotel/service/impl/GuestServiceImpl.java:132-156 | the loop that attaches preferences to each guest returns exactly `GuestService.FindAllGuests` |
| GuestServiceImpl.GatherPreferences | src/main/java/org/docencia/hotel/service/impl/GuestServiceImpl.java:141-150 | the map built from the documents has exactly the requested guest ids that have a document, each with the first such document |
| GuestServiceImpl.GuestServiceImpl.DeletePreferencesByGuestId | src/main/java/org/docencia/hotel/service/impl/GuestServiceImpl.java:166-176 | result and repositories are as `GuestService.DeletePreferencesByGuestId` says |
| GuestServiceImpl.GuestServiceImpl.DeleteGuestById | src/main/java/org/docencia/hotel/service/impl/GuestServiceImpl.java:178-188 | result and repositories are as `GuestService.DeleteGuestById` says |
| BookingDomain.RequireBookingExists | src/main/java/org/docencia/hotel/domain/impl/BookingDomainImpl.java:140-144 | passes iff the booking is stored; otherwise "booking not found: <id>", invalid kind |
| BookingDomain.RequireRoomExists | src/main/java/org/docencia/hotel/domain/impl/BookingDomainImpl.java:151-155 | passes iff the room is stored; otherwise "room not found: <id>" |
| BookingDomain.RequireGuestExists | src/main/java/org/docencia/hotel/domain/impl/BookingDomainImpl.java:162-166 | passes iff the guest is stored; otherwise "guest not found: <id>" |
| BookingDomain.RequireHotelExists | src/main/java/org/docencia/hotel/domain/impl/BookingDomainImpl.java:173-177 | passes iff the hotel is stored; otherwise "hotel not found: <id>" |
| BookingDomain.CreateChecks | src/main/java/org/docencia/hotel/domain/impl/BookingDomainImpl.java:38-49 | pass iff the booking is present, its ids have text, guest and room are stored, the dates are valid and the id is new |
| BookingDomain.CreateCheckOrder | src/main/java/org/docencia/hotel/domain/impl/BookingDomainImpl.java:38-49 | the error is that of the first failing check, in the order booking, id, room id, guest id, guest, room, dates, duplicate ("booking already exists: <id>", invalid kind) |
| BookingDomain.CreateBooking | src/main/java/org/docencia/hotel/domain/impl/BookingDomainImpl.java:37-52 | any failing check leaves the stores unchanged; otherwise the booking is saved |
| BookingDomain.CreateBookingAdds | src/main/java/org/docencia/hotel/domain/impl/BookingDomainImpl.java:37-52 | a created booking adds one row and is found by its id |
| BookingDomain.StoringKeepsIntegrity | src/main/java/org/docencia/hotel/domain/impl/BookingDomainImpl.java:43-46 | saving a booking whose room and guest are stored keeps integrity |
| BookingDomain.CreateBookingKeepsIntegrity | src/main/java/org/docencia/hotel/domain/impl/BookingDomainImpl.java:37-52 | creating a booking keeps integrity |
| BookingDomain.GetBookingById | src/main/java/org/docencia/hotel/domain/impl/BookingDomainImpl.java:55-59 | the id is guarded; then exactly the booking service's `findById`: the booking iff stored, and then the stored row's room id, guest id and dates |
| BookingDomain.GetAllBookings | src/main/java/org/docencia/hotel/domain/impl/BookingDomainImpl.java:62-64 | exactly the booking service's `findAll`: one booking per stored row, in order, each the row's values |
| BookingDomain.GetBookingsByRoomId | src/main/java/org/docencia/hotel/domain/impl/BookingDomainImpl.java:67-73 | the room id is guarded; a missing room gives "room not found: <id>"; otherwise the room's bookings |
| BookingDomain.GetBookingsByGuestId | src/main/java/org/docencia/hotel/domain/impl/BookingDomainImpl.java:76-82 | the guest id is guarded; a missing guest gives "guest not found: <id>"; otherwise the guest's bookings |
| BookingDomain.GetBookingsByHotelId | src/main/java/org/docencia/hotel/domain/impl/BookingDomainImpl.java:85-91 | the hotel id is guarded; a missing hotel gives "hotel not found: <id>"; otherwise the bookings in that hotel |
| BookingDomain.UpdateChecks | src/main/java/org/docencia/hotel/domain/impl/BookingDomainImpl.java:95-104 | pass iff the path id has text, the booking is present with text ids, the booking, guest and room are stored and the dates are valid; the result carries the path id |
| BookingDomain.UpdateCheckOrder | src/main/java/org/docencia/hotel/domain/impl/BookingDomainImpl.java:95-104 | the error is that of the first failing check: the path id, the null booking, room id, guest id, then a missing booking, guest and room, then the date error; the booking's own id is never checked |
| BookingDomain.UpdateBooking | src/main/java/org/docencia/hotel/domain/impl/BookingDomainImpl.java:94-108 | any failing check leaves the stores unchanged; otherwise the booking, with the path id, is saved |
| BookingDomain.UpdateBookingReplaces | src/main/java/org/docencia/hotel/domain/impl/BookingDomainImpl.java:94-108 | an update adds no row and the path id finds the new booking |
| BookingDomain.UpdateBookingKeepsIntegrity | src/main/java/org/docencia/hotel/domain/impl/BookingDomainImpl.java:94-108 | updating a booking keeps integrity |
| BookingDomain.DeleteBooking | src/main/java/org/docencia/hotel/domain/impl/BookingDomainImpl.java:111-115 | the id is guarded; otherwise the booking service deletion, which returns false and changes nothing for an unknown id |
| BookingDomain.DeleteBookingsByGuestId | src/main/java/org/docencia/hotel/domain/impl/BookingDomainImpl.java:118-124 | the guest id is guarded; a missing guest gives "guest not found: <id>"; otherwise its bookings are removed and counted |
| BookingDomain.DeleteBookingsByRoomId | src/main/java/org/docencia/hotel/domain/impl/BookingDomainImpl.java:127-133 | the room id is guarded; a missing room gives "room not found: <id>"; otherwise its bookings are removed and counted |
| BookingDomain.DropBookingsKeepsIntegrity | src/main/java/org/docencia/hotel/domain/impl/BookingDomainImpl.java:111-133 | removing any bookings keeps integrity |
| BookingDomain.DeletionsKeepIntegrity | src/main/java/org/docencia/hotel/domain/impl/BookingDomainImpl.java:111-133 | every booking deletion of the rules keeps integrity |
| BookingDomainImpl.BookingDomainImpl.constructor | src/main/java/org/docencia/hotel/domain/impl/BookingDomainImpl.java:25-34 | the rules use the given services |
| BookingDomainImpl.BookingDomainImpl.CreateBooking | src/main/java/org/docencia/hotel/domain/impl/BookingDomainImpl.java:37-52 | result and repositories are as `BookingDomain.CreateBooking` says |
| BookingDomainImpl.BookingDomainImpl.UpdateBooking | src/main/java/org/docencia/hotel/domain/impl/BookingDomainImpl.java:94-108 | result and repositories are as `BookingDomain.UpdateBooking` says; the caller's booking gets the path id only when the checks pass |
| BookingDomainImpl.BookingDomainImpl.DeleteBooking | src/main/java/org/docencia/hotel/domain/impl/BookingDomainImpl.java:111-115 | result and repositories are as `BookingDomain.DeleteBooking` says |
| BookingDomainImpl.BookingDomainImpl.DeleteBookingsByGuestId | src/main/java/org/docencia/hotel/domain/impl/BookingDomainImpl.java:118-124 | result and repositories are as `BookingDomain.DeleteBookingsByGuestId` says |
| BookingDomainImpl.BookingDomainImpl.DeleteBookingsByRoomId | src/main/java/org/docencia/hotel/domain/impl/BookingDomainImpl.java:127-133 | result and repositories are as `BookingDomain.DeleteBookingsByRoomId` says |
| RoomDomain.RequireHotelExists | src/main/java/org/docencia/hotel/domain/impl/RoomDomainImpl.java:56-58 | passes iff the hotel is stored; otherwise "Hotel with id <h> does not exist" |
| RoomDomain.CreateChecks | src/main/java/org/docencia/hotel/domain/impl/RoomDomainImpl.java:47-58 | pass iff the room is present, id, number and hotel id have text, the id is new and the hotel is stored |
| RoomDomain.CreateCheckOrder | src/main/java/org/docencia/hotel/domain/impl/RoomDomainImpl.java:47-58 | the guards come first, then a duplicate id gives "room already exists: <id>" with the conflict kind before the hotel is looked at |
| RoomDomain.CreateRoom | src/main/java/org/docencia/hotel/domain/impl/RoomDomainImpl.java:46-61 | any failing check leaves the stores unchanged; otherwise the room is saved |
| RoomDomain.CreateRoomAdds | src/main/java/org/docencia/hotel/domain/impl/RoomDomainImpl.java:46-61 | a created room adds one row and is found by its id |
| RoomDomain.StoringKeepsIntegrity | src/main/java/org/docencia/hotel/domain/impl/RoomDomainImpl.java:56-60 | saving a room whose hotel is stored keeps integrity |
| RoomDomain.CreateRoomKeepsIntegrity | src/main/java/org/docencia/hotel/domain/impl/RoomDomainImpl.java:46-61 | creating a room keeps integrity |
| RoomDomain.GetRoomById | src/main/java/org/docencia/hotel/domain/impl/RoomDomainImpl.java:64-68 | the id is guarded; then exactly the room service's `findById`: the room iff stored, and then the stored row's number, type, price and hotel id |
| RoomDomain.GetAllRooms | src/main/java/org/docencia/hotel/domain/impl/RoomDomainImpl.java:71-73 | exactly the room service's `findAll`: one room per stored row, in order, each the row's values |
| RoomDomain.GetRoomsByHotel | src/main/java/org/docencia/hotel/domain/impl/RoomDomainImpl.java:76-84 | the hotel id is guarded; a missing hotel is refused before rooms are read; otherwise the hotel's rooms |
| RoomDomain.GetRoomsByHotelAndType | src/main/java/org/docencia/hotel/domain/impl/RoomDomainImpl.java:87-96 | hotel id and type are guarded; a missing hotel is refused; otherwise the hotel's rooms of that type |
| RoomDomain.UpdateChecks | src/main/java/org/docencia/hotel/domain/impl/RoomDomainImpl.java:100-111 | pass iff the path id has text, the room is present with number and hotel id, the room is stored and so is the hotel; the result carries the path id |
| RoomDomain.UpdateCheckOrder | src/main/java/org/docencia/hotel/domain/impl/RoomDomainImpl.java:100-111 | a missing room gives "Room with id <id> does not exist" before the hotel is checked |
| RoomDomain.UpdateRoom | src/main/java/org/docencia/hotel/domain/impl/RoomDomainImpl.java:99-115 | any failing check leaves the stores unchanged; otherwise the room, with the path id, is saved |
| RoomDomain.UpdateRoomReplaces | src/main/java/org/docencia/hotel/domain/impl/RoomDomainImpl.java:99-115 | an update adds no row and the path id finds the new room |
| RoomDomain.UpdateRoomKeepsIntegrity | src/main/java/org/docencia/hotel/domain/impl/RoomDomainImpl.java:99-115 | updating a room keeps integrity |
| RoomDomain.DeleteRoom | src/main/java/org/docencia/hotel/domain/impl/RoomDomainImpl.java:118-130 | the id is guarded; an absent room gives false with no change; a room with bookings gives "cannot delete room <id> because it has bookings" with no change; otherwise it is removed |
| RoomDomain.DeleteRoomKeepsIntegrity | src/main/java/org/docencia/hotel/domain/impl/RoomDomainImpl.java:118-130 | deleting a room keeps integrity |
| RoomDomain.DeleteRoomsByHotel | src/main/java/org/docencia/hotel/domain/impl/RoomDomainImpl.java:133-146 | the hotel must exist; bookings in the hotel give "cannot delete rooms for hotel <h> because there are bookings"; otherwise its rooms are removed and counted |
| RoomDomain.DeleteRoomsByHotelKeepsIntegrity | src/main/java/org/docencia/hotel/domain/impl/RoomDomainImpl.java:133-146 | deleting a hotel's rooms keeps integrity |
| RoomDomainImpl.RoomDomainImpl.constructor | src/main/java/org/docencia/hotel/domain/impl/RoomDomainImpl.java:39-43 | the rules use the given services |
| RoomDomainImpl.RoomDomainImpl.CreateRoom | src/main/java/org/docencia/hotel/domain/impl/RoomDomainImpl.java:46-61 | result and repositories are as `RoomDomain.CreateRoom` says |
| RoomDomainImpl.RoomDomainImpl.UpdateRoom | src/main/java/org/docencia/hotel/domain/impl/RoomDomainImpl.java:99-115 | result and repositories are as `RoomDomain.UpdateRoom` says; the caller's room gets the path id only when the checks pass |
| RoomDomainImpl.RoomDomainImpl.DeleteRoom | src/main/java/org/docencia/hotel/domain/impl/RoomDomainImpl.java:118-130 | result and repositories are as `RoomDomain.DeleteRoom` says |
| RoomDomainImpl.RoomDomainImpl.DeleteRoomsByHotel | src/main/java/org/docencia/hotel/domain/impl/RoomDomainImpl.java:133-146 | result and repositories are as `RoomDomain.DeleteRoomsByHotel` says |
| GuestDomain.StampedWith | src/main/java/org/docencia/hotel/domain/impl/GuestDomainImpl.java:47-49 | only the attached preferences change, and their guest id becomes the given id |
| GuestDomain.CreateChecks | src/main/java/org/docencia/hotel/domain/impl/GuestDomainImpl.java:39-45 | pass iff the guest is present, id and name have text and the id is new |
| GuestDomain.CreateCheckOrder | src/main/java/org/docencia/hotel/domain/impl/GuestDomainImpl.java:39-45 | the error is that of the first failing check: guest, id, name, then "guest already exists: <id>" with the conflict kind |
| GuestDomain.CreateGuest | src/main/java/org/docencia/hotel/domain/impl/GuestDomainImpl.java:38-52 | any failing check leaves the stores unchanged; otherwise the guest, with its preferences given its id, is saved |
| GuestDomain.CreateGuestThenFind | src/main/java/org/docencia/hotel/domain/impl/GuestDomainImpl.java:38-52 | a created guest adds one row; with preferences it is found as returned, its preferences carrying its id |
| GuestDomain.StoringKeepsIntegrity | src/main/java/org/docencia/hotel/domain/impl/GuestDomainImpl.java:47-51 | saving a guest keeps integrity: guests only grow and the document points to the saved guest |
| GuestDomain.CreateGuestKeepsIntegrity | src/main/java/org/docencia/hotel/domain/impl/GuestDomainImpl.java:38-52 | creating a guest keeps integrity |
| GuestDomain.GetGuestById | src/main/java/org/docencia/hotel/domain/impl/GuestDomainImpl.java:55-58 | the id is guarded; then exactly the guest service's `findGuestById`: the guest iff stored, with the stored row's fields and its stored preferences |
| GuestDomain.GetAllGuests | src/main/java/org/docencia/hotel/domain/impl/GuestDomainImpl.java:61-63 | exactly the guest service's `findAllGuests`: one guest per stored row, in order, with the row's fields and its stored preferences |
| GuestDomain.UpdateChecks | src/main/java/org/docencia/hotel/domain/impl/GuestDomainImpl.java:67-73 | pass iff the path id has text, the guest is present with a name, and the guest is stored; the result carries the path id |
| GuestDomain.UpdateCheckOrder | src/main/java/org/docencia/hotel/domain/impl/GuestDomainImpl.java:67-73 | the error is that of the first failing check, ending with "guest not found: <id>"; the payload's own id is never read |
| GuestDomain.UpdateGuest | src/main/java/org/docencia/hotel/domain/impl/GuestDomainImpl.java:66-82 | any failing check leaves the stores unchanged; otherwise the guest and its preferences get the path id and are saved |
| GuestDomain.UpdateGuestReplaces | src/main/java/org/docencia/hotel/domain/impl/GuestDomainImpl.java:66-82 | an update adds no row; with preferences the path id finds the guest as returned |
| GuestDomain.UpdateGuestKeepsIntegrity | src/main/java/org/docencia/hotel/domain/impl/GuestDomainImpl.java:66-82 | updating a guest keeps integrity |
| GuestDomain.DeleteGuest | src/main/java/org/docencia/hotel/domain/impl/GuestDomainImpl.java:85-98 | the id is guarded; an absent guest gives false with no change; a guest with bookings gives "cannot delete guest <id> because it has bookings" with no change; true iff stored without bookings, after deleting its preferences and then the guest |
| GuestDomain.DeleteGuestRemovesAll | src/main/java/org/docencia/hotel/domain/impl/GuestDomainImpl.java:96-97 | after a deletion neither the guest nor its preferences are found, and other guests are found as before |
| GuestDomain.DeleteGuestKeepsIntegrity | src/main/java/org/docencia/hotel/domain/impl/GuestDomainImpl.java:85-98 | deleting a guest keeps integrity |
| GuestDomain.PreferencesChecks | src/main/java/org/docencia/hotel/domain/impl/GuestDomainImpl.java:102-108 | the guest id is guarded, then null preferences are refused, then "guest not found: <id>"; the result carries the guest id |
| GuestDomain.UpdatePreferences | src/main/java/org/docencia/hotel/domain/impl/GuestDomainImpl.java:101-112 | any failing check leaves the stores unchanged; otherwise the preferences, with the path guest id, are merged into the document store |
| GuestDomain.UpdatePreferencesKeepsIntegrity | src/main/java/org/docencia/hotel/domain/impl/GuestDomainImpl.java:101-112 | storing preferences keeps integrity, and they are found under the guest |
| GuestDomain.GetPreferencesByGuestId | src/main/java/org/docencia/hotel/domain/impl/GuestDomainImpl.java:115-118 | the guest id is guarded; the stored preferences, if any |
| GuestDomain.DeletePreferencesByGuestId | src/main/java/org/docencia/hotel/domain/impl/GuestDomainImpl.java:121-124 | the guest id is guarded; then the service's deletion, which keeps integrity |
| GuestDomainImpl.GuestDomainImpl.constructor | src/main/java/org/docencia/hotel/domain/impl/GuestDomainImpl.java:32-35 | the rules use the given services |
| GuestDomainImpl.GuestDomainImpl.CreateGuest | src/main/java/org/docencia/hotel/domain/impl/GuestDomainImpl.java:38-52 | result and repositories are as `GuestDomain.CreateGuest` says; the caller's preferences get the guest id only when the checks pass |
| GuestDomainImpl.GuestDomainImpl.UpdateGuest | src/main/java/org/docencia/hotel/domain/impl/GuestDomainImpl.java:66-82 | result and repositories are as `GuestDomain.UpdateGuest` says; the caller's guest and preferences get the path id only when the checks pass; the guest's name, email, phone and preferences reference are left as they were |
| GuestDomainImpl.GuestDomainImpl.DeleteGuest | src/main/java/org/docencia/hotel/domain/impl/GuestDomainImpl.java:85-98 | result and repositories are as `GuestDomain.DeleteGuest` says |
| GuestDomainImpl.GuestDomainImpl.UpdatePreferences | src/main/java/org/docencia/hotel/domain/impl/GuestDomainImpl.java:101-112 | result and repositories are as `GuestDomain.UpdatePreferences` says; the caller's preferences get the guest id only when the checks pass |
| GuestDomainImpl.GuestDomainImpl.DeletePreferencesByGuestId | src/main/java/org/docencia/hotel/domain/impl/GuestDomainImpl.java:121-124 | result and repositories are as `GuestDomain.DeletePreferencesByGuestId` says |
| HotelDomain.CreateChecks | src/main/java/org/docencia/hotel/domain/impl/HotelDomainImpl.java:31-39 | null hotel gives "hotel must not be null" (absent); null or blank id gives "hotel id must not be blank" (invalid); null or blank name gives "hotel name must not be blank" |
| HotelDomain.CreateNullIdIsInvalid | src/main/java/org/docencia/hotel/domain/impl/HotelDomainImpl.java:33-35 | a null id at creation is the invalid kind, where the guard would give the absent kind |
| HotelDomain.CreateHotel | src/main/java/org/docencia/hotel/domain/impl/HotelDomainImpl.java:30-43 | failing checks change nothing; a stored id returns the stored hotel and saves nothing; a new id saves the hotel |
| HotelDomain.CreateHotelIdempotent | src/main/java/org/docencia/hotel/domain/impl/HotelDomainImpl.java:41-42 | the returned hotel is the one stored under the id, and creating it again returns the same and changes nothing |
| HotelDomain.CreateHotelKeepsIntegrity | src/main/java/org/docencia/hotel/domain/impl/HotelDomainImpl.java:30-43 | creating a hotel keeps integrity |
| HotelDomain.GetHotelById | src/main/java/org/docencia/hotel/domain/impl/HotelDomainImpl.java:46-54 | null id gives "hotel id must not be null"; blank gives "hotel id must not be blank"; otherwise the hotel iff stored |
| HotelDomain.GetAllHotels | src/main/java/org/docencia/hotel/domain/impl/HotelDomainImpl.java:57-59 | one hotel per stored row, in order |
| HotelDomain.UpdateChecks | src/main/java/org/docencia/hotel/domain/impl/HotelDomainImpl.java:63-76 | pass iff the path id has text, the hotel is present with a name and the hotel is stored; the result carries the path id |
| HotelDomain.UpdateCheckOrder | src/main/java/org/docencia/hotel/domain/impl/HotelDomainImpl.java:63-76 | null id, null hotel, blank id, blank name, then "hotel not found: <id>", in that order; a null hotel is reported before a blank id |
| HotelDomain.UpdateHotel | src/main/java/org/docencia/hotel/domain/impl/HotelDomainImpl.java:62-81 | failing checks change nothing; otherwise the hotel, with the path id, is saved |
| HotelDomain.UpdateHotelReplaces | src/main/java/org/docencia/hotel/domain/impl/HotelDomainImpl.java:78-80 | an update adds no row, the path id finds the new values, other ids find what they found |
| HotelDomain.UpdateHotelKeepsIntegrity | src/main/java/org/docencia/hotel/domain/impl/HotelDomainImpl.java:62-81 | updating a hotel keeps integrity |
| HotelDomain.DeleteHotel | src/main/java/org/docencia/hotel/domain/impl/HotelDomainImpl.java:84-92 | null and blank ids are refused; the result says whether the hotel was stored; only the hotel table changes, so rooms and bookings are untouched |
| HotelDomain.DeleteHotelKeepsIntegrity | src/main/java/org/docencia/hotel/domain/impl/HotelDomainImpl.java:84-92 | deleting a hotel no room belongs to keeps integrity |
| HotelDomain.DeleteHotelOrphansRooms | src/main/java/org/docencia/hotel/domain/impl/HotelDomainImpl.java:84-92 | deleting a hotel that still has rooms succeeds and breaks integrity: those rooms point to no stored hotel |
| HotelDomain.FindHotelsByName | src/main/java/org/docencia/hotel/domain/impl/HotelDomainImpl.java:95-103 | null name gives "name must not be null"; blank gives "name must not be blank"; otherwise exactly the hotel service's name query, the stored hotels with that name in repository order |
| HotelDomainImpl.HotelDomainImpl.constructor | src/main/java/org/docencia/hotel/domain/impl/HotelDomainImpl.java:25-27 | the rules use the given hotel service |
| HotelDomainImpl.HotelDomainImpl.CreateHotel | src/main/java/org/docencia/hotel/domain/impl/HotelDomainImpl.java:30-43 | result and repositories are as `HotelDomain.CreateHotel` says |
| HotelDomainImpl.HotelDomainImpl.UpdateHotel | src/main/java/org/docencia/hotel/domain/impl/HotelDomainImpl.java:62-81 | result and repositories are as `HotelDomain.UpdateHotel` says; the caller's hotel gets the path id only when the checks pass |
| HotelDomainImpl.HotelDomainImpl.DeleteHotel | src/main/java/org/docencia/hotel/domain/impl/HotelDomainImpl.java:84-92 | result and repositories are as `HotelDomain.DeleteHotel` says |

## Left out

- The REST controllers and the exception handler: HTTP status codes, Location headers and timestamps are not modelled. Only the exception kind and message of each failure are. `HotelController` calls `getHotelsByName`, which the hotel rules do not declare. The model has only `findHotelsByName`.
- Spring Data, JPA and MongoDB are replaced by the five tables of `Storage.State`:
  - `save` is a merge by key, and `deleteById` and the derived `deleteBy…` queries remove rows in place.
  - `findAll` and the derived `findBy…` queries return rows in table order.
  - `findAllById` over the guest ids is taken to return documents in that same order.
  - Database constraints are not modelled: non-null join columns, and the foreign key from a room to its hotel.
  - So a hotel deletion that the database might refuse is modelled as succeeding (`HotelDomain.DeleteHotelOrphansRooms`).
- Store services on a present record with a null id: `BookingService.Save`, `RoomService.Save`, `HotelService.Save`, `GuestService.Save` require a non-null id when the record is present. JPA would generate or reject such an id, and that is not modelled. Every caller in the rules layer has checked the id first.
- The guest mappers are modelled as the field copies their interfaces declare. The generated implementations in the build output copy no fields, and that stale build output is not modelled.
- `existsByHotelId` is called by the room rules but not declared by the booking service interface. `BookingService.ExistsByHotelId` gives it the meaning of `findAllByHotelId`: some booking's room belongs to the hotel.
- `BookingDates.ParseDate` accepts exactly four unsigned digits for the year, so it refuses every signed year. `LocalDate.parse` (ISO_LOCAL_DATE) also accepts a year with a sign: a negative four-digit year such as "-0001-01-01" (only "-0000" is refused), and a signed year of five to ten digits such as "+10000-01-01". The model refuses all of these.
- `pricePerNight` is a Java `double`. It is carried as its 64 bits and copied, never computed with.
- `JavaHash.ObjectsHash` states only that the hash is a 32-bit value depending on the id alone, and 31 for a null id. Concrete hash values of particular strings are not stated.
- Concurrency and transactions are not modelled. That covers races between an existence check and the write that follows it, and the lack of a transaction spanning the relational and the document store.
- Records returned by the services are values. Aliasing between a returned object and the one passed in is not modelled. Only the objects the rules mutate are classes, and their updates are stated: `setId` on the payload, `setGuestId` on attached preferences.
- `GuestService.SaveThenFind` records one behaviour of the source: saving a guest without preferences leaves any previously stored preferences document in place, and lookups then attach it again.
