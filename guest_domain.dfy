/**
 * The guest rules (domain/impl/GuestDomainImpl.java): a guest is created
 * once, with a name; an update replaces an existing guest; a guest with
 * bookings cannot be deleted, and deleting a guest deletes its
 * preferences first; preferences are stored only for a stored guest.
 * The first failing check is the error.
 */
module GuestDomain {
  import opened Wrappers
  import opened Guard
  import opened Records
  import opened Entities
  import opened Tables
  import opened Storage
  import GuestMapper
  import GuestService
  import BookingService

  /** A guest whose preferences, if any, are given the guest id `id`, as the rules do before saving. */
  function StampedWith(g: GuestData, id: Option<string>): (h: GuestData)
    ensures h.(preferences := None) == g.(preferences := None)
    ensures h.preferences.Some? <==> g.preferences.Some?
    ensures h.preferences.Some? ==> h.preferences.value == g.preferences.value.(guestId := id)
  {
    match g.preferences
    case None => g
    case Some(p) => g.(preferences := Some(p.(guestId := id)))
  }

  /** The checks of `createGuest`, in their order; the guest itself when all pass. */
  function CreateChecks(s: State, guest: Option<GuestData>): (r: Result<GuestData>)
    ensures r.Ok? <==> guest.Some? && HasText(guest.value.id) && HasText(guest.value.name) && !HasGuest(s, guest.value.id.value)
    ensures r.Ok? ==> r.value == guest.value
  {
    var g :- RequireNonNull(guest, "guest");
    var _ :- RequireNonBlank(g.id, "guest id");
    var _ :- RequireNonBlank(g.name, "guest name");
    if GuestService.ExistsById(s, g.id).value then Err(Conflict("guest already exists: " + g.id.value)) else Ok(g)
  }

  /** The error `createGuest` reports is the one of the first check that fails. */
  lemma CreateCheckOrder(s: State, g: GuestData)
    ensures CreateChecks(s, None) == Err(Absent(NullMessage("guest")))
    ensures !HasText(g.id) ==> CreateChecks(s, Some(g)) == Err(RequireNonBlank(g.id, "guest id").error)
    ensures HasText(g.id) && !HasText(g.name) ==> CreateChecks(s, Some(g)) == Err(RequireNonBlank(g.name, "guest name").error)
    ensures HasText(g.id) && HasText(g.name) && HasGuest(s, g.id.value) ==>
      CreateChecks(s, Some(g)) == Err(Conflict("guest already exists: " + g.id.value))
  {
  }

  /** `createGuest`: the checks; then the preferences, if any, get the guest id and the guest is saved. */
  function CreateGuest(s: State, guest: Option<GuestData>): (o: Outcome<GuestData>)
    ensures o.result.Ok? <==> CreateChecks(s, guest).Ok?
    ensures o.result.Err? ==> o == Outcome(Err(CreateChecks(s, guest).error), s)
    ensures o.result.Ok? ==> o == GuestService.Save(s, Some(StampedWith(guest.value, guest.value.id)))
  {
    match CreateChecks(s, guest)
    case Err(e) => Outcome(Err(e), s)
    case Ok(g) => GuestService.Save(s, Some(StampedWith(g, g.id)))
  }

  /** A created guest is found with exactly the preferences it was created with, under its own id. */
  lemma CreateGuestThenFind(s: State, g: GuestData)
    requires Valid(s) && CreateChecks(s, Some(g)).Ok?
    ensures Valid(CreateGuest(s, Some(g)).after)
    ensures |CreateGuest(s, Some(g)).after.guests| == |s.guests| + 1
    ensures g.preferences.Some? ==>
      GuestService.FindGuestById(CreateGuest(s, Some(g)).after, g.id) == Ok(Some(CreateGuest(s, Some(g)).result.value))
    ensures g.preferences.Some? ==>
      CreateGuest(s, Some(g)).result.value.preferences == Some(g.preferences.value.(guestId := g.id))
  {
    GuestService.SaveThenFind(s, StampedWith(g, g.id));
  }

  /** Saving a guest whose preferences carry its id keeps integrity: the guest table only grows, and the document points to the guest. */
  lemma StoringKeepsIntegrity(s: State, g: GuestData)
    requires Integrity(s) && HasText(g.id)
    ensures Integrity(GuestService.Save(s, Some(g)).after)
  {
    var after := GuestService.Save(s, Some(g)).after;
    var row := GuestMapper.ToEntity(g);
    forall e | e in after.bookings
      ensures GuestResolves(after, e.guest)
    {
      UpsertHas(s.guests, GuestKey, row, e.guest.value.id.value);
    }
    UpsertHas(s.guests, GuestKey, row, g.id.value);
    forall d | d in after.preferences
      ensures d.guestId.Some? && HasGuest(after, d.guestId.value)
    {
      if d in s.preferences {
        UpsertHas(s.guests, GuestKey, row, d.guestId.value);
      }
    }
  }

  /** `createGuest` keeps the stores consistent. */
  lemma CreateGuestKeepsIntegrity(s: State, guest: Option<GuestData>)
    requires Integrity(s)
    ensures Integrity(CreateGuest(s, guest).after)
  {
    if CreateChecks(s, guest).Ok? {
      StoringKeepsIntegrity(s, StampedWith(guest.value, guest.value.id));
    }
  }

  /** `getGuestById`: the guarded lookup of the guest service. */
  function GetGuestById(s: State, id: Option<string>): (r: Result<Option<GuestData>>)
    ensures !HasText(id) ==> r == Err(RequireNonBlank(id, "guest id").error)
    ensures HasText(id) ==> r.Ok? && (r.value.Some? <==> HasGuest(s, id.value))
    ensures r.Ok? && r.value.Some? ==> r.value.value.id == id && r.value.value.preferences == GuestService.PreferencesFor(s, id.value)
    ensures HasText(id) ==> r == GuestService.FindGuestById(s, id)
  {
    var _ :- RequireNonBlank(id, "guest id");
    GuestService.FindGuestById(s, id)
  }

  /** `getAllGuests`: every stored guest with its preferences. */
  function GetAllGuests(s: State): (r: seq<GuestData>)
    ensures |r| == |s.guests|
    ensures r == GuestService.FindAllGuests(s)
    ensures forall i | 0 <= i < |r| :: GuestMapper.ToEntity(r[i]) == s.guests[i]
    ensures forall i | 0 <= i < |r| ::
      r[i].preferences == if s.guests[i].id.Some? then GuestService.PreferencesFor(s, s.guests[i].id.value) else None
  {
    GuestService.FindAllGuests(s)
  }

  /** The checks of `updateGuest`, in their order; the guest under the given id when all pass. */
  function UpdateChecks(s: State, id: Option<string>, guest: Option<GuestData>): (r: Result<GuestData>)
    ensures r.Ok? <==> HasText(id) && guest.Some? && HasText(guest.value.name) && HasGuest(s, id.value)
    ensures r.Ok? ==> r.value == guest.value.(id := id)
  {
    var key :- RequireNonBlank(id, "guest id");
    var g :- RequireNonNull(guest, "guest");
    var _ :- RequireNonBlank(g.name, "guest name");
    if !GuestService.ExistsById(s, id).value then Err(Invalid("guest not found: " + key)) else Ok(g.(id := id))
  }

  /** The error `updateGuest` reports is the one of the first check that fails; the guest's own id is never read. */
  lemma UpdateCheckOrder(s: State, id: Option<string>, g: GuestData)
    ensures !HasText(id) ==> UpdateChecks(s, id, Some(g)) == Err(RequireNonBlank(id, "guest id").error)
    ensures HasText(id) ==> UpdateChecks(s, id, None) == Err(Absent(NullMessage("guest")))
    ensures HasText(id) && !HasText(g.name) ==> UpdateChecks(s, id, Some(g)) == Err(RequireNonBlank(g.name, "guest name").error)
    ensures HasText(id) && HasText(g.name) && !HasGuest(s, id.value) ==>
      UpdateChecks(s, id, Some(g)) == Err(Invalid("guest not found: " + id.value))
    ensures UpdateChecks(s, id, Some(g)) == UpdateChecks(s, id, Some(g.(id := None)))
  {
  }

  /** `updateGuest`: the checks; then the guest and its preferences get the id and the guest is saved. */
  function UpdateGuest(s: State, id: Option<string>, guest: Option<GuestData>): (o: Outcome<GuestData>)
    ensures o.result.Ok? <==> UpdateChecks(s, id, guest).Ok?
    ensures o.result.Err? ==> o == Outcome(Err(UpdateChecks(s, id, guest).error), s)
    ensures o.result.Ok? ==> o == GuestService.Save(s, Some(StampedWith(guest.value.(id := id), id)))
  {
    match UpdateChecks(s, id, guest)
    case Err(e) => Outcome(Err(e), s)
    case Ok(g) => GuestService.Save(s, Some(StampedWith(g, id)))
  }

  /** An update replaces the stored guest: no row is added, and the id finds the new values. */
  lemma UpdateGuestReplaces(s: State, id: string, g: GuestData)
    requires Valid(s) && UpdateChecks(s, Some(id), Some(g)).Ok?
    ensures Valid(UpdateGuest(s, Some(id), Some(g)).after)
    ensures |UpdateGuest(s, Some(id), Some(g)).after.guests| == |s.guests|
    ensures g.preferences.Some? ==>
      GuestService.FindGuestById(UpdateGuest(s, Some(id), Some(g)).after, Some(id))
        == Ok(Some(UpdateGuest(s, Some(id), Some(g)).result.value))
  {
    GuestService.SaveThenFind(s, StampedWith(g.(id := Some(id)), Some(id)));
  }

  /** `updateGuest` keeps the stores consistent. */
  lemma UpdateGuestKeepsIntegrity(s: State, id: Option<string>, guest: Option<GuestData>)
    requires Integrity(s)
    ensures Integrity(UpdateGuest(s, id, guest).after)
  {
    if UpdateChecks(s, id, guest).Ok? {
      StoringKeepsIntegrity(s, StampedWith(guest.value.(id := id), id));
    }
  }

  /**
   * `deleteGuest`: false for an unknown guest; a guest with bookings is
   * refused; otherwise its preferences are deleted, then the guest.
   */
  function DeleteGuest(s: State, id: Option<string>): (o: Outcome<bool>)
    ensures !HasText(id) ==> o == Outcome(Err(RequireNonBlank(id, "guest id").error), s)
    ensures HasText(id) && !HasGuest(s, id.value) ==> o == Outcome(Ok(false), s)
    ensures HasText(id) && HasGuest(s, id.value) && (exists e | e in s.bookings :: BookingOfGuest(e, id.value)) ==>
      o == Outcome(Err(Invalid("cannot delete guest " + id.value + " because it has bookings")), s)
    ensures o.result == Ok(true) <==>
      HasText(id) && HasGuest(s, id.value) && forall e | e in s.bookings :: !BookingOfGuest(e, id.value)
    ensures o.result == Ok(true) ==>
      o.after == GuestService.DeleteGuestById(GuestService.DeletePreferencesByGuestId(s, id).after, id).after
  {
    match RequireNonBlank(id, "guest id")
    case Err(e) => Outcome(Err(e), s)
    case Ok(key) =>
      if !GuestService.ExistsById(s, id).value then Outcome(Ok(false), s)
      else if BookingService.ExistsByGuestId(s, id).value then
        Outcome(Err(Invalid("cannot delete guest " + key + " because it has bookings")), s)
      else
        var cleared := GuestService.DeletePreferencesByGuestId(s, id).after;
        GuestService.DeleteGuestById(cleared, id)
  }

  /** A deleted guest leaves nothing behind: neither the guest nor its preferences are found, and the rest is found as before. */
  lemma DeleteGuestRemovesAll(s: State, id: string, other: string)
    requires Valid(s) && DeleteGuest(s, Some(id)).result == Ok(true)
    ensures Valid(DeleteGuest(s, Some(id)).after)
    ensures GuestService.FindGuestById(DeleteGuest(s, Some(id)).after, Some(id)) == Ok(None)
    ensures GuestService.PreferencesFor(DeleteGuest(s, Some(id)).after, id) == None
    ensures HasText(Some(other)) && other != id ==>
      GuestService.FindGuestById(DeleteGuest(s, Some(id)).after, Some(other)) == GuestService.FindGuestById(s, Some(other))
  {
    var cleared := GuestService.DeletePreferencesByGuestId(s, Some(id)).after;
    GuestService.DeletePreferencesRemovesExactly(s, id, other);
    GuestService.DeleteGuestRemovesExactly(cleared, id, other);
  }

  /** Deleting a guest without bookings, together with its preferences, keeps the stores consistent. */
  lemma DeleteGuestKeepsIntegrity(s: State, id: Option<string>)
    requires Integrity(s)
    ensures Integrity(DeleteGuest(s, id).after)
  {
    var o := DeleteGuest(s, id);
    if o.result == Ok(true) {
      var key := id.value;
      var cleared := GuestService.DeletePreferencesByGuestId(s, id).after;
      assert forall d | d in cleared.preferences :: d in s.preferences && d.guestId != Some(key);
      var after := o.after;
      forall e | e in after.bookings
        ensures GuestResolves(after, e.guest)
      {
        RemoveHas(s.guests, GuestKey, key, e.guest.value.id.value);
      }
      forall d | d in after.preferences
        ensures d.guestId.Some? && HasGuest(after, d.guestId.value)
      {
        RemoveHas(s.guests, GuestKey, key, d.guestId.value);
      }
    }
  }

  /** The checks of `updatePreferences`, in their order; the preferences under the guest id when all pass. */
  function PreferencesChecks(s: State, guestId: Option<string>, preferences: Option<PreferencesData>): (r: Result<PreferencesData>)
    ensures r.Ok? <==> HasText(guestId) && preferences.Some? && HasGuest(s, guestId.value)
    ensures r.Ok? ==> r.value == preferences.value.(guestId := guestId)
    ensures !HasText(guestId) ==> r == Err(RequireNonBlank(guestId, "guest id").error)
    ensures HasText(guestId) && preferences.None? ==> r == Err(Absent(NullMessage("preferences")))
    ensures HasText(guestId) && preferences.Some? && !HasGuest(s, guestId.value) ==>
      r == Err(Invalid("guest not found: " + guestId.value))
  {
    var key :- RequireNonBlank(guestId, "guest id");
    var p :- RequireNonNull(preferences, "preferences");
    if !GuestService.ExistsById(s, guestId).value then Err(Invalid("guest not found: " + key)) else Ok(p.(guestId := guestId))
  }

  /** `updatePreferences`: the checks; then the preferences get the guest id and are saved. */
  function UpdatePreferences(s: State, guestId: Option<string>, preferences: Option<PreferencesData>): (o: Outcome<PreferencesData>)
    ensures o.result.Ok? <==> PreferencesChecks(s, guestId, preferences).Ok?
    ensures o.result.Err? ==> o == Outcome(Err(PreferencesChecks(s, guestId, preferences).error), s)
    ensures o.result.Ok? ==> o.result.value == preferences.value.(guestId := guestId)
    ensures o.result.Ok? ==> o.after == s.(preferences := Upsert(s.preferences, DocumentKey, GuestMapper.ToDocument(o.result.value)))
  {
    match PreferencesChecks(s, guestId, preferences)
    case Err(e) => Outcome(Err(e), s)
    case Ok(p) => GuestService.SavedPreferences(s, Some(p))
  }

  /** Preferences stored under the rules belong to a stored guest, so integrity is kept; they are then found under that guest. */
  lemma UpdatePreferencesKeepsIntegrity(s: State, guestId: Option<string>, preferences: Option<PreferencesData>)
    requires Integrity(s)
    ensures Integrity(UpdatePreferences(s, guestId, preferences).after)
    ensures Valid(s) && UpdatePreferences(s, guestId, preferences).result.Ok? ==>
      GuestService.FindPreferencesByGuestId(UpdatePreferences(s, guestId, preferences).after, guestId)
        == Ok(Some(UpdatePreferences(s, guestId, preferences).result.value))
  {
    var o := UpdatePreferences(s, guestId, preferences);
    if o.result.Ok? {
      var after := o.after;
      forall d | d in after.preferences
        ensures d.guestId.Some? && HasGuest(after, d.guestId.value)
      {
      }
      if Valid(s) {
        GuestService.SavedPreferencesThenFind(s, o.result.value, guestId.value);
      }
    }
  }

  /** `getPreferencesByGuestId`: the guarded lookup of the guest service. */
  function GetPreferencesByGuestId(s: State, guestId: Option<string>): (r: Result<Option<PreferencesData>>)
    ensures !HasText(guestId) ==> r == Err(RequireNonBlank(guestId, "guest id").error)
    ensures HasText(guestId) ==> r == Ok(GuestService.PreferencesFor(s, guestId.value))
  {
    var _ :- RequireNonBlank(guestId, "guest id");
    GuestService.FindPreferencesByGuestId(s, guestId)
  }

  /** `deletePreferencesByGuestId`: the guarded deletion of the guest service; it never breaks a reference. */
  function DeletePreferencesByGuestId(s: State, guestId: Option<string>): (o: Outcome<bool>)
    ensures !HasText(guestId) ==> o == Outcome(Err(RequireNonBlank(guestId, "guest id").error), s)
    ensures HasText(guestId) ==> o == GuestService.DeletePreferencesByGuestId(s, guestId)
    ensures Integrity(s) ==> Integrity(o.after)
  {
    match RequireNonBlank(guestId, "guest id")
    case Err(e) => Outcome(Err(e), s)
    case Ok(_) => GuestService.DeletePreferencesByGuestId(s, guestId)
  }
}

/** The guest rules object, which runs its checks on the shared repositories and writes through the guest service. */
module GuestDomainImpl {
  import opened Wrappers
  import opened Guard
  import opened Records
  import opened Storage
  import GuestDomain
  import GuestService
  import BookingService
  import GuestServiceImpl
  import BookingServiceImpl

  class GuestDomainImpl {
    const guestService: GuestServiceImpl.GuestServiceImpl
    const bookingService: BookingServiceImpl.BookingServiceImpl

    /** Both services work on the same repositories. */
    predicate Wired() {
      bookingService.repos == guestService.repos
    }

    constructor (guestService: GuestServiceImpl.GuestServiceImpl, bookingService: BookingServiceImpl.BookingServiceImpl)
      ensures this.guestService == guestService && this.bookingService == bookingService
    {
      this.guestService := guestService;
      this.bookingService := bookingService;
    }

    /** What the shared repositories hold now. */
    function Stores(): State
      reads guestService.repos
    {
      guestService.repos.Contents()
    }

    /** `createGuest`, which gives the caller's preferences object the guest id once the checks have passed. */
    method CreateGuest(guest: Guest?) returns (r: Result<GuestData>)
      requires Wired()
      modifies guestService.repos, if guest != null && guest.preferences != null then {guest.preferences} else {}
      ensures Outcome(r, Stores()) == GuestDomain.CreateGuest(old(Stores()), old(GuestOf(guest)))
      ensures guest != null && guest.preferences != null ==>
        guest.preferences.Data() == if r.Ok? then old(guest.preferences.Data()).(guestId := guest.id) else old(guest.preferences.Data())
    {
      var checked :- GuestDomain.CreateChecks(Stores(), GuestOf(guest));
      if guest.preferences != null {
        guest.preferences.SetGuestId(guest.id);
      }
      r := guestService.Save(guest);
    }

    /** `updateGuest`, which gives the caller's guest and preferences objects the id once the checks have passed. */
    method UpdateGuest(id: Option<string>, guest: Guest?) returns (r: Result<GuestData>)
      requires Wired()
      modifies guestService.repos, guest, if guest != null && guest.preferences != null then {guest.preferences} else {}
      ensures Outcome(r, Stores()) == GuestDomain.UpdateGuest(old(Stores()), id, old(GuestOf(guest)))
      ensures guest != null ==> guest.preferences == old(guest.preferences)
      ensures guest != null ==> guest.id == if r.Ok? then id else old(guest.id)
      ensures guest != null ==>
        guest.name == old(guest.name) && guest.email == old(guest.email) && guest.phone == old(guest.phone)
      ensures guest != null && guest.preferences != null ==>
        guest.preferences.Data() == if r.Ok? then old(guest.preferences.Data()).(guestId := id) else old(guest.preferences.Data())
    {
      var checked :- GuestDomain.UpdateChecks(Stores(), id, GuestOf(guest));
      guest.SetId(id);
      if guest.preferences != null {
        guest.preferences.SetGuestId(id);
      }
      r := guestService.Save(guest);
    }

    method DeleteGuest(id: Option<string>) returns (r: Result<bool>)
      requires Wired()
      modifies guestService.repos
      ensures Outcome(r, Stores()) == GuestDomain.DeleteGuest(old(Stores()), id)
    {
      var key :- RequireNonBlank(id, "guest id");
      if !GuestService.ExistsById(Stores(), id).value {
        return Ok(false);
      }
      if BookingService.ExistsByGuestId(Stores(), id).value {
        return Err(Invalid("cannot delete guest " + key + " because it has bookings"));
      }
      var _ := guestService.DeletePreferencesByGuestId(id);
      r := guestService.DeleteGuestById(id);
    }

    /** `updatePreferences`, which gives the caller's preferences object the guest id once the checks have passed. */
    method UpdatePreferences(guestId: Option<string>, preferences: GuestPreferences?) returns (r: Result<PreferencesData>)
      requires Wired()
      modifies guestService.repos, preferences
      ensures Outcome(r, Stores()) == GuestDomain.UpdatePreferences(old(Stores()), guestId, old(PreferencesOf(preferences)))
      ensures preferences != null ==>
        preferences.Data() == if r.Ok? then old(preferences.Data()).(guestId := guestId) else old(preferences.Data())
    {
      var checked :- GuestDomain.PreferencesChecks(Stores(), guestId, PreferencesOf(preferences));
      preferences.SetGuestId(guestId);
      r := guestService.SavedPreferences(preferences);
    }

    method DeletePreferencesByGuestId(guestId: Option<string>) returns (r: Result<bool>)
      requires Wired()
      modifies guestService.repos
      ensures Outcome(r, Stores()) == GuestDomain.DeletePreferencesByGuestId(old(Stores()), guestId)
    {
      var _ :- RequireNonBlank(guestId, "guest id");
      r := guestService.DeletePreferencesByGuestId(guestId);
    }
  }
}
