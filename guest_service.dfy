/**
 * The guest service (service/impl/GuestServiceImpl.java), which keeps a
 * guest in two stores: the guest row in the relational table, and the
 * guest's preferences as a document keyed by the guest id. Queries are
 * functions of the stored state; writes are transitions of it.
 */
module GuestService {
  import opened Wrappers
  import opened Guard
  import opened Records
  import opened Entities
  import opened Tables
  import opened Storage
  import GuestMapper

  /** The stored preferences of a guest, if any. */
  function PreferencesFor(s: State, guestId: string): (p: Option<PreferencesData>)
    ensures p.Some? <==> HasPreferences(s, guestId)
    ensures p.Some? ==> p.value.guestId == Some(guestId) && GuestMapper.ToDocument(p.value) in s.preferences
  {
    match Find(s.preferences, DocumentKey, guestId)
    case None => None
    case Some(d) => Some(GuestMapper.ToPreferences(d))
  }

  /** A stored guest as the queries return it: its row, with its stored preferences attached. */
  function Attached(s: State, e: GuestEntity): (g: GuestData)
    ensures GuestMapper.ToEntity(g) == e
    ensures g.preferences.Some? <==> e.id.Some? && HasPreferences(s, e.id.value)
    ensures g.preferences.Some? ==> g.preferences.value.guestId == g.id
  {
    GuestMapper.ToDomain(e).(preferences := if e.id.Some? then PreferencesFor(s, e.id.value) else None)
  }

  /**
   * `save`: a null guest is refused. Otherwise the row is merged into the
   * guest table; when the guest carries preferences they are rewritten to
   * the saved guest id and merged into the preferences collection, and the
   * saved guest is returned with them; without preferences it is returned
   * with none, and any stored document is left as it was.
   * The stored id must be present, as the relational store demands of every row.
   */
  function Save(s: State, g: Option<GuestData>): (o: Outcome<GuestData>)
    requires g.Some? ==> g.value.id.Some?
    ensures g.None? ==> o == Outcome(Err(Absent(NullMessage("guest"))), s)
    ensures g.Some? ==> o.result == Ok(g.value.(preferences := Stamped(g.value)))
    ensures g.Some? ==> o.after == s.(guests := o.after.guests, preferences := o.after.preferences)
    ensures g.Some? ==> o.after.guests == Upsert(s.guests, GuestKey, GuestMapper.ToEntity(g.value))
    ensures g.Some? && g.value.preferences.None? ==> o.after.preferences == s.preferences
    ensures g.Some? && g.value.preferences.Some? ==>
      o.after.preferences == Upsert(s.preferences, DocumentKey, GuestMapper.ToDocument(Stamped(g.value).value))
  {
    match RequireNonNull(g, "guest")
    case Err(e) => Outcome(Err(e), s)
    case Ok(guest) =>
      var row := GuestMapper.ToEntity(guest);
      var saved := GuestMapper.ToDomain(row);
      var stored := s.(guests := Upsert(s.guests, GuestKey, row));
      match guest.preferences
      case None => Outcome(Ok(saved.(preferences := None)), stored)
      case Some(p) =>
        var doc := GuestMapper.ToDocument(p.(guestId := saved.id)).(guestId := saved.id);
        Outcome(Ok(saved.(preferences := Some(GuestMapper.ToPreferences(doc)))),
                stored.(preferences := Upsert(stored.preferences, DocumentKey, doc)))
  }

  /** A guest's preferences, if it has any, with their guest id set to the guest's. */
  function Stamped(g: GuestData): (p: Option<PreferencesData>)
    ensures p.Some? <==> g.preferences.Some?
    ensures p.Some? ==> p.value.guestId == g.id && p.value.(guestId := None) == g.preferences.value.(guestId := None)
  {
    match g.preferences
    case None => None
    case Some(p) => Some(p.(guestId := g.id))
  }

  /**
   * After a save the guest is found as saved. Saved with preferences, it is
   * found with exactly those; saved without, it is found with whatever
   * document was stored before, because `save` does not remove it.
   */
  lemma SaveThenFind(s: State, g: GuestData)
    requires Valid(s) && HasText(g.id)
    ensures Valid(Save(s, Some(g)).after)
    ensures g.preferences.Some? ==>
      FindGuestById(Save(s, Some(g)).after, g.id) == Ok(Some(Save(s, Some(g)).result.value))
    ensures g.preferences.None? ==>
      FindGuestById(Save(s, Some(g)).after, g.id)
        == Ok(Some(Save(s, Some(g)).result.value.(preferences := PreferencesFor(s, g.id.value))))
  {
    var row := GuestMapper.ToEntity(g);
    UpsertKeyed(s.guests, GuestKey, row);
    UpsertFind(s.guests, GuestKey, row, g.id.value);
    if g.preferences.Some? {
      var doc := GuestMapper.ToDocument(Stamped(g).value);
      UpsertKeyed(s.preferences, DocumentKey, doc);
      UpsertFind(s.preferences, DocumentKey, doc, g.id.value);
    }
  }

  /**
   * `savedPreferences`: null preferences are refused, then preferences
   * whose guest id is null or blank; otherwise the document is merged into
   * the collection, whether or not that guest is stored.
   */
  function SavedPreferences(s: State, p: Option<PreferencesData>): (o: Outcome<PreferencesData>)
    ensures p.None? ==> o == Outcome(Err(Absent(NullMessage("preferences"))), s)
    ensures p.Some? && !HasText(p.value.guestId) ==>
      o == Outcome(Err(RequireNonBlank(p.value.guestId, "guest id in preferences").error), s)
    ensures p.Some? && HasText(p.value.guestId) ==>
      o == Outcome(Ok(p.value), s.(preferences := Upsert(s.preferences, DocumentKey, GuestMapper.ToDocument(p.value))))
  {
    match RequireNonNull(p, "preferences")
    case Err(e) => Outcome(Err(e), s)
    case Ok(prefs) =>
      match RequireNonBlank(prefs.guestId, "guest id in preferences")
      case Err(e) => Outcome(Err(e), s)
      case Ok(_) =>
        var doc := GuestMapper.ToDocument(prefs);
        Outcome(Ok(GuestMapper.ToPreferences(doc)), s.(preferences := Upsert(s.preferences, DocumentKey, doc)))
  }

  /** Saved preferences are found under their guest id; no other guest's preferences change. */
  lemma SavedPreferencesThenFind(s: State, p: PreferencesData, other: string)
    requires Valid(s) && HasText(p.guestId)
    ensures Valid(SavedPreferences(s, Some(p)).after)
    ensures FindPreferencesByGuestId(SavedPreferences(s, Some(p)).after, p.guestId) == Ok(Some(p))
    ensures Some(other) != p.guestId ==>
      PreferencesFor(SavedPreferences(s, Some(p)).after, other) == PreferencesFor(s, other)
  {
    var doc := GuestMapper.ToDocument(p);
    UpsertKeyed(s.preferences, DocumentKey, doc);
    UpsertFind(s.preferences, DocumentKey, doc, other);
  }

  /** `existsById`: the id is guarded, then looked up in the guest table. */
  function ExistsById(s: State, id: Option<string>): (r: Result<bool>)
    ensures !HasText(id) ==> r == Err(RequireNonBlank(id, "guest id").error)
    ensures HasText(id) ==> r == Ok(exists e | e in s.guests :: e.id == id)
  {
    var key :- RequireNonBlank(id, "guest id");
    HasMember(s.guests, GuestKey, key);
    Ok(HasGuest(s, key))
  }

  /** `findGuestById`: the stored guest with that id, with its stored preferences attached. */
  function FindGuestById(s: State, id: Option<string>): (r: Result<Option<GuestData>>)
    ensures !HasText(id) ==> r == Err(RequireNonBlank(id, "guest id").error)
    ensures HasText(id) ==> r.Ok? && (r.value.Some? <==> HasGuest(s, id.value))
    ensures r.Ok? && r.value.Some? ==>
      && r.value.value.id == id
      && GuestMapper.ToEntity(r.value.value) in s.guests
      && r.value.value.preferences == PreferencesFor(s, id.value)
  {
    var key :- RequireNonBlank(id, "guest id");
    match Find(s.guests, GuestKey, key)
    case None => Ok(None)
    case Some(e) => Ok(Some(Attached(s, e)))
  }

  /** `findAllGuests`: every stored guest in repository order, each with its stored preferences attached. */
  function FindAllGuests(s: State): (r: seq<GuestData>)
    ensures |r| == |s.guests|
    ensures forall i | 0 <= i < |r| :: GuestMapper.ToEntity(r[i]) == s.guests[i]
    ensures forall i | 0 <= i < |r| ::
      r[i].preferences == if s.guests[i].id.Some? then PreferencesFor(s, s.guests[i].id.value) else None
  {
    seq(|s.guests|, i requires 0 <= i < |s.guests| => Attached(s, s.guests[i]))
  }

  /** Listing all guests and looking one up agree: each listed guest is what `findGuestById` finds. */
  lemma FindAllAgreesWithFindById(s: State, i: int)
    requires Valid(s) && 0 <= i < |s.guests| && HasText(s.guests[i].id)
    ensures FindGuestById(s, s.guests[i].id) == Ok(Some(FindAllGuests(s)[i]))
  {
    FindUnique(s.guests, GuestKey, s.guests[i]);
  }

  /** `findPreferencesByGuestId`: the stored preferences of that guest, if any. */
  function FindPreferencesByGuestId(s: State, guestId: Option<string>): (r: Result<Option<PreferencesData>>)
    ensures !HasText(guestId) ==> r == Err(RequireNonBlank(guestId, "guest id").error)
    ensures HasText(guestId) ==> r.Ok? && (r.value.Some? <==> HasPreferences(s, guestId.value))
    ensures r.Ok? && r.value.Some? ==>
      r.value.value.guestId == guestId && GuestMapper.ToDocument(r.value.value) in s.preferences
  {
    var key :- RequireNonBlank(guestId, "guest id");
    Ok(PreferencesFor(s, key))
  }

  /** `deletePreferencesByGuestId`: false and no change when the guest has no document; otherwise it is removed. */
  function DeletePreferencesByGuestId(s: State, guestId: Option<string>): (o: Outcome<bool>)
    ensures !HasText(guestId) ==> o == Outcome(Err(RequireNonBlank(guestId, "guest id").error), s)
    ensures HasText(guestId) ==> o.result == Ok(HasPreferences(s, guestId.value))
    ensures o.result == Ok(false) ==> o.after == s
    ensures o.result == Ok(true) ==>
      o.after == s.(preferences := Remove(s.preferences, DocumentKey, guestId.value))
  {
    match RequireNonBlank(guestId, "guest id")
    case Err(e) => Outcome(Err(e), s)
    case Ok(key) =>
      if !HasPreferences(s, key) then Outcome(Ok(false), s)
      else Outcome(Ok(true), s.(preferences := Remove(s.preferences, DocumentKey, key)))
  }

  /** After the deletion the guest has no preferences; every other guest keeps its own. */
  lemma DeletePreferencesRemovesExactly(s: State, guestId: string, other: string)
    requires Valid(s) && HasText(Some(guestId))
    ensures Valid(DeletePreferencesByGuestId(s, Some(guestId)).after)
    ensures PreferencesFor(DeletePreferencesByGuestId(s, Some(guestId)).after, guestId) == None
    ensures other != guestId ==>
      PreferencesFor(DeletePreferencesByGuestId(s, Some(guestId)).after, other) == PreferencesFor(s, other)
  {
    var after := DeletePreferencesByGuestId(s, Some(guestId)).after;
    RemoveKeyed(s.preferences, DocumentKey, guestId);
    HasMember(after.preferences, DocumentKey, guestId);
    if other != guestId {
      var f := Find(s.preferences, DocumentKey, other);
      if f.Some? {
        FindUnique(after.preferences, DocumentKey, f.value);
      } else {
        HasMember(s.preferences, DocumentKey, other);
        HasMember(after.preferences, DocumentKey, other);
      }
    }
  }

  /** `deleteGuestById`: false and no change for an unknown guest; otherwise the row is removed and its preferences left in place. */
  function DeleteGuestById(s: State, id: Option<string>): (o: Outcome<bool>)
    ensures !HasText(id) ==> o == Outcome(Err(RequireNonBlank(id, "guest id").error), s)
    ensures HasText(id) ==> o.result == Ok(HasGuest(s, id.value))
    ensures o.result == Ok(false) ==> o.after == s
    ensures o.result == Ok(true) ==> o.after == s.(guests := Remove(s.guests, GuestKey, id.value))
  {
    match RequireNonBlank(id, "guest id")
    case Err(e) => Outcome(Err(e), s)
    case Ok(key) =>
      if !HasGuest(s, key) then Outcome(Ok(false), s)
      else Outcome(Ok(true), s.(guests := Remove(s.guests, GuestKey, key)))
  }

  /** After the deletion the guest is no longer found; every other guest is found as before. */
  lemma DeleteGuestRemovesExactly(s: State, id: string, other: string)
    requires Valid(s) && HasText(Some(id))
    ensures Valid(DeleteGuestById(s, Some(id)).after)
    ensures FindGuestById(DeleteGuestById(s, Some(id)).after, Some(id)) == Ok(None)
    ensures HasText(Some(other)) && other != id ==>
      FindGuestById(DeleteGuestById(s, Some(id)).after, Some(other)) == FindGuestById(s, Some(other))
  {
    var after := DeleteGuestById(s, Some(id)).after;
    RemoveKeyed(s.guests, GuestKey, id);
    HasMember(after.guests, GuestKey, id);
    if HasText(Some(other)) && other != id {
      var f := Find(s.guests, GuestKey, other);
      if f.Some? {
        FindUnique(after.guests, GuestKey, f.value);
      } else {
        HasMember(s.guests, GuestKey, other);
        HasMember(after.guests, GuestKey, other);
      }
    }
  }
}

/** The guest service object, which changes the shared repositories as `GuestService` says. */
module GuestServiceImpl {
  import opened Wrappers
  import opened Guard
  import opened Records
  import opened Entities
  import opened Tables
  import opened Storage
  import GuestMapper
  import GuestService

  class GuestServiceImpl {
    const repos: Repositories

    constructor (repos: Repositories)
      ensures this.repos == repos
    {
      this.repos := repos;
    }

    /** `save`, which also sets the guest id of the caller's preferences object to the saved id. */
    method Save(guest: Guest?) returns (r: Result<GuestData>)
      requires guest != null ==> guest.id.Some?
      modifies repos, if guest != null && guest.preferences != null then {guest.preferences} else {}
      ensures Outcome(r, repos.Contents()) == GuestService.Save(old(repos.Contents()), old(GuestOf(guest)))
      ensures guest != null && guest.preferences != null ==>
        guest.preferences.Data() == old(guest.preferences.Data()).(guestId := guest.id)
    {
      if guest == null {
        return Err(Absent(NullMessage("guest")));
      }
      var row := GuestMapper.ToEntity(guest.Data());
      repos.guests := Upsert(repos.guests, GuestKey, row);
      var saved := GuestMapper.ToDomain(row);
      var prefs := guest.preferences;
      if prefs != null {
        prefs.SetGuestId(saved.id);
        var doc := GuestMapper.ToDocument(prefs.Data()).(guestId := saved.id);
        repos.preferences := Upsert(repos.preferences, DocumentKey, doc);
        saved := saved.(preferences := Some(GuestMapper.ToPreferences(doc)));
      } else {
        saved := saved.(preferences := None);
      }
      r := Ok(saved);
    }

    method SavedPreferences(preferences: GuestPreferences?) returns (r: Result<PreferencesData>)
      modifies repos
      ensures Outcome(r, repos.Contents()) == GuestService.SavedPreferences(old(repos.Contents()), PreferencesOf(preferences))
    {
      var prefs :- RequireNonNull(PreferencesOf(preferences), "preferences");
      var _ :- RequireNonBlank(prefs.guestId, "guest id in preferences");
      var doc := GuestMapper.ToDocument(prefs);
      repos.preferences := Upsert(repos.preferences, DocumentKey, doc);
      r := Ok(GuestMapper.ToPreferences(doc));
    }

    /**
     * `findAllGuests`: the guests in repository order; when there are any,
     * the documents of their ids are gathered into a map keyed by guest id
     * (the first document of a key wins), and each guest gets the entry of
     * its id.
     */
    method FindAllGuests() returns (r: seq<GuestData>)
      ensures r == GuestService.FindAllGuests(repos.Contents())
    {
      ghost var s := repos.Contents();
      var guests := repos.guests;
      if guests == [] {
        return [];
      }
      var ids := set e | e in guests && e.id.Some? :: e.id.value;
      var byId := GatherPreferences(repos.preferences, ids);
      r := [];
      var i := 0;
      while i < |guests|
        invariant 0 <= i <= |guests| && |r| == i
        invariant forall t | 0 <= t < i :: r[t] == GuestService.Attached(s, guests[t])
      {
        var e := guests[i];
        if e.id.Some? {
          assert e.id.value in ids;
        }
        var p := if e.id.Some? && e.id.value in byId then Some(byId[e.id.value]) else None;
        r := r + [GuestMapper.ToDomain(e).(preferences := p)];
        i := i + 1;
      }
    }

    method DeletePreferencesByGuestId(guestId: Option<string>) returns (r: Result<bool>)
      modifies repos
      ensures Outcome(r, repos.Contents()) == GuestService.DeletePreferencesByGuestId(old(repos.Contents()), guestId)
    {
      var key :- RequireNonBlank(guestId, "guest id");
      if !HasPreferences(repos.Contents(), key) {
        return Ok(false);
      }
      repos.preferences := Remove(repos.preferences, DocumentKey, key);
      r := Ok(true);
    }

    method DeleteGuestById(id: Option<string>) returns (r: Result<bool>)
      modifies repos
      ensures Outcome(r, repos.Contents()) == GuestService.DeleteGuestById(old(repos.Contents()), id)
    {
      var key :- RequireNonBlank(id, "guest id");
      if !HasGuest(repos.Contents(), key) {
        return Ok(false);
      }
      repos.guests := Remove(repos.guests, GuestKey, key);
      r := Ok(true);
    }
  }

  /**
   * The map `findAllGuests` builds from the preference documents of the
   * given guest ids, keyed by guest id; of two documents with one key the
   * first is kept.
   */
  method GatherPreferences(docs: seq<PreferencesDocument>, ids: set<string>) returns (byId: map<string, PreferencesData>)
    ensures forall k | k in ids :: k in byId <==> Has(docs, DocumentKey, k)
    ensures forall k | k in byId :: k in ids && byId[k] == GuestMapper.ToPreferences(Find(docs, DocumentKey, k).value)
  {
    byId := map[];
    var j := 0;
    while j < |docs|
      invariant 0 <= j <= |docs|
      invariant forall k | k in ids :: k in byId <==> Has(docs[..j], DocumentKey, k)
      invariant forall k | k in byId :: k in ids && byId[k] == GuestMapper.ToPreferences(Find(docs[..j], DocumentKey, k).value)
    {
      FindSnocAll(docs[..j], docs[j]);
      assert docs[..j + 1] == docs[..j] + [docs[j]];
      var d := docs[j];
      if d.guestId.Some? && d.guestId.value in ids && d.guestId.value !in byId {
        byId := byId[d.guestId.value := GuestMapper.ToPreferences(d)];
      }
      j := j + 1;
    }
    assert docs[..j] == docs;
  }

  /** `FindSnoc` for every key at once. */
  lemma FindSnocAll(docs: seq<PreferencesDocument>, d: PreferencesDocument)
    ensures forall k ::
      Find(docs + [d], DocumentKey, k) == (if Has(docs, DocumentKey, k) then Find(docs, DocumentKey, k) else if d.guestId == Some(k) then Some(d) else None)
  {
    forall k {
      FindSnoc(docs, DocumentKey, d, k);
    }
  }
}
