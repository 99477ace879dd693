/**
 * The guest mappers (mapper/jpa/GuestMapper.java and
 * mapper/nosql/GuestPreferencesMapper.java), as the field copies they
 * declare: the guest row carries no preferences, which live in their own
 * document.
 */
module GuestMapper {
  import opened Wrappers
  import opened Records
  import opened Entities

  /** `GuestMapper.toEntity`: id, name, email and phone; the preferences are not part of the row. */
  function ToEntity(g: GuestData): (e: GuestEntity)
    ensures e.id == g.id && e.name == g.name && e.email == g.email && e.phone == g.phone
  {
    GuestEntity(g.id, g.name, g.email, g.phone)
  }

  /** `GuestMapper.toDomain`: the row's fields, with no preferences attached. */
  function ToDomain(e: GuestEntity): (g: GuestData)
    ensures g.preferences.None?
    ensures g.id == e.id && g.name == e.name && g.email == e.email && g.phone == e.phone
  {
    GuestData(e.id, e.name, e.email, e.phone, None)
  }

  /** `GuestPreferencesMapper.toDocument`: every field copied. */
  function ToDocument(p: PreferencesData): (d: PreferencesDocument)
    ensures d.guestId == p.guestId && d.bedTypePreference == p.bedTypePreference
    ensures d.prefersSmokingRoom == p.prefersSmokingRoom
    ensures d.needsAccessibilityFeatures == p.needsAccessibilityFeatures
  {
    PreferencesDocument(p.guestId, p.prefersSmokingRoom, p.bedTypePreference, p.needsAccessibilityFeatures)
  }

  /** `GuestPreferencesMapper.toDomain`: every field copied. */
  function ToPreferences(d: PreferencesDocument): (p: PreferencesData)
    ensures p.guestId == d.guestId && p.bedTypePreference == d.bedTypePreference
    ensures p.prefersSmokingRoom == d.prefersSmokingRoom
    ensures p.needsAccessibilityFeatures == d.needsAccessibilityFeatures
  {
    PreferencesData(d.guestId, d.prefersSmokingRoom, d.bedTypePreference, d.needsAccessibilityFeatures)
  }

  /** Rows and documents survive the round trip; a guest survives it without its preferences. */
  lemma RoundTrips(g: GuestData, e: GuestEntity, p: PreferencesData, d: PreferencesDocument)
    ensures ToDomain(ToEntity(g)) == g.(preferences := None)
    ensures ToEntity(ToDomain(e)) == e
    ensures ToPreferences(ToDocument(p)) == p
    ensures ToDocument(ToPreferences(d)) == d
  {
  }
}
