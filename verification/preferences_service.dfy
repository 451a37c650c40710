/** The preference store of `src/services/preferences.service.ts`, as an
    immutable map value: a lookup that reports absence explicitly, and a write
    that replaces a user's record wholesale. */
module PreferencesService {
  import opened Wrappers
  import opened Decimal
  import opened UsersModel
  import opened EventsModel
  import opened PreferencesModel

  /** `PreferencesRepository`: at most one record per user identifier. */
  type Store = map<string, Preferences>

  /** What the HTTP layer keeps true of the store: every key is a valid user
      identifier and every record passed `PreferencesSchema`. */
  predicate StoreValid(store: Store) {
    forall u :: u in store ==> IsUserId(u) && store[u].Valid()
  }

  /** The record stored for `userId`, or `None` (the source's `undefined`)
      when there is none. */
  function GetPreferences(store: Store, userId: string): (r: Option<Preferences>)
    ensures r.Some? <==> userId in store
    ensures r.Some? ==> r.value == store[userId]
  {
    if userId in store then Some(store[userId]) else None
  }

  /** Store `prefs` as the record of `userId`, replacing any previous record. */
  function SetPreferences(store: Store, userId: string, prefs: Preferences): (r: Store)
    ensures r.Keys == store.Keys + {userId}
    ensures forall u :: u in store && u != userId ==> r[u] == store[u]
  {
    store[userId := prefs]
  }

  /** After a write, reading the same user gives exactly the record written. */
  lemma GetAfterSet(store: Store, userId: string, prefs: Preferences)
    ensures GetPreferences(SetPreferences(store, userId, prefs), userId) == Some(prefs)
  {
  }

  /** A write leaves every other user's lookup as it was, present or absent. */
  lemma SetLeavesOthersUnchanged(store: Store, userId: string, prefs: Preferences, other: string)
    requires other != userId
    ensures GetPreferences(SetPreferences(store, userId, prefs), other) == GetPreferences(store, other)
  {
  }

  /** A write is a wholesale overwrite: nothing of the earlier record survives,
      so writing over a previous record is the same as writing it fresh. */
  lemma SetOverwrites(store: Store, userId: string, previous: Preferences, prefs: Preferences)
    ensures SetPreferences(SetPreferences(store, userId, previous), userId, prefs)
            == SetPreferences(store, userId, prefs)
  {
  }

  /** Writing the same record twice gives the same store as writing it once. */
  lemma SetIdempotent(store: Store, userId: string, prefs: Preferences)
    ensures var once := SetPreferences(store, userId, prefs);
            SetPreferences(once, userId, prefs) == once
  {
  }

  /** Writing a valid record under a valid identifier keeps the store valid. */
  lemma SetPreservesValidity(store: Store, userId: string, prefs: Preferences)
    requires StoreValid(store) && IsUserId(userId) && prefs.Valid()
    ensures StoreValid(SetPreferences(store, userId, prefs))
  {
  }

  /** A record with both event types enabled and the given DND window. */
  function AllEnabled(start: ClockTime, end: ClockTime): Preferences {
    Preferences(DndWindow(start, end),
                map[ItemShipped := EventSetting(true), InvoiceGenerated := EventSetting(true)])
  }

  /** The repository's initial contents. */
  function Seed(): Store {
    map["usr_abcde" := AllEnabled(ClockTime(22, 0), ClockTime(7, 0)),
        "usr_efghi" := AllEnabled(ClockTime(21, 0), ClockTime(4, 0))]
  }

  /** The seed holds exactly `usr_abcde` (DND 22:00-07:00) and `usr_efghi`
      (DND 21:00-04:00), each with both event types enabled, and is a valid
      store. */
  lemma SeedContents()
    ensures Seed().Keys == {"usr_abcde", "usr_efghi"}
    ensures ParseClockTime("22:00") == Some(Seed()["usr_abcde"].dnd.start)
    ensures ParseClockTime("07:00") == Some(Seed()["usr_abcde"].dnd.end)
    ensures ParseClockTime("21:00") == Some(Seed()["usr_efghi"].dnd.start)
    ensures ParseClockTime("04:00") == Some(Seed()["usr_efghi"].dnd.end)
    ensures forall u, t :: u in Seed() && t in AllEventTypes ==> Seed()[u].eventSettings[t].enabled
    ensures StoreValid(Seed())
  {
    SettingLookupTotal(Seed()["usr_abcde"]);
    SettingLookupTotal(Seed()["usr_efghi"]);
    SeedClockText(22, "22:00");
    SeedClockText(7, "07:00");
    SeedClockText(21, "21:00");
    SeedClockText(4, "04:00");
    assert IsUserId("usr_efghi");
  }

  /** The seed's bounds are the whole hours written in the repository. */
  lemma SeedClockText(hour: nat, text: string)
    requires hour < 24
    requires text == [DigitChar(hour / 10), DigitChar(hour % 10), ':', '0', '0']
    ensures ParseClockTime(text) == Some(ClockTime(hour, 0))
  {
    var c := ClockTime(hour, 0);
    ClockTimeRoundTrip(c);
    assert PadDecimal(hour, 2) == [DigitChar(hour / 10), DigitChar(hour % 10)];
    assert PadDecimal(0, 2) == "00";
    assert FormatClockTime(c) == text;
  }
}
