/** The preference record of `src/models/preferences.model.ts`: a Do Not
    Disturb window of two `HH:MM` clock times and one `enabled` flag per event
    type. */
module PreferencesModel {
  import opened Wrappers
  import opened Decimal
  import opened EventsModel

  /** Minutes in a day: minute-of-day values range over `0 .. MinutesPerDay - 1`. */
  const MinutesPerDay: nat := 1440

  /** A wall-clock time at minute precision. */
  datatype ClockTime = ClockTime(hour: nat, minute: nat) {
    predicate Valid() {
      hour < 24 && minute < 60
    }
  }

  /** The `HH:MM` text of a clock time. */
  function FormatClockTime(c: ClockTime): (s: string)
    requires c.Valid()
    ensures |s| == 5 && s[2] == ':'
  {
    PadDecimal(c.hour, 2) + ":" + PadDecimal(c.minute, 2)
  }

  /** The `iso.time({ precision: -1 })` check: two-digit hour `00`-`23`, a
      colon and a two-digit minute `00`-`59`, nothing else. */
  function ParseClockTime(s: string): (r: Option<ClockTime>)
    ensures r.Some? ==> r.value.Valid()
  {
    if |s| == 5 && s[2] == ':' && AllDigits(s[0..2]) && AllDigits(s[3..5]) then
      var c := ClockTime(DecimalValue(s[0..2]), DecimalValue(s[3..5]));
      if c.Valid() then Some(c) else None
    else None
  }

  /** Writing a valid clock time and parsing the text gives it back. */
  lemma ClockTimeRoundTrip(c: ClockTime)
    requires c.Valid()
    ensures ParseClockTime(FormatClockTime(c)) == Some(c)
  {
    var s := FormatClockTime(c);
    assert s[0..2] == PadDecimal(c.hour, 2);
    assert s[3..5] == PadDecimal(c.minute, 2);
  }

  /** A text that parses is the `HH:MM` form of the time it denotes, so a
      string is accepted exactly when it is the text of a valid clock time. */
  lemma ClockTimeCanonical(s: string, c: ClockTime)
    requires ParseClockTime(s) == Some(c)
    ensures FormatClockTime(c) == s
  {
    ParsedClockTimeParts(s, c);
    ClockTextOfParts(s, c);
  }

  lemma ClockTextOfParts(s: string, c: ClockTime)
    requires c.Valid()
    requires |s| == 5 && s[2] == ':' && AllDigits(s[0..2]) && AllDigits(s[3..5])
    requires c.hour == DecimalValue(s[0..2]) && c.minute == DecimalValue(s[3..5])
    ensures FormatClockTime(c) == s
  {
    SliceIsPad(s, 0, 2, c.hour);
    SliceIsPad(s, 3, 5, c.minute);
    ClockTextJoin(s);
  }

  lemma ClockTextJoin(s: string)
    requires |s| == 5 && s[2] == ':'
    ensures s == s[0..2] + ":" + s[3..5]
  {
  }

  /** What a successful parse has read: the digit groups and the colon. */
  lemma ParsedClockTimeParts(s: string, c: ClockTime)
    requires ParseClockTime(s) == Some(c)
    ensures |s| == 5 && s[2] == ':' && AllDigits(s[0..2]) && AllDigits(s[3..5])
    ensures c.hour == DecimalValue(s[0..2]) && c.minute == DecimalValue(s[3..5])
  {
  }

  /** Minutes since midnight, `H * 60 + M`; a valid time lands in the day. */
  function ToMinutes(c: ClockTime): (m: nat)
    requires c.Valid()
    ensures m < MinutesPerDay
  {
    c.hour * 60 + c.minute
  }

  /** The clock time a minute-of-day value denotes; inverse of `ToMinutes`. */
  function FromMinutes(m: nat): (c: ClockTime)
    requires m < MinutesPerDay
    ensures c.Valid() && ToMinutes(c) == m
  {
    ClockTime(m / 60, m % 60)
  }

  /** The hour and minute can be read back from the minute count, so distinct
      valid clock times have distinct minute counts. */
  lemma ToMinutesInjective(a: ClockTime, b: ClockTime)
    requires a.Valid() && b.Valid()
    ensures FromMinutes(ToMinutes(a)) == a
    ensures ToMinutes(a) == ToMinutes(b) ==> a == b
  {
    assert ToMinutes(a) / 60 == a.hour;
  }

  /** The `dnd` part of a preference record. */
  datatype DndWindow = DndWindow(start: ClockTime, end: ClockTime)

  /** The setting for one event type: exactly one boolean. */
  datatype EventSetting = EventSetting(enabled: bool)

  datatype Preferences = Preferences(dnd: DndWindow, eventSettings: map<EventType, EventSetting>) {
    /** What `PreferencesSchema` guarantees: both DND bounds are valid clock
        times and there is a setting for every event type. */
    predicate Valid() {
      && dnd.start.Valid() && dnd.end.Valid()
      && forall t: EventType :: t in eventSettings
    }
  }

  /** A record has a setting for every event type exactly when it has the two
      settings the schema names, so for a valid record the per-type lookup
      never misses. */
  lemma SettingLookupTotal(p: Preferences)
    ensures p.Valid() <==> && p.dnd.start.Valid() && p.dnd.end.Valid()
                           && ItemShipped in p.eventSettings && InvoiceGenerated in p.eventSettings
  {
    if ItemShipped in p.eventSettings && InvoiceGenerated in p.eventSettings {
      forall t: EventType
        ensures t in p.eventSettings
      {
        match t
        case ItemShipped =>
        case InvoiceGenerated =>
      }
    }
  }

  /** A preference body as received, before `PreferencesSchema.parse`. Each
      field is the value sent, or `None` when it is absent or of the wrong
      JSON type. */
  datatype RawPreferences = RawPreferences(start: Option<string>, end: Option<string>,
                                           itemShipped: Option<bool>, invoiceGenerated: Option<bool>)

  /** The `PreferencesSchema` check: accepted exactly when every field is
      present and both times are `HH:MM`; the record then carries the times
      written and the flags sent. */
  function ValidatePreferences(raw: RawPreferences): (r: Option<Preferences>)
    ensures r.Some? <==> && raw.start.Some? && ParseClockTime(raw.start.value).Some?
                         && raw.end.Some? && ParseClockTime(raw.end.value).Some?
                         && raw.itemShipped.Some? && raw.invoiceGenerated.Some?
    ensures r.Some? ==> && r.value.Valid()
                        && FormatClockTime(r.value.dnd.start) == raw.start.value
                        && FormatClockTime(r.value.dnd.end) == raw.end.value
                        && r.value.eventSettings[ItemShipped].enabled == raw.itemShipped.value
                        && r.value.eventSettings[InvoiceGenerated].enabled == raw.invoiceGenerated.value
  {
    if && raw.start.Some? && ParseClockTime(raw.start.value).Some?
       && raw.end.Some? && ParseClockTime(raw.end.value).Some?
       && raw.itemShipped.Some? && raw.invoiceGenerated.Some?
    then
      var start := ParseClockTime(raw.start.value).value;
      var end := ParseClockTime(raw.end.value).value;
      ClockTimeCanonical(raw.start.value, start);
      ClockTimeCanonical(raw.end.value, end);
      var prefs := Preferences(DndWindow(start, end),
                               map[ItemShipped := EventSetting(raw.itemShipped.value),
                                   InvoiceGenerated := EventSetting(raw.invoiceGenerated.value)]);
      SettingLookupTotal(prefs);
      Some(prefs)
    else None
  }
}
