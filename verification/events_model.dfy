/** The event schema of `src/models/events.model.ts`: event identifiers, the
    closed set of event types, the timestamp format, and validation of a whole
    event body field by field. */
module EventsModel {
  import opened Wrappers
  import opened Decimal
  import opened UsersModel

  const EventIdPrefix: string := "evt_"

  /** The `EventIdSchema` rule: `evt_` then five ASCII alphanumerics. */
  predicate IsEventId(s: string) {
    HasIdFormat(EventIdPrefix, s)
  }

  /** A valid event identifier is never a valid user identifier: the first
      character of the prefix tells them apart. */
  lemma EventIdIsNeverUserId(s: string)
    requires IsEventId(s)
    ensures !IsUserId(s)
  {
    assert s[0] == s[..4][0] == 'e';
  }

  // ---------------------------------------------------------------------------
  // Event types

  /** The closed enumeration `item_shipped | invoice_generated`. */
  datatype EventType = ItemShipped | InvoiceGenerated

  const AllEventTypes: set<EventType> := {ItemShipped, InvoiceGenerated}

  function EventTypeName(t: EventType): string {
    match t
    case ItemShipped => "item_shipped"
    case InvoiceGenerated => "invoice_generated"
  }

  /** The `EventTypeSchema` check: a string names an event type exactly when it
      is one of the two enumerated names. */
  function ParseEventType(s: string): (r: Option<EventType>)
    ensures r.Some? ==> EventTypeName(r.value) == s
  {
    if s == "item_shipped" then Some(ItemShipped)
    else if s == "invoice_generated" then Some(InvoiceGenerated)
    else None
  }

  /** The enumeration has exactly two members and every name parses back to
      its own member. */
  lemma EventTypeEnumeration(t: EventType)
    ensures t in AllEventTypes && |AllEventTypes| == 2
    ensures ParseEventType(EventTypeName(t)) == Some(t)
  {
  }

  // ---------------------------------------------------------------------------
  // Timestamps

  /** A UTC instant at one-second precision. */
  datatype Instant = Instant(year: nat, month: nat, day: nat, hour: nat, minute: nat, second: nat) {
    predicate Valid() {
      && year <= 9999
      && 1 <= month <= 12
      && 1 <= day <= DaysInMonth(year, month)
      && hour < 24 && minute < 60 && second < 60
    }
  }

  /** The Gregorian leap-year rule. */
  predicate IsLeapYear(y: nat) {
    y % 4 == 0 && (y % 100 != 0 || y % 400 == 0)
  }

  function DaysInMonth(y: nat, m: nat): nat {
    if m == 2 then (if IsLeapYear(y) then 29 else 28)
    else if m == 4 || m == 6 || m == 9 || m == 11 then 30
    else 31
  }

  /** The text form `YYYY-MM-DDTHH:MM:SSZ`: a date-time with whole seconds and
      the UTC designator, the only form `iso.datetime({ precision: 0 })`
      accepts with default options. */
  function FormatTimestamp(t: Instant): (s: string)
    requires t.Valid()
    ensures |s| == 20
  {
    PadDecimal(t.year, 4) + "-" + PadDecimal(t.month, 2) + "-" + PadDecimal(t.day, 2)
      + "T" + PadDecimal(t.hour, 2) + ":" + PadDecimal(t.minute, 2) + ":" + PadDecimal(t.second, 2)
      + "Z"
  }

  /** The separators and digit groups of `YYYY-MM-DDTHH:MM:SSZ` are in place. */
  predicate TimestampShape(s: string) {
    && |s| == 20
    && s[4] == '-' && s[7] == '-' && s[10] == 'T'
    && s[13] == ':' && s[16] == ':' && s[19] == 'Z'
    && AllDigits(s[0..4]) && AllDigits(s[5..7]) && AllDigits(s[8..10])
    && AllDigits(s[11..13]) && AllDigits(s[14..16]) && AllDigits(s[17..19])
  }

  /** The `EventTimestampSchema` check: accepts exactly the text forms of valid
      instants, and yields the instant written. */
  function ParseTimestamp(s: string): (r: Option<Instant>)
    ensures r.Some? ==> r.value.Valid()
  {
    if !TimestampShape(s) then None
    else
      var t := Instant(DecimalValue(s[0..4]), DecimalValue(s[5..7]), DecimalValue(s[8..10]),
                       DecimalValue(s[11..13]), DecimalValue(s[14..16]), DecimalValue(s[17..19]));
      if t.Valid() then Some(t) else None
  }

  /** Writing a valid instant and parsing the text gives the instant back. */
  lemma TimestampRoundTrip(t: Instant)
    requires t.Valid()
    ensures ParseTimestamp(FormatTimestamp(t)) == Some(t)
  {
    var s := FormatTimestamp(t);
    assert s[0..4] == PadDecimal(t.year, 4);
    assert s[5..7] == PadDecimal(t.month, 2);
    assert s[8..10] == PadDecimal(t.day, 2);
    assert s[11..13] == PadDecimal(t.hour, 2);
    assert s[14..16] == PadDecimal(t.minute, 2);
    assert s[17..19] == PadDecimal(t.second, 2);
  }

  /** A text that parses is the canonical form of the instant it denotes, so
      a string is accepted exactly when it is the text form of a valid instant. */
  lemma TimestampCanonical(s: string, t: Instant)
    requires ParseTimestamp(s) == Some(t)
    ensures FormatTimestamp(t) == s
  {
    ParsedTimestampParts(s, t);
    SliceIsPad(s, 0, 4, t.year);
    SliceIsPad(s, 5, 7, t.month);
    SliceIsPad(s, 8, 10, t.day);
    SliceIsPad(s, 11, 13, t.hour);
    SliceIsPad(s, 14, 16, t.minute);
    SliceIsPad(s, 17, 19, t.second);
    TimestampTextJoin(s);
  }

  /** What a successful parse has read: the separators and the digit groups. */
  lemma ParsedTimestampParts(s: string, t: Instant)
    requires ParseTimestamp(s) == Some(t)
    ensures TimestampShape(s)
    ensures && t.year == DecimalValue(s[0..4]) && t.month == DecimalValue(s[5..7])
            && t.day == DecimalValue(s[8..10]) && t.hour == DecimalValue(s[11..13])
            && t.minute == DecimalValue(s[14..16]) && t.second == DecimalValue(s[17..19])
  {
  }

  lemma TimestampTextJoin(s: string)
    requires TimestampShape(s)
    ensures s == s[0..4] + "-" + s[5..7] + "-" + s[8..10] + "T" + s[11..13]
                 + ":" + s[14..16] + ":" + s[17..19] + "Z"
  {
  }

  /** A bare clock time such as `23:30` is not a timestamp. */
  lemma BareClockTimeIsNotTimestamp()
    ensures ParseTimestamp("23:30") == None
  {
  }

  /** A full date-time with seconds and `Z` is a timestamp, and it denotes the
      instant written. */
  lemma FullDateTimeIsTimestamp()
    ensures ParseTimestamp("2025-01-01T19:00:00Z") == Some(Instant(2025, 1, 1, 19, 0, 0))
  {
    var s := "2025-01-01T19:00:00Z";
    assert s[0..4] == "2025";
    assert s[5..7] == "01";
    assert s[8..10] == "01";
    assert s[11..13] == "19";
    assert s[14..16] == "00";
    assert s[17..19] == "00";
    DigitGroupValues();
    assert TimestampShape(s);
  }

  /** The same at 23:00. */
  lemma LateDateTimeIsTimestamp()
    ensures ParseTimestamp("2025-01-01T23:00:00Z") == Some(Instant(2025, 1, 1, 23, 0, 0))
  {
    var s := "2025-01-01T23:00:00Z";
    assert s[0..4] == "2025";
    assert s[5..7] == "01";
    assert s[8..10] == "01";
    assert s[11..13] == "23";
    assert s[14..16] == "00";
    assert s[17..19] == "00";
    DigitGroupValues();
    assert TimestampShape(s);
  }

  /** The calendar is checked: 2025 is not a leap year, so 29 February 2025 is
      rejected although every field is in its digit range. */
  lemma NonLeapFebruary29IsRejected()
    ensures ParseTimestamp("2025-02-29T19:00:00Z") == None
  {
    var s := "2025-02-29T19:00:00Z";
    assert s[0..4] == "2025";
    assert s[5..7] == "02";
    assert s[8..10] == "29";
    assert s[11..13] == "19";
    assert s[14..16] == "00";
    assert s[17..19] == "00";
    DigitGroupValues();
    assert TimestampShape(s);
    assert DaysInMonth(2025, 2) == 28;
  }

  lemma DigitGroupValues()
    ensures DecimalValue("2025") == 2025
    ensures DecimalValue("00") == 0 && DecimalValue("01") == 1 && DecimalValue("02") == 2
    ensures DecimalValue("19") == 19 && DecimalValue("23") == 23 && DecimalValue("29") == 29
  {
    assert "2025"[..3] == "202";
    assert "202"[..2] == "20";
    assert "20"[..1] == "2";
  }

  // ---------------------------------------------------------------------------
  // Events

  /** A validated event. */
  datatype Event = Event(eventId: string, userId: string, eventType: EventType, timestamp: Instant) {
    predicate Valid() {
      IsEventId(eventId) && IsUserId(userId) && timestamp.Valid()
    }
  }

  /** An event body as received: each field is the string sent, or `None` when
      it is absent or not a string. */
  datatype RawEvent = RawEvent(eventId: Option<string>, userId: Option<string>,
                               eventType: Option<string>, timestamp: Option<string>)

  /** The field an issue is reported against, in schema order. */
  datatype Field = EventIdField | UserIdField | EventTypeField | TimestampField

  predicate FieldValid(body: RawEvent, f: Field) {
    match f
    case EventIdField => body.eventId.Some? && IsEventId(body.eventId.value)
    case UserIdField => body.userId.Some? && IsUserId(body.userId.value)
    case EventTypeField => body.eventType.Some? && ParseEventType(body.eventType.value).Some?
    case TimestampField => body.timestamp.Some? && ParseTimestamp(body.timestamp.value).Some?
  }

  function IssueIf(invalid: bool, f: Field): seq<Field> {
    if invalid then [f] else []
  }

  /** The `EventSchema.parse` step: every field is checked, and either all four
      are valid and the event is built from them, or the issue list names
      exactly the invalid fields (so it is never empty). */
  function ValidateEvent(body: RawEvent): (r: Result<Event, seq<Field>>)
    ensures r.Success? <==> forall f :: FieldValid(body, f)
    ensures r.Success? ==> r.value.Valid()
    ensures r.Success? ==> && Some(r.value.eventId) == body.eventId
                           && Some(r.value.userId) == body.userId
                           && Some(EventTypeName(r.value.eventType)) == body.eventType
                           && Some(FormatTimestamp(r.value.timestamp)) == body.timestamp
    ensures r.Failure? ==> |r.error| > 0 && forall f :: f in r.error <==> !FieldValid(body, f)
  {
    var issues := IssueIf(!FieldValid(body, EventIdField), EventIdField)
      + IssueIf(!FieldValid(body, UserIdField), UserIdField)
      + IssueIf(!FieldValid(body, EventTypeField), EventTypeField)
      + IssueIf(!FieldValid(body, TimestampField), TimestampField);
    if issues == [] then
      var t := ParseTimestamp(body.timestamp.value).value;
      TimestampCanonical(body.timestamp.value, t);
      Success(Event(body.eventId.value, body.userId.value,
                    ParseEventType(body.eventType.value).value, t))
    else
      Failure(issues)
  }

  /** One invalid field rejects the whole event, and is reported. */
  lemma AnyInvalidFieldRejects(body: RawEvent, f: Field)
    requires !FieldValid(body, f)
    ensures ValidateEvent(body).Failure? && f in ValidateEvent(body).error
  {
  }
}
