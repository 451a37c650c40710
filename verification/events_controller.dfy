/** The decision chain of the `POST /events` handler in
    `src/controllers/events.controller.ts`: validate the body, look up the
    user's preferences, then decide between notifying, suppressing because the
    user unsubscribed, and suppressing because Do Not Disturb is active; a
    validation error becomes 400 and any other failure 500. */
module EventsController {
  import opened Wrappers
  import opened UsersModel
  import opened EventsModel
  import opened PreferencesModel
  import opened Utils
  import opened PreferencesService

  datatype Reason = UserUnsubscribedFromEvent | DndActive

  /** The five possible answers to one request. */
  datatype Outcome =
    | ProcessNotification
    | DoNotNotify(reason: Reason)
    | BadRequest(issues: seq<Field>)
    | InternalFailure
  {
    /** A decision was reached about the notification. */
    predicate IsDecision() {
      ProcessNotification? || DoNotNotify?
    }
  }

  /** The HTTP status sent for an outcome: success for a decision, a client
      error for a malformed event, a server error for anything else. */
  function StatusCode(o: Outcome): (code: nat)
    ensures 200 <= code < 300 <==> o.IsDecision()
    ensures 400 <= code < 500 <==> o.BadRequest?
    ensures 500 <= code <==> o.InternalFailure?
  {
    match o
    case ProcessNotification => 202
    case DoNotNotify(_) => 200
    case BadRequest(_) => 400
    case InternalFailure => 500
  }

  /** The `decision` field of the response body. */
  function DecisionText(o: Outcome): string
    requires o.IsDecision()
  {
    if o.ProcessNotification? then "PROCESS_NOTIFICATION" else "DO_NOT_NOTIFY"
  }

  /** The `reason` field of the response body, absent when notifying. */
  function ReasonText(o: Outcome): Option<string>
    requires o.IsDecision()
  {
    match o
    case DoNotNotify(UserUnsubscribedFromEvent) => Some("USER_UNSUBSCRIBED_FROM_EVENT")
    case DoNotNotify(DndActive) => Some("DND_ACTIVE")
    case _ => None
  }

  /** The status and body sent for a decision identify the decision. */
  lemma ResponseIdentifiesDecision(o1: Outcome, o2: Outcome)
    requires o1.IsDecision() && o2.IsDecision()
    requires StatusCode(o1) == StatusCode(o2)
    requires DecisionText(o1) == DecisionText(o2) && ReasonText(o1) == ReasonText(o2)
    ensures o1 == o2
  {
  }

  /** What the preference lookup gives back: a record, `undefined` for a user
      with no record, or an exception. */
  datatype Lookup = Found(prefs: Preferences) | Undefined | Threw

  /** `getPreferences` against a store: it never throws. */
  function StoreLookup(store: Store, userId: string): (l: Lookup)
    ensures l.Found? <==> GetPreferences(store, userId).Some?
    ensures l.Found? ==> Some(l.prefs) == GetPreferences(store, userId)
    ensures !l.Threw?
  {
    match GetPreferences(store, userId)
    case Some(p) => Found(p)
    case None => Undefined
  }

  /** Every record the lookup can return passed `PreferencesSchema`. */
  predicate LookupValid(l: Lookup) {
    l.Found? ==> l.prefs.Valid()
  }

  /** The decision for a validated event and the user's record, with the
      process time zone `utcOffset` minutes east of UTC: the subscription flag
      is consulted first, the DND window only for a subscribed event type. */
  function Decide(ev: Event, prefs: Preferences, utcOffset: int): (o: Outcome)
    requires prefs.Valid()
    ensures o.IsDecision()
    ensures o == DoNotNotify(UserUnsubscribedFromEvent) <==> !prefs.eventSettings[ev.eventType].enabled
  {
    if !prefs.eventSettings[ev.eventType].enabled then
      DoNotNotify(UserUnsubscribedFromEvent)
    else if IsTimeBetween(ev.timestamp, utcOffset, prefs.dnd.start, prefs.dnd.end) then
      DoNotNotify(DndActive)
    else
      ProcessNotification
  }

  /** The whole handler. A body that fails validation is answered with its
      issues and nothing is looked up; a user without a record, or a lookup
      that throws, ends in a server failure; otherwise the event is decided on
      against the looked-up record. */
  function HandleEvent(body: RawEvent, lookup: string -> Lookup, utcOffset: int): (o: Outcome)
    requires forall u :: LookupValid(lookup(u))
    ensures o.BadRequest? <==> ValidateEvent(body).Failure?
    ensures o.BadRequest? ==> ValidateEvent(body) == Failure(o.issues)
    ensures o.InternalFailure? <==> ValidateEvent(body).Success?
                                    && !lookup(ValidateEvent(body).value.userId).Found?
    ensures o.IsDecision() ==> var ev := ValidateEvent(body).value;
                               && lookup(ev.userId).Found?
                               && LookupValid(lookup(ev.userId))
                               && o == Decide(ev, lookup(ev.userId).prefs, utcOffset)
  {
    match ValidateEvent(body)
    case Failure(issues) => BadRequest(issues)
    case Success(ev) =>
      match lookup(ev.userId)
      case Found(prefs) =>
        assert LookupValid(lookup(ev.userId));
        Decide(ev, prefs, utcOffset)
      case Undefined => InternalFailure
      case Threw => InternalFailure
  }

  /** The handler wired to a preference store. */
  function HandleEventWithStore(body: RawEvent, store: Store, utcOffset: int): (o: Outcome)
    requires StoreValid(store)
    ensures ValidateEvent(body).Success? && ValidateEvent(body).value.userId !in store
            ==> o == InternalFailure
    ensures o.IsDecision() ==> ValidateEvent(body).Success? && ValidateEvent(body).value.userId in store
  {
    HandleEvent(body, u => StoreLookup(store, u), utcOffset)
  }

  // ---------------------------------------------------------------------------
  // Properties of the decision

  /** An unsubscribed event type is never notified, whatever the DND window
      says: any window gives the same answer. */
  lemma UnsubscribedWins(ev: Event, prefs: Preferences, window: DndWindow, utcOffset: int)
    requires prefs.Valid() && window.start.Valid() && window.end.Valid()
    requires !prefs.eventSettings[ev.eventType].enabled
    ensures Decide(ev, prefs.(dnd := window), utcOffset) == DoNotNotify(UserUnsubscribedFromEvent)
  {
  }

  /** For a subscribed event type the DND window alone decides: suppressed
      exactly when the local time is inside the user's own window, and
      notified exactly when it is outside. */
  lemma SubscribedFollowsWindow(ev: Event, prefs: Preferences, utcOffset: int)
    requires prefs.Valid() && prefs.eventSettings[ev.eventType].enabled
    ensures var inside := IsTimeBetween(ev.timestamp, utcOffset, prefs.dnd.start, prefs.dnd.end);
            && (Decide(ev, prefs, utcOffset) == DoNotNotify(DndActive) <==> inside)
            && (Decide(ev, prefs, utcOffset) == ProcessNotification <==> !inside)
  {
  }

  /** A body that fails validation gets the same answer whatever the lookup
      would have done: the preference lookup is never reached. */
  lemma InvalidBodyNeverLooksUp(body: RawEvent, lookup1: string -> Lookup, lookup2: string -> Lookup, utcOffset: int)
    requires forall u :: LookupValid(lookup1(u))
    requires forall u :: LookupValid(lookup2(u))
    requires ValidateEvent(body).Failure?
    ensures HandleEvent(body, lookup1, utcOffset) == HandleEvent(body, lookup2, utcOffset)
    ensures StatusCode(HandleEvent(body, lookup1, utcOffset)) == 400
  {
  }

  /** Only the event's own user's record is consulted: two lookups that agree
      on that user give the same answer. */
  lemma OnlyOwnRecordConsulted(body: RawEvent, lookup1: string -> Lookup, lookup2: string -> Lookup, utcOffset: int)
    requires forall u :: LookupValid(lookup1(u))
    requires forall u :: LookupValid(lookup2(u))
    requires ValidateEvent(body).Success?
    requires lookup1(ValidateEvent(body).value.userId) == lookup2(ValidateEvent(body).value.userId)
    ensures HandleEvent(body, lookup1, utcOffset) == HandleEvent(body, lookup2, utcOffset)
  {
  }

  /** Every answer is one of the five outcomes, each with its own status. */
  lemma ExactlyOneOutcome(body: RawEvent, lookup: string -> Lookup, utcOffset: int)
    requires forall u :: LookupValid(lookup(u))
    ensures var o := HandleEvent(body, lookup, utcOffset);
            && (o == ProcessNotification <==> StatusCode(o) == 202)
            && (o.DoNotNotify? <==> StatusCode(o) == 200)
            && (o.BadRequest? <==> StatusCode(o) == 400)
            && (o.InternalFailure? <==> StatusCode(o) == 500)
  {
  }

  // ---------------------------------------------------------------------------
  // The controller's test scenarios, on the `item_shipped` event type

  /** A record with DND 22:00-08:00 and `item_shipped` set to `enabled`. */
  function ScenarioPreferences(enabled: bool): (p: Preferences)
    ensures p.Valid()
  {
    var p := Preferences(DndWindow(ClockTime(22, 0), ClockTime(8, 0)),
                         map[ItemShipped := EventSetting(enabled), InvoiceGenerated := EventSetting(true)]);
    SettingLookupTotal(p);
    p
  }

  function ScenarioBody(timestamp: string): RawEvent {
    RawEvent(Some("evt_abcde"), Some("usr_12345"), Some("item_shipped"), Some(timestamp))
  }

  /** A lookup that always returns the same record. */
  function Always(p: Preferences): string -> Lookup {
    u => Found(p)
  }

  lemma ScenarioBodyAt19()
    ensures ValidateEvent(ScenarioBody("2025-01-01T19:00:00Z"))
            == Success(Event("evt_abcde", "usr_12345", ItemShipped, Instant(2025, 1, 1, 19, 0, 0)))
  {
    FullDateTimeIsTimestamp();
    assert IsEventId("evt_abcde");
    UserIdExamples();
  }

  lemma ScenarioBodyAt23()
    ensures ValidateEvent(ScenarioBody("2025-01-01T23:00:00Z"))
            == Success(Event("evt_abcde", "usr_12345", ItemShipped, Instant(2025, 1, 1, 23, 0, 0)))
  {
    LateDateTimeIsTimestamp();
    assert IsEventId("evt_abcde");
    UserIdExamples();
  }

  /** Subscribed, 19:00 UTC in a UTC process, outside DND: 202. */
  lemma ScenarioProcess()
    ensures var o := HandleEvent(ScenarioBody("2025-01-01T19:00:00Z"), Always(ScenarioPreferences(true)), 0);
            o == ProcessNotification && StatusCode(o) == 202
  {
    ScenarioBodyAt19();
    ScenarioDecision(19, true);
  }

  /** Unsubscribed: 200 with reason `USER_UNSUBSCRIBED_FROM_EVENT`. */
  lemma ScenarioUnsubscribed()
    ensures var o := HandleEvent(ScenarioBody("2025-01-01T19:00:00Z"), Always(ScenarioPreferences(false)), 0);
            o == DoNotNotify(UserUnsubscribedFromEvent) && StatusCode(o) == 200
  {
    ScenarioBodyAt19();
    ScenarioDecision(19, false);
  }

  /** Subscribed, 23:00 inside DND 22:00-08:00: 200 with reason `DND_ACTIVE`. */
  lemma ScenarioDndActive()
    ensures var o := HandleEvent(ScenarioBody("2025-01-01T23:00:00Z"), Always(ScenarioPreferences(true)), 0);
            o == DoNotNotify(DndActive) && StatusCode(o) == 200
  {
    ScenarioBodyAt23();
    ScenarioDecision(23, true);
  }

  /** The decision table on the scenario record at a whole hour. */
  lemma ScenarioDecision(hour: nat, enabled: bool)
    requires hour < 24
    ensures var ev := Event("evt_abcde", "usr_12345", ItemShipped, Instant(2025, 1, 1, hour, 0, 0));
            var inside := hour >= 22 || hour < 8;
            Decide(ev, ScenarioPreferences(enabled), 0)
            == if !enabled then DoNotNotify(UserUnsubscribedFromEvent)
               else if inside then DoNotNotify(DndActive)
               else ProcessNotification
  {
    var t := Instant(2025, 1, 1, hour, 0, 0);
    assert LocalMinuteOfDay(hour, 0, 0) == hour * 60;
    assert ToMinutes(ClockTime(22, 0)) == 1320 && ToMinutes(ClockTime(8, 0)) == 480;
  }

  /** A bare clock time as the timestamp: 400 naming the timestamp. */
  lemma ScenarioBadTimestamp(lookup: string -> Lookup)
    requires forall u :: LookupValid(lookup(u))
    ensures var o := HandleEvent(ScenarioBody("23:30"), lookup, 0);
            o == BadRequest([TimestampField]) && StatusCode(o) == 400
  {
    BareClockTimeIsNotTimestamp();
    assert IsEventId("evt_abcde");
    UserIdExamples();
  }

  /** A lookup that throws, for any valid body: 500, never a decision. */
  lemma ScenarioLookupThrows(body: RawEvent)
    requires ValidateEvent(body).Success?
    ensures var o := HandleEvent(body, u => Threw, 0);
            o == InternalFailure && StatusCode(o) == 500
  {
  }
}
