/** The events screen's list logic (src/screens/EventsScreen.tsx). */
module Events {
  import opened Wrappers
  import opened Data
  import opened Lists

  /** The three filter chips: upcoming, my tickets, past. */
  datatype EventFilter = All | Registered | Past

  /** `new Date(event.date) < new Date()`, with the clock reading passed in. */
  predicate IsPast(e: MedEvent, now: int) {
    e.date < now
  }

  /** Whether the current filter keeps the event. */
  predicate Shown(e: MedEvent, filter: EventFilter, now: int) {
    match filter
    case Registered => e.isRegistered && !IsPast(e, now)
    case Past => IsPast(e, now)
    case All => !IsPast(e, now)
  }

  function ShownBy(filter: EventFilter, now: int): MedEvent -> bool {
    e => Shown(e, filter, now)
  }

  /** `filteredEvents`: the events the filter keeps, in list order. */
  function FilteredEvents(events: seq<MedEvent>, filter: EventFilter, now: int): (r: seq<MedEvent>)
    ensures SubseqOf(r, events)
    ensures forall e :: e in r <==> e in events && Shown(e, filter, now)
  {
    FilterIsSubseq(events, ShownBy(filter, now));
    Filter(events, ShownBy(filter, now))
  }

  /** "My tickets" only ever shows events that "upcoming" shows too, in the same order. */
  lemma RegisteredWithinAll(events: seq<MedEvent>, now: int)
    ensures SubseqOf(FilteredEvents(events, Registered, now), FilteredEvents(events, All, now))
  {
    FilterMonotone(events, ShownBy(Registered, now), ShownBy(All, now));
  }

  /** Upcoming and past split the list: every event is in exactly one of them. */
  lemma AllPastPartition(events: seq<MedEvent>, now: int)
    ensures multiset(FilteredEvents(events, All, now)) + multiset(FilteredEvents(events, Past, now)) == multiset(events)
    ensures |FilteredEvents(events, All, now)| + |FilteredEvents(events, Past, now)| == |events|
  {
    FilterPartition(events, ShownBy(All, now), ShownBy(Past, now));
  }

  /** The registration toggle applied to one event. */
  function Toggled(e: MedEvent): (t: MedEvent)
    ensures t.isRegistered == !e.isRegistered
    ensures t.registeredCount == e.registeredCount + (if e.isRegistered then -1 else 1)
    ensures t.(isRegistered := e.isRegistered, registeredCount := e.registeredCount) == e
  {
    e.(isRegistered := !e.isRegistered,
       registeredCount := if e.isRegistered then e.registeredCount - 1 else e.registeredCount + 1)
  }

  /** `handleRegister(eventId)` on the list: only the events with that id change. */
  function HandleRegister(events: seq<MedEvent>, eventId: string): (r: seq<MedEvent>)
    ensures |r| == |events|
    ensures forall i :: 0 <= i < |events| && events[i].id != eventId ==> r[i] == events[i]
    ensures forall i :: 0 <= i < |events| && events[i].id == eventId ==> r[i] == Toggled(events[i])
  {
    if events == [] then []
    else [if events[0].id == eventId then Toggled(events[0]) else events[0]] + HandleRegister(events[1..], eventId)
  }

  /** Toggling the same event twice gives back the original list. */
  lemma {:induction false} HandleRegisterTwice(events: seq<MedEvent>, eventId: string)
    ensures HandleRegister(HandleRegister(events, eventId), eventId) == events
  {
    var once := HandleRegister(events, eventId);
    var twice := HandleRegister(once, eventId);
    forall i | 0 <= i < |events| ensures twice[i] == events[i] {
      if events[i].id == eventId {
        assert once[i] == Toggled(events[i]) && once[i].id == eventId;
      }
    }
  }

  /** The open detail snapshot after `handleRegister(eventId)`: its flag flips, its count does not. */
  function SnapshotAfterRegister(selected: Option<MedEvent>, eventId: string): (r: Option<MedEvent>)
    ensures r.Some? <==> selected.Some?
    ensures selected.Some? && selected.value.id == eventId ==>
      r.value.isRegistered == !selected.value.isRegistered &&
      r.value.(isRegistered := selected.value.isRegistered) == selected.value
    ensures selected.Some? && selected.value.id != eventId ==> r == selected
  {
    match selected
    case Some(e) => if e.id == eventId then Some(e.(isRegistered := !e.isRegistered)) else selected
    case None => None
  }

  /**
   * After registering from the detail view, the list entry and the open snapshot
   * agree on the flag but no longer on the participant count.
   */
  lemma DetailCountGoesStale(events: seq<MedEvent>, i: nat)
    requires i < |events|
    ensures var id := events[i].id;
            var listed := HandleRegister(events, id)[i];
            var shown := SnapshotAfterRegister(Some(events[i]), id).value;
            listed.isRegistered == shown.isRegistered && listed.registeredCount != shown.registeredCount
  {
  }

  /** The controls the detail view offers: none for an attended event. */
  datatype RegistrationControl = RegisterButton | CancelRegistration

  function DetailControl(e: MedEvent): (c: Option<RegistrationControl>)
    ensures c.None? <==> e.isAttended
    ensures c.Some? ==> (c.value == CancelRegistration <==> e.isRegistered)
  {
    if e.isAttended then None
    else if e.isRegistered then Some(CancelRegistration)
    else Some(RegisterButton)
  }

  /** Using the control swaps it for the other one. */
  lemma ControlFlips(e: MedEvent)
    requires !e.isAttended
    ensures DetailControl(Toggled(e)) != DetailControl(e) && DetailControl(Toggled(e)).Some?
  {
  }
}
