/** `EventsViewModel`: the event list screen's state. It picks which fetch
    to run from its mode and location, applies the reply to one of its two
    lists, guards joining with a membership check, and filters the shown
    list by the search text. Each asynchronous hop completes atomically,
    in program order; the location manager is left out, so the location is
    a field the caller sets. */
module EventsScreen {
  import opened Wrappers
  import opened Platform
  import opened Text
  import opened Seqs
  import opened EventModel
  import opened Remote
  import opened ResponseDecoding
  import opened Supabase

  /** A `CLLocation`, reduced to its coordinate. */
  datatype Coordinate = Coordinate(latitude: real, longitude: real)

  /** San Francisco, used when no location has been reported. */
  const DefaultLocation: Coordinate := Coordinate(37.7749, -122.4194)

  const LocationUnavailable: string := "Location not available. Please enable location services."

  const AlreadyJoined: Failure := Coded("EventsViewModel", 1001, "You've already joined this event")

  /** The search predicate: the name, the description when there is one, or
      the location contains the text, ignoring case. */
  predicate Matches(e: Event, text: string) {
    || ContainsIgnoringCase(e.name, text)
    || (e.description.Some? && ContainsIgnoringCase(e.description.value, text))
    || ContainsIgnoringCase(e.location, text)
  }

  /** `filteredEvents` over the selected list. */
  function FilterEvents(events: seq<Event>, searchText: string): seq<Event> {
    if searchText == [] then events
    else Seqs.Filter(e => Matches(e, searchText), events)
  }

  /** An empty search shows the whole list; otherwise the result keeps, in
      their order, exactly the events that match, each as often as it
      occurs. */
  lemma FilterEventsSpec(events: seq<Event>, searchText: string)
    ensures searchText == [] ==> FilterEvents(events, searchText) == events
    ensures IsSubsequence(FilterEvents(events, searchText), events)
    ensures |FilterEvents(events, searchText)| <= |events|
    ensures searchText != [] ==>
      forall i :: 0 <= i < |events| ==> (events[i] in FilterEvents(events, searchText) <==> Matches(events[i], searchText))
    ensures searchText != [] ==>
      forall e: Event :: multiset(FilterEvents(events, searchText))[e] == if Matches(e, searchText) then multiset(events)[e] else 0
  {
    var r := FilterEvents(events, searchText);
    if searchText == [] {
      FilterAll((e: Event) => true, events);
      FilterIsSubsequence((e: Event) => true, events);
    } else {
      var keep := (e: Event) => Matches(e, searchText);
      FilterIsSubsequence(keep, events);
      FilterMembers(keep, events);
      forall i | 0 <= i < |events| && events[i] in r ensures Matches(events[i], searchText) {
        var k :| 0 <= k < |r| && r[k] == events[i];
        assert keep(r[k]);
      }
      forall e: Event ensures multiset(r)[e] == if Matches(e, searchText) then multiset(events)[e] else 0 {
        FilterCounts(keep, events, e);
      }
    }
    SubsequenceLength(r, events);
  }

  class EventsViewModel {
    var nearbyEvents: seq<Event>
    var userEvents: seq<Event>
    var selectedEvent: Option<Event>
    var isShowingUserEvents: bool
    var isLoading: bool
    var errorMessage: Option<string>
    var searchText: string
    var currentLocation: Option<Coordinate>
    const service: SupabaseService

    constructor(service: SupabaseService)
      ensures this.service == service
      ensures nearbyEvents == [] && userEvents == [] && selectedEvent == None
      ensures !isShowingUserEvents && !isLoading && errorMessage == None
      ensures searchText == [] && currentLocation == None
    {
      this.service := service;
      nearbyEvents := [];
      userEvents := [];
      selectedEvent := None;
      isShowingUserEvents := false;
      isLoading := false;
      errorMessage := None;
      searchText := [];
      currentLocation := None;
    }

    /** The list the screen shows. */
    function FilteredEvents(): seq<Event>
      reads this
    {
      FilterEvents(if isShowingUserEvents then userEvents else nearbyEvents, searchText)
    }

    /** What a finished `fetchEvents` leaves behind, started in mode
        `showingUser` at `location` with the lists `nearby` and `user` and
        the backend at (`store`, `session`, `log`): loading is over, mode
        and location are kept, the backend's data is untouched; only the
        list of that mode is replaced, and only on success; a thrown error
        becomes the message. In user mode `reply` is what the service's
        user-events fetch answers from that backend, in nearby mode it
        is what the one RPC at `location` answers, decoded, and without a location there is
        no reply, no request and the location error. */
    ghost predicate Refreshed(showingUser: bool, location: Option<Coordinate>, nearby: seq<Event>, user: seq<Event>,
                              store: Store, session: Option<string>, log: seq<Request>, now: Instant,
                              reply: Option<Result<seq<Event>, Failure>>)
      reads this, service.backend
    {
      && !isLoading
      && isShowingUserEvents == showingUser && currentLocation == location
      && service.backend.store == store && service.backend.session == session
      && log <= service.backend.log
      && (reply.Some? && reply.value.Success? ==> errorMessage == None)
      && (reply.Some? && reply.value.Failure? ==>
            && errorMessage == Some(reply.value.error.Description())
            && nearbyEvents == nearby && userEvents == user)
      && (showingUser ==>
            && reply.Some? && nearbyEvents == nearby
            && (reply.value.Success? ==> userEvents == reply.value.value)
            && service.FetchedUserEvents(store, session, log, now, reply.value))
      && (!showingUser && location.Some? ==>
            var req := RpcCall(NearbyEventsFunction, location.value.latitude, location.value.longitude, NearbyRadiusKm);
            && reply.Some? && userEvents == user
            && (reply.value.Success? ==> nearbyEvents == reply.value.value)
            && service.FetchedNearbyEvents(log, location.value.latitude, location.value.longitude, now, reply.value)
            && service.backend.log == log + [req])
      && (!showingUser && location.None? ==>
            && reply.None? && errorMessage == Some(LocationUnavailable)
            && nearbyEvents == nearby && userEvents == user
            && service.backend.log == log)
    }

    /** `fetchEvents`: the joined events in user mode, the nearby events
        when a location is known, or the location error, as `Refreshed`
        states. `reply` is what the service answered, and `atCall` the
        (`isLoading`, `errorMessage`) pair set before it. */
    method FetchEvents(now: Instant) returns (reply: Option<Result<seq<Event>, Failure>>, ghost atCall: (bool, Option<string>))
      modifies this, service.backend
      ensures atCall == (true, None)
      ensures searchText == old(searchText) && selectedEvent == old(selectedEvent)
      ensures Refreshed(old(isShowingUserEvents), old(currentLocation), old(nearbyEvents), old(userEvents),
                        old(service.backend.store), old(service.backend.session), old(service.backend.log), now, reply)
    {
      isLoading := true;
      errorMessage := None;
      atCall := (isLoading, errorMessage);
      if isShowingUserEvents {
        var events := CallUserEvents(now);
        reply := Some(events);
        if events.Success? {
          userEvents := events.value;
        }
      } else if currentLocation.Some? {
        var location := currentLocation.value;
        var events := CallNearbyEvents(location, now);
        reply := Some(events);
        if events.Success? {
          nearbyEvents := events.value;
        }
      } else {
        reply := None;
        errorMessage := Some(LocationUnavailable);
      }
      if reply.Some? && reply.value.Failure? {
        errorMessage := Some(reply.value.error.Description());
      }
      isLoading := false;
    }

    /** The service call of user mode, with what `fetchEvents` relies on. */
    method CallUserEvents(now: Instant) returns (events: Result<seq<Event>, Failure>)
      modifies service.backend
      ensures service.backend.store == old(service.backend.store) && service.backend.session == old(service.backend.session)
      ensures old(service.backend.log) <= service.backend.log
      ensures service.FetchedUserEvents(old(service.backend.store), old(service.backend.session), old(service.backend.log), now, events)
    {
      events := service.FetchUserEvents(now);
    }

    /** The service call of nearby mode: one request, the RPC at
        `location`, and its decoded answer. */
    method CallNearbyEvents(location: Coordinate, now: Instant) returns (events: Result<seq<Event>, Failure>)
      modifies service.backend
      ensures service.backend.store == old(service.backend.store) && service.backend.session == old(service.backend.session)
      ensures service.backend.log == old(service.backend.log) + [RpcCall(NearbyEventsFunction, location.latitude, location.longitude, NearbyRadiusKm)]
      ensures service.FetchedNearbyEvents(old(service.backend.log), location.latitude, location.longitude, now, events)
    {
      events := service.FetchNearbyEvents(location.latitude, location.longitude, now);
    }

    /** `joinEvent`: the membership check, then, only for a user who has
        not joined, the insert, then a fresh fetch. An error of either
        call, or an existing membership (error 1001), is thrown before
        anything else happens. After a successful insert `refreshed` is the
        reply of that fetch, which starts from the store holding the new
        participant row and the log ending in the check and the insert. */
    method JoinEvent(eventId: string, participantId: string, now: Instant)
      returns (r: Option<Failure>, ghost refreshed: Option<Result<seq<Event>, Failure>>)
      modifies this, service.backend
      ensures service.backend.session == old(service.backend.session)
      ensures searchText == old(searchText) && selectedEvent == old(selectedEvent)
      ensures r.Some? ==>
        && nearbyEvents == old(nearbyEvents) && userEvents == old(userEvents)
        && errorMessage == old(errorMessage) && isLoading == old(isLoading)
        && isShowingUserEvents == old(isShowingUserEvents) && currentLocation == old(currentLocation)
      ensures old(service.backend.session).None? ==>
        && r == Some(service.backend.noSession)
        && service.backend.log == old(service.backend.log) && service.backend.store == old(service.backend.store)
      ensures old(service.backend.session).Some? ==>
        var userId := old(service.backend.session).value;
        var check := SelectCall(JoinedQuery(eventId, userId));
        var p := EventParticipant(participantId, eventId, userId, now);
        var insert := InsertCall(EventParticipants, EncodeParticipant(p, service.encodeDate));
        var n := |old(service.backend.log)|;
        && (service.backend.faults(n, check).Some? ==>
              && r == service.backend.faults(n, check)
              && service.backend.log == old(service.backend.log) + [check]
              && service.backend.store == old(service.backend.store))
        && (service.backend.faults(n, check).None? && HasJoined(old(service.backend.store).participants, eventId, userId) ==>
              && r == Some(AlreadyJoined)
              && service.backend.log == old(service.backend.log) + [check]
              && service.backend.store == old(service.backend.store))
        && (service.backend.faults(n, check).None? && !HasJoined(old(service.backend.store).participants, eventId, userId) ==>
              && (service.backend.faults(n + 1, insert).Some? ==>
                    && r == service.backend.faults(n + 1, insert)
                    && service.backend.log == old(service.backend.log) + [check, insert]
                    && service.backend.store == old(service.backend.store))
              && (service.backend.faults(n + 1, insert).None? ==>
                    && r == None
                    && Refreshed(old(isShowingUserEvents), old(currentLocation), old(nearbyEvents), old(userEvents),
                                 old(service.backend.store).Append(EventParticipants, insert.row), Some(userId),
                                 old(service.backend.log) + [check, insert], now, refreshed)))
    {
      refreshed := None;
      var hasJoined := service.HasUserJoinedEvent(eventId);
      if hasJoined.Failure? {
        return Some(hasJoined.error), None;
      }
      if hasJoined.value {
        return Some(AlreadyJoined), None;
      }
      ghost var check := SelectCall(JoinedQuery(eventId, service.backend.session.value));
      r, refreshed := InsertThenRefresh(eventId, participantId, now, old(service.backend.log), check);
    }

    /** The tail of `joinEvent` once the check has let the user through:
        the insert and, after it succeeds, the fresh fetch. */
    method InsertThenRefresh(eventId: string, participantId: string, now: Instant, ghost before: seq<Request>, ghost check: Request)
      returns (r: Option<Failure>, ghost refreshed: Option<Result<seq<Event>, Failure>>)
      requires service.backend.session.Some? && service.backend.log == before + [check]
      modifies this, service.backend
      ensures service.backend.session == old(service.backend.session)
      ensures searchText == old(searchText) && selectedEvent == old(selectedEvent)
      ensures
        var p := EventParticipant(participantId, eventId, old(service.backend.session).value, now);
        var insert := InsertCall(EventParticipants, EncodeParticipant(p, service.encodeDate));
        var n := |old(service.backend.log)|;
        && (service.backend.faults(n, insert).Some? ==>
              && r == service.backend.faults(n, insert)
              && service.backend.log == before + [check, insert]
              && service.backend.store == old(service.backend.store)
              && nearbyEvents == old(nearbyEvents) && userEvents == old(userEvents)
              && errorMessage == old(errorMessage) && isLoading == old(isLoading)
              && isShowingUserEvents == old(isShowingUserEvents) && currentLocation == old(currentLocation))
        && (service.backend.faults(n, insert).None? ==>
              && r == None
              && Refreshed(old(isShowingUserEvents), old(currentLocation), old(nearbyEvents), old(userEvents),
                           old(service.backend.store).Append(EventParticipants, insert.row), old(service.backend.session),
                           before + [check, insert], now, refreshed))
    {
      refreshed := None;
      ghost var p := EventParticipant(participantId, eventId, service.backend.session.value, now);
      ghost var insert := InsertCall(EventParticipants, EncodeParticipant(p, service.encodeDate));
      r := service.JoinEvent(eventId, participantId, now);
      assert service.backend.log == before + [check, insert] by {
        assert service.backend.log == before + [check] + [insert];
      }
      if r.Some? {
        return;
      }
      ghost var atCall;
      refreshed, atCall := FetchEvents(now);
    }

    /** `useDefaultLocationIfNeeded`: without a location, San Francisco and
        a fetch, whose reply is `refreshed`; with one, nothing at all, so a
        second call changes nothing. */
    method UseDefaultLocationIfNeeded(now: Instant) returns (ghost refreshed: Option<Result<seq<Event>, Failure>>)
      modifies this, service.backend
      ensures old(currentLocation).Some? ==> unchanged(this) && unchanged(service.backend)
      ensures old(currentLocation).None? ==>
        && currentLocation == Some(DefaultLocation) && !isLoading
        && isShowingUserEvents == old(isShowingUserEvents)
        && service.backend.store == old(service.backend.store)
        && (!isShowingUserEvents ==>
              service.backend.log
                == old(service.backend.log) + [RpcCall(NearbyEventsFunction, 37.7749, -122.4194, NearbyRadiusKm)])
      ensures old(currentLocation).None? ==>
        && searchText == old(searchText) && selectedEvent == old(selectedEvent)
        && Refreshed(old(isShowingUserEvents), Some(DefaultLocation), old(nearbyEvents), old(userEvents),
                     old(service.backend.store), old(service.backend.session), old(service.backend.log), now, refreshed)
    {
      refreshed := None;
      if currentLocation.None? {
        currentLocation := Some(DefaultLocation);
        ghost var atCall;
        refreshed, atCall := FetchEvents(now);
      }
    }
  }

  /** A nearby-mode refresh whose RPC did not fail shows exactly the
      decoded RPC answer and clears the message; one whose RPC failed keeps
      the list and shows the error. */
  lemma NearbyRefreshShowsRpcAnswer(vm: EventsViewModel, location: Coordinate, nearby: seq<Event>, user: seq<Event>,
                                    store: Store, session: Option<string>, log: seq<Request>, now: Instant,
                                    reply: Option<Result<seq<Event>, Failure>>)
    requires vm.Refreshed(false, Some(location), nearby, user, store, session, log, now, reply)
    ensures var req := RpcCall(NearbyEventsFunction, location.latitude, location.longitude, NearbyRadiusKm);
      var b := vm.service.backend;
      && (b.faults(|log|, req).None? ==>
            && vm.nearbyEvents == EventsOrManual(b.replies(|log|, req), vm.service.parsers, now)
            && vm.errorMessage == None)
      && (b.faults(|log|, req).Some? ==>
            && vm.nearbyEvents == nearby
            && vm.errorMessage == Some(b.faults(|log|, req).value.Description()))
      && vm.userEvents == user
  {
  }
}
