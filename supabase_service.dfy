/** `SupabaseService`: the app's only gateway to the backend. Each operation
    is a fixed sequence of backend calls followed by the decoding policy of
    that operation. `UUID()` and `Date()` values are parameters. */
module Supabase {
  import opened Wrappers
  import opened Platform
  import opened Json
  import Text
  import opened EventModel
  import opened ResponseDecoding
  import opened PhotoUrl
  import opened Remote

  const NearbyEventsFunction: string := "nearby_events"
  /** The fixed search radius passed to `nearby_events`. */
  const NearbyRadiusKm: int := 5000
  const PhotoBucket: string := "event-photos"

  /** The user built from an auth reply: its id and email (or ""), and no
      profile fields. */
  function ServiceUser(a: AuthUser): User {
    User(a.id, a.email.GetOr(""), None, None, None)
  }

  // ------------------------------------------------------- joined events

  /** The participant rows of a user, reduced to their `event_id`. */
  function ParticipantsQuery(userId: string): Query {
    Query(EventParticipants, "event_id", [Eq("user_id", userId)], None)
  }

  /** `participantsJson.compactMap { $0["event_id"] as? String }`. */
  function EventIds(rows: seq<Row>): (ids: seq<string>)
    ensures |ids| <= |rows|
  {
    if rows == [] then []
    else match StringAt(rows[0], "event_id")
      case Some(id) => [id] + EventIds(rows[1..])
      case None => EventIds(rows[1..])
  }

  /** Each row contributes its string `event_id`, or nothing… */
  lemma EventIdsOfRow(row: Row)
    ensures StringAt(row, "event_id").Some? ==> EventIds([row]) == [row["event_id"].s]
    ensures StringAt(row, "event_id").None? ==> EventIds([row]) == []
  {
    assert [row][1..] == [];
  }

  /** …and the contributions keep the order of the rows. */
  lemma {:induction false} EventIdsAppend(a: seq<Row>, b: seq<Row>)
    ensures EventIds(a + b) == EventIds(a) + EventIds(b)
  {
    if a == [] {
      assert a + b == b;
    } else {
      assert (a + b)[0] == a[0] && (a + b)[1..] == a[1..] + b;
      EventIdsAppend(a[1..], b);
    }
  }

  /** The ids the first query of `fetchUserEvents` yields: [] when the body
      is not an array of objects. */
  function ParticipantEventIds(d: Data): seq<string> {
    match ObjectArray(d)
    case None => []
    case Some(rows) => EventIds(rows)
  }

  /** An id is extracted exactly when some participant row of the user
      carries it as its `event_id`. */
  lemma {:induction false} JoinedEventIds(rows: seq<Row>, userId: string, id: string)
    ensures id in EventIds(Answer(rows, ParticipantsQuery(userId)))
            <==> exists j :: 0 <= j < |rows| && HasText(rows[j], "user_id", userId) && HasText(rows[j], "event_id", id)
  {
    var q := ParticipantsQuery(userId);
    if rows != [] {
      JoinedEventIds(rows[1..], userId, id);
      var head := if SatisfiesAll(rows[0], q.filters) then [Project(rows[0], q.columns)] else [];
      assert Answer(rows, q) == head + Answer(rows[1..], q);
      EventIdsAppend(head, Answer(rows[1..], q));
      if head != [] {
        EventIdsOfRow(head[0]);
        assert head == [head[0]];
      }
      ParticipantsFilter(rows[0], userId);
      JoinedRowsCons(rows, userId, id);
    }
  }

  lemma ParticipantsFilter(row: Row, userId: string)
    ensures SatisfiesAll(row, ParticipantsQuery(userId).filters) <==> HasText(row, "user_id", userId)
  {
    var q := ParticipantsQuery(userId);
    assert |q.filters| == 1 && q.filters[0] == Eq("user_id", userId);
    assert SatisfiesAll(row, q.filters) <==> Satisfies(row, q.filters[0]);
  }

  lemma JoinedRowsCons(rows: seq<Row>, userId: string, id: string)
    requires rows != []
    ensures (exists j :: 0 <= j < |rows| && HasText(rows[j], "user_id", userId) && HasText(rows[j], "event_id", id))
            <==> ((HasText(rows[0], "user_id", userId) && HasText(rows[0], "event_id", id))
                  || exists j :: 0 <= j < |rows[1..]| && HasText(rows[1..][j], "user_id", userId) && HasText(rows[1..][j], "event_id", id))
  {
    if exists j :: 0 <= j < |rows| && HasText(rows[j], "user_id", userId) && HasText(rows[j], "event_id", id) {
      var j :| 0 <= j < |rows| && HasText(rows[j], "user_id", userId) && HasText(rows[j], "event_id", id);
      if j > 0 {
        assert rows[1..][j - 1] == rows[j];
      }
    }
    if exists j :: 0 <= j < |rows[1..]| && HasText(rows[1..][j], "user_id", userId) && HasText(rows[1..][j], "event_id", id) {
      var j :| 0 <= j < |rows[1..]| && HasText(rows[1..][j], "user_id", userId) && HasText(rows[1..][j], "event_id", id);
      assert rows[j + 1] == rows[1..][j];
    }
  }

  /** The events query as the loop at SupabaseService.swift builds it: an
      `eq` on the first id, then one `or` per further id. */
  function AsWrittenEventsQuery(ids: seq<string>): Query {
    var rest := if ids == [] then [] else seq(|ids| - 1, k requires 0 <= k < |ids| - 1 => Or([Condition("id", ids[k + 1])]));
    Query(Events, "*", (if ids == [] then [] else [Eq("id", ids[0])]) + rest, None)
  }

  /** `var query = ...; query = query.eq(...); for id in eventIds.dropFirst()
      { query = query.or(...) }`. */
  method BuildEventsQuery(eventIds: seq<string>) returns (query: Query)
    ensures query == AsWrittenEventsQuery(eventIds)
  {
    query := Query(Events, "*", [], None);
    if eventIds != [] {
      query := query.(filters := query.filters + [Eq("id", eventIds[0])]);
      var i := 1;
      while i < |eventIds|
        invariant 1 <= i <= |eventIds|
        invariant query.table == Events && query.columns == "*" && query.order == None
        invariant |query.filters| == i && query.filters[0] == Eq("id", eventIds[0])
        invariant forall k :: 1 <= k < i ==> query.filters[k] == Or([Condition("id", eventIds[k])])
      {
        query := query.(filters := query.filters + [Or([Condition("id", eventIds[i])])]);
        i := i + 1;
      }
    }
  }

  /** Because PostgREST ANDs the filters, the as-written query selects a row
      only if its id equals the first id and every other id too. */
  lemma AsWrittenEventsQuerySelects(ids: seq<string>, row: Row)
    requires ids != []
    ensures SatisfiesAll(row, AsWrittenEventsQuery(ids).filters)
            <==> HasText(row, "id", ids[0]) && forall k :: 0 <= k < |ids| ==> ids[k] == ids[0]
  {
    var fs := AsWrittenEventsQuery(ids).filters;
    assert |fs| == |ids| && fs[0] == Eq("id", ids[0]);
    assert forall k :: 1 <= k < |ids| ==> fs[k] == Or([Condition("id", ids[k])]);
    if SatisfiesAll(row, fs) {
      forall k | 0 <= k < |ids| ensures ids[k] == ids[0] {
        if k > 0 {
          assert Satisfies(row, fs[k]);
          var c := Condition("id", ids[k]);
          assert exists m :: 0 <= m < |[c]| && HasText(row, [c][m].column, [c][m].value);
          var m :| 0 <= m < |[c]| && HasText(row, [c][m].column, [c][m].value);
          assert HasText(row, "id", ids[k]);
          assert Satisfies(row, fs[0]);
        }
      }
    }
    if HasText(row, "id", ids[0]) && forall k :: 0 <= k < |ids| ==> ids[k] == ids[0] {
      forall i | 0 <= i < |fs| ensures Satisfies(row, fs[i]) {
        if i > 0 {
          var c := Condition("id", ids[i]);
          assert fs[i] == Or([c]) && [c][0] == c;
          assert HasText(row, [c][0].column, [c][0].value);
        }
      }
    }
  }

  /** A user who joined two different events gets no events back. */
  lemma AsWrittenEventsQueryMissesJoinedEvents(ids: seq<string>, rows: seq<Row>)
    requires |ids| >= 2 && ids[0] != ids[1]
    ensures Answer(rows, AsWrittenEventsQuery(ids)) == []
  {
    forall j | 0 <= j < |rows| ensures !SatisfiesAll(rows[j], AsWrittenEventsQuery(ids).filters) {
      AsWrittenEventsQuerySelects(ids, rows[j]);
    }
  }

  /** The concrete case: two joined events, both stored, none returned. */
  lemma AsWrittenEventsQueryExample()
    ensures var rows := [map["id" := JString("A")], map["id" := JString("B")]];
      Answer(rows, AsWrittenEventsQuery(["A", "B"])) == []
  {
    AsWrittenEventsQueryMissesJoinedEvents(["A", "B"], [map["id" := JString("A")], map["id" := JString("B")]]);
  }

  /** What `fetchUserEvents` hands back for a user with two different
      joined events: the as-written query answers no row, so the decoded
      list is empty, whatever events are stored. */
  lemma JoinedTwoEventsFetchesNone(ids: seq<string>, rows: seq<Row>, p: DateParsers, now: Instant)
    requires |ids| >= 2 && ids[0] != ids[1]
    ensures EventsOrManual(RowsDoc(Answer(rows, AsWrittenEventsQuery(ids))), p, now) == []
  {
    AsWrittenEventsQueryMissesJoinedEvents(ids, rows);
  }

  /** The query the comment at SupabaseService.swift asks for: one `or`
      filter, `or=(id.eq.<first>,id.eq.<second>,...)`. */
  function IntendedEventsQuery(ids: seq<string>): Query {
    Query(Events, "*", [Or(seq(|ids|, k requires 0 <= k < |ids| => Condition("id", ids[k])))], None)
  }

  /** It selects exactly the events whose id is among the joined ids. */
  lemma IntendedEventsQuerySelects(ids: seq<string>, row: Row)
    ensures SatisfiesAll(row, IntendedEventsQuery(ids).filters)
            <==> exists k :: 0 <= k < |ids| && HasText(row, "id", ids[k])
  {
    var cs := seq(|ids|, k requires 0 <= k < |ids| => Condition("id", ids[k]));
    assert IntendedEventsQuery(ids).filters == [Or(cs)];
    if SatisfiesAll(row, IntendedEventsQuery(ids).filters) {
      var fs := IntendedEventsQuery(ids).filters;
      assert Satisfies(row, fs[0]);
      assert fs[0] == Or(cs);
      var k :| 0 <= k < |cs| && HasText(row, cs[k].column, cs[k].value);
      assert cs[k] == Condition("id", ids[k]);
    }
    if exists k :: 0 <= k < |ids| && HasText(row, "id", ids[k]) {
      var k :| 0 <= k < |ids| && HasText(row, "id", ids[k]);
      assert HasText(row, cs[k].column, cs[k].value);
    }
  }

  /** Every stored event of a joined id is returned. */
  lemma IntendedEventsQueryFindsJoined(ids: seq<string>, rows: seq<Row>, j: nat, k: nat)
    requires j < |rows| && k < |ids| && HasText(rows[j], "id", ids[k])
    ensures Answer(rows, IntendedEventsQuery(ids)) != []
  {
    IntendedEventsQuerySelects(ids, rows[j]);
  }

  // ---------------------------------------------------------- participation

  function JoinedQuery(eventId: string, userId: string): Query {
    Query(EventParticipants, "*", [Eq("event_id", eventId), Eq("user_id", userId)], None)
  }

  /** Foundation's error for bytes that are not JSON. */
  const NotJson: Failure := External("The data couldn’t be read because it isn’t in the correct format.")

  /** `try JSONSerialization.jsonObject(with:) as? [[String: Any]] ?? []`,
      then `!json.isEmpty`: bytes that are not JSON throw; JSON of another
      shape counts as no rows. */
  function JoinedFromBody(d: Data): (r: Result<bool, Failure>)
    ensures d.Garbled? <==> r == Failure(NotJson)
    ensures d.Doc? ==> r == Success(ObjectArray(d).Some? && ObjectArray(d).value != [])
  {
    match d
    case Garbled => Failure(NotJson)
    case Doc(_) => Success(ObjectArray(d).GetOr([]) != [])
  }

  lemma JoinedQuerySelects(row: Row, eventId: string, userId: string)
    ensures SatisfiesAll(row, JoinedQuery(eventId, userId).filters)
            <==> HasText(row, "event_id", eventId) && HasText(row, "user_id", userId)
  {
    var fs := JoinedQuery(eventId, userId).filters;
    assert |fs| == 2 && fs[0] == Eq("event_id", eventId) && fs[1] == Eq("user_id", userId);
    assert SatisfiesAll(row, fs) <==> Satisfies(row, fs[0]) && Satisfies(row, fs[1]);
  }

  /** Some stored participant row pairs the event with the user. */
  predicate HasJoined(rows: seq<Row>, eventId: string, userId: string) {
    exists j :: 0 <= j < |rows| && HasText(rows[j], "event_id", eventId) && HasText(rows[j], "user_id", userId)
  }

  /** The answer is yes exactly when a participant row pairs the event with
      the user. */
  lemma JoinedFromRows(rows: seq<Row>, eventId: string, userId: string)
    ensures JoinedFromBody(RowsDoc(Answer(rows, JoinedQuery(eventId, userId)))) == Success(HasJoined(rows, eventId, userId))
  {
    var q := JoinedQuery(eventId, userId);
    var answer := Answer(rows, q);
    RowsDocRoundTrip(answer);
    assert JoinedFromBody(RowsDoc(answer)) == Success(answer != []);
    forall j | 0 <= j < |rows|
      ensures SatisfiesAll(rows[j], q.filters) <==> HasText(rows[j], "event_id", eventId) && HasText(rows[j], "user_id", userId)
    {
      JoinedQuerySelects(rows[j], eventId, userId);
    }
  }

  /** After a participant row is stored, the membership query finds it. */
  lemma JoinedAfterInsert(rows: seq<Row>, p: EventParticipant, date: Instant -> Json)
    ensures JoinedFromBody(RowsDoc(Answer(rows + [EncodeParticipant(p, date)], JoinedQuery(p.eventId, p.userId))))
            == Success(true)
  {
    var all := rows + [EncodeParticipant(p, date)];
    JoinedFromRows(all, p.eventId, p.userId);
    assert HasText(all[|rows|], "event_id", p.eventId) && HasText(all[|rows|], "user_id", p.userId);
  }

  /** Joining again stores a second matching row: the insert itself checks
      nothing. */
  lemma RejoinDuplicates(rows: seq<Row>, p: EventParticipant, date: Instant -> Json)
    ensures var q := JoinedQuery(p.eventId, p.userId);
      |Answer(rows + [EncodeParticipant(p, date)], q)| == |Answer(rows, q)| + 1
  {
    var q := JoinedQuery(p.eventId, p.userId);
    var row := EncodeParticipant(p, date);
    AnswerAppend(rows, row, q);
    JoinedQuerySelects(row, p.eventId, p.userId);
  }

  // --------------------------------------------------------------- photos

  /** `"photos/\(eventId)/\(UUID().uuidString).jpg"`. */
  function PhotoStoragePath(eventId: string, fileUuid: string): string {
    PhotosFolder + eventId + "/" + fileUuid + ".jpg"
  }

  /** The path is the folder `photos`, the event id and the file name, as
      three `/`-separated segments when the ids hold no `/` (as UUID
      strings do not). */
  lemma PhotoStoragePathSegments(eventId: string, fileUuid: string)
    requires '/' !in eventId && '/' !in fileUuid
    ensures Text.Components(PhotoStoragePath(eventId, fileUuid), '/') == ["photos", eventId, fileUuid + ".jpg"]
  {
    var file := fileUuid + ".jpg";
    assert '/' !in file by {
      forall k | 0 <= k < |file| ensures file[k] != '/' {
        if k < |fileUuid| { assert file[k] == fileUuid[k]; }
      }
    }
    assert PhotoStoragePath(eventId, fileUuid) == "photos" + ['/'] + (eventId + ['/'] + file);
    Text.ComponentsCons("photos", '/', eventId + ['/'] + file);
    Text.ComponentsCons(eventId, '/', file);
  }

  function PhotosQuery(eventId: string): Query {
    Query(Photos, "*", [Eq("event_id", eventId)], Some(Order("taken_at", false)))
  }

  /** The record `uploadPhoto` builds before inserting it; its id is a
      second `UUID()`, distinct from the file name's. */
  function LocalPhoto(photoId: string, eventId: string, userId: string, path: string, now: Instant): EventPhoto {
    EventPhoto(photoId, eventId, userId, path, None, now, None, None, now, None, None)
  }

  const ImageDataFailed: Failure := Coded("SupabaseService", 1003, "Failed to convert image to data")

  class SupabaseService {
    const backend: Backend
    /** Info.plist and `URL(string:)`, for `getPhotoURL`. */
    const env: Environment
    /** The three date formatters of the custom strategy. */
    const parsers: DateParsers
    /** How the SDK's encoder writes a `Date`. */
    const encodeDate: Instant -> Json
    /** `image.jpegData(compressionQuality: 0.7)`. */
    const jpegData: Image -> Option<Bytes>

    constructor(backend: Backend, env: Environment, parsers: DateParsers,
                encodeDate: Instant -> Json, jpegData: Image -> Option<Bytes>)
      ensures this.backend == backend && this.env == env && this.parsers == parsers
      ensures this.encodeDate == encodeDate && this.jpegData == jpegData
    {
      this.backend := backend;
      this.env := env;
      this.parsers := parsers;
      this.encodeDate := encodeDate;
      this.jpegData := jpegData;
    }

    /** `signUp(email:password:)`: one auth call; its account becomes the
        session and the returned user. */
    method SignUp(email: string, password: string) returns (r: Result<User, Failure>)
      modifies backend
      ensures var req := SignUpCall(email, password); var n := |old(backend.log)|;
        && backend.log == old(backend.log) + [req] && backend.store == old(backend.store)
        && (backend.faults(n, req).Some? ==>
              r == Failure(backend.faults(n, req).value) && backend.session == old(backend.session))
        && (backend.faults(n, req).None? ==>
              r == Success(ServiceUser(backend.accounts(n, req))) && backend.session == Some(backend.accounts(n, req).id))
    {
      var reply := backend.Authenticate(SignUpCall(email, password));
      r := match reply
        case Success(a) => Success(ServiceUser(a))
        case Failure(e) => Failure(e);
    }

    method SignIn(email: string, password: string) returns (r: Result<User, Failure>)
      modifies backend
      ensures var req := SignInCall(email, password); var n := |old(backend.log)|;
        && backend.log == old(backend.log) + [req] && backend.store == old(backend.store)
        && (backend.faults(n, req).Some? ==>
              r == Failure(backend.faults(n, req).value) && backend.session == old(backend.session))
        && (backend.faults(n, req).None? ==>
              r == Success(ServiceUser(backend.accounts(n, req))) && backend.session == Some(backend.accounts(n, req).id))
    {
      var reply := backend.Authenticate(SignInCall(email, password));
      r := match reply
        case Success(a) => Success(ServiceUser(a))
        case Failure(e) => Failure(e);
    }

    method SignOut() returns (r: Option<Failure>)
      modifies backend
      ensures backend.log == old(backend.log) + [SignOutCall] && backend.store == old(backend.store)
      ensures r == backend.faults(|old(backend.log)|, SignOutCall)
      ensures r.None? ==> backend.session == None
      ensures r.Some? ==> backend.session == old(backend.session)
    {
      r := backend.SignOut();
    }

    /** What `fetchNearbyEvents` answers for the RPC at (`latitude`,
        `longitude`) sent when the log was `log`: the RPC's error, or its
        reply decoded strictly, else leniently. */
    ghost predicate FetchedNearbyEvents(log: seq<Request>, latitude: real, longitude: real, now: Instant, r: Result<seq<Event>, Failure>) {
      var req := RpcCall(NearbyEventsFunction, latitude, longitude, NearbyRadiusKm);
      r == match backend.faults(|log|, req)
           case Some(e) => Failure(e)
           case None => Success(EventsOrManual(backend.replies(|log|, req), parsers, now))
    }

    /** `fetchNearbyEvents`: one RPC with the fixed radius; a reply that
        does not decode strictly is parsed leniently, never thrown. */
    method FetchNearbyEvents(latitude: real, longitude: real, now: Instant) returns (r: Result<seq<Event>, Failure>)
      modifies backend
      ensures var req := RpcCall(NearbyEventsFunction, latitude, longitude, NearbyRadiusKm);
        var n := |old(backend.log)|;
        && backend.log == old(backend.log) + [req]
        && backend.store == old(backend.store) && backend.session == old(backend.session)
        && r == match backend.faults(n, req)
                case Some(e) => Failure(e)
                case None => Success(EventsOrManual(backend.replies(n, req), parsers, now))
    {
      var reply := backend.Rpc(NearbyEventsFunction, latitude, longitude, NearbyRadiusKm);
      r := match reply
        case Failure(e) => Failure(e)
        case Success(d) => Success(EventsOrManual(d, parsers, now));
    }

    /** What `fetchUserEvents` does from a store, session and log: no
        session is the session error and no request; otherwise the user's
        participant rows are read, an error there ends it, no joined event
        answers the empty list, and otherwise the events query as the source
        builds it is sent and its answer parsed. */
    ghost predicate FetchedUserEvents(store: Store, session: Option<string>, log: seq<Request>, now: Instant, r: Result<seq<Event>, Failure>)
      reads backend
    {
      && (session.None? ==> r == Failure(backend.noSession) && backend.log == log)
      && (session.Some? ==>
            var q1 := SelectCall(ParticipantsQuery(session.value));
            var n := |log|;
            var ids := EventIds(Answer(store.participants, q1.query));
            var q2 := SelectCall(AsWrittenEventsQuery(ids));
            && (backend.faults(n, q1).Some? ==>
                  r == Failure(backend.faults(n, q1).value) && backend.log == log + [q1])
            && (backend.faults(n, q1).None? && ids == [] ==>
                  r == Success([]) && backend.log == log + [q1])
            && (backend.faults(n, q1).None? && ids != [] ==>
                  && backend.log == log + [q1, q2]
                  && r == match backend.faults(n + 1, q2)
                          case Some(e) => Failure(e)
                          case None => Success(EventsOrManual(RowsDoc(Answer(store.events, q2.query)), parsers, now))))
    }

    /** `fetchUserEvents`: the session; the user's participant rows; and,
        only if they name an event, the `eq`-then-`or` events query. */
    method FetchUserEvents(now: Instant) returns (r: Result<seq<Event>, Failure>)
      modifies backend
      ensures backend.store == old(backend.store) && backend.session == old(backend.session)
      ensures old(backend.log) <= backend.log
      ensures FetchedUserEvents(old(backend.store), old(backend.session), old(backend.log), now, r)
    {
      var session := backend.SessionUserId();
      if session.Failure? {
        return Failure(session.error);
      }
      var participants := backend.Select(ParticipantsQuery(session.value));
      if participants.Failure? {
        return Failure(participants.error);
      }
      RowsDocRoundTrip(Answer(backend.store.participants, ParticipantsQuery(session.value)));
      var eventIds := ParticipantEventIds(participants.value);
      assert eventIds == EventIds(Answer(old(backend.store).participants, ParticipantsQuery(session.value)));
      if eventIds == [] {
        return Success([]);
      }
      var eventsQuery := BuildEventsQuery(eventIds);
      var events := backend.Select(eventsQuery);
      if events.Failure? {
        return Failure(events.error);
      }
      r := Success(EventsOrManual(events.value, parsers, now));
    }

    /** `createEvent`: one insert; the reply is decoded with the default
        decoder, and an empty or undecodable reply is error 1004 although
        the row was stored. */
    method CreateEvent(event: Event) returns (r: Result<Event, Failure>)
      modifies backend
      ensures var req := InsertCall(Events, EncodeEvent(event, encodeDate)); var n := |old(backend.log)|;
        && backend.log == old(backend.log) + [req] && backend.session == old(backend.session)
        && (backend.faults(n, req).Some? ==> r == Failure(backend.faults(n, req).value) && backend.store == old(backend.store))
        && (backend.faults(n, req).None? ==>
              r == CreatedEvent(backend.replies(n, req)) && backend.store == old(backend.store).Append(Events, req.row))
    {
      var reply := backend.Insert(Events, EncodeEvent(event, encodeDate));
      r := match reply
        case Failure(e) => Failure(e)
        case Success(d) => CreatedEvent(d);
    }

    /** `joinEvent`: the session, then an unconditional insert of a new
        participant row for it. */
    method JoinEvent(eventId: string, participantId: string, now: Instant) returns (r: Option<Failure>)
      modifies backend
      ensures backend.session == old(backend.session)
      ensures old(backend.session).None? ==>
                r == Some(backend.noSession) && backend.log == old(backend.log) && backend.store == old(backend.store)
      ensures old(backend.session).Some? ==>
        var p := EventParticipant(participantId, eventId, old(backend.session).value, now);
        var req := InsertCall(EventParticipants, EncodeParticipant(p, encodeDate));
        var n := |old(backend.log)|;
        && backend.log == old(backend.log) + [req]
        && r == backend.faults(n, req)
        && (r.Some? ==> backend.store == old(backend.store))
        && (r.None? ==> backend.store == old(backend.store).Append(EventParticipants, req.row))
    {
      var session := backend.SessionUserId();
      if session.Failure? {
        return Some(session.error);
      }
      var participant := EventParticipant(participantId, eventId, session.value, now);
      var reply := backend.Insert(EventParticipants, EncodeParticipant(participant, encodeDate));
      r := match reply
        case Failure(e) => Some(e)
        case Success(_) => None;
    }

    /** `hasUserJoinedEvent`: true exactly when a stored participant row
        pairs the event with the session's user. */
    method HasUserJoinedEvent(eventId: string) returns (r: Result<bool, Failure>)
      modifies backend
      ensures backend.store == old(backend.store) && backend.session == old(backend.session)
      ensures old(backend.session).None? ==> r == Failure(backend.noSession) && backend.log == old(backend.log)
      ensures old(backend.session).Some? ==>
        var userId := old(backend.session).value;
        var req := SelectCall(JoinedQuery(eventId, userId));
        var rows := old(backend.store).participants;
        && backend.log == old(backend.log) + [req]
        && r == match backend.faults(|old(backend.log)|, req)
                case Some(e) => Failure(e)
                case None => Success(HasJoined(rows, eventId, userId))
    {
      var session := backend.SessionUserId();
      if session.Failure? {
        return Failure(session.error);
      }
      JoinedFromRows(backend.store.participants, eventId, session.value);
      var reply := backend.Select(JoinedQuery(eventId, session.value));
      r := match reply
        case Failure(e) => Failure(e)
        case Success(d) => JoinedFromBody(d);
    }

    /** `uploadPhoto`: the JPEG bytes, the session, the blob upload to
        `photos/<event>/<file>.jpg`, and only after it succeeds the insert
        of the photo row; an insert reply that yields no photo gives back
        the locally built one. */
    method UploadPhoto(eventId: string, image: Image, fileUuid: string, photoId: string, now: Instant)
      returns (r: Result<EventPhoto, Failure>)
      modifies backend
      ensures backend.session == old(backend.session)
      ensures jpegData(image).None? ==>
                r == Failure(ImageDataFailed) && backend.log == old(backend.log) && backend.store == old(backend.store)
      ensures jpegData(image).Some? && old(backend.session).None? ==>
                r == Failure(backend.noSession) && backend.log == old(backend.log) && backend.store == old(backend.store)
      ensures jpegData(image).Some? && old(backend.session).Some? ==>
        var path := PhotoStoragePath(eventId, fileUuid);
        var upload := UploadCall(PhotoBucket, path, jpegData(image).value);
        var photo := LocalPhoto(photoId, eventId, old(backend.session).value, path, now);
        var insert := InsertCall(Photos, EncodePhoto(photo, encodeDate));
        var n := |old(backend.log)|;
        var uploaded := old(backend.store).(objects := old(backend.store).objects[path := jpegData(image).value]);
        && (backend.faults(n, upload).Some? ==>
              && r == Failure(backend.faults(n, upload).value)
              && backend.log == old(backend.log) + [upload] && backend.store == old(backend.store))
        && (backend.faults(n, upload).None? ==>
              && backend.log == old(backend.log) + [upload, insert]
              && (backend.faults(n + 1, insert).Some? ==>
                    r == Failure(backend.faults(n + 1, insert).value) && backend.store == uploaded)
              && (backend.faults(n + 1, insert).None? ==>
                    && r == Success(InsertedPhoto(backend.replies(n + 1, insert), parsers, photo))
                    && backend.store == uploaded.Append(Photos, insert.row)))
    {
      var imageData := jpegData(image);
      if imageData.None? {
        return Failure(ImageDataFailed);
      }
      var session := backend.SessionUserId();
      if session.Failure? {
        return Failure(session.error);
      }
      var storagePath := PhotoStoragePath(eventId, fileUuid);
      var uploadError := backend.Upload(PhotoBucket, storagePath, imageData.value);
      if uploadError.Some? {
        return Failure(uploadError.value);
      }
      var photo := LocalPhoto(photoId, eventId, session.value, storagePath, now);
      var reply := backend.Insert(Photos, EncodePhoto(photo, encodeDate));
      r := match reply
        case Failure(e) => Failure(e)
        case Success(d) => Success(InsertedPhoto(d, parsers, photo));
    }

    /** `fetchEventPhotos`: one query; a body that does not decode is no
        photos. */
    method FetchEventPhotos(eventId: string) returns (r: Result<seq<EventPhoto>, Failure>)
      modifies backend
      ensures var req := SelectCall(PhotosQuery(eventId)); var n := |old(backend.log)|;
        && backend.log == old(backend.log) + [req]
        && backend.store == old(backend.store) && backend.session == old(backend.session)
        && r == match backend.faults(n, req)
                case Some(e) => Failure(e)
                case None => Success(PhotosOrEmpty(RowsDoc(Answer(old(backend.store).photos, req.query)), parsers))
    {
      var reply := backend.Select(PhotosQuery(eventId));
      r := match reply
        case Failure(e) => Failure(e)
        case Success(d) => Success(PhotosOrEmpty(d, parsers));
    }
  }
}
