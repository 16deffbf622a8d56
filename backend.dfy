/** The hosted backend as the service sees it through its SDK: three row
    tables queried PostgREST-style, a storage bucket, the signed-in session,
    and the ordered log of the calls made to it. Whether a call fails, the
    bodies of server-computed replies and the accounts the auth server
    returns are fixed parameters of a backend, indexed by the call's place
    in the log. */
module Remote {
  import opened Wrappers
  import opened Platform
  import opened Json
  import opened EventModel
  import opened ResponseDecoding
  import Seqs

  datatype Table = Events | EventParticipants | Photos

  function TableName(t: Table): string {
    match t
    case Events => "events"
    case EventParticipants => "event_participants"
    case Photos => "photos"
  }

  /** `column.eq.value` inside an `or` filter. */
  datatype Condition = Condition(column: string, value: string)

  /** `.eq(column, value:)`, and `.or(text)` with its conditions parsed. */
  datatype Filter = Eq(column: string, value: string) | Or(conditions: seq<Condition>)

  datatype Order = Order(column: string, ascending: bool)

  /** `from(table).select(columns)` followed by its filters and ordering. */
  datatype Query = Query(table: Table, columns: string, filters: seq<Filter>, order: Option<Order>)

  /** `row[column]` is the text `value`. */
  predicate HasText(row: Row, column: string, value: string) {
    column in row && row[column] == JString(value)
  }

  predicate Satisfies(row: Row, f: Filter) {
    match f
    case Eq(c, v) => HasText(row, c, v)
    case Or(cs) => exists k :: 0 <= k < |cs| && HasText(row, cs[k].column, cs[k].value)
  }

  /** Every filter of a query holds: PostgREST combines the query-string
      filters of one request with AND, an `or=(...)` parameter included. */
  predicate SatisfiesAll(row: Row, filters: seq<Filter>) {
    forall i :: 0 <= i < |filters| ==> Satisfies(row, filters[i])
  }

  /** The columns a `select` keeps: all for `*`, otherwise the one named. */
  function Project(row: Row, columns: string): (r: Row)
    ensures columns == "*" ==> r == row
    ensures columns != "*" ==> forall k :: k in r <==> k in row && k == columns
    ensures forall k :: k in r ==> r[k] == row[k]
  {
    if columns == "*" then row else map k | k in row && k == columns :: row[k]
  }

  /** The rows a query returns, in table order. */
  function Answer(rows: seq<Row>, q: Query): (r: seq<Row>)
    ensures |r| <= |rows|
    ensures r == [] <==> forall j :: 0 <= j < |rows| ==> !SatisfiesAll(rows[j], q.filters)
  {
    if rows == [] then []
    else
      var rest := Answer(rows[1..], q);
      if SatisfiesAll(rows[0], q.filters) then [Project(rows[0], q.columns)] + rest
      else
        assert forall j :: 1 <= j < |rows| ==> rows[j] == rows[1..][j - 1];
        rest
  }

  /** A row added at the end of a table is answered after the others. */
  lemma {:induction false} AnswerAppend(rows: seq<Row>, row: Row, q: Query)
    ensures Answer(rows + [row], q)
            == Answer(rows, q) + (if SatisfiesAll(row, q.filters) then [Project(row, q.columns)] else [])
  {
    if rows == [] {
      assert rows + [row] == [row];
      assert [row][1..] == [];
    } else {
      assert (rows + [row])[0] == rows[0] && (rows + [row])[1..] == rows[1..] + [row];
      AnswerAppend(rows[1..], row, q);
    }
  }

  /** What the auth server returns for a user. */
  datatype AuthUser = AuthUser(id: string, email: Option<string>)

  /** One call to the backend. */
  datatype Request =
    | SignUpCall(email: string, password: string)
    | SignInCall(email: string, password: string)
    | SignOutCall
    | RpcCall(name: string, latitude: real, longitude: real, radiusKm: int)
    | SelectCall(query: Query)
    | InsertCall(table: Table, row: Row)
    | UploadCall(bucket: string, path: string, data: Bytes)

  /** The stored data. */
  datatype Store = Store(events: seq<Row>, participants: seq<Row>, photos: seq<Row>, objects: map<string, Bytes>) {
    function Rows(t: Table): seq<Row> {
      match t
      case Events => events
      case EventParticipants => participants
      case Photos => photos
    }

    function Append(t: Table, row: Row): (s: Store)
      ensures s.Rows(t) == Rows(t) + [row]
      ensures forall u :: u != t ==> s.Rows(u) == Rows(u)
      ensures s.objects == objects
    {
      match t
      case Events => this.(events := events + [row])
      case EventParticipants => this.(participants := participants + [row])
      case Photos => this.(photos := photos + [row])
    }
  }

  class Backend {
    var store: Store
    /** The user id of the signed-in session, if any. */
    var session: Option<string>
    var log: seq<Request>

    /** Which call fails, and with what error. */
    const faults: (nat, Request) -> Option<Failure>
    /** The body of a server-computed reply (RPC results, insert replies). */
    const replies: (nat, Request) -> Data
    /** The account an auth call signs in. */
    const accounts: (nat, Request) -> AuthUser
    /** The error `client.auth.session` throws when nobody is signed in. */
    const noSession: Failure

    constructor(store: Store, session: Option<string>,
                faults: (nat, Request) -> Option<Failure>, replies: (nat, Request) -> Data,
                accounts: (nat, Request) -> AuthUser, noSession: Failure)
      ensures this.store == store && this.session == session && log == []
      ensures this.faults == faults && this.replies == replies
      ensures this.accounts == accounts && this.noSession == noSession
    {
      this.store := store;
      this.session := session;
      this.log := [];
      this.faults := faults;
      this.replies := replies;
      this.accounts := accounts;
      this.noSession := noSession;
    }

    /** The fault, if any, of the next call. */
    function NextFault(req: Request): Option<Failure>
      reads this
    {
      faults(|log|, req)
    }

    /** `client.auth.session`: the signed-in user's id; makes no call. */
    method SessionUserId() returns (r: Result<string, Failure>)
      ensures session.Some? ==> r == Success(session.value)
      ensures session.None? ==> r == Failure(noSession)
    {
      r := match session
        case Some(id) => Success(id)
        case None => Failure(noSession);
    }

    method Select(q: Query) returns (r: Result<Data, Failure>)
      modifies this
      ensures log == old(log) + [SelectCall(q)]
      ensures store == old(store) && session == old(session)
      ensures old(NextFault(SelectCall(q))).Some? ==> r == Failure(old(NextFault(SelectCall(q))).value)
      ensures old(NextFault(SelectCall(q))).None? ==> r == Success(RowsDoc(Answer(store.Rows(q.table), q)))
    {
      var fault := NextFault(SelectCall(q));
      log := log + [SelectCall(q)];
      if fault.Some? {
        r := Failure(fault.value);
      } else {
        r := Success(RowsDoc(Answer(store.Rows(q.table), q)));
      }
    }

    /** An insert appends the row as it is: the tables enforce no
        uniqueness beyond what the caller checks. */
    method Insert(t: Table, row: Row) returns (r: Result<Data, Failure>)
      modifies this
      ensures log == old(log) + [InsertCall(t, row)]
      ensures session == old(session)
      ensures old(NextFault(InsertCall(t, row))).Some? ==>
                r == Failure(old(NextFault(InsertCall(t, row))).value) && store == old(store)
      ensures old(NextFault(InsertCall(t, row))).None? ==>
                r == Success(replies(|old(log)|, InsertCall(t, row))) && store == old(store).Append(t, row)
    {
      var fault := NextFault(InsertCall(t, row));
      var reply := replies(|log|, InsertCall(t, row));
      log := log + [InsertCall(t, row)];
      if fault.Some? {
        r := Failure(fault.value);
      } else {
        store := store.Append(t, row);
        r := Success(reply);
      }
    }

    method Upload(bucket: string, path: string, data: Bytes) returns (r: Option<Failure>)
      modifies this
      ensures log == old(log) + [UploadCall(bucket, path, data)]
      ensures session == old(session)
      ensures r == old(NextFault(UploadCall(bucket, path, data)))
      ensures r.Some? ==> store == old(store)
      ensures r.None? ==> store == old(store).(objects := old(store).objects[path := data])
    {
      r := NextFault(UploadCall(bucket, path, data));
      log := log + [UploadCall(bucket, path, data)];
      if r.None? {
        store := store.(objects := store.objects[path := data]);
      }
    }

    method Rpc(name: string, latitude: real, longitude: real, radiusKm: int) returns (r: Result<Data, Failure>)
      modifies this
      ensures log == old(log) + [RpcCall(name, latitude, longitude, radiusKm)]
      ensures store == old(store) && session == old(session)
      ensures var req := RpcCall(name, latitude, longitude, radiusKm);
        r == match old(NextFault(req))
             case Some(e) => Failure(e)
             case None => Success(replies(|old(log)|, req))
    {
      var req := RpcCall(name, latitude, longitude, radiusKm);
      var fault := NextFault(req);
      var reply := replies(|log|, req);
      log := log + [req];
      r := match fault
        case Some(e) => Failure(e)
        case None => Success(reply);
    }

    /** Sign-up and sign-in both start a session for the returned account. */
    method Authenticate(req: Request) returns (r: Result<AuthUser, Failure>)
      requires req.SignUpCall? || req.SignInCall?
      modifies this
      ensures log == old(log) + [req] && store == old(store)
      ensures old(NextFault(req)).Some? ==> r == Failure(old(NextFault(req)).value) && session == old(session)
      ensures old(NextFault(req)).None? ==>
                r == Success(accounts(|old(log)|, req)) && session == Some(accounts(|old(log)|, req).id)
    {
      var fault := NextFault(req);
      var account := accounts(|log|, req);
      log := log + [req];
      if fault.Some? {
        r := Failure(fault.value);
      } else {
        session := Some(account.id);
        r := Success(account);
      }
    }

    method SignOut() returns (r: Option<Failure>)
      modifies this
      ensures log == old(log) + [SignOutCall] && store == old(store)
      ensures r == old(NextFault(SignOutCall))
      ensures r.Some? ==> session == old(session)
      ensures r.None? ==> session == None
    {
      r := NextFault(SignOutCall);
      log := log + [SignOutCall];
      if r.None? {
        session := None;
      }
    }
  }

  // ------------------------------------------------- encoding the records

  /** The synthesized `Encodable` of `Event`: one entry per property under
      its `CodingKeys` key, `description` only when present, dates as the
      SDK's encoder writes them. */
  function EncodeEvent(e: Event, date: Instant -> Json): Row {
    var row := map[
      "id" := JString(e.id),
      "name" := JString(e.name),
      "location" := JString(e.location),
      "latitude" := JNumber(e.latitude),
      "longitude" := JNumber(e.longitude),
      "start_time" := date(e.startTime),
      "end_time" := date(e.endTime),
      "created_by" := JString(e.createdBy),
      "created_at" := date(e.createdAt),
      "updated_at" := date(e.updatedAt)];
    match e.description
    case Some(d) => row["description" := JString(d)]
    case None => row
  }

  function EncodeParticipant(p: EventParticipant, date: Instant -> Json): Row {
    map[
      ParticipantKey(ParticipantId) := JString(p.id),
      ParticipantKey(EventId) := JString(p.eventId),
      ParticipantKey(UserId) := JString(p.userId),
      ParticipantKey(JoinedAt) := date(p.joinedAt)]
  }

  /** The event `Photo` as encoded; the client-side `imageURL` and `image`
      are not part of it. */
  function EncodePhoto(p: EventPhoto, date: Instant -> Json): Row {
    var row := map[
      "id" := JString(p.id),
      "event_id" := JString(p.eventId),
      "user_id" := JString(p.userId),
      "storage_path" := JString(p.storagePath),
      "taken_at" := date(p.takenAt),
      "created_at" := date(p.createdAt)];
    var row := if p.caption.Some? then row["caption" := JString(p.caption.value)] else row;
    var row := if p.latitude.Some? then row["latitude" := JNumber(p.latitude.value)] else row;
    if p.longitude.Some? then row["longitude" := JNumber(p.longitude.value)] else row
  }

  /** A date the encoder writes in a form the decoder reads back. */
  predicate DateRoundTrips(st: DateStrategy, date: Instant -> Json, d: Instant) {
    DecodeDate(st, date(d)) == Some(d)
  }

  /** An encoded event decodes strictly to itself when its dates survive. */
  lemma EventRowRoundTrip(e: Event, date: Instant -> Json, st: DateStrategy)
    requires DateRoundTrips(st, date, e.startTime) && DateRoundTrips(st, date, e.endTime)
    requires DateRoundTrips(st, date, e.createdAt) && DateRoundTrips(st, date, e.updatedAt)
    ensures StrictEvent(EncodeEvent(e, date), st) == Some(e)
  {
    var row := EncodeEvent(e, date);
    EncodedEventFields(e, date);
    EncodedEventDates(e, date);
    StoredDate(row, EventKey(StartTime), e.startTime, date, st);
    StoredDate(row, EventKey(EndTime), e.endTime, date, st);
    StoredDate(row, EventKey(CreatedAt), e.createdAt, date, st);
    StoredDate(row, EventKey(UpdatedAt), e.updatedAt, date, st);
    StrictEventOfFields(row, st, e);
  }

  lemma EncodedEventFields(e: Event, date: Instant -> Json)
    ensures var row := EncodeEvent(e, date);
      && StringAt(row, EventKey(Id)) == Some(e.id)
      && StringAt(row, EventKey(Name)) == Some(e.name)
      && OptionalText(row, EventKey(Description)) == Some(e.description)
      && StringAt(row, EventKey(Location)) == Some(e.location)
      && DoubleAt(row, EventKey(Latitude)) == Some(e.latitude)
      && DoubleAt(row, EventKey(Longitude)) == Some(e.longitude)
      && StringAt(row, EventKey(CreatedBy)) == Some(e.createdBy)
  {
    EncodedEventText(e, date);
    EncodedEventOther(e, date);
  }

  lemma EncodedEventText(e: Event, date: Instant -> Json)
    ensures var row := EncodeEvent(e, date);
      && StringAt(row, EventKey(Id)) == Some(e.id)
      && StringAt(row, EventKey(Name)) == Some(e.name)
      && StringAt(row, EventKey(Location)) == Some(e.location)
      && StringAt(row, EventKey(CreatedBy)) == Some(e.createdBy)
  {
  }

  lemma EncodedEventOther(e: Event, date: Instant -> Json)
    ensures var row := EncodeEvent(e, date);
      && OptionalText(row, EventKey(Description)) == Some(e.description)
      && DoubleAt(row, EventKey(Latitude)) == Some(e.latitude)
      && DoubleAt(row, EventKey(Longitude)) == Some(e.longitude)
  {
  }

  lemma EncodedEventDates(e: Event, date: Instant -> Json)
    ensures var row := EncodeEvent(e, date);
      && EventKey(StartTime) in row && row[EventKey(StartTime)] == date(e.startTime)
      && EventKey(EndTime) in row && row[EventKey(EndTime)] == date(e.endTime)
      && EventKey(CreatedAt) in row && row[EventKey(CreatedAt)] == date(e.createdAt)
      && EventKey(UpdatedAt) in row && row[EventKey(UpdatedAt)] == date(e.updatedAt)
  {
  }

  lemma StoredDate(row: Row, key: string, d: Instant, date: Instant -> Json, st: DateStrategy)
    requires key in row && row[key] == date(d) && DateRoundTrips(st, date, d)
    ensures DateAt(row, key, st) == Some(d)
  {
  }

  /** An encoded photo decodes strictly to itself, less its client-side
      fields, when its dates survive. */
  lemma PhotoRowRoundTrip(p: EventPhoto, date: Instant -> Json, st: DateStrategy)
    requires DateRoundTrips(st, date, p.takenAt) && DateRoundTrips(st, date, p.createdAt)
    ensures StrictPhoto(EncodePhoto(p, date), st) == Some(p.(imageURL := None, image := None))
  {
    var row := EncodePhoto(p, date);
    EncodedPhotoFields(p, date);
    EncodedPhotoDates(p, date, st);
    StrictPhotoOfFields(row, st, p.(imageURL := None, image := None));
  }

  lemma EncodedPhotoFields(p: EventPhoto, date: Instant -> Json)
    ensures var row := EncodePhoto(p, date);
      && StringAt(row, PhotoKey(PhotoId)) == Some(p.id)
      && StringAt(row, PhotoKey(PhotoEventId)) == Some(p.eventId)
      && StringAt(row, PhotoKey(PhotoUserId)) == Some(p.userId)
      && StringAt(row, PhotoKey(StoragePath)) == Some(p.storagePath)
      && OptionalText(row, PhotoKey(Caption)) == Some(p.caption)
      && OptionalNumber(row, PhotoKey(PhotoLatitude)) == Some(p.latitude)
      && OptionalNumber(row, PhotoKey(PhotoLongitude)) == Some(p.longitude)
  {
    EncodedPhotoText(p, date);
    EncodedPhotoOptional(p, date);
  }

  lemma EncodedPhotoText(p: EventPhoto, date: Instant -> Json)
    ensures var row := EncodePhoto(p, date);
      && StringAt(row, PhotoKey(PhotoId)) == Some(p.id)
      && StringAt(row, PhotoKey(PhotoEventId)) == Some(p.eventId)
      && StringAt(row, PhotoKey(PhotoUserId)) == Some(p.userId)
      && StringAt(row, PhotoKey(StoragePath)) == Some(p.storagePath)
  {
  }

  lemma EncodedPhotoOptional(p: EventPhoto, date: Instant -> Json)
    ensures var row := EncodePhoto(p, date);
      && OptionalText(row, PhotoKey(Caption)) == Some(p.caption)
      && OptionalNumber(row, PhotoKey(PhotoLatitude)) == Some(p.latitude)
      && OptionalNumber(row, PhotoKey(PhotoLongitude)) == Some(p.longitude)
  {
  }

  lemma EncodedPhotoDates(p: EventPhoto, date: Instant -> Json, st: DateStrategy)
    requires DateRoundTrips(st, date, p.takenAt) && DateRoundTrips(st, date, p.createdAt)
    ensures var row := EncodePhoto(p, date);
      && DateAt(row, PhotoKey(TakenAt), st) == Some(p.takenAt)
      && DateAt(row, PhotoKey(PhotoCreatedAt), st) == Some(p.createdAt)
  {
    var row := EncodePhoto(p, date);
    assert row[PhotoKey(TakenAt)] == date(p.takenAt) && row[PhotoKey(PhotoCreatedAt)] == date(p.createdAt);
  }

  /** With `JSONDecoder`'s default, a date written as its number of seconds
      is read back. */
  lemma SecondsRoundTrip(d: Instant)
    ensures DateRoundTrips(DeferredToDate, (x: Instant) => JNumber(x), d)
  {
  }
}
