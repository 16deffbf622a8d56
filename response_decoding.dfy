/** How the service turns response bodies into records: the date-decoding
    chain, strict decoding with `JSONDecoder`, the lenient fallback
    `parseEventsManually`, and the decode-failure policy of each fetch. */
module ResponseDecoding {
  import opened Wrappers
  import opened Platform
  import opened Json
  import opened EventModel
  import Seqs

  /** A Foundation date formatter, seen as a partial function. */
  type DateParser = string -> Option<Instant>

  /** The three formatters of the custom date strategy. */
  datatype DateParsers = DateParsers(
    fixedPattern: DateParser,   // `yyyy-MM-dd'T'HH:mm:ss.SSSSSSZZZZZ`, en_US_POSIX, UTC
    isoFractional: DateParser,  // ISO 8601 internet date-time with fractional seconds
    isoPlain: DateParser)       // ISO 8601 internet date-time without them

  /** The first success of `parsers` on `s`, trying them in order. */
  function FirstSuccess(parsers: seq<DateParser>, s: string): (r: Option<Instant>)
    ensures r.None? <==> forall k :: 0 <= k < |parsers| ==> parsers[k](s).None?
    ensures r.Some? ==> exists k :: 0 <= k < |parsers| && parsers[k](s) == r
                                  && forall j :: 0 <= j < k ==> parsers[j](s).None?
  {
    if parsers == [] then None
    else if parsers[0](s).Some? then parsers[0](s)
    else
      var r := FirstSuccess(parsers[1..], s);
      assert r.Some? ==> exists k :: 1 <= k < |parsers| && parsers[k](s) == r
                                  && forall j :: 0 <= j < k ==> parsers[j](s).None? by {
        if r.Some? {
          var k :| 0 <= k < |parsers[1..]| && parsers[1..][k](s) == r
                   && forall j :: 0 <= j < k ==> parsers[1..][j](s).None?;
          assert parsers[k + 1](s) == r;
          forall j | 0 <= j < k + 1 ensures parsers[j](s).None? {
            if j > 0 { assert parsers[j] == parsers[1..][j - 1]; }
          }
        }
      }
      r
  }

  /** The custom `dateDecodingStrategy`: the fixed pattern, then ISO 8601
      with fractional seconds, then without; it fails exactly when all
      three fail. */
  function ParseDate(p: DateParsers, s: string): (r: Option<Instant>)
    ensures r.None? <==> p.fixedPattern(s).None? && p.isoFractional(s).None? && p.isoPlain(s).None?
  {
    match p.fixedPattern(s)
    case Some(d) => Some(d)
    case None =>
      match p.isoFractional(s)
      case Some(d) => Some(d)
      case None => p.isoPlain(s)
  }

  /** The strategy is the first success of its three formatters, in order. */
  lemma ParseDateIsFirstSuccess(p: DateParsers, s: string)
    ensures ParseDate(p, s) == FirstSuccess([p.fixedPattern, p.isoFractional, p.isoPlain], s)
  {
    var ps := [p.fixedPattern, p.isoFractional, p.isoPlain];
    assert ps[1..] == [p.isoFractional, p.isoPlain] && ps[1..][1..] == [p.isoPlain];
    assert ps[1..][1..][1..] == [];
    assert FirstSuccess(ps[1..][1..], s) == p.isoPlain(s);
    assert FirstSuccess(ps[1..], s) == if p.isoFractional(s).Some? then p.isoFractional(s) else p.isoPlain(s);
  }

  /** How a decoder reads a `Date`: through the custom strategy, or with
      `JSONDecoder`'s default, which reads a number of seconds since the
      reference date. */
  datatype DateStrategy = Custom(parsers: DateParsers) | DeferredToDate

  function DecodeDate(st: DateStrategy, j: Json): (r: Option<Instant>)
    ensures st.DeferredToDate? ==> (r.Some? <==> j.JNumber?)
    ensures st.Custom? ==> (r.Some? ==> j.JString? && r == ParseDate(st.parsers, j.s))
  {
    match st
    case DeferredToDate => if j.JNumber? then Some(j.n) else None
    case Custom(p) => if j.JString? then ParseDate(p, j.s) else None
  }

  /** One property decodes under the synthesized `Decodable`: a missing key
      or `null` is accepted only for an optional property; a present value
      must have the property's type. */
  predicate Decodes(row: Row, key: string, kind: Kind, optional: bool, st: DateStrategy) {
    if key !in row || row[key] == JNull then optional
    else match kind
      case Text => row[key].JString?
      case Number => row[key].JNumber?
      case Timestamp => DecodeDate(st, row[key]).Some?
  }

  /** `decodeIfPresent(String.self, forKey:)`: Some(None) for absent or null,
      None for a value of another type. */
  function OptionalText(row: Row, key: string): Option<Option<string>> {
    if key !in row || row[key] == JNull then Some(None)
    else if row[key].JString? then Some(Some(row[key].s))
    else None
  }

  function OptionalNumber(row: Row, key: string): Option<Option<real>> {
    if key !in row || row[key] == JNull then Some(None)
    else if row[key].JNumber? then Some(Some(row[key].n))
    else None
  }

  function DateAt(row: Row, key: string, st: DateStrategy): Option<Instant> {
    if key in row then DecodeDate(st, row[key]) else None
  }

  /** A property that decodes has a value its field reader finds. */
  lemma TextDecodes(row: Row, key: string, kind: Kind, optional: bool, st: DateStrategy)
    requires kind == Text && !optional && Decodes(row, key, kind, optional, st)
    ensures StringAt(row, key).Some?
  {
  }

  lemma NumberDecodes(row: Row, key: string, kind: Kind, optional: bool, st: DateStrategy)
    requires kind == Number && !optional && Decodes(row, key, kind, optional, st)
    ensures DoubleAt(row, key).Some?
  {
  }

  lemma DateDecodes(row: Row, key: string, kind: Kind, optional: bool, st: DateStrategy)
    requires kind == Timestamp && !optional && Decodes(row, key, kind, optional, st)
    ensures DateAt(row, key, st).Some?
  {
  }

  lemma OptionalTextDecodes(row: Row, key: string, kind: Kind, optional: bool, st: DateStrategy)
    requires kind == Text && optional && Decodes(row, key, kind, optional, st)
    ensures OptionalText(row, key).Some?
  {
  }

  lemma OptionalNumberDecodes(row: Row, key: string, kind: Kind, optional: bool, st: DateStrategy)
    requires kind == Number && optional && Decodes(row, key, kind, optional, st)
    ensures OptionalNumber(row, key).Some?
  {
  }

  /** Strict decoding of one `Event` object. */
  function StrictEvent(row: Row, st: DateStrategy): Option<Event> {
    var id := StringAt(row, EventKey(Id));
    var name := StringAt(row, EventKey(Name));
    var description := OptionalText(row, EventKey(Description));
    var location := StringAt(row, EventKey(Location));
    var latitude := DoubleAt(row, EventKey(Latitude));
    var longitude := DoubleAt(row, EventKey(Longitude));
    var startTime := DateAt(row, EventKey(StartTime), st);
    var endTime := DateAt(row, EventKey(EndTime), st);
    var createdBy := StringAt(row, EventKey(CreatedBy));
    var createdAt := DateAt(row, EventKey(CreatedAt), st);
    var updatedAt := DateAt(row, EventKey(UpdatedAt), st);
    if id.Some? && name.Some? && description.Some? && location.Some?
       && latitude.Some? && longitude.Some? && startTime.Some? && endTime.Some?
       && createdBy.Some? && createdAt.Some? && updatedAt.Some?
    then Some(Event(id.value, name.value, description.value, location.value,
                    latitude.value, longitude.value, startTime.value, endTime.value,
                    createdBy.value, createdAt.value, updatedAt.value))
    else None
  }

  /** Strict decoding accepts an object exactly when every property decodes
      under its `CodingKeys` key. */
  lemma StrictEventAccepts(row: Row, st: DateStrategy)
    ensures StrictEvent(row, st).Some?
            <==> forall f :: Decodes(row, EventKey(f), EventKind(f), IsOptional(f), st)
  {
    if StrictEvent(row, st).Some? {
      StrictEventDecodesAll(row, st);
    }
    if forall f :: Decodes(row, EventKey(f), EventKind(f), IsOptional(f), st) {
      StrictEventOfDecodable(row, st);
    }
  }

  lemma StrictEventDecodesAll(row: Row, st: DateStrategy)
    requires StrictEvent(row, st).Some?
    ensures forall f :: Decodes(row, EventKey(f), EventKind(f), IsOptional(f), st)
  {
    forall f ensures Decodes(row, EventKey(f), EventKind(f), IsOptional(f), st) {
      match f
      case Id =>
      case Name =>
      case Description =>
      case Location =>
      case Latitude =>
      case Longitude =>
      case StartTime =>
      case EndTime =>
      case CreatedBy =>
      case CreatedAt =>
      case UpdatedAt =>
    }
  }

  lemma StrictEventOfDecodable(row: Row, st: DateStrategy)
    requires forall f :: Decodes(row, EventKey(f), EventKind(f), IsOptional(f), st)
    ensures StrictEvent(row, st).Some?
  {
    EventTextFieldsRead(row, st);
    EventOtherFieldsRead(row, st);
  }

  lemma EventTextFieldsRead(row: Row, st: DateStrategy)
    requires forall f :: Decodes(row, EventKey(f), EventKind(f), IsOptional(f), st)
    ensures StringAt(row, EventKey(Id)).Some? && StringAt(row, EventKey(Name)).Some?
    ensures OptionalText(row, EventKey(Description)).Some? && StringAt(row, EventKey(Location)).Some?
    ensures StringAt(row, EventKey(CreatedBy)).Some?
  {
    TextDecodes(row, EventKey(Id), EventKind(Id), IsOptional(Id), st);
    TextDecodes(row, EventKey(Name), EventKind(Name), IsOptional(Name), st);
    OptionalTextDecodes(row, EventKey(Description), EventKind(Description), IsOptional(Description), st);
    TextDecodes(row, EventKey(Location), EventKind(Location), IsOptional(Location), st);
    TextDecodes(row, EventKey(CreatedBy), EventKind(CreatedBy), IsOptional(CreatedBy), st);
  }

  lemma EventOtherFieldsRead(row: Row, st: DateStrategy)
    requires forall f :: Decodes(row, EventKey(f), EventKind(f), IsOptional(f), st)
    ensures DoubleAt(row, EventKey(Latitude)).Some? && DoubleAt(row, EventKey(Longitude)).Some?
    ensures DateAt(row, EventKey(StartTime), st).Some? && DateAt(row, EventKey(EndTime), st).Some?
    ensures DateAt(row, EventKey(CreatedAt), st).Some? && DateAt(row, EventKey(UpdatedAt), st).Some?
  {
    NumberDecodes(row, EventKey(Latitude), EventKind(Latitude), IsOptional(Latitude), st);
    NumberDecodes(row, EventKey(Longitude), EventKind(Longitude), IsOptional(Longitude), st);
    DateDecodes(row, EventKey(StartTime), EventKind(StartTime), IsOptional(StartTime), st);
    DateDecodes(row, EventKey(EndTime), EventKind(EndTime), IsOptional(EndTime), st);
    DateDecodes(row, EventKey(CreatedAt), EventKind(CreatedAt), IsOptional(CreatedAt), st);
    DateDecodes(row, EventKey(UpdatedAt), EventKind(UpdatedAt), IsOptional(UpdatedAt), st);
  }

  /** The strict decoder builds the event its fields spell out. */
  lemma StrictEventOfFields(row: Row, st: DateStrategy, e: Event)
    requires StringAt(row, EventKey(Id)) == Some(e.id)
    requires StringAt(row, EventKey(Name)) == Some(e.name)
    requires OptionalText(row, EventKey(Description)) == Some(e.description)
    requires StringAt(row, EventKey(Location)) == Some(e.location)
    requires DoubleAt(row, EventKey(Latitude)) == Some(e.latitude)
    requires DoubleAt(row, EventKey(Longitude)) == Some(e.longitude)
    requires DateAt(row, EventKey(StartTime), st) == Some(e.startTime)
    requires DateAt(row, EventKey(EndTime), st) == Some(e.endTime)
    requires StringAt(row, EventKey(CreatedBy)) == Some(e.createdBy)
    requires DateAt(row, EventKey(CreatedAt), st) == Some(e.createdAt)
    requires DateAt(row, EventKey(UpdatedAt), st) == Some(e.updatedAt)
    ensures StrictEvent(row, st) == Some(e)
  {
  }

  /** Strict decoding of each object in turn; one failure fails the list. */
  function StrictEvents(rows: seq<Row>, st: DateStrategy): (r: Option<seq<Event>>)
    ensures r.Some? <==> forall i :: 0 <= i < |rows| ==> StrictEvent(rows[i], st).Some?
    ensures r.Some? ==> |r.value| == |rows|
                        && forall i :: 0 <= i < |rows| ==> StrictEvent(rows[i], st) == Some(r.value[i])
  {
    if rows == [] then Some([])
    else match (StrictEvent(rows[0], st), StrictEvents(rows[1..], st))
      case (Some(e), Some(es)) => Some([e] + es)
      case _ => None
  }

  /** `decoder.decode([Event].self, from: data)`. */
  function StrictEventList(d: Data, st: DateStrategy): Option<seq<Event>> {
    match ObjectArray(d)
    case None => None
    case Some(rows) => StrictEvents(rows, st)
  }

  /** Strict decoding of one event `Photo` object; the client-side fields
      start out nil. */
  function StrictPhoto(row: Row, st: DateStrategy): Option<EventPhoto> {
    var id := StringAt(row, PhotoKey(PhotoId));
    var eventId := StringAt(row, PhotoKey(PhotoEventId));
    var userId := StringAt(row, PhotoKey(PhotoUserId));
    var storagePath := StringAt(row, PhotoKey(StoragePath));
    var caption := OptionalText(row, PhotoKey(Caption));
    var takenAt := DateAt(row, PhotoKey(TakenAt), st);
    var latitude := OptionalNumber(row, PhotoKey(PhotoLatitude));
    var longitude := OptionalNumber(row, PhotoKey(PhotoLongitude));
    var createdAt := DateAt(row, PhotoKey(PhotoCreatedAt), st);
    if id.Some? && eventId.Some? && userId.Some? && storagePath.Some? && caption.Some?
       && takenAt.Some? && latitude.Some? && longitude.Some? && createdAt.Some?
    then Some(EventPhoto(id.value, eventId.value, userId.value, storagePath.value, caption.value,
                         takenAt.value, latitude.value, longitude.value, createdAt.value, None, None))
    else None
  }

  lemma StrictPhotoAccepts(row: Row, st: DateStrategy)
    ensures StrictPhoto(row, st).Some?
            <==> forall f :: Decodes(row, PhotoKey(f), PhotoKind(f), PhotoFieldIsOptional(f), st)
  {
    if StrictPhoto(row, st).Some? {
      StrictPhotoDecodesAll(row, st);
    }
    if forall f :: Decodes(row, PhotoKey(f), PhotoKind(f), PhotoFieldIsOptional(f), st) {
      StrictPhotoOfDecodable(row, st);
    }
  }

  lemma StrictPhotoDecodesAll(row: Row, st: DateStrategy)
    requires StrictPhoto(row, st).Some?
    ensures forall f :: Decodes(row, PhotoKey(f), PhotoKind(f), PhotoFieldIsOptional(f), st)
  {
    forall f ensures Decodes(row, PhotoKey(f), PhotoKind(f), PhotoFieldIsOptional(f), st) {
      match f
      case PhotoId =>
      case PhotoEventId =>
      case PhotoUserId =>
      case StoragePath =>
      case Caption =>
      case TakenAt =>
      case PhotoLatitude =>
      case PhotoLongitude =>
      case PhotoCreatedAt =>
    }
  }

  lemma StrictPhotoOfDecodable(row: Row, st: DateStrategy)
    requires forall f :: Decodes(row, PhotoKey(f), PhotoKind(f), PhotoFieldIsOptional(f), st)
    ensures StrictPhoto(row, st).Some?
  {
    TextDecodes(row, PhotoKey(PhotoId), PhotoKind(PhotoId), PhotoFieldIsOptional(PhotoId), st);
    TextDecodes(row, PhotoKey(PhotoEventId), PhotoKind(PhotoEventId), PhotoFieldIsOptional(PhotoEventId), st);
    TextDecodes(row, PhotoKey(PhotoUserId), PhotoKind(PhotoUserId), PhotoFieldIsOptional(PhotoUserId), st);
    TextDecodes(row, PhotoKey(StoragePath), PhotoKind(StoragePath), PhotoFieldIsOptional(StoragePath), st);
    OptionalTextDecodes(row, PhotoKey(Caption), PhotoKind(Caption), PhotoFieldIsOptional(Caption), st);
    DateDecodes(row, PhotoKey(TakenAt), PhotoKind(TakenAt), PhotoFieldIsOptional(TakenAt), st);
    OptionalNumberDecodes(row, PhotoKey(PhotoLatitude), PhotoKind(PhotoLatitude), PhotoFieldIsOptional(PhotoLatitude), st);
    OptionalNumberDecodes(row, PhotoKey(PhotoLongitude), PhotoKind(PhotoLongitude), PhotoFieldIsOptional(PhotoLongitude), st);
    DateDecodes(row, PhotoKey(PhotoCreatedAt), PhotoKind(PhotoCreatedAt), PhotoFieldIsOptional(PhotoCreatedAt), st);
  }

  lemma StrictPhotoOfFields(row: Row, st: DateStrategy, p: EventPhoto)
    requires p.imageURL == None && p.image == None
    requires StringAt(row, PhotoKey(PhotoId)) == Some(p.id)
    requires StringAt(row, PhotoKey(PhotoEventId)) == Some(p.eventId)
    requires StringAt(row, PhotoKey(PhotoUserId)) == Some(p.userId)
    requires StringAt(row, PhotoKey(StoragePath)) == Some(p.storagePath)
    requires OptionalText(row, PhotoKey(Caption)) == Some(p.caption)
    requires DateAt(row, PhotoKey(TakenAt), st) == Some(p.takenAt)
    requires OptionalNumber(row, PhotoKey(PhotoLatitude)) == Some(p.latitude)
    requires OptionalNumber(row, PhotoKey(PhotoLongitude)) == Some(p.longitude)
    requires DateAt(row, PhotoKey(PhotoCreatedAt), st) == Some(p.createdAt)
    ensures StrictPhoto(row, st) == Some(p)
  {
  }

  function StrictPhotos(rows: seq<Row>, st: DateStrategy): (r: Option<seq<EventPhoto>>)
    ensures r.Some? <==> forall i :: 0 <= i < |rows| ==> StrictPhoto(rows[i], st).Some?
    ensures r.Some? ==> |r.value| == |rows|
                        && forall i :: 0 <= i < |rows| ==> StrictPhoto(rows[i], st) == Some(r.value[i])
  {
    if rows == [] then Some([])
    else match (StrictPhoto(rows[0], st), StrictPhotos(rows[1..], st))
      case (Some(p), Some(ps)) => Some([p] + ps)
      case _ => None
  }

  /** `decoder.decode([Photo].self, from: data)`. */
  function StrictPhotoList(d: Data, st: DateStrategy): Option<seq<EventPhoto>> {
    match ObjectArray(d)
    case None => None
    case Some(rows) => StrictPhotos(rows, st)
  }

  // ---------------------------------------------------------------- lenient

  /** A required property as `parseEventsManually` checks it: `as? Double`
      for the coordinates, `as? String` for everything else (dates
      included, which it reads as text). */
  predicate ManualFieldPresent(row: Row, f: EventField) {
    if EventKind(f) == Number then DoubleAt(row, EventKey(f)).Some?
    else StringAt(row, EventKey(f)).Some?
  }

  /** Every non-optional property is present with the type the lenient
      parser asks for. */
  predicate HasRequiredFields(row: Row) {
    forall f :: !IsOptional(f) ==> ManualFieldPresent(row, f)
  }

  /** The closure given to `compactMap` in `parseEventsManually`: the guard
      over the ten keys, then the dates through the fixed pattern alone,
      each falling back to `now` (the `Date()` of the call). */
  function ManualEvent(row: Row, fixedPattern: DateParser, now: Instant): Option<Event> {
    var id := StringAt(row, "id");
    var name := StringAt(row, "name");
    var location := StringAt(row, "location");
    var latitude := DoubleAt(row, "latitude");
    var longitude := DoubleAt(row, "longitude");
    var startTime := StringAt(row, "start_time");
    var endTime := StringAt(row, "end_time");
    var createdBy := StringAt(row, "created_by");
    var createdAt := StringAt(row, "created_at");
    var updatedAt := StringAt(row, "updated_at");
    if id.Some? && name.Some? && location.Some? && latitude.Some? && longitude.Some?
       && startTime.Some? && endTime.Some? && createdBy.Some? && createdAt.Some? && updatedAt.Some?
    then Some(Event(
      id.value, name.value, StringAt(row, "description"), location.value,
      latitude.value, longitude.value,
      fixedPattern(startTime.value).GetOr(now),
      fixedPattern(endTime.value).GetOr(now),
      createdBy.value,
      fixedPattern(createdAt.value).GetOr(now),
      fixedPattern(updatedAt.value).GetOr(now)))
    else None
  }

  /** The lenient parser keeps a record exactly when its required properties
      are present and well typed. It then copies them field by field; the
      description is nil when absent or not a string; a timestamp the
      fixed pattern cannot read is `now`, so a bad date never drops the
      record. */
  lemma ManualEventSpec(row: Row, fixedPattern: DateParser, now: Instant)
    ensures ManualEvent(row, fixedPattern, now).Some? <==> HasRequiredFields(row)
    ensures ManualEvent(row, fixedPattern, now).Some? ==>
      var e := ManualEvent(row, fixedPattern, now).value;
      && row[EventKey(Id)] == JString(e.id)
      && row[EventKey(Name)] == JString(e.name)
      && e.description == StringAt(row, EventKey(Description))
      && row[EventKey(Location)] == JString(e.location)
      && row[EventKey(Latitude)] == JNumber(e.latitude)
      && row[EventKey(Longitude)] == JNumber(e.longitude)
      && row[EventKey(CreatedBy)] == JString(e.createdBy)
      && e.startTime == fixedPattern(row[EventKey(StartTime)].s).GetOr(now)
      && e.endTime == fixedPattern(row[EventKey(EndTime)].s).GetOr(now)
      && e.createdAt == fixedPattern(row[EventKey(CreatedAt)].s).GetOr(now)
      && e.updatedAt == fixedPattern(row[EventKey(UpdatedAt)].s).GetOr(now)
  {
    ManualEventKeeps(row, fixedPattern, now);
    if ManualEvent(row, fixedPattern, now).Some? {
      ManualEventCopies(row, fixedPattern, now);
    }
  }

  /** The guard of the closure is the required-fields test. */
  lemma ManualEventKeeps(row: Row, fixedPattern: DateParser, now: Instant)
    ensures ManualEvent(row, fixedPattern, now).Some? <==> HasRequiredFields(row)
  {
    if HasRequiredFields(row) {
      CompleteRowIsKept(row, fixedPattern, now);
    }
    if ManualEvent(row, fixedPattern, now).Some? {
      KeptRowIsComplete(row, fixedPattern, now);
    }
  }

  lemma CompleteRowIsKept(row: Row, fixedPattern: DateParser, now: Instant)
    requires HasRequiredFields(row)
    ensures ManualEvent(row, fixedPattern, now).Some?
  {
    assert ManualFieldPresent(row, Id);
    assert StringAt(row, "id").Some?;
    assert ManualFieldPresent(row, Name);
    assert StringAt(row, "name").Some?;
    assert ManualFieldPresent(row, Location);
    assert StringAt(row, "location").Some?;
    assert ManualFieldPresent(row, Latitude);
    assert DoubleAt(row, "latitude").Some?;
    assert ManualFieldPresent(row, Longitude);
    assert DoubleAt(row, "longitude").Some?;
    assert ManualFieldPresent(row, StartTime);
    assert StringAt(row, "start_time").Some?;
    assert ManualFieldPresent(row, EndTime);
    assert StringAt(row, "end_time").Some?;
    assert ManualFieldPresent(row, CreatedBy);
    assert StringAt(row, "created_by").Some?;
    assert ManualFieldPresent(row, CreatedAt);
    assert StringAt(row, "created_at").Some?;
    assert ManualFieldPresent(row, UpdatedAt);
    assert StringAt(row, "updated_at").Some?;
  }

  lemma KeptRowIsComplete(row: Row, fixedPattern: DateParser, now: Instant)
    requires ManualEvent(row, fixedPattern, now).Some?
    ensures HasRequiredFields(row)
  {
    forall f | !IsOptional(f) ensures ManualFieldPresent(row, f) {
      match f
      case Id => assert StringAt(row, "id").Some?;
      case Name => assert StringAt(row, "name").Some?;
      case Location => assert StringAt(row, "location").Some?;
      case Latitude => assert DoubleAt(row, "latitude").Some?;
      case Longitude => assert DoubleAt(row, "longitude").Some?;
      case StartTime => assert StringAt(row, "start_time").Some?;
      case EndTime => assert StringAt(row, "end_time").Some?;
      case CreatedBy => assert StringAt(row, "created_by").Some?;
      case CreatedAt => assert StringAt(row, "created_at").Some?;
      case UpdatedAt => assert StringAt(row, "updated_at").Some?;
    }
  }

  /** A kept record's fields are copied from the row. */
  lemma ManualEventCopies(row: Row, fixedPattern: DateParser, now: Instant)
    requires ManualEvent(row, fixedPattern, now).Some?
    ensures var e := ManualEvent(row, fixedPattern, now).value;
      && row[EventKey(Id)] == JString(e.id)
      && row[EventKey(Name)] == JString(e.name)
      && e.description == StringAt(row, EventKey(Description))
      && row[EventKey(Location)] == JString(e.location)
      && row[EventKey(Latitude)] == JNumber(e.latitude)
      && row[EventKey(Longitude)] == JNumber(e.longitude)
      && row[EventKey(CreatedBy)] == JString(e.createdBy)
      && e.startTime == fixedPattern(row[EventKey(StartTime)].s).GetOr(now)
      && e.endTime == fixedPattern(row[EventKey(EndTime)].s).GetOr(now)
      && e.createdAt == fixedPattern(row[EventKey(CreatedAt)].s).GetOr(now)
      && e.updatedAt == fixedPattern(row[EventKey(UpdatedAt)].s).GetOr(now)
  {
    assert EventKey(Id) == "id" && EventKey(Name) == "name" && EventKey(Description) == "description";
    assert EventKey(Location) == "location" && EventKey(Latitude) == "latitude";
    assert EventKey(Longitude) == "longitude" && EventKey(CreatedBy) == "created_by";
    assert EventKey(StartTime) == "start_time" && EventKey(EndTime) == "end_time";
    assert EventKey(CreatedAt) == "created_at" && EventKey(UpdatedAt) == "updated_at";
  }

  /** `json.compactMap { ... }` over the records. */
  function CompactMapEvents(rows: seq<Row>, fixedPattern: DateParser, now: Instant): seq<Event> {
    if rows == [] then []
    else match ManualEvent(rows[0], fixedPattern, now)
      case Some(e) => [e] + CompactMapEvents(rows[1..], fixedPattern, now)
      case None => CompactMapEvents(rows[1..], fixedPattern, now)
  }

  /** `parseEventsManually(from:)`: [] unless the body is an array of objects. */
  function ParseEventsManually(d: Data, fixedPattern: DateParser, now: Instant): seq<Event> {
    match ObjectArray(d)
    case None => []
    case Some(rows) => CompactMapEvents(rows, fixedPattern, now)
  }

  /** The records the lenient parser keeps, in input order. */
  function CompleteRows(rows: seq<Row>): seq<Row> {
    Seqs.Filter(HasRequiredFields, rows)
  }

  /** The lenient parser returns one event per complete record, in order,
      and nothing for the others. */
  lemma {:induction false} CompactMapKeepsCompleteRows(rows: seq<Row>, fixedPattern: DateParser, now: Instant)
    ensures |CompactMapEvents(rows, fixedPattern, now)| == |CompleteRows(rows)|
    ensures forall i :: 0 <= i < |CompleteRows(rows)| ==>
              ManualEvent(CompleteRows(rows)[i], fixedPattern, now)
              == Some(CompactMapEvents(rows, fixedPattern, now)[i])
  {
    if rows != [] {
      CompactMapKeepsCompleteRows(rows[1..], fixedPattern, now);
      ManualEventKeeps(rows[0], fixedPattern, now);
      var kept := CompleteRows(rows);
      var rest := CompleteRows(rows[1..]);
      var es := CompactMapEvents(rows, fixedPattern, now);
      var restEs := CompactMapEvents(rows[1..], fixedPattern, now);
      if HasRequiredFields(rows[0]) {
        assert kept == [rows[0]] + rest;
        assert es == [ManualEvent(rows[0], fixedPattern, now).value] + restEs;
        forall i | 0 <= i < |kept|
          ensures ManualEvent(kept[i], fixedPattern, now) == Some(es[i])
        {
          if i > 0 { assert kept[i] == rest[i - 1] && es[i] == restEs[i - 1]; }
        }
      } else {
        assert kept == rest;
        assert es == restEs;
      }
    }
  }

  /** The body-level statement of the lenient policy: [] for a body that is
      not an array of objects; otherwise one event per complete record, in
      record order. */
  lemma ParseEventsManuallySpec(d: Data, fixedPattern: DateParser, now: Instant)
    ensures ObjectArray(d).None? ==> ParseEventsManually(d, fixedPattern, now) == []
    ensures ObjectArray(d).Some? ==>
      var kept := CompleteRows(ObjectArray(d).value);
      var es := ParseEventsManually(d, fixedPattern, now);
      && |es| == |kept|
      && forall i :: 0 <= i < |kept| ==> ManualEvent(kept[i], fixedPattern, now) == Some(es[i])
  {
    if ObjectArray(d).Some? {
      CompactMapKeepsCompleteRows(ObjectArray(d).value, fixedPattern, now);
    }
  }

  // ------------------------------------------------ decode-failure policies

  /** Nearby and joined events: strict decoding with the custom date
      strategy, or failing that the lenient parser. */
  function EventsOrManual(d: Data, p: DateParsers, now: Instant): seq<Event> {
    match StrictEventList(d, Custom(p))
    case Some(es) => es
    case None => ParseEventsManually(d, p.fixedPattern, now)
  }

  /** A body whose every record decodes strictly yields those records as
      they are; one the strict decoder rejects still yields every complete
      record, and is never an error. */
  lemma EventsOrManualSpec(d: Data, p: DateParsers, now: Instant)
    requires ObjectArray(d).Some?
    ensures var rows := ObjectArray(d).value;
      var es := EventsOrManual(d, p, now);
      (forall i :: 0 <= i < |rows| ==> StrictEvent(rows[i], Custom(p)).Some?)
      ==> |es| == |rows| && forall i :: 0 <= i < |rows| ==> StrictEvent(rows[i], Custom(p)) == Some(es[i])
    ensures var rows := ObjectArray(d).value;
      var es := EventsOrManual(d, p, now);
      (exists i :: 0 <= i < |rows| && StrictEvent(rows[i], Custom(p)).None?)
      ==> |es| == |CompleteRows(rows)|
          && forall i :: 0 <= i < |es| ==> ManualEvent(CompleteRows(rows)[i], p.fixedPattern, now) == Some(es[i])
  {
    ParseEventsManuallySpec(d, p.fixedPattern, now);
  }

  /** `fetchEventPhotos`: a body that fails to decode is no photos. */
  function PhotosOrEmpty(d: Data, p: DateParsers): (r: seq<EventPhoto>)
    ensures StrictPhotoList(d, Custom(p)).None? ==> r == []
    ensures StrictPhotoList(d, Custom(p)).Some? ==> Some(r) == StrictPhotoList(d, Custom(p))
  {
    StrictPhotoList(d, Custom(p)).GetOr([])
  }

  const CreateEventFailed: Failure := Coded("SupabaseService", 1004, "Failed to create event")

  /** `createEvent`'s decoding: a plain `JSONDecoder` (dates as numbers of
      seconds) and the first record; no record, or a body that does not
      decode, is error 1004. */
  function CreatedEvent(d: Data): (r: Result<Event, Failure>)
    ensures r.Failure? ==> r.error == CreateEventFailed
    ensures r.Success? <==> StrictEventList(d, DeferredToDate).Some? && |StrictEventList(d, DeferredToDate).value| > 0
    ensures r.Success? ==> r.value == StrictEventList(d, DeferredToDate).value[0]
  {
    match StrictEventList(d, DeferredToDate)
    case Some(es) => if |es| > 0 then Success(es[0]) else Failure(CreateEventFailed)
    case None => Failure(CreateEventFailed)
  }

  /** Because `createEvent` keeps the default date decoding, a returned
      record whose `start_time` is text (the form the other fetches parse)
      is error 1004 even though the insert went through. */
  lemma CreatedEventRejectsTextDates(d: Data, i: nat)
    requires ObjectArray(d).Some? && i < |ObjectArray(d).value|
    requires EventKey(StartTime) in ObjectArray(d).value[i]
    requires ObjectArray(d).value[i][EventKey(StartTime)].JString?
    ensures CreatedEvent(d) == Failure(CreateEventFailed)
  {
    var rows := ObjectArray(d).value;
    assert !Decodes(rows[i], EventKey(StartTime), EventKind(StartTime), IsOptional(StartTime), DeferredToDate);
    StrictEventAccepts(rows[i], DeferredToDate);
  }

  /** `uploadPhoto`'s decoding of the insert reply: the first decoded photo,
      otherwise (a body that does not decode, or no photo, whose 1005 error
      is caught by the same `catch`) the locally built photo. */
  function InsertedPhoto(d: Data, p: DateParsers, local: EventPhoto): (r: EventPhoto)
    ensures StrictPhotoList(d, Custom(p)).Some? && |StrictPhotoList(d, Custom(p)).value| > 0
            ==> r == StrictPhotoList(d, Custom(p)).value[0]
    ensures StrictPhotoList(d, Custom(p)).None? || StrictPhotoList(d, Custom(p)).value == []
            ==> r == local
  {
    match StrictPhotoList(d, Custom(p))
    case Some(ps) => if |ps| > 0 then ps[0] else local
    case None => local
  }
}
