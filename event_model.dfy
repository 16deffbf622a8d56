/** The records of the events prototype and their wire keys: `Event` and
    `EventParticipant` with their `CodingKeys`, the event `Photo` record and
    the `User` record that the service builds. */
module EventModel {
  import opened Wrappers
  import opened Platform
  import Text

  datatype Event = Event(
    id: string,
    name: string,
    description: Option<string>,
    location: string,
    latitude: real,
    longitude: real,
    startTime: Instant,
    endTime: Instant,
    createdBy: string,
    createdAt: Instant,
    updatedAt: Instant)

  datatype EventField =
    Id | Name | Description | Location | Latitude | Longitude
    | StartTime | EndTime | CreatedBy | CreatedAt | UpdatedAt

  /** The Swift type of a stored property, as far as decoding cares. */
  datatype Kind = Text | Number | Timestamp

  /** Every `Event` property, in declaration order. */
  const EventFields: seq<EventField> :=
    [Id, Name, Description, Location, Latitude, Longitude,
     StartTime, EndTime, CreatedBy, CreatedAt, UpdatedAt]

  /** The Swift property name. */
  function EventPropertyName(f: EventField): string {
    match f
    case Id => "id"
    case Name => "name"
    case Description => "description"
    case Location => "location"
    case Latitude => "latitude"
    case Longitude => "longitude"
    case StartTime => "startTime"
    case EndTime => "endTime"
    case CreatedBy => "createdBy"
    case CreatedAt => "createdAt"
    case UpdatedAt => "updatedAt"
  }

  /** The raw value of the property's case in `Event.CodingKeys`. */
  function EventKey(f: EventField): string {
    match f
    case Id => "id"
    case Name => "name"
    case Description => "description"
    case Location => "location"
    case Latitude => "latitude"
    case Longitude => "longitude"
    case StartTime => "start_time"
    case EndTime => "end_time"
    case CreatedBy => "created_by"
    case CreatedAt => "created_at"
    case UpdatedAt => "updated_at"
  }

  function EventKind(f: EventField): Kind {
    match f
    case Latitude | Longitude => Number
    case StartTime | EndTime | CreatedAt | UpdatedAt => Timestamp
    case _ => Text
  }

  /** Only `description` is declared optional (`String?`). */
  predicate IsOptional(f: EventField) {
    f == Description
  }

  /** The keys the lenient parser demands, in the order of its guard. */
  const ManualRequiredKeys: seq<string> :=
    ["id", "name", "location", "latitude", "longitude",
     "start_time", "end_time", "created_by", "created_at", "updated_at"]

  /** The snake_case spelling of one character. */
  function SnakeChar(c: char): string {
    if 'A' <= c <= 'Z' then ['_', Text.ToLowerAscii(c)] else [c]
  }

  /** Lower-case snake_case of a camelCase name: each upper-case ASCII
      letter becomes `_` and its lower-case form. */
  function SnakeCase(name: string): string {
    if name == [] then [] else SnakeChar(name[0]) + SnakeCase(name[1..])
  }

  lemma {:induction false} SnakeCaseAppend(a: string, b: string)
    ensures SnakeCase(a + b) == SnakeCase(a) + SnakeCase(b)
  {
    if a == [] {
      assert a + b == b;
    } else {
      assert (a + b)[0] == a[0];
      assert (a + b)[1..] == a[1..] + b;
      SnakeCaseAppend(a[1..], b);
    }
  }

  /** Names without upper-case letters are their own snake_case. */
  lemma {:induction false} SnakeCaseOfLower(s: string)
    requires forall i :: 0 <= i < |s| ==> !('A' <= s[i] <= 'Z')
    ensures SnakeCase(s) == s
  {
    if s != [] {
      SnakeCaseOfLower(s[1..]);
      assert s == [s[0]] + s[1..];
    }
  }

  /** `SnakeCase(head + [hump] + tail)` for one capital `hump`. */
  lemma SnakeCaseOneHump(head: string, hump: char, tail: string)
    requires forall i :: 0 <= i < |head| ==> !('A' <= head[i] <= 'Z')
    requires forall i :: 0 <= i < |tail| ==> !('A' <= tail[i] <= 'Z')
    requires 'A' <= hump <= 'Z'
    ensures SnakeCase(head + [hump] + tail) == head + ['_', Text.ToLowerAscii(hump)] + tail
  {
    SnakeCaseAppend(head + [hump], tail);
    SnakeCaseAppend(head, [hump]);
    SnakeCaseOfLower(head);
    SnakeCaseOfLower(tail);
    assert [hump][1..] == [];
    assert SnakeCase([hump]) == SnakeChar(hump);
  }

  /** Every `CodingKeys` raw value is the snake_case of its property name. */
  lemma EventKeysAreSnakeCase(f: EventField)
    ensures EventKey(f) == SnakeCase(EventPropertyName(f))
  {
    if IsTwoWordEventField(f) {
      TwoWordEventKeys(f);
    } else {
      OneWordEventKeys(f);
    }
  }

  predicate IsTwoWordEventField(f: EventField) {
    f.StartTime? || f.EndTime? || f.CreatedBy? || f.CreatedAt? || f.UpdatedAt?
  }

  lemma OneWordEventKeys(f: EventField)
    requires !IsTwoWordEventField(f)
    ensures EventKey(f) == SnakeCase(EventPropertyName(f))
  {
    match f
    case Id => SnakeCaseOfLower("id");
    case Name => SnakeCaseOfLower("name");
    case Description => SnakeCaseOfLower("description");
    case Location => SnakeCaseOfLower("location");
    case Latitude => SnakeCaseOfLower("latitude");
    case Longitude => SnakeCaseOfLower("longitude");
  }

  lemma TwoWordEventKeys(f: EventField)
    requires IsTwoWordEventField(f)
    ensures EventKey(f) == SnakeCase(EventPropertyName(f))
  {
    match f
    case StartTime => StartTimeKey();
    case EndTime => EndTimeKey();
    case CreatedBy => CreatedByKey();
    case CreatedAt => CreatedAtKey();
    case UpdatedAt => UpdatedAtKey();
  }

  lemma StartTimeKey()
    ensures EventKey(StartTime) == SnakeCase(EventPropertyName(StartTime))
  {
    assert "startTime" == "start" + ['T'] + "ime";
    assert Text.ToLowerAscii('T') == 't';
    assert "start_time" == "start" + ['_', 't'] + "ime";
    SnakeCaseOneHump("start", 'T', "ime");
  }

  lemma EndTimeKey()
    ensures EventKey(EndTime) == SnakeCase(EventPropertyName(EndTime))
  {
    assert "endTime" == "end" + ['T'] + "ime";
    assert Text.ToLowerAscii('T') == 't';
    assert "end_time" == "end" + ['_', 't'] + "ime";
    SnakeCaseOneHump("end", 'T', "ime");
  }

  lemma CreatedByKey()
    ensures EventKey(CreatedBy) == SnakeCase(EventPropertyName(CreatedBy))
  {
    assert "createdBy" == "created" + ['B'] + "y";
    assert Text.ToLowerAscii('B') == 'b';
    assert "created_by" == "created" + ['_', 'b'] + "y";
    SnakeCaseOneHump("created", 'B', "y");
  }

  lemma CreatedAtKey()
    ensures EventKey(CreatedAt) == SnakeCase(EventPropertyName(CreatedAt))
  {
    assert "createdAt" == "created" + ['A'] + "t";
    assert Text.ToLowerAscii('A') == 'a';
    assert "created_at" == "created" + ['_', 'a'] + "t";
    SnakeCaseOneHump("created", 'A', "t");
  }

  lemma UpdatedAtKey()
    ensures EventKey(UpdatedAt) == SnakeCase(EventPropertyName(UpdatedAt))
  {
    assert "updatedAt" == "updated" + ['A'] + "t";
    assert Text.ToLowerAscii('A') == 'a';
    assert "updated_at" == "updated" + ['_', 'a'] + "t";
    SnakeCaseOneHump("updated", 'A', "t");
  }

  /** `startTime`, `endTime`, `createdBy`, `createdAt` and `updatedAt` are
      renamed on the wire; every other property keeps its own name. */
  lemma RenamedEventKeys(f: EventField)
    ensures EventKey(f) != EventPropertyName(f)
            <==> f in {StartTime, EndTime, CreatedBy, CreatedAt, UpdatedAt}
  {
  }

  /** No two properties share a wire key. */
  lemma EventKeysInjective(f: EventField, g: EventField)
    ensures EventKey(f) == EventKey(g) ==> f == g
  {
  }

  /** The lenient parser's keys are exactly the keys of the non-optional
      properties. */
  lemma ManualKeysAreTheRequiredKeys(k: string)
    ensures k in ManualRequiredKeys <==> exists f :: !IsOptional(f) && EventKey(f) == k
  {
    RequiredKeysAreManualKeys();
    if k in ManualRequiredKeys {
      ManualKeyIsRequired(k);
    }
  }

  lemma ManualKeyIsRequired(k: string)
    requires k in ManualRequiredKeys
    ensures exists f :: !IsOptional(f) && EventKey(f) == k
  {
    var i :| 0 <= i < |ManualRequiredKeys| && ManualRequiredKeys[i] == k;
    if i == 0 {
      assert EventKey(Id) == k;
    } else if i == 1 {
      assert EventKey(Name) == k;
    } else if i == 2 {
      assert EventKey(Location) == k;
    } else if i == 3 {
      assert EventKey(Latitude) == k;
    } else if i == 4 {
      assert EventKey(Longitude) == k;
    } else if i == 5 {
      assert EventKey(StartTime) == k;
    } else if i == 6 {
      assert EventKey(EndTime) == k;
    } else if i == 7 {
      assert EventKey(CreatedBy) == k;
    } else if i == 8 {
      assert EventKey(CreatedAt) == k;
    } else {
      assert EventKey(UpdatedAt) == k;
    }
  }

  lemma RequiredKeysAreManualKeys()
    ensures forall f :: !IsOptional(f) ==> EventKey(f) in ManualRequiredKeys
  {
    forall f | !IsOptional(f) ensures EventKey(f) in ManualRequiredKeys {
      match f
      case Id => assert ManualRequiredKeys[0] == EventKey(Id);
      case Name => assert ManualRequiredKeys[1] == EventKey(Name);
      case Location => assert ManualRequiredKeys[2] == EventKey(Location);
      case Latitude => assert ManualRequiredKeys[3] == EventKey(Latitude);
      case Longitude => assert ManualRequiredKeys[4] == EventKey(Longitude);
      case StartTime => assert ManualRequiredKeys[5] == EventKey(StartTime);
      case EndTime => assert ManualRequiredKeys[6] == EventKey(EndTime);
      case CreatedBy => assert ManualRequiredKeys[7] == EventKey(CreatedBy);
      case CreatedAt => assert ManualRequiredKeys[8] == EventKey(CreatedAt);
      case UpdatedAt => assert ManualRequiredKeys[9] == EventKey(UpdatedAt);
    }
  }


  datatype EventParticipant = EventParticipant(
    id: string,
    eventId: string,
    userId: string,
    joinedAt: Instant)

  datatype ParticipantField = ParticipantId | EventId | UserId | JoinedAt

  function ParticipantPropertyName(f: ParticipantField): string {
    match f
    case ParticipantId => "id"
    case EventId => "eventId"
    case UserId => "userId"
    case JoinedAt => "joinedAt"
  }

  /** The raw values of `EventParticipant.CodingKeys`. */
  function ParticipantKey(f: ParticipantField): string {
    match f
    case ParticipantId => "id"
    case EventId => "event_id"
    case UserId => "user_id"
    case JoinedAt => "joined_at"
  }

  lemma ParticipantKeysAreSnakeCase(f: ParticipantField)
    ensures ParticipantKey(f) == SnakeCase(ParticipantPropertyName(f))
  {
    match f
    case ParticipantId => SnakeCaseOfLower("id");
    case EventId => EventIdKey();
    case UserId => UserIdKey();
    case JoinedAt => JoinedAtKey();
  }

  lemma EventIdKey()
    ensures ParticipantKey(EventId) == SnakeCase(ParticipantPropertyName(EventId))
  {
    assert "eventId" == "event" + ['I'] + "d";
    assert Text.ToLowerAscii('I') == 'i';
    assert "event_id" == "event" + ['_', 'i'] + "d";
    SnakeCaseOneHump("event", 'I', "d");
  }

  lemma UserIdKey()
    ensures ParticipantKey(UserId) == SnakeCase(ParticipantPropertyName(UserId))
  {
    assert "userId" == "user" + ['I'] + "d";
    assert Text.ToLowerAscii('I') == 'i';
    assert "user_id" == "user" + ['_', 'i'] + "d";
    SnakeCaseOneHump("user", 'I', "d");
  }

  lemma JoinedAtKey()
    ensures ParticipantKey(JoinedAt) == SnakeCase(ParticipantPropertyName(JoinedAt))
  {
    assert "joinedAt" == "joined" + ['A'] + "t";
    assert Text.ToLowerAscii('A') == 'a';
    assert "joined_at" == "joined" + ['_', 'a'] + "t";
    SnakeCaseOneHump("joined", 'A', "t");
  }


  /** The event `Photo` record. Its declaration is not part of this model;
      its fields are those of the initialiser at SupabaseService.swift,
      plus the two client-side fields the view models assign (`imageURL`,
      and `image`, the cached picture), which are not encoded. */
  datatype EventPhoto = EventPhoto(
    id: string,
    eventId: string,
    userId: string,
    storagePath: string,
    caption: Option<string>,
    takenAt: Instant,
    latitude: Option<real>,
    longitude: Option<real>,
    createdAt: Instant,
    imageURL: Option<string>,
    image: Option<Image>)

  /** The encoded properties of the event `Photo`. */
  datatype PhotoField =
    PhotoId | PhotoEventId | PhotoUserId | StoragePath | Caption
    | TakenAt | PhotoLatitude | PhotoLongitude | PhotoCreatedAt

  /** Wire keys of the event `Photo`: the snake_case column names of the
      `photos` table (`taken_at` is the column the photo query orders by). */
  function PhotoKey(f: PhotoField): string {
    match f
    case PhotoId => "id"
    case PhotoEventId => "event_id"
    case PhotoUserId => "user_id"
    case StoragePath => "storage_path"
    case Caption => "caption"
    case TakenAt => "taken_at"
    case PhotoLatitude => "latitude"
    case PhotoLongitude => "longitude"
    case PhotoCreatedAt => "created_at"
  }

  function PhotoKind(f: PhotoField): Kind {
    match f
    case PhotoLatitude | PhotoLongitude => Number
    case TakenAt | PhotoCreatedAt => Timestamp
    case _ => Text
  }

  /** `caption`, `latitude` and `longitude` are the optional properties. */
  predicate PhotoFieldIsOptional(f: PhotoField) {
    f in {Caption, PhotoLatitude, PhotoLongitude}
  }

  lemma PhotoKeysInjective(f: PhotoField, g: PhotoField)
    ensures PhotoKey(f) == PhotoKey(g) ==> f == g
  {
  }

  /** The user record the service returns after signing up or in (the
      initialiser used at SupabaseService.swift and AuthManager.swift). */
  datatype User = User(
    id: string,
    email: string,
    username: Option<string>,
    displayName: Option<string>,
    avatarUrl: Option<string>)
}
