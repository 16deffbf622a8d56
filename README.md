# ClubCam, modelled in Dafny

ClubCam is an iOS app with two prototypes in one code base.

- **The event app.** Users sign in against Supabase, list events near them
  or the events they joined, join an event, upload photos to it, and see
  its photo grid. `SupabaseService` sits between the view models and the
  Supabase SDK. It builds the queries, decodes the replies (strictly, with
  a lenient fallback for events) and builds public photo URLs.
- **The albums prototype.** This is purely local: a mock sign-in, an
  in-memory album list, and the login, sign-up and album-list screens.

The model keeps the app's own structure. Records are datatypes:
`Event`, `EventParticipant`, the event photo, both user records, `Album`
and the album `Photo`. Objects whose fields the app updates are classes:
the service, the three view models, the thumbnail, the two managers and
the views' `@State`. Their methods carry `modifies` clauses.

The Supabase SDK and the network are one `Remote.Backend` object. It has:

- a store of JSON rows per table, plus the uploaded objects;
- the session;
- a log of every request made.

Failures and the replies of calls the model cannot compute (RPC, insert)
are oracles indexed by the position in that log. Queries are answered
from the store the way PostgREST does: every filter must hold, and an
`or` filter holds when one of its conditions does.

Each service method is proved against that backend. Its contract gives:

- the exact requests it sends, in order;
- the new store and session;
- its result in every case: session missing, each call failing, decoding
  failing, success.

The view models are proved against the service's contracts. Beside them
are pure definitions with their own lemmas:

- how keys are named;
- which date formatter wins;
- what the strict and lenient decoders keep;
- what percent-encoding a path does (it round-trips and keeps the
  folder);
- which albums a deletion removes.

Each asynchronous hop is modelled as one atomic step, in program order.

Two behaviours of the code are modelled as written, although a reader
might expect otherwise:

- The lenient event parser turns a timestamp the fixed pattern cannot
  read into the current time (`?? Date()`). It does not drop the record.
- The photo path keeps its `/` separators unescaped, because they are in
  the URL-path allowed set. It does not become `photos%2F…`.

Modules, one per file:

| file | module | models |
|---|---|---|
| wrappers.dfy | Wrappers | `Option`, `Result` |
| platform.dfy | Platform | instants, bytes, images, `NSError`-style failures |
| json.dfy | Json | JSON values, rows, response bodies |
| text.dfy | Text | `firstIndex`, `components(separatedBy:)`, ASCII `localizedCaseInsensitiveContains`, integer formatting |
| seqs.dfy | Seqs | `filter` and subsequences |
| event_model.dfy | EventModel | `Event.swift`, the event photo and user records |
| response_decoding.dfy | ResponseDecoding | date strategies, strict decoding, `parseEventsManually`, the decode-failure policies |
| photo_url.dfy | PhotoUrl | trimming, UTF-8, percent-encoding, `getPhotoURL` |
| backend.dfy | Remote | the Supabase client and server |
| supabase_service.dfy | Supabase | `SupabaseService` |
| events_view_model.dfy | EventsScreen | `EventsViewModel` |
| photos_view_model.dfy | PhotosScreen | `PhotosViewModel` |
| photo_thumbnail.dfy | Thumbnail | `PhotoThumbnailView` |
| auth_view_model.dfy | AuthScreen | `AuthViewModel` |
| album.dfy | Albums | `Album.swift`, `User.swift` |
| album_manager.dfy | AlbumStore | `AlbumManager` |
| albums_list.dfy | AlbumsScreen | `AlbumsListView` |
| auth_manager.dfy | MockAuth | `AuthManager` |
| login_view.dfy | LoginScreen | `LoginView`, `SignUpView` |

## Model

| member | source | states |
|---|---|---|
| EventModel.EventKeysAreSnakeCase | ClubCam/Models/Event.swift:16-28 | Every event property's wire key is the snake_case form of its Swift name. |
| EventModel.RenamedEventKeys | ClubCam/Models/Event.swift:16-28 | Exactly five properties are renamed on the wire: `startTime`, `endTime`, `createdBy`, `createdAt`, `updatedAt`. |
| EventModel.EventKeysInjective | ClubCam/Models/Event.swift:16-28 | No two event properties share a wire key. |
| EventModel.ParticipantKeysAreSnakeCase | ClubCam/Models/Event.swift:37-42 | Every participant key is the snake_case form of its property name. |
| EventModel.ManualKeysAreTheRequiredKeys | ClubCam/Services/SupabaseService.swift:148-161 | The keys the lenient parser demands are exactly the keys of the non-optional `Event` properties. |
| ResponseDecoding.FirstSuccess | ClubCam/Services/SupabaseService.swift:82-111 | The date is some formatter's reading. It is absent exactly when every formatter fails. |
| ResponseDecoding.ParseDate | ClubCam/Services/SupabaseService.swift:82-111 | The custom strategy fails exactly when all three formatters fail. |
| ResponseDecoding.ParseDateIsFirstSuccess | ClubCam/Services/SupabaseService.swift:82-111 | The formatters are tried in a fixed order: the fixed pattern, ISO 8601 with fractional seconds, then plain ISO 8601. |
| ResponseDecoding.DecodeDate | ClubCam/Services/SupabaseService.swift:82-111 | The default strategy reads only numbers. The custom strategy reads only strings, through the formatter chain. |
| ResponseDecoding.StrictEventAccepts | ClubCam/Models/Event.swift:4-28 | `Decodable` accepts an object exactly when every property decodes under its key. A required property must be present with the right type; an optional one may be missing or null. |
| ResponseDecoding.StrictEvents | ClubCam/Services/SupabaseService.swift:113-115 | An array decodes exactly when every element does, giving one event per element. |
| ResponseDecoding.StrictPhotoAccepts | ClubCam/Services/SupabaseService.swift:473-478 | A photo object decodes exactly when every photo property decodes under its key. |
| ResponseDecoding.ManualEventSpec | ClubCam/Services/SupabaseService.swift:142-188 | An object is kept exactly when its required properties are present and well typed. It is then copied field by field: description only when it is a string, and an unreadable date becomes `now`. |
| ResponseDecoding.CompactMapKeepsCompleteRows | ClubCam/Services/SupabaseService.swift:147-187 | `compactMap` yields one event per complete object, in object order. |
| ResponseDecoding.ParseEventsManuallySpec | ClubCam/Services/SupabaseService.swift:142-188 | A body that is not an array of objects gives `[]`. Otherwise the result is one event per complete object, in order. |
| ResponseDecoding.EventsOrManualSpec | ClubCam/Services/SupabaseService.swift:113-134 | If every object decodes strictly, those events are returned as they are. If any fails, every complete object still becomes an event, and no error is raised. |
| ResponseDecoding.PhotosOrEmpty | ClubCam/Services/SupabaseService.swift:473-478 | An undecodable photo body gives no photos, not an error. A decodable one gives exactly the decoded photos. |
| ResponseDecoding.CreatedEvent | ClubCam/Services/SupabaseService.swift:294-300 | The first decoded record, or error 1004 when the reply does not decode or is empty. |
| ResponseDecoding.CreatedEventRejectsTextDates | ClubCam/Services/SupabaseService.swift:296-298 | The default decoder is used, so a returned record whose `start_time` is text gives error 1004. |
| ResponseDecoding.InsertedPhoto | ClubCam/Services/SupabaseService.swift:409-421 | The first photo decoded from the insert reply. Failing that, the locally built photo. |
| Remote.EventRowRoundTrip | ClubCam/Models/Event.swift:16-28 | An event encoded under its `CodingKeys` decodes back to itself whenever its dates round-trip. |
| Remote.PhotoRowRoundTrip | ClubCam/Services/SupabaseService.swift:350-369 | The inserted photo row decodes back to the local photo, minus its URL and image, whenever its dates round-trip. |
| PhotoUrl.TrimStart | ClubCam/Services/SupabaseService.swift:483 | The result is a suffix with only white space or newlines removed, and it does not start with either. |
| PhotoUrl.TrimEnd | ClubCam/Services/SupabaseService.swift:483 | The result is a prefix with only white space or newlines removed, and it does not end with either. |
| PhotoUrl.TrimSpec | ClubCam/Services/SupabaseService.swift:483 | The trimmed path is a slice of the path; everything cut from either end is white space, and the slice neither begins nor ends with it. |
| PhotoUrl.TrimIdempotent | ClubCam/Services/SupabaseService.swift:483 | Trimming twice is trimming once. |
| PhotoUrl.TrimIgnoresPadding | ClubCam/Services/SupabaseService.swift:483 | White space added around a path does not change its trimmed form. |
| PhotoUrl.Utf8RoundTrip | ClubCam/Services/SupabaseService.swift:496-498 | Decoding the UTF-8 bytes of a string gives back the string. |
| PhotoUrl.PercentEncodeRoundTrip | ClubCam/Services/SupabaseService.swift:496-498 | Percent-decoding the encoded path gives back the path. |
| PhotoUrl.PercentEncodeInjective | ClubCam/Services/SupabaseService.swift:496-498 | Two different paths never encode to the same text. |
| PhotoUrl.PercentEncodeLength | ClubCam/Services/SupabaseService.swift:496-498 | Encoding never shortens a path. It keeps the length exactly when every character is allowed, and then leaves the path as it is. |
| PhotoUrl.PhotosFolderKept | ClubCam/Services/SupabaseService.swift:496-498 | A path starts with `photos/` exactly when its encoding does. |
| PhotoUrl.GetPhotoURL | ClubCam/Services/SupabaseService.swift:481-509 | Error 1006 exactly when no base URL is configured. A returned URL is always one `URL(string:)` accepts. |
| PhotoUrl.GetPhotoURLSpec | ClubCam/Services/SupabaseService.swift:481-509 | The URL is base + `/storage/v1/object/public/event-photos/` + the encoded trimmed path, and error 1007 exactly when that is not a valid URL. Decoding what follows the prefix gives the trimmed path back. |
| PhotoUrl.GetPhotoURLKeepsFolder | ClubCam/Services/SupabaseService.swift:481-509 | The URL has `photos/` right after the prefix exactly when the trimmed path starts with it. |
| PhotoUrl.GetPhotoURLIgnoresPadding | ClubCam/Services/SupabaseService.swift:483 | White space around a stored path does not change the URL or the error. |
| PhotoUrl.SameTrimSameUrl | ClubCam/Services/SupabaseService.swift:483-505 | Two paths with the same trimmed form get the same URL or the same error. |
| PhotoUrl.StoragePathEncodedVerbatim | ClubCam/Services/SupabaseService.swift:332-333 | With event ids and file names of allowed characters, the storage path appears in the URL unchanged. |
| Supabase.EventIds | ClubCam/Services/SupabaseService.swift:214 | One id per participant row that has a string `event_id`, so never more ids than rows. |
| Supabase.JoinedEventIds | ClubCam/Services/SupabaseService.swift:199-214 | An id is collected exactly when some stored participant row pairs the user with that `event_id`. |
| Supabase.BuildEventsQuery | ClubCam/Services/SupabaseService.swift:224-235 | The loop builds `eq(id, first)` followed by one `or` per further id, as the code writes it. |
| Supabase.AsWrittenEventsQuerySelects | ClubCam/Services/SupabaseService.swift:224-235 | A row passes the query as written only if its id equals the first id and also one of the later ids. |
| Supabase.AsWrittenEventsQueryMissesJoinedEvents | ClubCam/Services/SupabaseService.swift:224-235 | A user has joined two different events, yet the query as written returns nothing. |
| Supabase.AsWrittenEventsQueryExample | ClubCam/Services/SupabaseService.swift:224-235 | Events `A` and `B` are both stored, yet the query for `["A", "B"]` answers `[]`. |
| Supabase.IntendedEventsQuerySelects | ClubCam/Services/SupabaseService.swift:224-235 | The single `or` query passes a row exactly when its id is one of the joined ids. |
| Supabase.IntendedEventsQueryFindsJoined | ClubCam/Services/SupabaseService.swift:224-235 | If any stored event has a joined id, the single `or` query returns something. |
| Supabase.JoinedFromBody | ClubCam/Services/SupabaseService.swift:525-529 | A body that is not JSON is an error. Otherwise the answer is whether the array is non-empty. |
| Supabase.JoinedQuerySelects | ClubCam/Services/SupabaseService.swift:517-522 | The membership query passes a row exactly when it pairs this event with this user. |
| Supabase.JoinedFromRows | ClubCam/Services/SupabaseService.swift:511-530 | A membership reply read from the store is true exactly when a stored row pairs the event with the user. |
| Supabase.JoinedAfterInsert | ClubCam/Services/SupabaseService.swift:303-319 | After the participant row is inserted, `hasUserJoinedEvent` answers true. |
| Supabase.RejoinDuplicates | ClubCam/Services/SupabaseService.swift:303-319 | `joinEvent` does not check first, so a second join stores a second row for the same pair. |
| Supabase.PhotoStoragePathSegments | ClubCam/Services/SupabaseService.swift:332-333 | The storage path is exactly the segments `photos`, the event id, and the file name with `.jpg`. |
| Supabase.SupabaseService.SignUp | ClubCam/Services/SupabaseService.swift:24-40 | One sign-up request and the store unchanged. On failure, that error. Otherwise the new account is both the session and the returned user. |
| Supabase.SupabaseService.SignIn | ClubCam/Services/SupabaseService.swift:42-58 | One sign-in request and the store unchanged. On failure, that error. Otherwise the account is both the session and the returned user. |
| Supabase.SupabaseService.SignOut | ClubCam/Services/SupabaseService.swift:60-62 | One request. Success clears the session; failure leaves it. |
| Supabase.SupabaseService.FetchNearbyEvents | ClubCam/Services/SupabaseService.swift:66-139 | Exactly one RPC, `nearby_events` at radius 5000. It returns the RPC's error, or the events decoded from its reply (strict, else lenient). Nothing is stored. |
| Supabase.SupabaseService.FetchUserEvents | ClubCam/Services/SupabaseService.swift:190-286 | With no session, the session error and no request. Otherwise the participants query, and an error there ends it; with no joined id, `[]` and no second query. Otherwise the events query as the code builds it (`eq` on the first id, then one `or` per further id), its answer decoded strict-else-lenient. |
| Supabase.JoinedTwoEventsFetchesNone | ClubCam/Services/SupabaseService.swift:224-245 | With two different joined ids, the events query as written answers no event at all, whatever is stored. |
| Supabase.SupabaseService.CreateEvent | ClubCam/Services/SupabaseService.swift:288-301 | One insert of the encoded event. The row is stored whenever the insert succeeds, even when the reply then gives error 1004. |
| Supabase.SupabaseService.JoinEvent | ClubCam/Services/SupabaseService.swift:303-319 | With no session, an error and no request. Otherwise one insert of the participant row for the session's user, stored exactly when the insert succeeds. |
| Supabase.SupabaseService.HasUserJoinedEvent | ClubCam/Services/SupabaseService.swift:511-530 | With no session, an error. Otherwise one query, and the answer is whether a stored row pairs the event with the session user. |
| Supabase.SupabaseService.UploadPhoto | ClubCam/Services/SupabaseService.swift:323-426 | No JPEG: error 1003 and no request. No session: the session error. A failed upload sends no insert. After a successful upload the blob stays even if the insert fails. The result is the decoded photo or the local one. |
| Supabase.SupabaseService.FetchEventPhotos | ClubCam/Services/SupabaseService.swift:428-479 | One query for the event's photos. Its error, or the stored photos decoded; an undecodable body gives none. |
| EventsScreen.FilterEventsSpec | ClubCam/ViewModels/EventsViewModel.swift:111-123 | Empty search text shows the whole list. Otherwise the list keeps, in order, exactly the events whose name, description or location contains the text, each as many times as it occurs in the list. |
| EventsScreen.EventsViewModel.FetchEvents | ClubCam/ViewModels/EventsViewModel.swift:58-94 | Loading is set and the message cleared before the call, and loading is over after it. User mode replies with what the service's user-events fetch answers from the backend as it was, with its exact requests; nearby mode makes one RPC at the current location and replies with its decoded answer; with no location, the location message, no reply and no request. Only the current mode's list changes, and only on success. An error becomes the message. |
| EventsScreen.EventsViewModel.JoinEvent | ClubCam/ViewModels/EventsViewModel.swift:96-109 | The membership check comes first; its error, or an existing membership (error 1001), ends it with no insert and the screen unchanged. Otherwise the insert: its error ends it with exactly the check and the insert sent. After a successful insert the refetch runs from the store holding the new row, with the outcome `FetchEvents` states. |
| EventsScreen.EventsViewModel.UseDefaultLocationIfNeeded | ClubCam/ViewModels/EventsViewModel.swift:49-56 | With no location, San Francisco and a fetch, with the whole outcome `FetchEvents` states from that location: the user-events requests or the one RPC, which list changes and the message. With a location, nothing changes, so a second call does nothing. |
| EventsScreen.NearbyRefreshShowsRpcAnswer | ClubCam/ViewModels/EventsViewModel.swift:72-91 | After a nearby-mode fetch, the list is exactly the decoded RPC answer and the message is cleared when the RPC succeeds; when it fails the list is kept and the message is its error. The joined list is untouched. |
| PhotosScreen.WithUrlsSpec | ClubCam/ViewModels/PhotosViewModel.swift:26-37 | Exactly the photos whose URL resolves are kept, in fetched order, each carrying that URL. |
| PhotosScreen.WithUrlsKeepsAll | ClubCam/ViewModels/PhotosViewModel.swift:26-37 | When every URL resolves, no photo is dropped. |
| PhotosScreen.PhotosViewModel.AttachUrls | ClubCam/ViewModels/PhotosViewModel.swift:26-37 | The loop yields exactly the photos with a resolvable URL, each with that URL. |
| PhotosScreen.PhotosViewModel.FetchPhotos | ClubCam/ViewModels/PhotosViewModel.swift:12-52 | One photos query. On success the list becomes the photos with resolvable URLs; on failure the list is kept and the message set. |
| PhotosScreen.PhotosViewModel.UploadPhoto | ClubCam/ViewModels/PhotosViewModel.swift:54-81 | On success the new photo, with its URL and image, goes in front of the unchanged list; the upload and the insert were both sent and the blob is stored. An upload or URL error keeps the list and sets the prefixed message. |
| Thumbnail.GetDirectPhotoURL | ClubCam/Views/Events/PhotoThumbnailView.swift:136-162 | Error 1006 exactly when no base URL is configured. A returned URL is always valid. |
| Thumbnail.DirectUrlAgreesWithService | ClubCam/Views/Events/PhotoThumbnailView.swift:136-162 | It agrees with the service's builder: same URL, and the same code and message on failure. Only the error domain differs. |
| Thumbnail.ValidateResponse | ClubCam/Views/Events/PhotoThumbnailView.swift:101-129 | An image is produced exactly when there is no transport error, status 200, non-empty data and decodable bytes. |
| Thumbnail.FirstFailingCheckWins | ClubCam/Views/Events/PhotoThumbnailView.swift:101-129 | The first failing check names the error: transport error, invalid response, `HTTP Error: <status>`, empty data, invalid image data. |
| Thumbnail.PhotoThumbnail.LoadImageFromURL | ClubCam/Views/Events/PhotoThumbnailView.swift:91-134 | One request to that URL. The image is set on success; otherwise the error is set and the image kept. |
| Thumbnail.PhotoThumbnail.LoadImage | ClubCam/Views/Events/PhotoThumbnailView.swift:61-89 | Nothing once an image is shown. A photo without a URL, or any photo after a retry, uses the URL built from the storage path; otherwise the stored URL. A URL that cannot be built only sets the message. |
| Thumbnail.PhotoThumbnail.RetryTapped | ClubCam/Views/Events/PhotoThumbnailView.swift:43-46 | The retry count goes up first, so the reload always uses the URL built from the storage path. |
| AuthScreen.AuthViewModel.SignIn | ClubCam/ViewModels/AuthViewModel.swift:24-43 | The flags are set before the call. A returned user becomes the current user and the session; an error leaves the user and sets the message. Signed-in stays equivalent to having a user. |
| AuthScreen.AuthViewModel.SignUp | ClubCam/ViewModels/AuthViewModel.swift:45-64 | The same transitions as sign-in, for a new account. |
| AuthScreen.AuthViewModel.SignOut | ClubCam/ViewModels/AuthViewModel.swift:66-84 | Success clears the user and the session and keeps an earlier message. An error keeps the user and sets the message. |
| Albums.Album.CoverImage | ClubCam/Models/Album.swift:15-17 | Nothing exactly when there are no photos; otherwise the first photo's image. |
| Albums.WithPhotoCoverAndCount | ClubCam/Models/Album.swift:15-22 | Adding a photo counts one more. It keeps an existing cover and becomes the cover of an empty album. |
| Albums.UsernameSpec | ClubCam/Models/User.swift:19-21 | The display name if there is one. Otherwise the email before its first `@`, or the whole email when it has none, and so always a prefix of the email. |
| Albums.UsernameOfEmptyEmail | ClubCam/Models/User.swift:19-21 | With no display name and an empty email, the username is empty, not `User`. |
| Albums.UsernameIsLocalPart | ClubCam/Models/User.swift:19-21 | Without a display name, the email `local@domain` gives the username `local`, which has no `@`, whatever the domain holds. |
| AlbumStore.FindAlbum | ClubCam/Managers/AlbumManager.swift:47-49 | The first album with the id, or nothing exactly when no album has it. |
| AlbumStore.WithoutAlbumSpec | ClubCam/Managers/AlbumManager.swift:37-39 | Removal keeps, in order, exactly the albums with another id, each as many times as before. An unknown id changes nothing. |
| AlbumStore.AddedPhotoSpec | ClubCam/Managers/AlbumManager.swift:41-45 | Only the first album with the id gains the photo, at its end. Every other album and the order are kept, and an unknown id changes nothing. |
| AlbumStore.CreatedAlbumIsFound | ClubCam/Managers/AlbumManager.swift:31-35 | A created album with a fresh id is what `getAlbum` finds for that id. |
| AlbumStore.AlbumManager.constructor | ClubCam/Managers/AlbumManager.swift:19-29 | Starts with the three empty sample albums, in order: Beach Day, Birthday Party, Hiking Trip. Each gets its own id and its own creation instant. |
| AlbumStore.AlbumManager.CreateAlbum | ClubCam/Managers/AlbumManager.swift:31-35 | A new empty album with the name goes at the end and is returned. |
| AlbumStore.AlbumManager.DeleteAlbum | ClubCam/Managers/AlbumManager.swift:37-39 | Every album with the id is removed; see `WithoutAlbumSpec`. |
| AlbumStore.AlbumManager.AddPhoto | ClubCam/Managers/AlbumManager.swift:41-45 | The photo goes to the first album with the id; see `AddedPhotoSpec`. |
| AlbumsScreen.AsWrittenSingleOffset | ClubCam/Views/AlbumsListView.swift:95-100 | A single swiped row within the list removes exactly that album. |
| AlbumsScreen.AsWrittenDeletesShiftedAlbum | ClubCam/Views/AlbumsListView.swift:95-100 | Swiping rows 0 and 1 of three albums removes the first and the third. |
| AlbumsScreen.AsWrittenTrapsOnShrunkList | ClubCam/Views/AlbumsListView.swift:95-100 | Swiping rows 1 and 2 of three albums traps: after the first deletion, row 2 is past the end of the list. |
| AlbumsScreen.IntendedDeletesListedAlbums | ClubCam/Views/AlbumsListView.swift:95-100 | With the ids read first, rows 0 and 1 remove the first two albums. |
| AlbumsScreen.IntendedDeletionSpec | ClubCam/Views/AlbumsListView.swift:95-100 | Exactly the albums at the offsets are removed, and the rest keep their order. |
| AlbumsScreen.AlbumsListView.AddTapped | ClubCam/Views/AlbumsListView.swift:50 | The plus button opens the sheet. |
| AlbumsScreen.AlbumsListView.CreateTapped | ClubCam/Views/AlbumsListView.swift:69-93 | An empty name does nothing. Otherwise one album with that name is added at the end, the name is cleared and the sheet closed. |
| AlbumsScreen.AlbumsListView.CancelTapped | ClubCam/Views/AlbumsListView.swift:80-83 | Closes the sheet and clears the name, without creating an album. |
| AlbumsScreen.AlbumsListView.DeleteAlbumsAsWritten | ClubCam/Views/AlbumsListView.swift:95-100 | The loop as written: each offset is read in the list the earlier deletions have already shrunk. It traps exactly when an offset is past the end of that list, and otherwise leaves the list the as-written deletion gives. |
| AlbumsScreen.AlbumsListView.DeleteAlbums | ClubCam/Views/AlbumsListView.swift:95-100 | The loop with every id read before the first deletion removes exactly the listed albums. |
| MockAuth.AttemptSpec | ClubCam/Managers/AuthManager.swift:16-45 | An accepted attempt signs in a user with that email, the username before its first `@`, and no display name or avatar. A refused attempt changes nothing. Consistency is kept. |
| MockAuth.AttemptSucceedsIff | ClubCam/Managers/AuthManager.swift:18 | From signed-out, an attempt signs in exactly when the email has an `@` and the password has at least six characters. |
| MockAuth.AuthManager.constructor | ClubCam/Managers/AuthManager.swift:12-13 | Starts signed out and consistent. |
| MockAuth.AuthManager.SignIn | ClubCam/Managers/AuthManager.swift:16-30 | The state after the attempt; see `AttemptSpec`. |
| MockAuth.AuthManager.SignUp | ClubCam/Managers/AuthManager.swift:32-45 | The same rule and state as sign-in. |
| MockAuth.AuthManager.SignOut | ClubCam/Managers/AuthManager.swift:47-50 | Signed out from any state, so a second sign-out changes nothing. |
| LoginScreen.LoginCheck | ClubCam/Views/LoginView.swift:74-77 | Login may proceed exactly when both fields are filled in; otherwise the missing-credentials message. |
| LoginScreen.SignUpCheck | ClubCam/Views/LoginView.swift:144-153 | Sign-up may proceed exactly when both fields are filled in and the passwords match. |
| LoginScreen.SignUpCheckOrder | ClubCam/Views/LoginView.swift:144-153 | An empty field is reported even if the passwords also differ. |
| LoginScreen.LoginView.Login | ClubCam/Views/LoginView.swift:72-85 | It delegates exactly when the check passes. A reported failure sets the invalid-credentials message. |
| LoginScreen.LoginView.ShowSignUp | ClubCam/Views/LoginView.swift:57 | Opens the sign-up sheet and changes nothing else. |
| LoginScreen.SignUpView.SignUp | ClubCam/Views/LoginView.swift:144-163 | It delegates exactly when the checks pass. Success dismisses the sheet; failure sets the sign-up-failed message. |

## Left out

- The Supabase SDK, PostgREST and the network are one backend object. It gives failures and the replies of RPC and insert calls as oracles indexed by log position. Queries are answered from a store of JSON rows.
- `order(by:)` clauses are recorded but not applied. The model does not state the order of an answer beyond store order.
- The nearby-events RPC is not evaluated; what it returns is an oracle. The server function is not part of this model.
- The three `DateFormatter`s are parameters. So are the JSON form the SDK's encoder gives a `Date`, `jpegData`, `UIImage(data:)` and `URL(string:)`.
- `UUID()` and `Date()` are parameters: ids, file names and `now`.
- `CharacterSet.urlPathAllowed` is written out as letters, digits and `-._~!$&'()*+,=:@/`. Every other character, including all non-ASCII ones, is percent-encoded as UTF-8.
- The 1008 branch of `getPhotoURL` (percent-encoding returning nil) cannot happen: model characters are Unicode scalars, which always encode.
- Case-insensitive search folds ASCII letters only. There is no locale-aware case folding.
- `password.count` counts grapheme clusters in Swift; the model counts scalars.
- LoginScreen.SignUpCheck: compares the password and its confirmation Unicode scalar by scalar, not up to canonical equivalence as Swift's `String` `!=` does, so `"é"` and `"e"` followed by U+0301 count as different. There is no Unicode normalisation in the model.
- Concurrency is not modelled. Each `await` completes before the next step, in program order, and `@MainActor` interleavings are not explored.
- The location manager, camera, map and export views are not modelled. The current location is a field that callers set.
- The location and metadata of album photos are not modelled.
- The album list's `IndexSet` is a sequence of offsets. The model allows any order, so ascending `IndexSet` order is one of the cases covered.
- `LoginView` and `SignUpView` call `login` and `signUp` with a completion, which `AuthManager` does not declare. Their outcome is a parameter.
- The thumbnail's `onAppear` is `LoadImage`; the view body's choice of which image to draw is not modelled.
- The "No URL" branch of `loadImage` (PhotoThumbnailView.swift:82-86) cannot be reached: a photo without a URL always takes the direct-URL branch first. The model has no such branch.
- Albums.Album.PhotoCount: has no contract of its own; `WithPhotoCoverAndCount` states how it changes.
- AlbumStore.AlbumManager.GetAlbum: has no contract of its own; `FindAlbum` states what it returns.
- Debug views, `TestDataGenerator` and the camera view model are not part of this model.

## Findings

| source | as written | input that shows it | evidently intended | confidence | as-written member | corrected member |
|---|---|---|---|---|---|---|
| ClubCam/Services/SupabaseService.swift:224-235 | The events query is `eq("id", first)`, then one `or("id.eq.<id>")` per further id. PostgREST ANDs all filters, so a row must have the first id and also a later one. | Joined ids `["A", "B"]`, with events `A` and `B` stored: the query answers `[]`. | One `or` over all joined ids, so every joined event is returned. | not executed | Supabase.AsWrittenEventsQueryMissesJoinedEvents | Supabase.IntendedEventsQueryFindsJoined |
| ClubCam/Views/AlbumsListView.swift:95-100 | `deleteAlbums(at:)` reads `albums[index]` after earlier deletions have shifted the list. | Albums `[a, b, c]` with offsets `{0, 1}`: the result is `[b]`, not `[c]`. | Read every id first, then delete those albums. | not executed | AlbumsScreen.AsWrittenDeletesShiftedAlbum | AlbumsScreen.IntendedDeletionSpec |
| ClubCam/Views/AlbumsListView.swift:97 | `albums[index]` is read after earlier deletions have shrunk the list, so a later offset can be past its end, and the subscript traps. | Albums `[a, b, c]` with offsets `{1, 2}`: after `b` is deleted, `albums[2]` is out of range. | Read every id first, then delete those albums; no offset is then out of range. | not executed | AlbumsScreen.AsWrittenTrapsOnShrunkList | AlbumsScreen.AlbumsListView.DeleteAlbums |
