/** `PhotosViewModel`: the photo grid of one event. A fetch replaces the
    list with the photos whose public URL resolves; an upload puts the new
    photo first. Each asynchronous hop completes atomically, in program
    order. */
module PhotosScreen {
  import opened Wrappers
  import opened Platform
  import opened Json
  import opened ResponseDecoding
  import opened Seqs
  import opened EventModel
  import opened PhotoUrl
  import opened Remote
  import opened Supabase

  /** What turns a storage path into a public URL; the app's is
      `UrlResolver(env)`. */
  type Resolver = string -> Result<string, Failure>

  /** `SupabaseService.getPhotoURL(path:)` in the given environment. */
  function UrlResolver(env: Environment): Resolver {
    path => GetPhotoURL(env, path)
  }

  /** The photo's storage path has a public URL. */
  predicate Resolves(resolve: Resolver, p: EventPhoto) {
    resolve(p.storagePath).Success?
  }

  /** The photo with its resolved URL filled in. */
  function WithUrl(resolve: Resolver, p: EventPhoto): (q: EventPhoto)
    requires Resolves(resolve, p)
    ensures q.imageURL == Some(resolve(p.storagePath).value)
    ensures q.(imageURL := p.imageURL) == p
  {
    p.(imageURL := Some(resolve(p.storagePath).value))
  }

  /** The photos kept by a fetch, in their order, each with its URL. */
  function WithUrls(resolve: Resolver, photos: seq<EventPhoto>): (r: seq<EventPhoto>)
    ensures |r| <= |photos|
  {
    if photos == [] then []
    else
      var rest := WithUrls(resolve, photos[1..]);
      if Resolves(resolve, photos[0]) then [WithUrl(resolve, photos[0])] + rest else rest
  }

  lemma {:induction false} WithUrlsAppend(resolve: Resolver, photos: seq<EventPhoto>, p: EventPhoto)
    ensures WithUrls(resolve, photos + [p])
            == WithUrls(resolve, photos) + (if Resolves(resolve, p) then [WithUrl(resolve, p)] else [])
  {
    if photos == [] {
      assert [p][1..] == [];
    } else {
      assert (photos + [p])[1..] == photos[1..] + [p];
      WithUrlsAppend(resolve, photos[1..], p);
    }
  }

  /** The kept photos are exactly those whose URL resolves, in fetched
      order, each carrying that URL: `WithUrls` is `WithUrl` over the
      filter of the fetched list. */
  lemma {:induction false} WithUrlsSpec(resolve: Resolver, photos: seq<EventPhoto>)
    ensures var kept := Seqs.Filter((p: EventPhoto) => Resolves(resolve, p), photos);
      && (forall i :: 0 <= i < |kept| ==> Resolves(resolve, kept[i]))
      && |WithUrls(resolve, photos)| == |kept|
      && forall i :: 0 <= i < |kept| ==> WithUrls(resolve, photos)[i] == WithUrl(resolve, kept[i])
  {
    if photos != [] {
      var keep := (p: EventPhoto) => Resolves(resolve, p);
      FilterMembers(keep, photos);
      WithUrlsSpec(resolve, photos[1..]);
      var rest := WithUrls(resolve, photos[1..]);
      var keptRest := Seqs.Filter(keep, photos[1..]);
      if Resolves(resolve, photos[0]) {
        assert WithUrls(resolve, photos) == [WithUrl(resolve, photos[0])] + rest;
        assert Seqs.Filter(keep, photos) == [photos[0]] + keptRest;
      } else {
        assert WithUrls(resolve, photos) == rest;
        assert Seqs.Filter(keep, photos) == keptRest;
      }
    }
  }

  /** When every URL resolves, nothing is dropped. */
  lemma {:induction false} WithUrlsKeepsAll(resolve: Resolver, photos: seq<EventPhoto>)
    requires forall i :: 0 <= i < |photos| ==> Resolves(resolve, photos[i])
    ensures |WithUrls(resolve, photos)| == |photos|
  {
    if photos != [] {
      WithUrlsKeepsAll(resolve, photos[1..]);
    }
  }

  const UploadFailedPrefix: string := "Failed to upload photo: "

  class PhotosViewModel {
    var eventPhotos: seq<EventPhoto>
    var isLoading: bool
    var errorMessage: Option<string>
    const service: SupabaseService

    constructor(service: SupabaseService)
      ensures this.service == service
      ensures eventPhotos == [] && !isLoading && errorMessage == None
    {
      this.service := service;
      eventPhotos := [];
      isLoading := false;
      errorMessage := None;
    }

    /** `fetchPhotos(for:)`: on success the list becomes the fetched photos
        whose URL resolves, each with that URL; on failure the message is
        set and the list kept. `reply` is the service's answer. */
    method FetchPhotos(eventId: string) returns (reply: Result<seq<EventPhoto>, Failure>, ghost atCall: (bool, Option<string>))
      modifies this, service.backend
      ensures atCall == (true, None)
      ensures !isLoading
      ensures var req := SelectCall(PhotosQuery(eventId)); var n := |old(service.backend.log)|;
        && service.backend.log == old(service.backend.log) + [req]
        && service.backend.store == old(service.backend.store)
        && reply == match service.backend.faults(n, req)
                    case Some(e) => Failure(e)
                    case None => Success(PhotosOrEmpty(RowsDoc(Answer(old(service.backend.store).photos, req.query)), service.parsers))
      ensures reply.Success? ==> eventPhotos == WithUrls(UrlResolver(service.env), reply.value) && errorMessage == None
      ensures reply.Failure? ==> eventPhotos == old(eventPhotos) && errorMessage == Some(reply.error.Description())
    {
      isLoading := true;
      errorMessage := None;
      atCall := (isLoading, errorMessage);
      reply := service.FetchEventPhotos(eventId);
      if reply.Failure? {
        errorMessage := Some(reply.error.Description());
        isLoading := false;
        return;
      }
      var photosWithURLs := AttachUrls(reply.value);
      eventPhotos := photosWithURLs;
      isLoading := false;
    }

    /** The loop of `fetchPhotos(for:)`: each photo whose URL resolves gets
        it and is kept, the others are skipped. */
    method AttachUrls(photos: seq<EventPhoto>) returns (photosWithURLs: seq<EventPhoto>)
      ensures photosWithURLs == WithUrls(UrlResolver(service.env), photos)
    {
      ghost var resolve := UrlResolver(service.env);
      photosWithURLs := [];
      for i := 0 to |photos|
        invariant photosWithURLs == WithUrls(resolve, photos[..i])
      {
        var photo := photos[i];
        WithUrlsAppend(resolve, photos[..i], photo);
        assert photos[..i + 1] == photos[..i] + [photo];
        var url := GetPhotoURL(service.env, photo.storagePath);
        assert url == resolve(photo.storagePath);
        if url.Success? {
          photo := photo.(imageURL := Some(url.value));
          photosWithURLs := photosWithURLs + [photo];
        }
      }
      assert photos[..|photos|] == photos;
    }

    /** `uploadPhoto(eventId:image:)`: on success the uploaded photo, with
        its URL and the image it came from, goes in front of the unchanged
        list; an upload or URL error leaves the list and reports itself
        after the fixed prefix. */
    method UploadPhoto(eventId: string, image: Image, fileUuid: string, photoId: string, now: Instant)
      returns (reply: Result<EventPhoto, Failure>, ghost atCall: (bool, Option<string>))
      modifies this, service.backend
      ensures atCall == (true, None)
      ensures !isLoading
      ensures reply.Failure? ==>
        && eventPhotos == old(eventPhotos)
        && errorMessage == Some(UploadFailedPrefix + reply.error.Description())
      ensures reply.Success? ==>
        var url := GetPhotoURL(service.env, reply.value.storagePath);
        && (url.Success? ==>
              && eventPhotos == [reply.value.(imageURL := Some(url.value), image := Some(image))] + old(eventPhotos)
              && errorMessage == None)
        && (url.Failure? ==>
              && eventPhotos == old(eventPhotos)
              && errorMessage == Some(UploadFailedPrefix + url.error.Description()))
      ensures reply.Success? ==>
        var path := PhotoStoragePath(eventId, fileUuid);
        var n := |old(service.backend.log)|;
        && old(service.backend.session).Some? && service.jpegData(image).Some?
        && |service.backend.log| == n + 2
        && service.backend.log[n] == UploadCall(PhotoBucket, path, service.jpegData(image).value)
        && service.backend.log[n + 1].InsertCall? && service.backend.log[n + 1].table == Photos
        && path in service.backend.store.objects
    {
      isLoading := true;
      errorMessage := None;
      atCall := (isLoading, errorMessage);
      reply := service.UploadPhoto(eventId, image, fileUuid, photoId, now);
      if reply.Failure? {
        errorMessage := Some(UploadFailedPrefix + reply.error.Description());
        isLoading := false;
        return;
      }
      var photo := reply.value;
      var url := GetPhotoURL(service.env, photo.storagePath);
      if url.Failure? {
        errorMessage := Some(UploadFailedPrefix + url.error.Description());
        isLoading := false;
        return;
      }
      photo := photo.(imageURL := Some(url.value), image := Some(image));
      eventPhotos := [photo] + eventPhotos;
      isLoading := false;
    }
  }
}
