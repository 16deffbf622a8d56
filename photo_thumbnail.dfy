/** `PhotoThumbnailView`: the state of one thumbnail. It decides which URL
    to load, checks the download reply in a fixed order, and counts retry
    taps. The download is an oracle indexed by the number of requests made
    so far; each asynchronous hop completes atomically, in program order. */
module Thumbnail {
  import opened Wrappers
  import opened Platform
  import opened Text
  import opened EventModel
  import opened PhotoUrl

  /** The thumbnail's own copy of the photo URL builder, whose errors carry
      the domain "PhotoThumbnail". */
  function GetDirectPhotoURL(env: Environment, path: string): (r: Result<string, Failure>)
    ensures env.supabaseUrl.None? <==> r == Failure(MissingBaseUrl("PhotoThumbnail"))
    ensures r.Success? ==> env.supabaseUrl.Some? && env.isValidUrl(r.value)
  {
    match env.supabaseUrl
    case None => Failure(MissingBaseUrl("PhotoThumbnail"))
    case Some(supabaseUrl) =>
      var cleanPath := Trim(path);
      var urlString := supabaseUrl + PublicObjectPrefix + PercentEncode(cleanPath);
      if env.isValidUrl(urlString) then Success(urlString)
      else Failure(InvalidUrlFormat("PhotoThumbnail"))
  }

  /** Both builders give the same URL, and fail in the same cases with the
      same code and message; only the error domain differs. */
  lemma DirectUrlAgreesWithService(env: Environment, path: string)
    ensures GetDirectPhotoURL(env, path).Success? <==> GetPhotoURL(env, path).Success?
    ensures GetDirectPhotoURL(env, path).Success? ==> GetDirectPhotoURL(env, path).value == GetPhotoURL(env, path).value
    ensures GetDirectPhotoURL(env, path).Failure? ==>
      match (GetDirectPhotoURL(env, path).error, GetPhotoURL(env, path).error)
      case (Coded(d1, c1, m1), Coded(d2, c2, m2)) =>
        d1 == "PhotoThumbnail" && d2 == "SupabaseService" && c1 == c2 && m1 == m2
      case _ => false
  {
    GetPhotoURLSpec(env, path);
  }

  /** What `URLSession` hands back: a transport error, the HTTP status when
      the response is an HTTP response at all, and the body. */
  datatype Response = Response(error: Option<Failure>, httpStatus: Option<int>, data: Option<Bytes>)

  /** The download checks, in their order: transport error, not HTTP,
      status other than 200, no or empty data, bytes that are no image. */
  function ValidateResponse(resp: Response, decodeImage: Bytes -> Option<Image>): (r: Result<Image, string>)
    ensures r.Success? <==>
      && resp.error.None? && resp.httpStatus == Some(200)
      && resp.data.Some? && resp.data.value != [] && decodeImage(resp.data.value).Some?
    ensures r.Success? ==> r.value == decodeImage(resp.data.value).value
  {
    if resp.error.Some? then Failure(resp.error.value.Description())
    else if resp.httpStatus.None? then Failure("Invalid response")
    else if resp.httpStatus.value != 200 then Failure("HTTP Error: " + IntToString(resp.httpStatus.value))
    else if resp.data.None? || resp.data.value == [] then Failure("Empty data")
    else if decodeImage(resp.data.value).None? then Failure("Invalid image data")
    else Success(decodeImage(resp.data.value).value)
  }

  /** The first failing check names the error, whatever the later ones
      would say: a transport error hides the status, a bad status hides
      the body, an empty body hides the decoder. */
  lemma FirstFailingCheckWins(resp: Response, decodeImage: Bytes -> Option<Image>)
    ensures resp.error.Some? ==> ValidateResponse(resp, decodeImage) == Failure(resp.error.value.Description())
    ensures resp.error.None? && resp.httpStatus.None? ==> ValidateResponse(resp, decodeImage) == Failure("Invalid response")
    ensures resp.error.None? && resp.httpStatus.Some? && resp.httpStatus.value != 200 ==>
      var m := ValidateResponse(resp, decodeImage).error;
      ValidateResponse(resp, decodeImage).Failure? && |m| > 12 && m[..12] == "HTTP Error: "
      && m[12..] == IntToString(resp.httpStatus.value)
    ensures resp.error.None? && resp.httpStatus == Some(200) && (resp.data.None? || resp.data.value == []) ==>
      ValidateResponse(resp, decodeImage) == Failure("Empty data")
    ensures resp.error.None? && resp.httpStatus == Some(200) && resp.data.Some? && resp.data.value != []
            && decodeImage(resp.data.value).None? ==>
      ValidateResponse(resp, decodeImage) == Failure("Invalid image data")
  {
    if resp.error.None? && resp.httpStatus.Some? && resp.httpStatus.value != 200 {
      var c := resp.httpStatus.value;
      var m := "HTTP Error: " + IntToString(c);
      assert |IntToString(c)| >= 1 by {
        if c < 0 { assert IntToString(c) == "-" + NatToString(-c); }
      }
      assert m[..12] == "HTTP Error: " && m[12..] == IntToString(c);
    }
  }

  const UrlErrorPrefix: string := "URL Error: "

  class PhotoThumbnail {
    const photo: EventPhoto
    /** The Info.plist settings and `URL(string:)`. */
    const env: Environment
    /** The reply to the n-th download request for a URL. */
    const download: (nat, string) -> Response
    /** `UIImage(data:)` */
    const decodeImage: Bytes -> Option<Image>

    var image: Option<Image>
    var isLoading: bool
    var loadError: Option<string>
    var retryCount: nat
    /** The URLs requested so far, in order. */
    var requests: seq<string>

    constructor(photo: EventPhoto, env: Environment, download: (nat, string) -> Response,
                decodeImage: Bytes -> Option<Image>)
      ensures this.photo == photo && this.env == env
      ensures this.download == download && this.decodeImage == decodeImage
      ensures image == None && !isLoading && loadError == None && retryCount == 0 && requests == []
    {
      this.photo := photo;
      this.env := env;
      this.download := download;
      this.decodeImage := decodeImage;
      image := None;
      isLoading := false;
      loadError := None;
      retryCount := 0;
      requests := [];
    }

    /** The state once the reply `resp` has been checked, starting from the
        image `before`. */
    predicate Shows(resp: Response, before: Option<Image>)
      reads this
    {
      && !isLoading
      && match ValidateResponse(resp, decodeImage)
         case Success(img) => image == Some(img) && loadError == None
         case Failure(m) => image == before && loadError == Some(m)
    }

    /** `loadImageFromURL`: one request; `atRequest` is the
        (`isLoading`, `loadError`) pair it starts from. */
    method LoadImageFromURL(url: string) returns (ghost atRequest: (bool, Option<string>))
      modifies this
      ensures atRequest == (true, None)
      ensures requests == old(requests) + [url]
      ensures retryCount == old(retryCount)
      ensures Shows(download(|old(requests)|, url), old(image))
    {
      isLoading := true;
      loadError := None;
      atRequest := (isLoading, loadError);
      var resp := download(|requests|, url);
      requests := requests + [url];
      isLoading := false;
      match ValidateResponse(resp, decodeImage)
      case Failure(m) =>
        loadError := Some(m);
      case Success(img) =>
        image := Some(img);
    }

    /** `loadImage`: nothing once an image is shown; the URL built from the
        storage path when the photo has none or after a retry; the stored
        URL otherwise. A URL that cannot be built only sets the error. */
    method LoadImage()
      modifies this
      ensures old(image).Some? ==> unchanged(this)
      ensures retryCount == old(retryCount)
      ensures old(image).None? ==>
        var direct := photo.imageURL.None? || retryCount > 0;
        var target := if direct then GetDirectPhotoURL(env, photo.storagePath) else Success(photo.imageURL.value);
        match target
        case Failure(e) =>
          && loadError == Some(UrlErrorPrefix + e.Description())
          && image == None && isLoading == old(isLoading) && requests == old(requests)
        case Success(url) =>
          requests == old(requests) + [url] && Shows(download(|old(requests)|, url), None)
    {
      if image.Some? {
        return;
      }
      if photo.imageURL.None? || retryCount > 0 {
        var url := GetDirectPhotoURL(env, photo.storagePath);
        if url.Failure? {
          loadError := Some(UrlErrorPrefix + url.error.Description());
        } else {
          var _ := LoadImageFromURL(url.value);
        }
      } else {
        var _ := LoadImageFromURL(photo.imageURL.value);
      }
    }

    /** The retry tap: the count goes up first, so the reload builds the URL
        from the storage path. */
    method RetryTapped()
      modifies this
      ensures retryCount == old(retryCount) + 1
      ensures old(image).Some? ==>
        image == old(image) && isLoading == old(isLoading) && loadError == old(loadError) && requests == old(requests)
      ensures old(image).None? ==>
        match GetDirectPhotoURL(env, photo.storagePath)
        case Failure(e) => loadError == Some(UrlErrorPrefix + e.Description()) && requests == old(requests)
        case Success(url) => requests == old(requests) + [url] && Shows(download(|old(requests)|, url), None)
    {
      retryCount := retryCount + 1;
      LoadImage();
    }
  }
}
