/** The records of the local albums prototype: photos kept on the device,
    albums of them, and its own user record. */
module Albums {
  import opened Wrappers
  import opened Platform
  import opened Text

  /** A photo taken on the device; its location and metadata are not part
      of this model. */
  datatype Photo = Photo(id: string, image: Image, dateTaken: Instant, takenBy: Option<string>)

  datatype Album = Album(id: string, name: string, photos: seq<Photo>, creationDate: Instant) {
    /** The first photo's image, if there is a photo. */
    function CoverImage(): (r: Option<Image>)
      ensures r.None? <==> photos == []
      ensures r.Some? ==> r.value == photos[0].image
    {
      if photos == [] then None else Some(photos[0].image)
    }

    function PhotoCount(): nat {
      |photos|
    }

    /** The album with one more photo at the end. */
    function WithPhoto(p: Photo): (a: Album)
      ensures a.id == id && a.name == name && a.creationDate == creationDate
      ensures a.photos == photos + [p]
    {
      this.(photos := photos + [p])
    }
  }

  /** Adding a photo counts one more, and keeps the cover of an album that
      already has one; the first photo becomes the cover of an empty one. */
  lemma WithPhotoCoverAndCount(a: Album, p: Photo)
    ensures a.WithPhoto(p).PhotoCount() == a.PhotoCount() + 1
    ensures a.photos != [] ==> a.WithPhoto(p).CoverImage() == a.CoverImage()
    ensures a.photos == [] ==> a.WithPhoto(p).CoverImage() == Some(p.image)
  {
    if a.photos != [] {
      assert a.WithPhoto(p).photos[0] == a.photos[0];
    }
  }

  /** The albums prototype's user record. */
  datatype ProfileUser = ProfileUser(
    id: string,
    email: string,
    joinDate: Instant,
    displayName: Option<string>,
    profileImageURL: Option<string>)
  {
    /** The display name, else the email's text before its first "@", else
        "User" (which splitting never leaves to happen). */
    function Username(): string {
      match displayName
      case Some(name) => name
      case None =>
        var parts := Components(email, '@');
        if |parts| > 0 then parts[0] else "User"
    }
  }

  /** The username is the display name when there is one, otherwise the
      text of the email before its first "@", or the whole email when it has
      none; so it depends on these two fields only, and without a display
      name it is always a prefix of the email. */
  lemma UsernameSpec(u: ProfileUser)
    ensures u.displayName.Some? ==> u.Username() == u.displayName.value
    ensures u.displayName.None? && '@' !in u.email ==> u.Username() == u.email
    ensures u.displayName.None? && '@' in u.email ==> u.Username() == u.email[..IndexOf(u.email, '@')]
    ensures u.displayName.None? ==> |u.Username()| <= |u.email| && u.Username() == u.email[..|u.Username()|]
  {
    FirstComponentIsPrefix(u.email, '@');
  }

  lemma UsernameOfEmptyEmail(u: ProfileUser)
    requires u.displayName.None? && u.email == ""
    ensures u.Username() == ""
  {
    FirstComponentIsPrefix(u.email, '@');
  }

  /** For an account without a display name whose email is
      `local@domain`, the username is `local`: the part after the first
      "@" never shows, whatever "@"s the domain holds. */
  lemma UsernameIsLocalPart(u: ProfileUser, local: string, domain: string)
    requires u.displayName.None? && u.email == local + ['@'] + domain && '@' !in local
    ensures u.Username() == local && '@' !in u.Username()
  {
    ComponentsCons(local, '@', domain);
  }
}
