/** `AlbumManager`: the in-memory album list of the local prototype.
    `UUID()` and `Date()` values are parameters. */
module AlbumStore {
  import opened Wrappers
  import opened Platform
  import opened Seqs
  import opened Albums

  /** The position of the first album with the id, if any. */
  function FirstIndex(albums: seq<Album>, id: string): (r: Option<nat>)
    ensures r.None? <==> forall j :: 0 <= j < |albums| ==> albums[j].id != id
    ensures r.Some? ==> r.value < |albums| && albums[r.value].id == id
                        && forall j :: 0 <= j < r.value ==> albums[j].id != id
  {
    if albums == [] then None
    else if albums[0].id == id then Some(0)
    else match FirstIndex(albums[1..], id)
         case None => None
         case Some(i) => Some(i + 1)
  }

  /** `albums.first { $0.id == id }` */
  function FindAlbum(albums: seq<Album>, id: string): (r: Option<Album>)
    ensures r.None? <==> forall j :: 0 <= j < |albums| ==> albums[j].id != id
    ensures r.Some? ==> exists i :: 0 <= i < |albums| && albums[i] == r.value && r.value.id == id
                                    && forall j :: 0 <= j < i ==> albums[j].id != id
  {
    match FirstIndex(albums, id)
    case None => None
    case Some(i) => Some(albums[i])
  }

  /** The test `removeAll` negates: the album has another id. */
  function OtherId(id: string): Album -> bool {
    (a: Album) => a.id != id
  }

  /** `albums.removeAll { $0.id == id }` */
  function WithoutAlbum(albums: seq<Album>, id: string): seq<Album> {
    Seqs.Filter(OtherId(id), albums)
  }

  /** Removal keeps, in order, exactly the albums with another id, each as
      often as it occurs, and changes nothing when no album has the id. */
  lemma WithoutAlbumSpec(albums: seq<Album>, id: string)
    ensures IsSubsequence(WithoutAlbum(albums, id), albums)
    ensures forall a: Album :: multiset(WithoutAlbum(albums, id))[a] == if a.id != id then multiset(albums)[a] else 0
    ensures forall i :: 0 <= i < |WithoutAlbum(albums, id)| ==> WithoutAlbum(albums, id)[i].id != id
    ensures forall i :: 0 <= i < |albums| && albums[i].id != id ==> albums[i] in WithoutAlbum(albums, id)
    ensures (forall i :: 0 <= i < |albums| ==> albums[i].id != id) ==> WithoutAlbum(albums, id) == albums
  {
    var keep := OtherId(id);
    FilterIsSubsequence(keep, albums);
    FilterMembers(keep, albums);
    forall a: Album ensures multiset(WithoutAlbum(albums, id))[a] == if a.id != id then multiset(albums)[a] else 0 {
      FilterCounts(keep, albums, a);
    }
    if forall i :: 0 <= i < |albums| ==> albums[i].id != id {
      FilterAll(keep, albums);
    }
  }

  /** `albums[index].photos.append(photo)` at the first album with the id,
      or nothing when there is none. */
  function AddedPhoto(albums: seq<Album>, albumId: string, photo: Photo): seq<Album> {
    match FirstIndex(albums, albumId)
    case None => albums
    case Some(i) => albums[i := albums[i].WithPhoto(photo)]
  }

  /** Only the first album with the id gains the photo, at its end; every
      other album, and the order, stay as they were; an unknown id changes
      nothing. */
  lemma AddedPhotoSpec(albums: seq<Album>, albumId: string, photo: Photo)
    ensures |AddedPhoto(albums, albumId, photo)| == |albums|
    ensures FirstIndex(albums, albumId).None? ==> AddedPhoto(albums, albumId, photo) == albums
    ensures FirstIndex(albums, albumId).Some? ==>
      var i := FirstIndex(albums, albumId).value;
      && AddedPhoto(albums, albumId, photo)[i].photos == albums[i].photos + [photo]
      && AddedPhoto(albums, albumId, photo)[i].id == albumId
      && AddedPhoto(albums, albumId, photo)[i].name == albums[i].name
      && forall j :: 0 <= j < |albums| && j != i ==> AddedPhoto(albums, albumId, photo)[j] == albums[j]
  {
  }

  /** An album appended with an id no other album has is the one found for
      that id. */
  lemma CreatedAlbumIsFound(albums: seq<Album>, album: Album)
    requires forall j :: 0 <= j < |albums| ==> albums[j].id != album.id
    ensures FindAlbum(albums + [album], album.id) == Some(album)
  {
    var all := albums + [album];
    var r := FindAlbum(all, album.id);
    assert all[|albums|].id == album.id;
    var i :| 0 <= i < |all| && all[i] == r.value && r.value.id == album.id
             && forall j :: 0 <= j < i ==> all[j].id != album.id;
    assert i == |albums|;
  }

  const SampleAlbumNames: seq<string> := ["Beach Day", "Birthday Party", "Hiking Trip"]

  class AlbumManager {
    var albums: seq<Album>

    /** `init` and `loadAlbums`: the three empty sample albums. Each
        album's `creationDate` default is evaluated on its own, so each has
        its own instant. */
    constructor(ids: seq<string>, dates: seq<Instant>)
      requires |ids| == 3 && |dates| == 3
      ensures |albums| == 3
      ensures forall k :: 0 <= k < 3 ==>
                albums[k] == Album(ids[k], SampleAlbumNames[k], [], dates[k])
    {
      albums := [
        Album(ids[0], "Beach Day", [], dates[0]),
        Album(ids[1], "Birthday Party", [], dates[1]),
        Album(ids[2], "Hiking Trip", [], dates[2])
      ];
    }

    /** `createAlbum(name:)`: a new empty album at the end, returned. */
    method CreateAlbum(name: string, id: string, now: Instant) returns (album: Album)
      modifies this
      ensures album.id == id && album.name == name && album.photos == [] && album.creationDate == now
      ensures albums == old(albums) + [album]
    {
      album := Album(id, name, [], now);
      albums := albums + [album];
    }

    /** `deleteAlbum(id:)`: every album with the id goes. */
    method DeleteAlbum(id: string)
      modifies this
      ensures albums == WithoutAlbum(old(albums), id)
    {
      albums := WithoutAlbum(albums, id);
    }

    /** `addPhoto(to:photo:)` */
    method AddPhoto(albumId: string, photo: Photo)
      modifies this
      ensures albums == AddedPhoto(old(albums), albumId, photo)
    {
      var index := FirstIndex(albums, albumId);
      if index.Some? {
        albums := albums[index.value := albums[index.value].WithPhoto(photo)];
      }
    }

    /** `getAlbum(id:)` */
    function GetAlbum(id: string): Option<Album>
      reads this
    {
      FindAlbum(albums, id)
    }
  }
}
