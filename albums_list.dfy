/** `AlbumsListView`: the album list's new-album form and its swipe-to-delete
    handler. */
module AlbumsScreen {
  import opened Wrappers
  import opened Platform
  import opened Seqs
  import opened Albums
  import opened AlbumStore

  /** No two albums share an id, as with fresh `UUID()`s. */
  predicate DistinctIds(albums: seq<Album>) {
    forall i, j :: 0 <= i < j < |albums| ==> albums[i].id != albums[j].id
  }

  /** Deleting the id of an album whose id is unique removes exactly that
      position. */
  lemma WithoutDistinctAlbum(albums: seq<Album>, i: nat)
    requires DistinctIds(albums) && i < |albums|
    ensures WithoutAlbum(albums, albums[i].id) == albums[..i] + albums[i + 1..]
  {
    var keep := OtherId(albums[i].id);
    forall k | 0 <= k < |albums| && k != i ensures keep(albums[k]) {
      if k < i {
        assert albums[k].id != albums[i].id;
      } else {
        assert albums[i].id != albums[k].id;
      }
    }
    FilterDropsOne(keep, albums, i);
  }

  // ------------------------------------------------------------ as written

  /** `for index in offsets { deleteAlbum(id: albums[index].id) }`: each
      offset is read in the list the earlier steps have already shrunk.
      `None` is the trap of an index past the end of that list. */
  function AsWrittenDeletion(albums: seq<Album>, offsets: seq<nat>): Option<seq<Album>>
    decreases |offsets|
  {
    if offsets == [] then Some(albums)
    else if offsets[0] >= |albums| then None
    else AsWrittenDeletion(WithoutAlbum(albums, albums[offsets[0]].id), offsets[1..])
  }

  /** With one offset the loop removes exactly the album at that position. */
  lemma AsWrittenSingleOffset(albums: seq<Album>, i: nat)
    requires DistinctIds(albums) && i < |albums|
    ensures AsWrittenDeletion(albums, [i]) == Some(albums[..i] + albums[i + 1..])
  {
    WithoutDistinctAlbum(albums, i);
    assert [i][1..] == [];
  }

  /** Deleting the first two of three albums removes the first and the
      third: after the first deletion, offset 1 points at what was offset 2. */
  lemma AsWrittenDeletesShiftedAlbum(a: Album, b: Album, c: Album)
    requires a.id != b.id && b.id != c.id && a.id != c.id
    ensures AsWrittenDeletion([a, b, c], [0, 1]) == Some([b])
  {
    DeleteFirstOfThree(a, b, c);
    AsWrittenSingleOffset([b, c], 1);
    assert [b, c][..1] + [b, c][2..] == [b];
    assert [0, 1][1..] == [1];
  }

  /** Deleting the last two of three albums traps: offset 2 is valid in the
      list `onDelete` saw, but after the first deletion only two albums are
      left. */
  lemma AsWrittenTrapsOnShrunkList(a: Album, b: Album, c: Album)
    requires a.id != b.id && b.id != c.id && a.id != c.id
    ensures AsWrittenDeletion([a, b, c], [1, 2]) == None
  {
    WithoutDistinctAlbum([a, b, c], 1);
    assert [a, b, c][..1] + [a, b, c][2..] == [a, c];
    assert [1, 2][1..] == [2] && [2][0] == 2;
  }

  lemma DeleteFirstOfThree(a: Album, b: Album, c: Album)
    requires a.id != b.id && b.id != c.id && a.id != c.id
    ensures WithoutAlbum([a, b, c], a.id) == [b, c]
    ensures DistinctIds([b, c])
  {
    var keep := OtherId(a.id);
    assert [a, b, c][1..] == [b, c] && [b, c][1..] == [c] && [c][1..] == [];
    assert Seqs.Filter(keep, [c]) == [c];
    assert Seqs.Filter(keep, [b, c]) == [b, c];
  }

  /** The same offsets, read before the first deletion, remove the first
      two albums. */
  lemma IntendedDeletesListedAlbums(a: Album, b: Album, c: Album)
    requires a.id != b.id && b.id != c.id && a.id != c.id
    ensures IntendedDeletion([a, b, c], [0, 1]) == [c]
  {
    var albums := [a, b, c];
    var ids := IdsAt(albums, [0, 1]);
    assert ids == [a.id, b.id];
    var keep := NotAmong(ids);
    assert !keep(a) && !keep(b) && keep(c);
    assert albums[1..] == [b, c] && albums[1..][1..] == [c] && [c][1..] == [];
    assert Seqs.Filter(keep, [c]) == [c];
    assert Seqs.Filter(keep, [b, c]) == [c];
    assert IntendedDeletion(albums, [0, 1]) == Seqs.Filter(keep, albums);
  }

  // ------------------------------------------------------------- intended

  /** The ids at the offsets, read before anything is deleted. */
  function IdsAt(albums: seq<Album>, offsets: seq<nat>): (ids: seq<string>)
    requires forall k :: 0 <= k < |offsets| ==> offsets[k] < |albums|
    ensures |ids| == |offsets| && forall k :: 0 <= k < |offsets| ==> ids[k] == albums[offsets[k]].id
  {
    seq(|offsets|, k requires 0 <= k < |offsets| => albums[offsets[k]].id)
  }

  function NotAmong(ids: seq<string>): Album -> bool {
    (a: Album) => a.id !in ids
  }

  /** The albums at none of the offsets, in order. */
  function IntendedDeletion(albums: seq<Album>, offsets: seq<nat>): seq<Album>
    requires forall k :: 0 <= k < |offsets| ==> offsets[k] < |albums|
  {
    Seqs.Filter(NotAmong(IdsAt(albums, offsets)), albums)
  }

  /** Reading every id first removes exactly the albums at the offsets and
      keeps the others in their order. */
  lemma IntendedDeletionSpec(albums: seq<Album>, offsets: seq<nat>)
    requires DistinctIds(albums)
    requires forall k :: 0 <= k < |offsets| ==> offsets[k] < |albums|
    ensures IsSubsequence(IntendedDeletion(albums, offsets), albums)
    ensures forall i :: 0 <= i < |albums| ==> (albums[i] in IntendedDeletion(albums, offsets) <==> i !in offsets)
  {
    var ids := IdsAt(albums, offsets);
    var keep := NotAmong(ids);
    var r := IntendedDeletion(albums, offsets);
    FilterIsSubsequence(keep, albums);
    FilterMembers(keep, albums);
    forall i | 0 <= i < |albums| ensures albums[i] in r <==> i !in offsets {
      if i in offsets {
        var k :| 0 <= k < |offsets| && offsets[k] == i;
        assert ids[k] == albums[i].id;
      } else {
        forall k | 0 <= k < |ids| ensures ids[k] != albums[i].id {
          assert ids[k] == albums[offsets[k]].id && offsets[k] != i;
        }
        assert keep(albums[i]);
      }
    }
  }

  class AlbumsListView {
    const albumManager: AlbumManager
    var showingNewAlbumSheet: bool
    var newAlbumName: string

    constructor(albumManager: AlbumManager)
      ensures this.albumManager == albumManager
      ensures !showingNewAlbumSheet && newAlbumName == []
    {
      this.albumManager := albumManager;
      showingNewAlbumSheet := false;
      newAlbumName := [];
    }

    /** The "plus" toolbar button. */
    method AddTapped()
      modifies this
      ensures showingNewAlbumSheet && newAlbumName == old(newAlbumName)
    {
      showingNewAlbumSheet := true;
    }

    /** "Create Album": nothing for an empty name; otherwise the album is
        created, the name cleared and the sheet closed. */
    method CreateTapped(id: string, now: Instant)
      modifies this, albumManager
      ensures old(newAlbumName) == [] ==> unchanged(this) && unchanged(albumManager)
      ensures old(newAlbumName) != [] ==>
        && albumManager.albums == old(albumManager.albums) + [Album(id, old(newAlbumName), [], now)]
        && newAlbumName == [] && !showingNewAlbumSheet
    {
      if newAlbumName != [] {
        var _ := albumManager.CreateAlbum(newAlbumName, id, now);
        newAlbumName := [];
        showingNewAlbumSheet := false;
      }
    }

    /** "Cancel": the sheet closes and the name is cleared, and no album is
        created. */
    method CancelTapped()
      modifies this
      ensures !showingNewAlbumSheet && newAlbumName == []
      ensures albumManager.albums == old(albumManager.albums)
    {
      showingNewAlbumSheet := false;
      newAlbumName := [];
    }

    /** `deleteAlbums(at:)` as written, for offsets into the list as shown.
        `trapped` is the out-of-range trap; short of it, the new list is the
        as-written deletion. */
    method DeleteAlbumsAsWritten(offsets: seq<nat>) returns (trapped: bool)
      requires forall k :: 0 <= k < |offsets| ==> offsets[k] < |albumManager.albums|
      modifies albumManager
      ensures trapped <==> AsWrittenDeletion(old(albumManager.albums), offsets).None?
      ensures !trapped ==> albumManager.albums == AsWrittenDeletion(old(albumManager.albums), offsets).value
    {
      for k := 0 to |offsets|
        invariant AsWrittenDeletion(albumManager.albums, offsets[k..]) == AsWrittenDeletion(old(albumManager.albums), offsets)
      {
        assert offsets[k..][0] == offsets[k] && offsets[k..][1..] == offsets[k + 1..];
        if offsets[k] >= |albumManager.albums| {
          return true;
        }
        var album := albumManager.albums[offsets[k]];
        albumManager.DeleteAlbum(album.id);
      }
      assert offsets[|offsets|..] == [];
      return false;
    }

    /** `deleteAlbums(at:)` with the ids read before the first deletion. */
    method DeleteAlbums(offsets: seq<nat>)
      requires forall k :: 0 <= k < |offsets| ==> offsets[k] < |albumManager.albums|
      modifies albumManager
      ensures albumManager.albums == IntendedDeletion(old(albumManager.albums), offsets)
    {
      var ids := IdsAt(albumManager.albums, offsets);
      FilterAll(NotAmong(ids[..0]), albumManager.albums);
      for k := 0 to |ids|
        invariant albumManager.albums == Seqs.Filter(NotAmong(ids[..k]), old(albumManager.albums))
      {
        assert ids[..k + 1] == ids[..k] + [ids[k]];
        FilterFilter(NotAmong(ids[..k]), OtherId(ids[k]), NotAmong(ids[..k + 1]), old(albumManager.albums));
        albumManager.DeleteAlbum(ids[k]);
      }
      assert ids[..|ids|] == ids;
    }
  }
}
