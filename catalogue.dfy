/** The library tree `[AlbumArtist]` and the merge of one track into it
    (`updateLibrary`). */
module Catalogue {
  import opened Wrappers
  import opened Seqs
  import opened Entities

  type Library = seq<AlbumArtist>

  /** The arguments of one `updateLibrary` call. */
  datatype Entry = Entry(artistName: string, albumTitle: string, year: int, genre: string, track: Track, artwork: Option<Artwork>)

  /** The album `updateLibrary` creates for an entry whose album is missing. */
  function NewAlbum(e: Entry, albumId: nat): Album {
    Album(albumId, e.albumTitle, e.year, e.genre, [e.track], e.artwork)
  }

  function NewArtist(e: Entry, albumId: nat, artistId: nat): AlbumArtist {
    AlbumArtist(artistId, e.artistName, [NewAlbum(e, albumId)])
  }

  /** `albumArtists.firstIndex(where: { $0.name == name })`. */
  function ArtistIndex(lib: Library, name: string): (r: Option<nat>)
    ensures r.Some? ==> r.value < |lib| && lib[r.value].name == name
    ensures r.Some? ==> forall i :: 0 <= i < r.value ==> lib[i].name != name
    ensures r.None? <==> forall i :: 0 <= i < |lib| ==> lib[i].name != name
  {
    FirstIndex(lib, (a: AlbumArtist) => a.name == name)
  }

  /** `albums.firstIndex(where: { $0.title == title })`. */
  function AlbumIndex(albums: seq<Album>, title: string): (r: Option<nat>)
    ensures r.Some? ==> r.value < |albums| && albums[r.value].title == title
    ensures r.Some? ==> forall j :: 0 <= j < r.value ==> albums[j].title != title
    ensures r.None? <==> forall j :: 0 <= j < |albums| ==> albums[j].title != title
  {
    FirstIndex(albums, (al: Album) => al.title == title)
  }

  /** The first-match position is determined by where the name first occurs. */
  lemma ArtistIndexIs(lib: Library, name: string, i: nat)
    requires i < |lib| && lib[i].name == name
    requires forall k :: 0 <= k < i ==> lib[k].name != name
    ensures ArtistIndex(lib, name) == Some(i)
  {
    var r := ArtistIndex(lib, name);
    assert r.Some?;
    assert !(r.value < i);
    assert !(r.value > i);
  }

  lemma AlbumIndexIs(albums: seq<Album>, title: string, j: nat)
    requires j < |albums| && albums[j].title == title
    requires forall m :: 0 <= m < j ==> albums[m].title != title
    ensures AlbumIndex(albums, title) == Some(j)
  {
    var r := AlbumIndex(albums, title);
    assert r.Some?;
    assert !(r.value < j);
    assert !(r.value > j);
  }

  /** Reference definition of the merge into one artist's albums: walk the
      albums and append to the first one with the entry's title, or add a new
      album at the end. */
  function MergeAlbums(albums: seq<Album>, e: Entry, albumId: nat): seq<Album> {
    if albums == [] then [NewAlbum(e, albumId)]
    else if albums[0].title == e.albumTitle then [albums[0].(tracks := albums[0].tracks + [e.track])] + albums[1..]
    else [albums[0]] + MergeAlbums(albums[1..], e, albumId)
  }

  /** Reference definition of the merge into the library: walk the artists
      and merge into the first one with the entry's name, or add a new artist
      at the end. */
  function Merge(lib: Library, e: Entry, albumId: nat, artistId: nat): Library {
    if lib == [] then [NewArtist(e, albumId, artistId)]
    else if lib[0].name == e.artistName then [lib[0].(albums := MergeAlbums(lib[0].albums, e, albumId))] + lib[1..]
    else [lib[0]] + Merge(lib[1..], e, albumId, artistId)
  }

  /** All tracks of the library, as a multiset. */
  function AlbumTracks(al: Album): multiset<Track> {
    multiset(al.tracks)
  }

  function ArtistTracks(a: AlbumArtist): multiset<Track> {
    SumOver(a.albums, AlbumTracks)
  }

  function LibraryTracks(lib: Library): multiset<Track> {
    SumOver(lib, ArtistTracks)
  }

  /** The invariant `updateLibrary` and `organizeLibrary` keep: artist names
      are unique, album titles are unique within an artist, and no artist or
      album is empty. */
  ghost predicate LibraryValid(lib: Library) {
    && DistinctBy(lib, (a: AlbumArtist) => a.name)
    && forall a :: a in lib ==> ArtistValid(a)
  }

  ghost predicate ArtistValid(a: AlbumArtist) {
    && a.albums != []
    && DistinctBy(a.albums, (al: Album) => al.title)
    && forall al :: al in a.albums ==> al.tracks != []
  }

  /** Album-level fields: everything but the track list. */
  predicate SameAlbumFields(x: Album, y: Album) {
    x.id == y.id && x.title == y.title && x.year == y.year && x.genre == y.genre && x.artwork == y.artwork
  }

  /** `lib'` keeps every artist and album of `lib` in place, with the same
      identity and album-level fields, and every album's tracks as a prefix. */
  ghost predicate Extends(lib: Library, lib': Library) {
    && |lib| <= |lib'|
    && forall i :: 0 <= i < |lib| ==>
         && lib'[i].id == lib[i].id && lib'[i].name == lib[i].name
         && |lib[i].albums| <= |lib'[i].albums|
         && forall j :: 0 <= j < |lib[i].albums| ==>
              && SameAlbumFields(lib'[i].albums[j], lib[i].albums[j])
              && lib[i].albums[j].tracks <= lib'[i].albums[j].tracks
  }

  // ---------------------------------------------------------------------------
  // The reference merge agrees with the index-based surgery of updateLibrary.

  /** Merging into an artist's albums appends to the first album with the
      title, or adds the new album at the end. */
  lemma {:induction false} MergeAlbumsAt(albums: seq<Album>, e: Entry, albumId: nat)
    ensures AlbumIndex(albums, e.albumTitle).Some? ==>
      var j := AlbumIndex(albums, e.albumTitle).value;
      MergeAlbums(albums, e, albumId) == albums[j := albums[j].(tracks := albums[j].tracks + [e.track])]
    ensures AlbumIndex(albums, e.albumTitle).None? ==>
      MergeAlbums(albums, e, albumId) == albums + [NewAlbum(e, albumId)]
  {
    if albums != [] && albums[0].title != e.albumTitle {
      MergeAlbumsAt(albums[1..], e, albumId);
      var r := AlbumIndex(albums[1..], e.albumTitle);
      assert r.Some? ==> AlbumIndex(albums, e.albumTitle) == Some(r.value + 1);
      assert r.None? ==> AlbumIndex(albums, e.albumTitle).None?;
      if r.Some? {
        var j := r.value + 1;
        ConsUpdate(albums, j, albums[j].(tracks := albums[j].tracks + [e.track]));
      } else {
        ConsAppend(albums, [NewAlbum(e, albumId)]);
      }
    }
  }

  /** Merging into the library changes only the first artist with the name,
      or adds the new artist at the end. */
  lemma {:induction false} MergeAt(lib: Library, e: Entry, albumId: nat, artistId: nat)
    ensures ArtistIndex(lib, e.artistName).Some? ==>
      var i := ArtistIndex(lib, e.artistName).value;
      Merge(lib, e, albumId, artistId) == lib[i := lib[i].(albums := MergeAlbums(lib[i].albums, e, albumId))]
    ensures ArtistIndex(lib, e.artistName).None? ==>
      Merge(lib, e, albumId, artistId) == lib + [NewArtist(e, albumId, artistId)]
  {
    if lib != [] && lib[0].name != e.artistName {
      MergeAt(lib[1..], e, albumId, artistId);
      var r := ArtistIndex(lib[1..], e.artistName);
      assert r.Some? ==> ArtistIndex(lib, e.artistName) == Some(r.value + 1);
      assert r.None? ==> ArtistIndex(lib, e.artistName).None?;
      if r.Some? {
        var i := r.value + 1;
        ConsUpdate(lib, i, lib[i].(albums := MergeAlbums(lib[i].albums, e, albumId)));
      } else {
        ConsAppend(lib, [NewArtist(e, albumId, artistId)]);
      }
    }
  }

  // ---------------------------------------------------------------------------
  // Properties of the merge.

  /** Into an existing artist and album, the track is appended at the end of
      that album; no artist or album is added and nothing else changes. */
  lemma MergeIntoExistingAlbum(lib: Library, e: Entry, albumId: nat, artistId: nat, i: nat, j: nat)
    requires ArtistIndex(lib, e.artistName) == Some(i)
    requires AlbumIndex(lib[i].albums, e.albumTitle) == Some(j)
    ensures var lib' := Merge(lib, e, albumId, artistId);
      && |lib'| == |lib|
      && (forall k :: 0 <= k < |lib| && k != i ==> lib'[k] == lib[k])
      && lib'[i].id == lib[i].id && lib'[i].name == lib[i].name
      && |lib'[i].albums| == |lib[i].albums|
      && (forall m :: 0 <= m < |lib[i].albums| && m != j ==> lib'[i].albums[m] == lib[i].albums[m])
      && lib'[i].albums[j] == lib[i].albums[j].(tracks := lib[i].albums[j].tracks + [e.track])
  {
    MergeAt(lib, e, albumId, artistId);
    MergeAlbumsAt(lib[i].albums, e, albumId);
  }

  /** Into an existing artist without the album, a new album made from this
      entry is added at the end of that artist's albums. */
  lemma MergeCreatesAlbum(lib: Library, e: Entry, albumId: nat, artistId: nat, i: nat)
    requires ArtistIndex(lib, e.artistName) == Some(i)
    requires AlbumIndex(lib[i].albums, e.albumTitle).None?
    ensures var lib' := Merge(lib, e, albumId, artistId);
      && |lib'| == |lib|
      && (forall k :: 0 <= k < |lib| && k != i ==> lib'[k] == lib[k])
      && lib'[i] == lib[i].(albums := lib[i].albums + [Album(albumId, e.albumTitle, e.year, e.genre, [e.track], e.artwork)])
  {
    MergeAt(lib, e, albumId, artistId);
    MergeAlbumsAt(lib[i].albums, e, albumId);
  }

  /** Without the artist, a new artist holding one new album holding the
      track is added at the end of the library. */
  lemma MergeCreatesArtist(lib: Library, e: Entry, albumId: nat, artistId: nat)
    requires ArtistIndex(lib, e.artistName).None?
    ensures Merge(lib, e, albumId, artistId)
         == lib + [AlbumArtist(artistId, e.artistName, [Album(albumId, e.albumTitle, e.year, e.genre, [e.track], e.artwork)])]
  {
    MergeAt(lib, e, albumId, artistId);
  }

  /** Merging never deduplicates: exactly the entry's track is added. */
  lemma {:induction false} MergeAddsTrack(lib: Library, e: Entry, albumId: nat, artistId: nat)
    ensures LibraryTracks(Merge(lib, e, albumId, artistId)) == LibraryTracks(lib) + multiset{e.track}
    ensures |LibraryTracks(Merge(lib, e, albumId, artistId))| == |LibraryTracks(lib)| + 1
  {
    var lib' := Merge(lib, e, albumId, artistId);
    if lib == [] {
      assert LibraryTracks(lib') == ArtistTracks(lib'[0]) + LibraryTracks(lib'[1..]);
      assert lib'[1..] == [];
      assert ArtistTracks(lib'[0]) == AlbumTracks(NewAlbum(e, albumId)) + SumOver(lib'[0].albums[1..], AlbumTracks);
    } else if lib[0].name == e.artistName {
      MergeAlbumsAddsTrack(lib[0].albums, e, albumId);
      assert lib'[1..] == lib[1..];
    } else {
      MergeAddsTrack(lib[1..], e, albumId, artistId);
      assert lib'[1..] == Merge(lib[1..], e, albumId, artistId);
    }
  }

  lemma {:induction false} MergeAlbumsAddsTrack(albums: seq<Album>, e: Entry, albumId: nat)
    ensures SumOver(MergeAlbums(albums, e, albumId), AlbumTracks) == SumOver(albums, AlbumTracks) + multiset{e.track}
  {
    var albums' := MergeAlbums(albums, e, albumId);
    if albums == [] {
      assert albums'[1..] == [];
    } else if albums[0].title == e.albumTitle {
      assert albums'[1..] == albums[1..];
      assert AlbumTracks(albums'[0]) == AlbumTracks(albums[0]) + multiset{e.track};
    } else {
      MergeAlbumsAddsTrack(albums[1..], e, albumId);
      assert albums'[1..] == MergeAlbums(albums[1..], e, albumId);
    }
  }

  /** The album that a lookup by artist name, then album title, finds. */
  function AlbumOf(lib: Library, name: string, title: string): Option<Album> {
    var ai := ArtistIndex(lib, name);
    if ai.None? then None
    else
      var bj := AlbumIndex(lib[ai.value].albums, title);
      if bj.None? then None else Some(lib[ai.value].albums[bj.value])
  }

  /** After the merge, looking up the entry's artist and album finds the
      album that held it before with the track appended, or else the new
      album made from the entry. */
  lemma MergeFilesTrack(lib: Library, e: Entry, albumId: nat, artistId: nat)
    ensures AlbumOf(Merge(lib, e, albumId, artistId), e.artistName, e.albumTitle)
         == Some(match AlbumOf(lib, e.artistName, e.albumTitle)
                 case Some(al) => al.(tracks := al.tracks + [e.track])
                 case None => NewAlbum(e, albumId))
  {
    var lib' := Merge(lib, e, albumId, artistId);
    MergeAt(lib, e, albumId, artistId);
    match ArtistIndex(lib, e.artistName) {
      case Some(i) =>
        ArtistIndexIs(lib', e.artistName, i);
        MergeAlbumsAt(lib[i].albums, e, albumId);
        var albums' := lib'[i].albums;
        match AlbumIndex(lib[i].albums, e.albumTitle) {
          case Some(j) =>
            AlbumIndexIs(albums', e.albumTitle, j);
          case None =>
            var n := |lib[i].albums|;
            assert forall m :: 0 <= m < n ==> albums'[m].title != e.albumTitle;
            AlbumIndexIs(albums', e.albumTitle, n);
        }
      case None =>
        assert forall k :: 0 <= k < |lib| ==> lib'[k].name != e.artistName;
        ArtistIndexIs(lib', e.artistName, |lib|);
        AlbumIndexIs(lib'[|lib|].albums, e.albumTitle, 0);
    }
  }

  /** Merging the same file twice (two tracks differing only in their ids)
      keeps both: they end the album in merge order and the library grows by
      two tracks. */
  lemma MergeSameFileTwice(lib: Library, e: Entry, e2: Entry, albumId: nat, artistId: nat, albumId2: nat, artistId2: nat)
    requires e2 == e.(track := e.track.(id := e2.track.id))
    ensures var lib' := Merge(Merge(lib, e, albumId, artistId), e2, albumId2, artistId2);
      && |LibraryTracks(lib')| == |LibraryTracks(lib)| + 2
      && AlbumOf(lib', e.artistName, e.albumTitle).Some?
      && var ts := AlbumOf(lib', e.artistName, e.albumTitle).value.tracks;
      && |ts| >= 2 && ts[|ts| - 2] == e.track && ts[|ts| - 1] == e2.track
  {
    assert e2.artistName == e.artistName && e2.albumTitle == e.albumTitle;
    MergeTwiceCount(lib, e, e2, albumId, artistId, albumId2, artistId2);
    MergeTwiceOrder(lib, e, e2, albumId, artistId, albumId2, artistId2);
  }

  lemma MergeTwiceCount(lib: Library, e: Entry, e2: Entry, albumId: nat, artistId: nat, albumId2: nat, artistId2: nat)
    ensures |LibraryTracks(Merge(Merge(lib, e, albumId, artistId), e2, albumId2, artistId2))| == |LibraryTracks(lib)| + 2
  {
    MergeAddsTrack(lib, e, albumId, artistId);
    MergeAddsTrack(Merge(lib, e, albumId, artistId), e2, albumId2, artistId2);
  }

  lemma MergeTwiceOrder(lib: Library, e: Entry, e2: Entry, albumId: nat, artistId: nat, albumId2: nat, artistId2: nat)
    requires e2.artistName == e.artistName && e2.albumTitle == e.albumTitle
    ensures var r := AlbumOf(Merge(Merge(lib, e, albumId, artistId), e2, albumId2, artistId2), e.artistName, e.albumTitle);
      && r.Some?
      && var ts := r.value.tracks;
      && |ts| >= 2 && ts[|ts| - 2] == e.track && ts[|ts| - 1] == e2.track
  {
    var mid := Merge(lib, e, albumId, artistId);
    MergeEndsAlbum(lib, e, albumId, artistId);
    var al := AlbumOf(mid, e.artistName, e.albumTitle).value;
    MergeFilesTrack(mid, e2, albumId2, artistId2);
    AppendOne(al.tracks, e2.track);
  }

  /** After the merge the entry's album ends with the entry's track. */
  lemma MergeEndsAlbum(lib: Library, e: Entry, albumId: nat, artistId: nat)
    ensures var r := AlbumOf(Merge(lib, e, albumId, artistId), e.artistName, e.albumTitle);
      r.Some? && |r.value.tracks| >= 1 && r.value.tracks[|r.value.tracks| - 1] == e.track
  {
    MergeFilesTrack(lib, e, albumId, artistId);
    match AlbumOf(lib, e.artistName, e.albumTitle) {
    case Some(al) =>
      var ts := al.tracks + [e.track];
      assert ts[|ts| - 1] == e.track;
    case None =>
      assert NewAlbum(e, albumId).tracks == [e.track];
    }
  }

  /** Album-level fields come from the first track merged into the album:
      later merges keep every artist and album in place with the same fields,
      and only extend track lists. */
  lemma {:induction false} MergeExtends(lib: Library, e: Entry, albumId: nat, artistId: nat)
    ensures Extends(lib, Merge(lib, e, albumId, artistId))
  {
    MergeAt(lib, e, albumId, artistId);
    match ArtistIndex(lib, e.artistName) {
    case Some(i) =>
      MergeAlbumsAt(lib[i].albums, e, albumId);
      match AlbumIndex(lib[i].albums, e.albumTitle) {
      case Some(j) => AppendTrackExtends(lib, i, j, e.track);
      case None => AppendAlbumExtends(lib, i, NewAlbum(e, albumId));
      }
    case None => AppendArtistExtends(lib, NewArtist(e, albumId, artistId));
    }
  }

  /** The library with `t` appended to album `j` of artist `i`. */
  function AppendTrack(lib: Library, i: nat, j: nat, t: Track): Library
    requires i < |lib| && j < |lib[i].albums|
  {
    var al := lib[i].albums[j];
    lib[i := lib[i].(albums := lib[i].albums[j := al.(tracks := al.tracks + [t])])]
  }

  /** The library with `al` appended to the albums of artist `i`. */
  function AppendAlbum(lib: Library, i: nat, al: Album): Library
    requires i < |lib|
  {
    lib[i := lib[i].(albums := lib[i].albums + [al])]
  }

  lemma AppendTrackExtends(lib: Library, i: nat, j: nat, t: Track)
    requires i < |lib| && j < |lib[i].albums|
    ensures Extends(lib, AppendTrack(lib, i, j, t))
  {
  }

  lemma AppendAlbumExtends(lib: Library, i: nat, al: Album)
    requires i < |lib|
    ensures Extends(lib, AppendAlbum(lib, i, al))
  {
  }

  lemma AppendArtistExtends(lib: Library, a: AlbumArtist)
    ensures Extends(lib, lib + [a])
  {
  }

  /** The merge keeps names and titles unique and containers non-empty. */
  lemma MergePreservesValid(lib: Library, e: Entry, albumId: nat, artistId: nat)
    requires LibraryValid(lib)
    ensures LibraryValid(Merge(lib, e, albumId, artistId))
  {
    MergeAt(lib, e, albumId, artistId);
    match ArtistIndex(lib, e.artistName) {
    case Some(i) =>
      MergeAlbumsAt(lib[i].albums, e, albumId);
      match AlbumIndex(lib[i].albums, e.albumTitle) {
      case Some(j) =>
        AppendTrackValid(lib, i, j, e.track);
      case None =>
        AppendAlbumValid(lib, i, NewAlbum(e, albumId));
      }
    case None =>
      AppendArtistValid(lib, NewArtist(e, albumId, artistId));
    }
  }

  lemma AppendTrackValid(lib: Library, i: nat, j: nat, t: Track)
    requires LibraryValid(lib) && i < |lib| && j < |lib[i].albums|
    ensures LibraryValid(AppendTrack(lib, i, j, t))
  {
    var lib' := AppendTrack(lib, i, j, t);
    var albums, albums' := lib[i].albums, lib'[i].albums;
    assert lib[i] in lib;
    assert albums[j] in albums;
    forall al | al in albums' ensures al.tracks != [] {
      var m :| 0 <= m < |albums'| && albums'[m] == al;
      assert m != j ==> albums'[m] in albums;
    }
    assert ArtistValid(lib'[i]);
    forall a | a in lib' ensures ArtistValid(a) {
      var k :| 0 <= k < |lib'| && lib'[k] == a;
      assert k != i ==> lib'[k] in lib;
    }
  }

  lemma AppendAlbumValid(lib: Library, i: nat, al: Album)
    requires LibraryValid(lib) && i < |lib| && al.tracks != []
    requires forall j :: 0 <= j < |lib[i].albums| ==> lib[i].albums[j].title != al.title
    ensures LibraryValid(AppendAlbum(lib, i, al))
  {
    var lib' := AppendAlbum(lib, i, al);
    var albums, albums' := lib[i].albums, lib'[i].albums;
    assert lib[i] in lib;
    forall al' | al' in albums' ensures al'.tracks != [] {
      var m :| 0 <= m < |albums'| && albums'[m] == al';
      assert m < |albums| ==> albums'[m] in albums;
    }
    assert ArtistValid(lib'[i]);
    forall a | a in lib' ensures ArtistValid(a) {
      var k :| 0 <= k < |lib'| && lib'[k] == a;
      assert k != i ==> lib'[k] in lib;
    }
  }

  lemma AppendArtistValid(lib: Library, a: AlbumArtist)
    requires LibraryValid(lib) && ArtistValid(a)
    requires forall i :: 0 <= i < |lib| ==> lib[i].name != a.name
    ensures LibraryValid(lib + [a])
  {
    var lib' := lib + [a];
    forall a' | a' in lib' ensures ArtistValid(a') {
      var k :| 0 <= k < |lib'| && lib'[k] == a';
      assert k < |lib| ==> lib'[k] in lib;
    }
  }
}
