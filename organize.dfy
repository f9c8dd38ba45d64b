/** `organizeLibrary`: artists by name, each artist's albums by year
    (newest first) then title, each album's tracks by track number. */
module Organize {
  import opened Seqs
  import opened Sorting
  import opened Text
  import opened Entities
  import opened Catalogue

  /** `{ $0.trackNumber < $1.trackNumber }` */
  predicate TrackPrecedes(x: Track, y: Track) {
    x.trackNumber < y.trackNumber
  }

  /** `{ $0.year != $1.year ? $0.year > $1.year : $0.title < $1.title }` */
  predicate AlbumPrecedes(x: Album, y: Album) {
    if x.year != y.year then x.year > y.year else LexLess(x.title, y.title)
  }

  /** `{ $0.name < $1.name }` */
  predicate ArtistPrecedes(x: AlbumArtist, y: AlbumArtist) {
    LexLess(x.name, y.name)
  }

  lemma TrackOrder()
    ensures StrictWeakOrder(TrackPrecedes)
  {
  }

  lemma AlbumOrder()
    ensures StrictWeakOrder(AlbumPrecedes)
  {
    forall x: Album, y: Album ensures AlbumPrecedes(x, y) ==> !AlbumPrecedes(y, x) {
      LexLessAsymmetric(x.title, y.title);
    }
    forall x: Album, y: Album, z: Album
      ensures AlbumPrecedes(x, z) ==> AlbumPrecedes(x, y) || AlbumPrecedes(y, z)
    {
      LexLessNegativelyTransitive(x.title, y.title, z.title);
    }
  }

  lemma ArtistOrder()
    ensures StrictWeakOrder(ArtistPrecedes)
  {
    forall x: AlbumArtist, y: AlbumArtist ensures ArtistPrecedes(x, y) ==> !ArtistPrecedes(y, x) {
      LexLessAsymmetric(x.name, y.name);
    }
    forall x: AlbumArtist, y: AlbumArtist, z: AlbumArtist
      ensures ArtistPrecedes(x, z) ==> ArtistPrecedes(x, y) || ArtistPrecedes(y, z)
    {
      LexLessNegativelyTransitive(x.name, y.name, z.name);
    }
  }

  lemma LexLessNegativelyTransitive(a: string, b: string, c: string)
    ensures LexLess(a, c) ==> LexLess(a, b) || LexLess(b, c)
  {
    LexLessTotal(a, b);
    LexLessTotal(b, c);
    LexLessTransitive(c, b, a);
    LexLessAsymmetric(a, c);
  }

  /** One album after `organizeLibrary`: its tracks sorted. */
  function OrganizeAlbum(al: Album): Album {
    al.(tracks := SortBy(al.tracks, TrackPrecedes))
  }

  /** One artist after the body of `organizeLibrary`'s loop: albums sorted,
      then each album organized. */
  function OrganizeArtist(a: AlbumArtist): AlbumArtist {
    a.(albums := Map(OrganizeAlbum, SortBy(a.albums, AlbumPrecedes)))
  }

  /** The library after `organizeLibrary`. */
  function Organized(lib: Library): Library {
    SortBy(Map(OrganizeArtist, lib), ArtistPrecedes)
  }

  /** The three orderings `organizeLibrary` establishes. */
  ghost predicate IsOrganized(lib: Library) {
    && Sorted(lib, ArtistPrecedes)
    && forall a :: a in lib ==> ArtistOrganized(a)
  }

  ghost predicate ArtistOrganized(a: AlbumArtist) {
    && Sorted(a.albums, AlbumPrecedes)
    && forall al :: al in a.albums ==> Sorted(al.tracks, TrackPrecedes)
  }

  // ---------------------------------------------------------------------------

  /** Organizing an album permutes its tracks and nothing else. */
  lemma OrganizeAlbumPermutes(al: Album)
    ensures SameAlbumFields(OrganizeAlbum(al), al)
    ensures multiset(OrganizeAlbum(al).tracks) == multiset(al.tracks)
    ensures Sorted(OrganizeAlbum(al).tracks, TrackPrecedes)
  {
    TrackOrder();
    SortBySorted(al.tracks, TrackPrecedes);
  }

  /** Organizing an artist permutes its albums (each organized), keeps its
      identity and name, and leaves its albums sorted. */
  lemma OrganizeArtistPermutes(a: AlbumArtist)
    ensures OrganizeArtist(a).id == a.id && OrganizeArtist(a).name == a.name
    ensures multiset(OrganizeArtist(a).albums) == multiset(Map(OrganizeAlbum, a.albums))
    ensures ArtistOrganized(OrganizeArtist(a))
    ensures ArtistTracks(OrganizeArtist(a)) == ArtistTracks(a)
  {
    MapPermutation(OrganizeAlbum, SortBy(a.albums, AlbumPrecedes), a.albums);
    OrganizeArtistSortsAlbums(a);
    OrganizeArtistSortsTracks(a);
    OrganizeArtistKeepsTracks(a);
  }

  lemma OrganizeArtistSortsAlbums(a: AlbumArtist)
    ensures Sorted(OrganizeArtist(a).albums, AlbumPrecedes)
  {
    var sorted := SortBy(a.albums, AlbumPrecedes);
    var albums' := Map(OrganizeAlbum, sorted);
    AlbumOrder();
    SortBySorted(a.albums, AlbumPrecedes);
    forall i, j | 0 <= i < j < |albums'| ensures !AlbumPrecedes(albums'[j], albums'[i]) {
      assert !AlbumPrecedes(sorted[j], sorted[i]);
    }
  }

  lemma OrganizeArtistSortsTracks(a: AlbumArtist)
    ensures forall al :: al in OrganizeArtist(a).albums ==> Sorted(al.tracks, TrackPrecedes)
  {
    var sorted := SortBy(a.albums, AlbumPrecedes);
    var albums' := Map(OrganizeAlbum, sorted);
    forall al | al in albums' ensures Sorted(al.tracks, TrackPrecedes) {
      var k :| 0 <= k < |albums'| && albums'[k] == al;
      OrganizeAlbumPermutes(sorted[k]);
    }
  }

  lemma OrganizeArtistKeepsTracks(a: AlbumArtist)
    ensures ArtistTracks(OrganizeArtist(a)) == ArtistTracks(a)
  {
    var sorted := SortBy(a.albums, AlbumPrecedes);
    forall al ensures AlbumTracks(OrganizeAlbum(al)) == AlbumTracks(al) {
      OrganizeAlbumPermutes(al);
    }
    SumOverMap(sorted, OrganizeAlbum, AlbumTracks);
    SumOverPermutation(sorted, a.albums, AlbumTracks);
  }

  /** `organizeLibrary` only permutes: artists (each organized), and with them
      the multiset of all tracks is unchanged. */
  lemma OrganizedPermutes(lib: Library)
    ensures multiset(Organized(lib)) == multiset(Map(OrganizeArtist, lib))
    ensures LibraryTracks(Organized(lib)) == LibraryTracks(lib)
  {
    var mapped := Map(OrganizeArtist, lib);
    forall a ensures ArtistTracks(OrganizeArtist(a)) == ArtistTracks(a) {
      OrganizeArtistPermutes(a);
    }
    SumOverMap(lib, OrganizeArtist, ArtistTracks);
    SumOverPermutation(Organized(lib), mapped, ArtistTracks);
  }

  /** Afterwards artists, albums and tracks are each in order. */
  lemma OrganizedIsOrganized(lib: Library)
    ensures IsOrganized(Organized(lib))
  {
    var mapped := Map(OrganizeArtist, lib);
    ArtistOrder();
    SortBySorted(mapped, ArtistPrecedes);
    forall a | a in Organized(lib) ensures ArtistOrganized(a) {
      SortByMember(mapped, ArtistPrecedes, a);
      var k :| 0 <= k < |mapped| && mapped[k] == a;
      OrganizeArtistPermutes(lib[k]);
    }
  }

  /** Organizing keeps names and titles unique and containers non-empty. */
  lemma OrganizedPreservesValid(lib: Library)
    requires LibraryValid(lib)
    ensures LibraryValid(Organized(lib))
  {
    var mapped := Map(OrganizeArtist, lib);
    assert DistinctBy(mapped, (a: AlbumArtist) => a.name) by {
      forall i, j | 0 <= i < j < |mapped| ensures mapped[i].name != mapped[j].name {
        assert lib[i].name != lib[j].name;
      }
    }
    SortByDistinct(mapped, ArtistPrecedes, (a: AlbumArtist) => a.name);
    forall a | a in Organized(lib) ensures ArtistValid(a) {
      SortByMember(mapped, ArtistPrecedes, a);
      var k :| 0 <= k < |mapped| && mapped[k] == a;
      assert lib[k] in lib;
      OrganizeArtistValid(lib[k]);
    }
  }

  lemma OrganizeArtistValid(a: AlbumArtist)
    requires ArtistValid(a)
    ensures ArtistValid(OrganizeArtist(a))
  {
    var sorted := SortBy(a.albums, AlbumPrecedes);
    assert |sorted| == |multiset(sorted)| == |multiset(a.albums)| == |a.albums|;
    OrganizeArtistTitlesDistinct(a);
    OrganizeArtistAlbumsFilled(a);
  }

  lemma OrganizeArtistTitlesDistinct(a: AlbumArtist)
    requires DistinctBy(a.albums, (al: Album) => al.title)
    ensures DistinctBy(OrganizeArtist(a).albums, (al: Album) => al.title)
  {
    var sorted := SortBy(a.albums, AlbumPrecedes);
    var albums' := Map(OrganizeAlbum, sorted);
    SortByDistinct(a.albums, AlbumPrecedes, (al: Album) => al.title);
    forall i, j | 0 <= i < j < |albums'| ensures albums'[i].title != albums'[j].title {
      assert sorted[i].title != sorted[j].title;
    }
  }

  lemma OrganizeArtistAlbumsFilled(a: AlbumArtist)
    requires forall al :: al in a.albums ==> al.tracks != []
    ensures forall al :: al in OrganizeArtist(a).albums ==> al.tracks != []
  {
    var sorted := SortBy(a.albums, AlbumPrecedes);
    var albums' := Map(OrganizeAlbum, sorted);
    forall al | al in albums' ensures al.tracks != [] {
      var k :| 0 <= k < |albums'| && albums'[k] == al;
      SortByMember(a.albums, AlbumPrecedes, sorted[k]);
      OrganizeAlbumPermutes(sorted[k]);
      assert |al.tracks| == |multiset(al.tracks)| == |multiset(sorted[k].tracks)|;
    }
  }

  /** With unique names and titles the order is strict: artists strictly
      ascending by name, albums strictly by (year descending, title
      ascending). */
  lemma OrganizedStrictlyOrdered(lib: Library)
    requires LibraryValid(lib)
    ensures var o := Organized(lib);
      && (forall i, j :: 0 <= i < j < |o| ==> LexLess(o[i].name, o[j].name))
      && (forall a, i, j :: a in o && 0 <= i < j < |a.albums| ==> AlbumPrecedes(a.albums[i], a.albums[j]))
  {
    var o := Organized(lib);
    OrganizedIsOrganized(lib);
    OrganizedPreservesValid(lib);
    forall i, j | 0 <= i < j < |o| ensures LexLess(o[i].name, o[j].name) {
      assert !LexLess(o[j].name, o[i].name);
      LexLessTotal(o[i].name, o[j].name);
    }
    forall a, i, j | a in o && 0 <= i < j < |a.albums| ensures AlbumPrecedes(a.albums[i], a.albums[j]) {
      assert ArtistOrganized(a) && ArtistValid(a);
      assert !AlbumPrecedes(a.albums[j], a.albums[i]);
      assert a.albums[i].title != a.albums[j].title;
      LexLessTotal(a.albums[i].title, a.albums[j].title);
    }
  }

  /** Organizing twice is organizing once. */
  lemma OrganizedIdempotent(lib: Library)
    ensures Organized(Organized(lib)) == Organized(lib)
  {
    var o := Organized(lib);
    var mapped := Map(OrganizeArtist, lib);
    forall k | 0 <= k < |o| ensures OrganizeArtist(o[k]) == o[k] {
      SortByMember(mapped, ArtistPrecedes, o[k]);
      var m :| 0 <= m < |mapped| && mapped[m] == o[k];
      OrganizeArtistIdempotent(lib[m]);
    }
    assert Map(OrganizeArtist, o) == o;
    OrganizedIsOrganized(lib);
    SortBySortedIdentity(o, ArtistPrecedes);
  }

  lemma OrganizeArtistIdempotent(a: AlbumArtist)
    ensures OrganizeArtist(OrganizeArtist(a)) == OrganizeArtist(a)
  {
    var albums' := OrganizeArtist(a).albums;
    OrganizeArtistPermutes(a);
    SortBySortedIdentity(albums', AlbumPrecedes);
    forall k | 0 <= k < |albums'| ensures OrganizeAlbum(albums'[k]) == albums'[k] {
      assert albums'[k] in albums';
      SortBySortedIdentity(albums'[k].tracks, TrackPrecedes);
    }
    assert Map(OrganizeAlbum, albums') == albums';
  }
}
