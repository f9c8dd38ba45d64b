/** What the playback operations compute from the library: the album that
    holds a track (`findAlbumForTrack`), the queue after a track
    (`updateQueue`), and where "next" parks when the queue is empty. */
module Session {
  import opened Wrappers
  import opened Seqs
  import opened Entities
  import opened Text
  import opened Sorting
  import opened Catalogue
  import opened Organize

  /** `tracks.firstIndex(where: { $0.id == id })`. */
  function TrackIndex(tracks: seq<Track>, id: nat): (r: Option<nat>)
    ensures r.Some? ==> r.value < |tracks| && tracks[r.value].id == id
    ensures r.Some? ==> forall k :: 0 <= k < r.value ==> tracks[k].id != id
    ensures r.None? <==> forall k :: 0 <= k < |tracks| ==> tracks[k].id != id
  {
    FirstIndex(tracks, (t: Track) => t.id == id)
  }

  /** `album.tracks.contains(where: { $0.id == id })`. */
  predicate HasTrack(al: Album, id: nat) {
    TrackIndex(al.tracks, id).Some?
  }

  /** `HasTrack` as the test `firstIndex(where:)` applies to each album. */
  function Holds(id: nat): Album -> bool {
    (al: Album) => HasTrack(al, id)
  }

  /** Album `j` of artist `i` holds the id, and no album before it (in
      artist order, then album order) does. */
  ghost predicate FirstHolder(lib: Library, id: nat, i: nat, j: nat) {
    && i < |lib| && j < |lib[i].albums| && HasTrack(lib[i].albums[j], id)
    && (forall i', j' :: 0 <= i' < i && 0 <= j' < |lib[i'].albums| ==> !HasTrack(lib[i'].albums[j'], id))
    && (forall j' :: 0 <= j' < j ==> !HasTrack(lib[i].albums[j'], id))
  }

  /** What `findAlbumForTrack` returns for a track with this id: for each
      artist in turn, its first album holding the id. */
  function AlbumWithTrack(lib: Library, id: nat): (r: Option<Album>)
    ensures r.Some? ==> HasTrack(r.value, id)
    ensures r.None? <==> forall i, j :: 0 <= i < |lib| && 0 <= j < |lib[i].albums| ==> !HasTrack(lib[i].albums[j], id)
  {
    if lib == [] then None
    else
      match FirstIndex(lib[0].albums, Holds(id))
      case Some(j) => Some(lib[0].albums[j])
      case None =>
        var r := AlbumWithTrack(lib[1..], id);
        assert r.None? ==> forall i, j :: 0 <= i < |lib| && 0 <= j < |lib[i].albums| ==> !HasTrack(lib[i].albums[j], id) by {
          if r.None? {
            forall i, j | 0 <= i < |lib| && 0 <= j < |lib[i].albums| ensures !HasTrack(lib[i].albums[j], id) {
              if i > 0 {
                assert lib[i] == lib[1..][i - 1];
              }
            }
          }
        }
        r
  }

  /** The album found is the first holder of the id, in artist order and
      then album order. */
  lemma {:induction false} AlbumWithTrackIsFirst(lib: Library, id: nat) returns (i: nat, j: nat)
    requires AlbumWithTrack(lib, id).Some?
    ensures FirstHolder(lib, id, i, j) && AlbumWithTrack(lib, id).value == lib[i].albums[j]
  {
    match FirstIndex(lib[0].albums, Holds(id)) {
    case Some(k) =>
      i, j := 0, k;
    case None =>
      var i', j' := AlbumWithTrackIsFirst(lib[1..], id);
      i, j := i' + 1, j';
      FirstHolderCons(lib, id, i', j');
    }
  }

  /** A first holder in the artists after the first, when the first artist
      has no album holding the id, is a first holder in the library. */
  lemma FirstHolderCons(lib: Library, id: nat, i: nat, j: nat)
    requires lib != [] && FirstHolder(lib[1..], id, i, j)
    requires forall k :: 0 <= k < |lib[0].albums| ==> !HasTrack(lib[0].albums[k], id)
    ensures FirstHolder(lib, id, i + 1, j) && lib[i + 1].albums[j] == lib[1..][i].albums[j]
  {
    assert lib[i + 1] == lib[1..][i];
    forall i', j' | 0 <= i' < i + 1 && 0 <= j' < |lib[i'].albums| ensures !HasTrack(lib[i'].albums[j'], id) {
      if i' > 0 {
        assert lib[i'] == lib[1..][i' - 1];
      }
    }
  }

  /** One step of the search: the first album of artist `i` holding the id,
      or else the search over the artists after it. */
  lemma AlbumWithTrackFrom(lib: Library, i: nat, id: nat)
    requires i < |lib|
    ensures AlbumWithTrack(lib[i..], id) ==
      match FirstIndex(lib[i].albums, Holds(id))
      case Some(j) => Some(lib[i].albums[j])
      case None => AlbumWithTrack(lib[i + 1..], id)
  {
    assert lib[i..][0] == lib[i];
    assert lib[i..][1..] == lib[i + 1..];
  }

  /** The queue `updateQueue` leaves after playing the track with this id:
      with no album it keeps `queue`; otherwise the tracks after the first
      track with the id (the id is always found, see `QueueIsRemainder`). */
  function QueueAfter(album: Option<Album>, id: nat, queue: seq<Track>): seq<Track> {
    if album.None? then queue
    else
      match TrackIndex(album.value.tracks, id)
      case None => queue
      case Some(i) => album.value.tracks[i + 1..]
  }

  /** The album `nextTrack` parks on when the queue is empty: the first album
      of the first artist, when it has a first track. */
  function LibraryStart(lib: Library): Option<Album> {
    if lib != [] && lib[0].albums != [] && lib[0].albums[0].tracks != [] then Some(lib[0].albums[0]) else None
  }

  /** In a valid, organized library, `nextTrack` parks on the first artist
      by name, on that artist's newest album, and on its lowest-numbered
      track. */
  lemma OrganizedStart(lib: Library)
    requires LibraryValid(lib) && IsOrganized(lib) && lib != []
    ensures LibraryStart(lib).Some?
    ensures var al := LibraryStart(lib).value;
      && (forall i :: 0 < i < |lib| ==> LexLess(lib[0].name, lib[i].name))
      && (forall j :: 0 <= j < |lib[0].albums| ==> lib[0].albums[j].year <= al.year)
      && (forall k :: 0 <= k < |al.tracks| ==> al.tracks[0].trackNumber <= al.tracks[k].trackNumber)
  {
    ValidLibraryHasStart(lib);
    var al := lib[0].albums[0];
    forall i | 0 < i < |lib| ensures LexLess(lib[0].name, lib[i].name) {
      assert !ArtistPrecedes(lib[i], lib[0]);
      assert lib[0].name != lib[i].name;
      LexLessTotal(lib[0].name, lib[i].name);
    }
    assert lib[0] in lib;
    forall j | 0 < j < |lib[0].albums| ensures lib[0].albums[j].year <= al.year {
      assert !AlbumPrecedes(lib[0].albums[j], al);
    }
    assert al in lib[0].albums;
    forall k | 0 < k < |al.tracks| ensures al.tracks[0].trackNumber <= al.tracks[k].trackNumber {
      assert !TrackPrecedes(al.tracks[k], al.tracks[0]);
    }
  }

  /** The place of a track in the library: artist, album, track index. */
  datatype Position = Position(artist: nat, album: nat, track: nat)

  ghost predicate ValidPosition(lib: Library, p: Position) {
    p.artist < |lib| && p.album < |lib[p.artist].albums| && p.track < |lib[p.artist].albums[p.album].tracks|
  }

  ghost function TrackAt(lib: Library, p: Position): Track
    requires ValidPosition(lib, p)
  {
    lib[p.artist].albums[p.album].tracks[p.track]
  }

  /** No two tracks of the library share an id (the tracks' UUIDs are fresh). */
  ghost predicate UniqueTrackIds(lib: Library) {
    forall p, q :: ValidPosition(lib, p) && ValidPosition(lib, q) && TrackAt(lib, p).id == TrackAt(lib, q).id ==> p == q
  }

  // ---------------------------------------------------------------------------

  /** When the album holds the id, the queue is exactly the album's tracks
      strictly after that track. */
  lemma QueueIsRemainder(al: Album, id: nat, queue: seq<Track>)
    requires HasTrack(al, id)
    ensures exists i :: 0 <= i < |al.tracks| && al.tracks[i].id == id
                     && al.tracks == al.tracks[..i + 1] + QueueAfter(Some(al), id, queue)
  {
    var i := TrackIndex(al.tracks, id).value;
    assert al.tracks == al.tracks[..i + 1] + al.tracks[i + 1..];
  }

  /** Playing a track of the library, when ids are unique, selects the album
      that holds it and queues the rest of that album. */
  lemma PlayFromLibrary(lib: Library, p: Position, queue: seq<Track>)
    requires UniqueTrackIds(lib) && ValidPosition(lib, p)
    ensures var al := lib[p.artist].albums[p.album];
      && AlbumWithTrack(lib, TrackAt(lib, p).id) == Some(al)
      && QueueAfter(Some(al), TrackAt(lib, p).id, queue) == al.tracks[p.track + 1..]
  {
    HolderIsOwnAlbum(lib, p);
    FirstTrackIndex(lib, p);
  }

  /** With unique ids the album found for a track is the one it is in. */
  lemma HolderIsOwnAlbum(lib: Library, p: Position)
    requires UniqueTrackIds(lib) && ValidPosition(lib, p)
    ensures AlbumWithTrack(lib, TrackAt(lib, p).id) == Some(lib[p.artist].albums[p.album])
  {
    var id := TrackAt(lib, p).id;
    var i: nat, j: nat := HolderOf(lib, p);
    var k := TrackIndex(lib[i].albums[j].tracks, id).value;
    var q := Position(i, j, k);
    assert ValidPosition(lib, q) && TrackAt(lib, q).id == id;
  }

  /** With unique ids a track's first index in its album is its own. */
  lemma FirstTrackIndex(lib: Library, p: Position)
    requires UniqueTrackIds(lib) && ValidPosition(lib, p)
    ensures TrackIndex(lib[p.artist].albums[p.album].tracks, TrackAt(lib, p).id) == Some(p.track)
  {
    var id := TrackAt(lib, p).id;
    var m := TrackIndex(lib[p.artist].albums[p.album].tracks, id).value;
    assert TrackAt(lib, Position(p.artist, p.album, m)).id == id;
  }

  /** The album `AlbumWithTrack` finds for a track of the library. */
  lemma HolderOf(lib: Library, p: Position) returns (i: nat, j: nat)
    requires ValidPosition(lib, p)
    ensures FirstHolder(lib, TrackAt(lib, p).id, i, j)
    ensures AlbumWithTrack(lib, TrackAt(lib, p).id) == Some(lib[i].albums[j])
  {
    var id := TrackAt(lib, p).id;
    var al := lib[p.artist].albums[p.album];
    assert HasTrack(al, id);
    assert AlbumWithTrack(lib, id).Some?;
    i, j := AlbumWithTrackIsFirst(lib, id);
  }

  /** Going back from the track at `i > 0` of an album with distinct ids
      queues the rest of the album from `i` on: the track left is next. */
  lemma PreviousRequeues(al: Album, i: nat, queue: seq<Track>)
    requires DistinctBy(al.tracks, (t: Track) => t.id)
    requires 0 < i < |al.tracks|
    ensures QueueAfter(Some(al), al.tracks[i - 1].id, queue) == al.tracks[i..]
  {
    var m := TrackIndex(al.tracks, al.tracks[i - 1].id).value;
    assert m == i - 1;
  }

  /** A valid, non-empty library always has a place to park. */
  lemma ValidLibraryHasStart(lib: Library)
    requires LibraryValid(lib) && lib != []
    ensures LibraryStart(lib).Some?
  {
    assert lib[0] in lib;
    assert lib[0].albums[0] in lib[0].albums;
  }
}
