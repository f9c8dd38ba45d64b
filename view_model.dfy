/** `AudioLibraryViewModel`: the library the app shows and the playback
    state around it. The AVFoundation player is reduced to whether it exists
    (`hasPlayer`), the persistent settings to a `Defaults` store, and the
    file system to the functions `directory` (what a folder lists) and
    `probe` (what reading a file yields). */
module ViewModel {
  import opened Wrappers
  import opened Seqs
  import opened Sorting
  import opened Entities
  import opened Catalogue
  import opened Organize
  import opened Session
  import opened Metadata
  import opened Import
  import opened Refresh

  /** The key under which the music folder is remembered. */
  const MusicFolderKey: string := "MusicFolderURL"

  /** The `UserDefaults` store: string values by key. */
  class Defaults {
    var strings: map<string, string>

    constructor (strings: map<string, string>)
      ensures this.strings == strings
    {
      this.strings := strings;
    }
  }

  class AudioLibraryViewModel {
    var musicFolderURL: Option<string>
    var albumArtists: Library
    var selectedAlbumArtist: Option<AlbumArtist>
    var selectedAlbum: Option<Album>
    var currentTrack: Option<Track>
    var isPlaying: bool
    var currentTime: real
    var duration: real
    var volume: real
    var queue: seq<Track>
    /** Whether the `player` optional holds a player. */
    var hasPlayer: bool
    /** The next unused identifier (the UUIDs of new tracks, albums, artists). */
    var nextId: nat

    /** The library keeps unique artist names, unique album titles per
        artist, and no empty artist or album. */
    ghost predicate Valid()
      reads this
    {
      LibraryValid(albumArtists)
    }

    constructor ()
      ensures Valid()
      ensures musicFolderURL == None && albumArtists == [] && selectedAlbumArtist == None
      ensures selectedAlbum == None && currentTrack == None && !isPlaying
      ensures currentTime == 0.0 && duration == 0.0 && volume == 0.5 && queue == []
      ensures !hasPlayer && nextId == 0
    {
      musicFolderURL := None;
      albumArtists := [];
      selectedAlbumArtist := None;
      selectedAlbum := None;
      currentTrack := None;
      isPlaying := false;
      currentTime := 0.0;
      duration := 0.0;
      volume := 0.5;
      queue := [];
      hasPlayer := false;
      nextId := 0;
    }

    // -------------------------------------------------------------------------
    // The library folder.

    /** `setMusicFolder`: remember the folder here and in the defaults. */
    method SetMusicFolder(url: string, defaults: Defaults)
      modifies this`musicFolderURL, defaults
      ensures musicFolderURL == Some(url)
      ensures defaults.strings == old(defaults.strings)[MusicFolderKey := url]
    {
      musicFolderURL := Some(url);
      defaults.strings := defaults.strings[MusicFolderKey := url];
    }

    /** `loadMusicFolder`: restore the remembered folder, if any, and scan it. */
    method LoadMusicFolder(defaults: Defaults, directory: string -> Option<seq<string>>, probe: string -> FileProbe)
      requires Valid()
      modifies this`musicFolderURL, this`albumArtists, this`nextId
      ensures Valid()
      ensures MusicFolderKey !in defaults.strings ==>
        musicFolderURL == old(musicFolderURL) && albumArtists == old(albumArtists) && nextId == old(nextId)
      ensures MusicFolderKey in defaults.strings ==>
        && musicFolderURL == Some(defaults.strings[MusicFolderKey])
        && Imported(albumArtists, nextId) == Scanned(Imported(old(albumArtists), old(nextId)), directory(defaults.strings[MusicFolderKey]), probe)
    {
      if MusicFolderKey in defaults.strings {
        musicFolderURL := Some(defaults.strings[MusicFolderKey]);
        ScanFolder(directory, probe);
      }
    }

    /** `scanFolder`: import the mp3 files of the folder, when there is a
        folder and it can be listed. */
    method ScanFolder(directory: string -> Option<seq<string>>, probe: string -> FileProbe)
      requires Valid()
      modifies this`albumArtists, this`nextId
      ensures Valid()
      ensures musicFolderURL.None? ==> albumArtists == old(albumArtists) && nextId == old(nextId)
      ensures musicFolderURL.Some? ==>
        Imported(albumArtists, nextId) == Scanned(Imported(old(albumArtists), old(nextId)), directory(musicFolderURL.value), probe)
    {
      if musicFolderURL.None? {
        return;
      }
      match directory(musicFolderURL.value) {
      case None =>
      case Some(urls) =>
        ImportFiles(urls, probe);
        OrganizeLibrary();
      }
    }

    /** `addFilesToLibrary`: import the mp3 files among `urls`, then
        organize. */
    method AddFilesToLibrary(urls: seq<string>, probe: string -> FileProbe)
      requires Valid()
      modifies this`albumArtists, this`nextId
      ensures Valid() && IsOrganized(albumArtists)
      ensures Imported(albumArtists, nextId) == ImportAndOrganize(Imported(old(albumArtists), old(nextId)), urls, probe)
      ensures LibraryTracks(old(albumArtists)) <= LibraryTracks(albumArtists)
      ensures |LibraryTracks(albumArtists)| == |LibraryTracks(old(albumArtists))| + ImportCount(urls, probe)
    {
      ghost var st := Imported(albumArtists, nextId);
      ImportFiles(urls, probe);
      OrganizeLibrary();
      ImportAndOrganizeSound(st, urls, probe);
    }

    /** The loop `for url in urls where url.pathExtension.lowercased() == "mp3"`
        that `addFilesToLibrary` and `scanFolder` share. */
    method ImportFiles(urls: seq<string>, probe: string -> FileProbe)
      requires Valid()
      modifies this`albumArtists, this`nextId
      ensures Valid()
      ensures Imported(albumArtists, nextId) == ImportAll(Imported(old(albumArtists), old(nextId)), urls, probe)
    {
      ghost var st := Imported(albumArtists, nextId);
      for k := 0 to |urls|
        invariant Valid()
        invariant Imported(albumArtists, nextId) == ImportAll(st, urls[..k], probe)
      {
        assert urls[..k + 1][..k] == urls[..k];
        ImportStepValid(Imported(albumArtists, nextId), urls[k], probe(urls[k]));
        if IsMp3(urls[k]) {
          ProcessAudioFile(urls[k], probe(urls[k]));
        }
      }
      assert urls[..|urls|] == urls;
    }

    /** `processAudioFile`: read the file's tag and duration and file its
        track; a file that cannot be read changes nothing. */
    method ProcessAudioFile(url: string, probe: FileProbe)
      modifies this`albumArtists, this`nextId
      ensures Imported(albumArtists, nextId) == ProcessFile(Imported(old(albumArtists), old(nextId)), url, probe)
    {
      if probe.tag.None? {
        return;
      }
      var tag := probe.tag.value;
      if probe.duration.None? {
        return;
      }
      ProcessFileReads(Imported(albumArtists, nextId), url, probe);
      var e := ReadEntry(url, tag, probe.duration.value, nextId);
      nextId := nextId + 1;
      UpdateLibrary(e);
    }

    /** `updateLibrary`: append the track to the first album with its title
        of the first artist with its name, creating the album or the artist
        (with identifiers `nextId`, `nextId + 1`) when missing. */
    method UpdateLibrary(e: Entry)
      modifies this`albumArtists, this`nextId
      ensures albumArtists == Merge(old(albumArtists), e, old(nextId), old(nextId) + 1)
      ensures nextId == old(nextId) + 2
    {
      MergeAt(albumArtists, e, nextId, nextId + 1);
      match ArtistIndex(albumArtists, e.artistName) {
      case Some(i) =>
        var albums := albumArtists[i].albums;
        MergeAlbumsAt(albums, e, nextId);
        match AlbumIndex(albums, e.albumTitle) {
        case Some(j) =>
          albumArtists := albumArtists[i := albumArtists[i].(albums := albums[j := albums[j].(tracks := albums[j].tracks + [e.track])])];
        case None =>
          albumArtists := albumArtists[i := albumArtists[i].(albums := albums + [NewAlbum(e, nextId)])];
        }
      case None =>
        albumArtists := albumArtists + [NewArtist(e, nextId, nextId + 1)];
      }
      nextId := nextId + 2;
    }

    /** `organizeLibrary`: for each artist sort the albums (newest first,
        then by title) and each album's tracks (by track number), then sort
        the artists by name. */
    method OrganizeLibrary()
      requires Valid()
      modifies this`albumArtists
      ensures Valid() && IsOrganized(albumArtists)
      ensures albumArtists == Organized(old(albumArtists))
    {
      ghost var lib := albumArtists;
      for i := 0 to |albumArtists|
        invariant |albumArtists| == |lib|
        invariant forall k :: 0 <= k < i ==> albumArtists[k] == OrganizeArtist(lib[k])
        invariant forall k :: i <= k < |lib| ==> albumArtists[k] == lib[k]
      {
        OrganizeArtistAt(i);
      }
      assert albumArtists == Map(OrganizeArtist, lib);
      albumArtists := SortBy(albumArtists, ArtistPrecedes);
      assert LibraryValid(Organized(lib)) && IsOrganized(Organized(lib)) by {
        OrganizedPreservesValid(lib);
        OrganizedIsOrganized(lib);
      }
    }

    /** The body of `organizeLibrary`'s loop for artist `i`: sort its albums,
        then the tracks of each album in turn. */
    method OrganizeArtistAt(i: nat)
      requires i < |albumArtists|
      modifies this`albumArtists
      ensures albumArtists == old(albumArtists)[i := OrganizeArtist(old(albumArtists)[i])]
    {
      ghost var lib := albumArtists;
      var albums := SortBy(albumArtists[i].albums, AlbumPrecedes);
      ghost var sorted := albums;
      albumArtists := albumArtists[i := albumArtists[i].(albums := albums)];
      for j := 0 to |albums|
        invariant |albums| == |sorted|
        invariant albumArtists == lib[i := lib[i].(albums := albums)]
        invariant forall m :: 0 <= m < j ==> albums[m] == OrganizeAlbum(sorted[m])
        invariant forall m :: j <= m < |sorted| ==> albums[m] == sorted[m]
      {
        albums := albums[j := albums[j].(tracks := SortBy(albums[j].tracks, TrackPrecedes))];
        albumArtists := albumArtists[i := albumArtists[i].(albums := albums)];
      }
      assert albums == Map(OrganizeAlbum, sorted);
    }

    // -------------------------------------------------------------------------
    // Playback.

    /** `findAlbumForTrack`: for each artist in turn, its first album that
        holds a track with this track's id. */
    method FindAlbumForTrack(track: Track) returns (r: Option<Album>)
      ensures r == AlbumWithTrack(albumArtists, track.id)
    {
      for i := 0 to |albumArtists|
        invariant AlbumWithTrack(albumArtists, track.id) == AlbumWithTrack(albumArtists[i..], track.id)
      {
        AlbumWithTrackFrom(albumArtists, i, track.id);
        match FirstIndex(albumArtists[i].albums, Holds(track.id)) {
        case Some(j) =>
          return Some(albumArtists[i].albums[j]);
        case None =>
        }
      }
      return None;
    }

    /** `updateQueue(startingFrom:)`: with a selected album holding the
        track, queue the album's tracks after it. */
    method UpdateQueue(track: Track)
      modifies this`queue
      ensures queue == QueueAfter(selectedAlbum, track.id, old(queue))
    {
      if selectedAlbum.None? {
        return;
      }
      match TrackIndex(selectedAlbum.value.tracks, track.id) {
      case Some(i) =>
        queue := selectedAlbum.value.tracks[i + 1..];
      case None =>
      }
    }

    /** `play`: make the track current, select the album holding it, queue
        the rest of that album, and start the player. The first call only
        creates the player and reports failure, so playback starts exactly
        when a player already existed. */
    method Play(track: Track)
      modifies this`currentTrack, this`selectedAlbum, this`queue, this`isPlaying, this`hasPlayer
      ensures currentTrack == Some(track)
      ensures selectedAlbum == AlbumWithTrack(albumArtists, track.id)
      ensures queue == QueueAfter(selectedAlbum, track.id, old(queue))
      ensures isPlaying == old(hasPlayer) && hasPlayer
    {
      currentTrack := Some(track);
      selectedAlbum := FindAlbumForTrack(track);
      UpdateQueue(track);
      StartPlayer();
    }

    /** The `do`/`catch` block of `play`: with no player yet it creates one
        and fails, leaving playback stopped; otherwise playback starts. */
    method StartPlayer()
      modifies this`isPlaying, this`hasPlayer
      ensures hasPlayer
      ensures isPlaying <==> old(hasPlayer)
    {
      if !hasPlayer {
        hasPlayer := true;
        isPlaying := false;
      } else {
        isPlaying := true;
      }
    }

    /** `playerDidFinishPlaying`: move on to the next track. */
    method PlayerDidFinishPlaying()
      modifies this`currentTrack, this`selectedAlbum, this`queue, this`isPlaying, this`hasPlayer
      ensures old(queue) != [] ==>
        && currentTrack == Some(old(queue)[0])
        && selectedAlbum == AlbumWithTrack(albumArtists, old(queue)[0].id)
        && queue == QueueAfter(selectedAlbum, old(queue)[0].id, old(queue)[1..])
        && isPlaying == old(hasPlayer) && hasPlayer
      ensures old(queue) == [] ==> NextParked(old(currentTrack), old(selectedAlbum), old(isPlaying), old(hasPlayer))
    {
      NextTrack();
    }

    /** The state after `nextTrack` with an empty queue: parked, paused, on
        the first track of the first album when the library has one, and
        otherwise unchanged. */
    ghost predicate NextParked(track0: Option<Track>, album0: Option<Album>, playing0: bool, player0: bool)
      reads this
    {
      && queue == [] && hasPlayer == player0
      && match LibraryStart(albumArtists) {
         case Some(al) => currentTrack == Some(al.tracks[0]) && selectedAlbum == Some(al) && !isPlaying
         case None => currentTrack == track0 && selectedAlbum == album0 && isPlaying == playing0
         }
    }

    /** `playerDidFail`: playback stops. */
    method PlayerDidFail()
      modifies this`isPlaying
      ensures !isPlaying
    {
      isPlaying := false;
    }

    /** The periodic time observer's callback. */
    method TimeObserved(seconds: real)
      modifies this`currentTime
      ensures currentTime == seconds
    {
      currentTime := seconds;
    }

    /** The end of the duration load `play` starts. */
    method DurationLoaded(seconds: real)
      modifies this`duration
      ensures duration == seconds
    {
      duration := seconds;
    }

    /** `togglePlayPause`. */
    method TogglePlayPause()
      modifies this`isPlaying
      ensures isPlaying == !old(isPlaying)
    {
      isPlaying := !isPlaying;
    }

    /** `setVolume`: the volume is stored as given. */
    method SetVolume(newVolume: real)
      modifies this`volume
      ensures volume == newVolume
    {
      volume := newVolume;
    }

    /** `nextTrack`: play the head of the queue; with an empty queue, park on
        the first track of the first album, paused. */
    method NextTrack()
      modifies this`currentTrack, this`selectedAlbum, this`queue, this`isPlaying, this`hasPlayer
      ensures old(queue) != [] ==>
        && currentTrack == Some(old(queue)[0])
        && selectedAlbum == AlbumWithTrack(albumArtists, old(queue)[0].id)
        && queue == QueueAfter(selectedAlbum, old(queue)[0].id, old(queue)[1..])
        && isPlaying == old(hasPlayer) && hasPlayer
      ensures old(queue) == [] ==> NextParked(old(currentTrack), old(selectedAlbum), old(isPlaying), old(hasPlayer))
    {
      if queue != [] {
        var next := queue[0];
        queue := queue[1..];
        Play(next);
      } else {
        match LibraryStart(albumArtists) {
        case Some(al) =>
          currentTrack := Some(al.tracks[0]);
          selectedAlbum := Some(al);
          isPlaying := false;
        case None =>
        }
      }
    }

    /** `previousTrack`: after more than a second of the current track, go
        back to its start (the position is the player's); otherwise play the
        track before it in the selected album, or pause on the first one. */
    method PreviousTrack()
      modifies this`currentTrack, this`selectedAlbum, this`queue, this`isPlaying, this`hasPlayer
      ensures old(currentTrack).None? || old(selectedAlbum).None? || old(currentTime) > 1.0 ==>
        && currentTrack == old(currentTrack) && selectedAlbum == old(selectedAlbum)
        && queue == old(queue) && isPlaying == old(isPlaying) && hasPlayer == old(hasPlayer)
      ensures old(currentTrack).Some? && old(selectedAlbum).Some? && old(currentTime) <= 1.0 ==>
        var al := old(selectedAlbum).value;
        match TrackIndex(al.tracks, old(currentTrack).value.id) {
          case Some(i) =>
            if i > 0 then
              && currentTrack == Some(al.tracks[i - 1])
              && selectedAlbum == AlbumWithTrack(albumArtists, al.tracks[i - 1].id)
              && queue == QueueAfter(selectedAlbum, al.tracks[i - 1].id, old(queue))
              && isPlaying == old(hasPlayer) && hasPlayer
            else PausedInPlace(old(currentTrack), old(selectedAlbum), old(queue), old(hasPlayer))
          case None => PausedInPlace(old(currentTrack), old(selectedAlbum), old(queue), old(hasPlayer))
        }
    {
      if currentTrack.None? || selectedAlbum.None? {
        return;
      }
      var track, al := currentTrack.value, selectedAlbum.value;
      if currentTime > 1.0 {
        return;
      }
      match TrackIndex(al.tracks, track.id) {
      case Some(i) =>
        if i > 0 {
          Play(al.tracks[i - 1]);
        } else {
          isPlaying := false;
        }
      case None =>
        isPlaying := false;
      }
    }

    /** Paused, with everything else as it was. */
    ghost predicate PausedInPlace(track0: Option<Track>, album0: Option<Album>, queue0: seq<Track>, player0: bool)
      reads this
    {
      currentTrack == track0 && selectedAlbum == album0 && queue == queue0 && !isPlaying && hasPlayer == player0
    }
  }
}
