/** What importing a list of files does to the library: for each `.mp3`
    file in order, `processAudioFile` (read the tag, merge the track). */
module Import {
  import opened Wrappers
  import opened Entities
  import opened Catalogue
  import opened Metadata

  /** The library and the next unused identifier. Identifiers stand for the
      UUIDs `Track`, `Album` and `AlbumArtist` draw when they are created. */
  datatype Imported = Imported(lib: Library, nextId: nat)

  /** `updateLibrary` after the track took identifier `nextId`: a new album
      would take `nextId + 1` and a new artist `nextId + 2`. */
  function AddEntry(st: Imported, e: Entry): Imported {
    Imported(Merge(st.lib, e, st.nextId + 1, st.nextId + 2), st.nextId + 3)
  }

  /** `processAudioFile` on a file whose reading yields `probe`. */
  function ProcessFile(st: Imported, url: string, probe: FileProbe): Imported {
    match ExtractEntry(url, probe, st.nextId)
    case None => st
    case Some(e) => AddEntry(st, e)
  }

  /** One iteration of the import loop: only mp3 files are processed. */
  function ImportStep(st: Imported, url: string, probe: FileProbe): Imported {
    if IsMp3(url) then ProcessFile(st, url, probe) else st
  }

  /** The loop `for url in urls where url.pathExtension.lowercased() == "mp3"`
      over `processAudioFile`, `probe` giving what reading each file yields. */
  function ImportAll(st: Imported, urls: seq<string>, probe: string -> FileProbe): Imported {
    if urls == [] then st
    else
      var u := urls[|urls| - 1];
      ImportStep(ImportAll(st, urls[..|urls| - 1], probe), u, probe(u))
  }

  // ---------------------------------------------------------------------------

  /** Adding an entry adds its track and removes none, and draws three
      identifiers. */
  lemma AddEntryAddsTrack(st: Imported, e: Entry)
    ensures LibraryTracks(AddEntry(st, e).lib) == LibraryTracks(st.lib) + multiset{e.track}
    ensures AddEntry(st, e).nextId == st.nextId + 3
  {
    MergeAddsTrack(st.lib, e, st.nextId + 1, st.nextId + 2);
  }

  /** A readable file is filed under an entry read from its tag. */
  lemma ProcessFileReads(st: Imported, url: string, probe: FileProbe)
    requires probe.tag.Some? && probe.duration.Some?
    ensures ProcessFile(st, url, probe) == AddEntry(st, ReadEntry(url, probe.tag.value, probe.duration.value, st.nextId))
  {
  }

  /** A readable file becomes the last track of the album its tag names,
      looked up by artist name and then album title, with the defaults for
      missing frames; the track takes the next identifier. An album that
      already existed keeps its own year and genre; a new one takes the
      file's. */
  lemma ProcessFileFiles(st: Imported, url: string, probe: FileProbe)
    requires probe.tag.Some? && probe.duration.Some?
    ensures var tag := probe.tag.value;
      var artist := FrameText(tag, AlbumArtistFrame, "Unknown Artist");
      var title := FrameText(tag, AlbumFrame, "Unknown Album");
      var track := Track(st.nextId, url, FrameText(tag, TitleFrame, FileStem(url)), tag.trackPosition.GetOr(0), probe.duration.value);
      var before := AlbumOf(st.lib, artist, title);
      var after := AlbumOf(ProcessFile(st, url, probe).lib, artist, title);
      && after.Some?
      && after.value.tracks == (if before.Some? then before.value.tracks else []) + [track]
      && after.value.year == (if before.Some? then before.value.year else TagYear(tag))
      && after.value.genre == (if before.Some? then before.value.genre else FrameText(tag, GenreFrame, "Unknown Genre"))
  {
    var e := ReadEntry(url, probe.tag.value, probe.duration.value, st.nextId);
    ProcessFileReads(st, url, probe);
    AddEntryFiles(st, e);
  }

  /** Filing an entry appends its track to the album its artist name and
      album title find, or makes that album from the entry. */
  lemma AddEntryFiles(st: Imported, e: Entry)
    ensures var before := AlbumOf(st.lib, e.artistName, e.albumTitle);
      var after := AlbumOf(AddEntry(st, e).lib, e.artistName, e.albumTitle);
      && after.Some?
      && after.value.tracks == (if before.Some? then before.value.tracks else []) + [e.track]
      && after.value.year == (if before.Some? then before.value.year else e.year)
      && after.value.genre == (if before.Some? then before.value.genre else e.genre)
  {
    var lib' := Merge(st.lib, e, st.nextId + 1, st.nextId + 2);
    assert AddEntry(st, e).lib == lib';
    MergeFilesTrack(st.lib, e, st.nextId + 1, st.nextId + 2);
    var after := AlbumOf(lib', e.artistName, e.albumTitle);
    match AlbumOf(st.lib, e.artistName, e.albumTitle) {
    case Some(al) =>
      assert after == Some(al.(tracks := al.tracks + [e.track]));
    case None =>
      assert after == Some(NewAlbum(e, st.nextId + 1));
    }
  }

  /** A file whose tag names no artist, album or title is filed under
      "Unknown Artist" and "Unknown Album", titled by its file name without
      the extension. */
  lemma ProcessUntaggedFile(st: Imported, url: string, probe: FileProbe)
    requires probe.tag.Some? && probe.duration.Some?
    requires AlbumArtistFrame !in probe.tag.value.text && AlbumFrame !in probe.tag.value.text
    requires TitleFrame !in probe.tag.value.text
    ensures var after := AlbumOf(ProcessFile(st, url, probe).lib, "Unknown Artist", "Unknown Album");
      && after.Some? && after.value.tracks != []
      && var last := after.value.tracks[|after.value.tracks| - 1];
      && last.id == st.nextId && last.url == url && last.title == FileStem(url)
  {
    ProcessFileFiles(st, url, probe);
  }

  /** A step processes exactly the files that import, and leaves the state
      alone for the others. */
  lemma ImportStepIs(st: Imported, url: string, probe: FileProbe)
    ensures Imports(url, probe) ==> ImportStep(st, url, probe) == AddEntry(st, ExtractEntry(url, probe, st.nextId).value)
    ensures !Imports(url, probe) ==> ImportStep(st, url, probe) == st
  {
  }

  /** A readable file adds its track, under the next identifier; any other
      file changes nothing. */
  lemma ImportStepAddsTrack(st: Imported, url: string, probe: FileProbe)
    ensures var r := ImportStep(st, url, probe);
      && LibraryTracks(st.lib) <= LibraryTracks(r.lib)
      && |LibraryTracks(r.lib)| == |LibraryTracks(st.lib)| + (if Imports(url, probe) then 1 else 0)
      && st.nextId <= r.nextId
  {
    ImportStepIs(st, url, probe);
    if Imports(url, probe) {
      AddEntryAddsTrack(st, ExtractEntry(url, probe, st.nextId).value);
    }
  }

  /** Importing adds exactly one track per mp3 file whose tag and duration
      can be read, and removes none. */
  lemma {:induction false} ImportAllAddsTracks(st: Imported, urls: seq<string>, probe: string -> FileProbe)
    ensures var r := ImportAll(st, urls, probe);
      && LibraryTracks(st.lib) <= LibraryTracks(r.lib)
      && |LibraryTracks(r.lib)| == |LibraryTracks(st.lib)| + ImportCount(urls, probe)
      && st.nextId <= r.nextId
  {
    if urls != [] {
      var init := urls[..|urls| - 1];
      var u := urls[|urls| - 1];
      ImportAllAddsTracks(st, init, probe);
      ImportStepAddsTrack(ImportAll(st, init, probe), u, probe(u));
    }
  }

  /** One step keeps the library's invariant. */
  lemma ImportStepValid(st: Imported, url: string, probe: FileProbe)
    requires LibraryValid(st.lib)
    ensures LibraryValid(ImportStep(st, url, probe).lib)
  {
    ImportStepIs(st, url, probe);
    if Imports(url, probe) {
      AddEntryValid(st, ExtractEntry(url, probe, st.nextId).value);
    }
  }

  lemma AddEntryValid(st: Imported, e: Entry)
    requires LibraryValid(st.lib)
    ensures LibraryValid(AddEntry(st, e).lib)
  {
    MergePreservesValid(st.lib, e, st.nextId + 1, st.nextId + 2);
  }

  /** Importing keeps the library's invariant. */
  lemma {:induction false} ImportAllValid(st: Imported, urls: seq<string>, probe: string -> FileProbe)
    requires LibraryValid(st.lib)
    ensures LibraryValid(ImportAll(st, urls, probe).lib)
  {
    if urls != [] {
      var u := urls[|urls| - 1];
      ImportAllValid(st, urls[..|urls| - 1], probe);
      ImportStepValid(ImportAll(st, urls[..|urls| - 1], probe), u, probe(u));
    }
  }

  /** Files that are not mp3 files are never read. */
  lemma {:induction false} ImportSkipsOthers(st: Imported, urls: seq<string>, probe: string -> FileProbe)
    requires forall k :: 0 <= k < |urls| ==> !IsMp3(urls[k])
    ensures ImportAll(st, urls, probe) == st
  {
    if urls != [] {
      ImportSkipsOthers(st, urls[..|urls| - 1], probe);
    }
  }
}

/** Importing followed by `organizeLibrary`, as `addFilesToLibrary` and
    `scanFolder` do it. */
module Refresh {
  import opened Wrappers
  import opened Entities
  import opened Catalogue
  import opened Organize
  import opened Metadata
  import opened Import

  /** `addFilesToLibrary` and the body of `scanFolder`: import the files,
      then `organizeLibrary`. */
  function ImportAndOrganize(st: Imported, urls: seq<string>, probe: string -> FileProbe): Imported {
    var r := ImportAll(st, urls, probe);
    Imported(Organized(r.lib), r.nextId)
  }

  /** After an import the library is valid and organized, keeps every track
      it had, and has one more track per imported file. */
  lemma ImportAndOrganizeSound(st: Imported, urls: seq<string>, probe: string -> FileProbe)
    requires LibraryValid(st.lib)
    ensures var r := ImportAndOrganize(st, urls, probe);
      && LibraryValid(r.lib) && IsOrganized(r.lib)
      && LibraryTracks(st.lib) <= LibraryTracks(r.lib)
      && |LibraryTracks(r.lib)| == |LibraryTracks(st.lib)| + ImportCount(urls, probe)
  {
    var r := ImportAll(st, urls, probe);
    ImportAllValid(st, urls, probe);
    ImportAllAddsTracks(st, urls, probe);
    OrganizedPreservesValid(r.lib);
    OrganizedIsOrganized(r.lib);
    OrganizedPermutes(r.lib);
  }

  /** The body of `scanFolder` once the folder is known: nothing when the
      folder cannot be listed, otherwise an import of what it lists. */
  function Scanned(st: Imported, listing: Option<seq<string>>, probe: string -> FileProbe): Imported {
    match listing
    case None => st
    case Some(urls) => ImportAndOrganize(st, urls, probe)
  }
}
