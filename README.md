# MusicBox library and playback core in Dafny

MusicBox is a macOS music player. Its core is `AudioLibraryViewModel`. The
view model:

- scans a folder or a list of files for `.mp3` files;
- reads each file's ID3 tag and duration;
- files each track under its album artist and album, creating either when it
  is missing;
- sorts the library: artists by name, each artist's albums newest first then
  by title, each album's tracks by track number;
- drives playback: play a track, select the album that holds it, queue the
  rest of that album, move to the next or previous track, pause, resume and
  set the volume.

The track list shows durations as `m:ss`, using `formatDuration`.

The model follows the source's form:

- The view model is a class, `ViewModel.AudioLibraryViewModel`. It has the
  same fields, and its methods change them in place.
  - `ImportFiles` is the `for url in urls where …` loop.
  - `OrganizeLibrary` and `OrganizeArtistAt` are the nested sorting loops.
  - `FindAlbumForTrack` is the search loop.
- Each method is proved against a pure specification on values:
  - `Catalogue.Merge` for `updateLibrary`.
  - `Organize.Organized` for `organizeLibrary`.
  - `Import.ImportAll` for the import loop.
  - `Session.AlbumWithTrack` and `Session.QueueAfter` for the playback helpers.
- The properties of those specifications are proved as lemmas:
  - no track is lost or duplicated;
  - the library's invariant is preserved;
  - the orderings hold, and organizing is idempotent;
  - playing a track of the library queues the rest of its album;
  - the duration text reads back to the duration.

Modules, in dependency order:

| module | file | models |
|---|---|---|
| `Wrappers` | wrappers.dfy | Swift optionals and `??` |
| `Seqs` | seqs.dfy | `firstIndex(where:)`, `map`, the multiset of the tracks of nested collections |
| `Sorting` | sorting.dfy | `sort(by:)` with a strict weak order, as an insertion sort |
| `Text` | text.dfy | `String <`, `lowercased()`, `Int(String)`, `%d` and `%02d` |
| `Entities` | entities.dfy | the `Track`, `Album` and `AlbumArtist` structs |
| `Catalogue` | catalogue.dfy | `updateLibrary`: where a track is filed |
| `Organize` | organize.dfy | `organizeLibrary` |
| `Metadata` | metadata.dfy | the mp3 filter, the URL's stem and extension, the tag defaults of `processAudioFile` |
| `Import`, `Refresh` | import.dfy | the import loop of `addFilesToLibrary` and `scanFolder`, followed by organizing |
| `Session` | session.dfy | `findAlbumForTrack`, `updateQueue`, where `nextTrack` parks |
| `DurationFormat` | duration.dfy | `formatDuration` |
| `ViewModel` | view_model.dfy | `AudioLibraryViewModel` itself |

The model stands in for the following outside pieces:

- **Identifiers.** The UUIDs that `Track`, `Album` and `AlbumArtist` draw when
  they are created come from a counter, `nextId`.
  - The track takes `nextId`.
  - A new album, if one is made, takes `nextId + 1`.
  - A new artist, if one is made, takes `nextId + 2`.
  - Fresh identifiers are all that the UUIDs provide here.
- **The file system.** `directory` stands for
  `FileManager.contentsOfDirectory`: a folder lists to `None` when it cannot
  be read.
- **The tag reader.** `probe` stands for the tag reader together with
  `AVAsset`'s duration load. A file yields a `FileProbe`:
  - the tag is `None` when the reader returns nil or throws;
  - the duration is `None` when loading it throws.
- **Settings.** `UserDefaults` becomes a `Defaults` object holding a map of
  strings.
- **The player.** The AVFoundation player becomes `hasPlayer`, which records
  whether the `player` optional holds a player.
- **The player's callbacks.** These become methods that the environment
  calls:
  - `PlayerDidFinishPlaying` and `PlayerDidFail`;
  - `TimeObserved`, for the periodic time observer;
  - `DurationLoaded`, for the end of the duration load.

## Behaviour the model keeps as written

The model keeps the following behaviour of the code as it is:

- **Merging the same file twice.** The code keeps both tracks, because it
  always appends and never deduplicates. `Catalogue.MergeSameFileTwice`
  proves this. A deduplicating merge would keep one track; this code keeps
  both.
- **No removal.** Nothing removes a track, an album or an artist, so there is
  no pruning and no scan diff. A rescan imports every mp3 file again.
  `Catalogue.MergeExtends` shows that a merge only ever adds.
- **Volume.** `setVolume` stores the value as given, with no clamping.
- **Sorting artists.** Artists are sorted, not deduplicated. They are
  strictly ascending by name only because `updateLibrary` never creates two
  artists with the same name. `Organize.OrganizedStrictlyOrdered` proves
  this from `Catalogue.LibraryValid`.
- **The first `play`.** With no player yet, `play` creates the player and then
  throws. The catch block sets `isPlaying` to false, so the very first `play`
  does not start playback. Every later `play` does.
  `ViewModel.AudioLibraryViewModel.Play` states this as
  `isPlaying == old(hasPlayer)`.

## Model

| member | source | states |
|---|---|---|
| Seqs.FirstIndex | MusicBox/AudioLibraryViewModel.swift:110-111 | `firstIndex(where:)`: the result satisfies the test and nothing before it does; `None` exactly when no element does |
| Sorting.SortBy | MusicBox/AudioLibraryViewModel.swift:126 | sorting is a permutation of its input |
| Sorting.SortBySorted | MusicBox/AudioLibraryViewModel.swift:126 | under a strict weak order, the result is sorted |
| Sorting.SortByIdempotent | MusicBox/AudioLibraryViewModel.swift:126 | sorting a sorted result changes nothing |
| Sorting.SortByDistinct | MusicBox/AudioLibraryViewModel.swift:133 | sorting keeps the keys of the elements distinct |
| Text.LexLessIrreflexive | MusicBox/AudioLibraryViewModel.swift:133 | `String <` is irreflexive |
| Text.LexLessTransitive | MusicBox/AudioLibraryViewModel.swift:133 | `String <` is transitive |
| Text.LexLessTotal | MusicBox/AudioLibraryViewModel.swift:133 | of two different strings, one is less than the other |
| Text.LowercasedIgnoresCase | MusicBox/AudioLibraryViewModel.swift:48 | two strings lower-case alike exactly when they have the same length and differ only in the case of ASCII letters |
| Text.LowercasedIdempotent | MusicBox/AudioLibraryViewModel.swift:48 | lower-casing twice is lower-casing once |
| Text.ParseInt | MusicBox/AudioLibraryViewModel.swift:80 | `Int(String)` succeeds only on an optional sign followed by at least one digit and nothing else, within the 64-bit range; the value is the digits' value, negated after `-` |
| Text.ParseIntDecimal | MusicBox/AudioLibraryViewModel.swift:80 | any decimal up to the largest 64-bit `Int`, with or without a sign, parses back to its value |
| Text.ParseIntNegative | MusicBox/AudioLibraryViewModel.swift:80 | any negative decimal down to the least 64-bit `Int` parses back to its value |
| Text.Decimal | MusicBox/LibraryView.swift:121 | `%d` of a natural number writes at least one digit, digits only, with no leading zero |
| Text.DecimalValue | MusicBox/LibraryView.swift:121 | reading the digits `%d` writes gives back the number |
| Text.DecimalInjective | MusicBox/LibraryView.swift:121 | different numbers are written differently |
| Text.ZeroPad | MusicBox/LibraryView.swift:121 | the padding of `%02d` is zeros on the left up to the width, with the text unchanged at the end |
| Text.TwoDigits | MusicBox/LibraryView.swift:121 | `%02d` of a number below 100 is its tens digit, then its units digit |
| Metadata.LastIndexOf | MusicBox/AudioLibraryViewModel.swift:48 | the last occurrence of a character, or `None` exactly when the character is absent |
| Metadata.LastComponentIsSuffix | MusicBox/AudioLibraryViewModel.swift:76 | the last path component is a suffix of the path and contains no `/` |
| Metadata.StemAndExtension | MusicBox/AudioLibraryViewModel.swift:76 | the file name is its stem, a dot and its extension, and the extension has no dot; without an extension the stem is the whole name |
| Metadata.Mp3Spellings | MusicBox/AudioLibraryViewModel.swift:48 | a file passes the filter exactly when its extension is `mp3` in any letter case |
| Metadata.TagYearNotANumber | MusicBox/AudioLibraryViewModel.swift:78-83 | a year frame holding anything but digits after one optional sign is read as year 0 |
| Metadata.TagYearNoDigits | MusicBox/AudioLibraryViewModel.swift:78-83 | an empty year frame, or one holding only a sign, is read as year 0 |
| Metadata.TagYearOverflow | MusicBox/AudioLibraryViewModel.swift:80 | a year above the largest 64-bit `Int`, with or without `+`, is read as year 0 |
| Metadata.TagYearUnderflow | MusicBox/AudioLibraryViewModel.swift:80 | a year below the least 64-bit `Int` is read as year 0 |
| Metadata.TagYearDecimal | MusicBox/AudioLibraryViewModel.swift:79-80 | a year written in decimal is read back as that year |
| Metadata.ImportCount | MusicBox/AudioLibraryViewModel.swift:48-49 | no more tracks are added than files are given |
| Catalogue.ArtistIndex | MusicBox/AudioLibraryViewModel.swift:110 | the first artist with the name, or `None` exactly when no artist has it |
| Catalogue.AlbumIndex | MusicBox/AudioLibraryViewModel.swift:111 | the first album with the title, or `None` exactly when no album has it |
| Catalogue.MergeAlbumsAt | MusicBox/AudioLibraryViewModel.swift:111-116 | the recursive merge into one artist's albums either appends the track to the first album with the title or appends a new album |
| Catalogue.MergeAt | MusicBox/AudioLibraryViewModel.swift:109-122 | the recursive merge updates the first artist with the name in place, or else appends a new artist |
| Catalogue.MergeIntoExistingAlbum | MusicBox/AudioLibraryViewModel.swift:110-112 | with a known artist and album, only that album changes: the track is appended, and its id, title, year, genre and artwork stay |
| Catalogue.MergeCreatesAlbum | MusicBox/AudioLibraryViewModel.swift:113-116 | a known artist with a new title gets one album at the end, holding only the track |
| Catalogue.MergeCreatesArtist | MusicBox/AudioLibraryViewModel.swift:117-121 | an unknown artist is appended, with one album holding only the track |
| Catalogue.MergeAddsTrack | MusicBox/AudioLibraryViewModel.swift:109-122 | the library's tracks gain exactly the new track, and no track is lost |
| Catalogue.MergeFilesTrack | MusicBox/AudioLibraryViewModel.swift:109-122 | looking up the entry's artist and album afterwards finds the old album with the track appended, or the new album |
| Catalogue.MergeSameFileTwice | MusicBox/AudioLibraryViewModel.swift:109-122 | importing the same file twice keeps two tracks, which end the album in import order |
| Catalogue.MergeExtends | MusicBox/AudioLibraryViewModel.swift:109-122 | a merge only appends: artists, albums and earlier tracks keep their places and fields |
| Catalogue.MergePreservesValid | MusicBox/AudioLibraryViewModel.swift:110-121 | artist names and album titles stay unique, and no artist or album is empty |
| Organize.TrackOrder | MusicBox/AudioLibraryViewModel.swift:129 | the track comparator is a strict weak order |
| Organize.AlbumOrder | MusicBox/AudioLibraryViewModel.swift:126 | the album comparator (year descending, then title) is a strict weak order |
| Organize.ArtistOrder | MusicBox/AudioLibraryViewModel.swift:133 | the artist comparator is a strict weak order |
| Organize.OrganizeAlbumPermutes | MusicBox/AudioLibraryViewModel.swift:129 | an album's tracks are permuted into track-number order, and its other fields are kept |
| Organize.OrganizeArtistPermutes | MusicBox/AudioLibraryViewModel.swift:126-130 | an artist's albums are permuted and ordered, each album's tracks are ordered, and the artist's tracks are unchanged |
| Organize.OrganizedPermutes | MusicBox/AudioLibraryViewModel.swift:124-134 | organizing permutes the organized artists and keeps exactly the library's tracks |
| Organize.OrganizedIsOrganized | MusicBox/AudioLibraryViewModel.swift:124-134 | afterwards, artists are sorted by name, albums by year then title, and tracks by number |
| Organize.OrganizedPreservesValid | MusicBox/AudioLibraryViewModel.swift:124-134 | organizing keeps the library's invariant |
| Organize.OrganizedStrictlyOrdered | MusicBox/AudioLibraryViewModel.swift:126-133 | in a valid library, artists end up strictly ascending by name, and albums strictly by year descending then title |
| Organize.OrganizedIdempotent | MusicBox/AudioLibraryViewModel.swift:124-134 | organizing twice is organizing once |
| Import.AddEntryAddsTrack | MusicBox/AudioLibraryViewModel.swift:91-93 | filing an entry adds its track and draws three identifiers |
| Import.ProcessFileFiles | MusicBox/AudioLibraryViewModel.swift:69-122 | a readable file becomes the last track of the album its tag names (with the defaults for missing frames), under the next identifier; an existing album keeps its own year and genre, a new one takes the file's |
| Import.AddEntryFiles | MusicBox/AudioLibraryViewModel.swift:109-122 | filing an entry appends its track to the album found by artist name and album title, or creates that album from the entry |
| Import.ProcessUntaggedFile | MusicBox/AudioLibraryViewModel.swift:74-76 | a file whose tag has no artist, album or title frame is filed under "Unknown Artist" and "Unknown Album", titled by its file name without the extension |
| Import.ImportStepAddsTrack | MusicBox/AudioLibraryViewModel.swift:48-49 | one step adds one track for an imported file and none otherwise |
| Import.ImportAllAddsTracks | MusicBox/AudioLibraryViewModel.swift:46-50 | importing keeps every track and adds exactly one per importable file |
| Import.ImportAllValid | MusicBox/AudioLibraryViewModel.swift:46-50 | importing keeps the library's invariant |
| Import.ImportSkipsOthers | MusicBox/AudioLibraryViewModel.swift:60 | files that are not mp3 files change nothing |
| Refresh.ImportAndOrganizeSound | MusicBox/AudioLibraryViewModel.swift:46-53 | after adding files the library is valid and organized, keeps every track, and has one more track per importable file |
| Session.TrackIndex | MusicBox/AudioLibraryViewModel.swift:266 | the first track with the id, or `None` exactly when no track has it |
| Session.AlbumWithTrack | MusicBox/AudioLibraryViewModel.swift:271-278 | the album found holds the track, and `None` means no album does |
| Session.AlbumWithTrackIsFirst | MusicBox/AudioLibraryViewModel.swift:271-278 | the album found is the first holder, in artist order then album order |
| Session.OrganizedStart | MusicBox/AudioLibraryViewModel.swift:231-235 | in a valid organized library, `nextTrack` parks on the first artist by name (strictly before every other), on its newest album, and on that album's lowest-numbered track |
| Session.QueueIsRemainder | MusicBox/AudioLibraryViewModel.swift:264-268 | the queue is the album's tracks after the played one |
| Session.PlayFromLibrary | MusicBox/AudioLibraryViewModel.swift:136-139 | with unique ids, playing a library track selects its own album and queues the rest of that album |
| Session.PreviousRequeues | MusicBox/AudioLibraryViewModel.swift:252-254 | going back to the previous track queues the album from the track just left |
| Session.ValidLibraryHasStart | MusicBox/AudioLibraryViewModel.swift:231-233 | a valid, non-empty library always has a place to park |
| DurationFormat.MinutesSecondsShape | MusicBox/LibraryView.swift:121 | `%d:%02d` is the unpadded minutes, `:`, then two digits, and each part reads back |
| DurationFormat.FormatDurationValue | MusicBox/LibraryView.swift:118-122 | the text reads back as minutes and seconds below 60 that add up to the duration |
| DurationFormat.FormatDurationReadsBack | MusicBox/LibraryView.swift:118-122 | the text parses as `m:ss` and reads back as the duration |
| DurationFormat.FormatDurationInjective | MusicBox/LibraryView.swift:118-122 | different whole-second durations are shown differently |
| DurationFormat.FormatDuration | MusicBox/LibraryView.swift:118-122 | reference definition of `formatDuration` on whole seconds; its properties are FormatDurationValue, FormatDurationReadsBack and FormatDurationInjective |
| DurationFormat.MinutesSeconds | MusicBox/LibraryView.swift:121 | reference definition of `String(format: "%d:%02d", …)`; its property is MinutesSecondsShape |
| Catalogue.Merge | MusicBox/AudioLibraryViewModel.swift:109-122 | reference definition of `updateLibrary`; its properties are MergeAt, MergeIntoExistingAlbum, MergeCreatesAlbum, MergeCreatesArtist, MergeAddsTrack, MergeFilesTrack, MergeExtends and MergePreservesValid |
| Catalogue.MergeAlbums | MusicBox/AudioLibraryViewModel.swift:111-116 | reference definition of the update to one artist's albums; its properties are MergeAlbumsAt and MergeAlbumsAddsTrack |
| Organize.Organized | MusicBox/AudioLibraryViewModel.swift:124-134 | reference definition of `organizeLibrary`; its properties are OrganizedPermutes, OrganizedIsOrganized, OrganizedPreservesValid, OrganizedStrictlyOrdered and OrganizedIdempotent |
| Organize.OrganizeArtist | MusicBox/AudioLibraryViewModel.swift:126-130 | reference definition of the loop body for one artist; its properties are OrganizeArtistPermutes and OrganizeArtistIdempotent |
| Organize.OrganizeAlbum | MusicBox/AudioLibraryViewModel.swift:129 | reference definition of sorting one album's tracks; its property is OrganizeAlbumPermutes |
| Session.QueueAfter | MusicBox/AudioLibraryViewModel.swift:264-269 | reference definition of `updateQueue`; its properties are QueueIsRemainder, PlayFromLibrary and PreviousRequeues |
| Session.LibraryStart | MusicBox/AudioLibraryViewModel.swift:231-233 | reference definition of where `nextTrack` parks; its properties are ValidLibraryHasStart and OrganizedStart |
| Metadata.IsMp3 | MusicBox/AudioLibraryViewModel.swift:48 | reference definition of the filter `pathExtension.lowercased() == "mp3"`; its property is Mp3Spellings |
| Metadata.PathExtension | MusicBox/AudioLibraryViewModel.swift:48 | reference definition of `pathExtension`; its property is StemAndExtension |
| Metadata.FileStem | MusicBox/AudioLibraryViewModel.swift:76 | reference definition of `deletingPathExtension().lastPathComponent`; its property is StemAndExtension |
| Metadata.LastComponent | MusicBox/AudioLibraryViewModel.swift:76 | reference definition of `lastPathComponent` on file paths, which never end in `/`; its property is LastComponentIsSuffix |
| Metadata.TagYear | MusicBox/AudioLibraryViewModel.swift:78-83 | reference definition of the year read from the tag; its properties are TagYearDecimal, TagYearNotANumber, TagYearNoDigits, TagYearOverflow and TagYearUnderflow |
| Metadata.ReadEntry | MusicBox/AudioLibraryViewModel.swift:74-91 | reference definition of the arguments `processAudioFile` passes to `updateLibrary`; its properties are ProcessFileFiles and ProcessUntaggedFile |
| Import.AddEntry | MusicBox/AudioLibraryViewModel.swift:91-93 | reference definition of filing an entry with fresh identifiers; its properties are AddEntryAddsTrack, AddEntryFiles and AddEntryValid |
| Import.ProcessFile | MusicBox/AudioLibraryViewModel.swift:69-97 | reference definition of `processAudioFile`; its properties are ProcessFileFiles and ProcessUntaggedFile |
| Import.ImportStep | MusicBox/AudioLibraryViewModel.swift:48-49 | reference definition of one iteration of the import loop; its properties are ImportStepAddsTrack and ImportStepValid |
| Import.ImportAll | MusicBox/AudioLibraryViewModel.swift:46-50 | reference definition of the import loop; its properties are ImportAllAddsTracks, ImportAllValid and ImportSkipsOthers |
| Refresh.ImportAndOrganize | MusicBox/AudioLibraryViewModel.swift:46-53 | reference definition of `addFilesToLibrary`; its property is ImportAndOrganizeSound |
| Refresh.Scanned | MusicBox/AudioLibraryViewModel.swift:55-67 | reference definition of `scanFolder` once the folder is known; the property of its import branch is ImportAndOrganizeSound |
| ViewModel.Defaults.constructor | MusicBox/AudioLibraryViewModel.swift:34 | the settings store holds the given strings |
| ViewModel.AudioLibraryViewModel.constructor | MusicBox/AudioLibraryViewModel.swift:16-25 | the initial state: no folder, an empty library, nothing selected or playing, volume 0.5, an empty queue |
| ViewModel.AudioLibraryViewModel.SetMusicFolder | MusicBox/AudioLibraryViewModel.swift:32-35 | the folder is remembered here and under "MusicFolderURL" |
| ViewModel.AudioLibraryViewModel.LoadMusicFolder | MusicBox/AudioLibraryViewModel.swift:37-44 | with a saved folder, it is restored and scanned; without one, nothing changes |
| ViewModel.AudioLibraryViewModel.ScanFolder | MusicBox/AudioLibraryViewModel.swift:55-67 | nothing happens without a folder or when the folder cannot be listed; otherwise its files are imported and the library is organized |
| ViewModel.AudioLibraryViewModel.AddFilesToLibrary | MusicBox/AudioLibraryViewModel.swift:46-53 | afterwards the library is valid and organized, keeps every track, and has one more track per importable file |
| ViewModel.AudioLibraryViewModel.ImportFiles | MusicBox/AudioLibraryViewModel.swift:48-49 | the filtering loop computes the import specification and keeps the invariant |
| ViewModel.AudioLibraryViewModel.ProcessAudioFile | MusicBox/AudioLibraryViewModel.swift:69-97 | an unreadable file changes nothing; a readable one is filed under its tag's fields |
| ViewModel.AudioLibraryViewModel.UpdateLibrary | MusicBox/AudioLibraryViewModel.swift:109-122 | the in-place update computes the merge specification |
| ViewModel.AudioLibraryViewModel.OrganizeLibrary | MusicBox/AudioLibraryViewModel.swift:124-134 | the loops compute the organize specification, and the library ends valid and organized |
| ViewModel.AudioLibraryViewModel.OrganizeArtistAt | MusicBox/AudioLibraryViewModel.swift:125-131 | one artist is organized in place, and the others are untouched |
| ViewModel.AudioLibraryViewModel.FindAlbumForTrack | MusicBox/AudioLibraryViewModel.swift:271-278 | the search loop returns the first album holding the track |
| ViewModel.AudioLibraryViewModel.UpdateQueue | MusicBox/AudioLibraryViewModel.swift:264-269 | the queue becomes the selected album's tracks after the track, or is kept when there is no album or no such track |
| ViewModel.AudioLibraryViewModel.Play | MusicBox/AudioLibraryViewModel.swift:136-177 | the track becomes current, its album is selected, the rest of the album is queued, and playback starts exactly when a player already existed |
| ViewModel.AudioLibraryViewModel.StartPlayer | MusicBox/AudioLibraryViewModel.swift:141-176 | with no player, one is created and playback stays off; otherwise playback starts |
| ViewModel.AudioLibraryViewModel.PlayerDidFinishPlaying | MusicBox/AudioLibraryViewModel.swift:179-181 | the end of a track behaves as `nextTrack` |
| ViewModel.AudioLibraryViewModel.PlayerDidFail | MusicBox/AudioLibraryViewModel.swift:183-191 | playback stops |
| ViewModel.AudioLibraryViewModel.TimeObserved | MusicBox/AudioLibraryViewModel.swift:195-197 | the observed time becomes `currentTime` |
| ViewModel.AudioLibraryViewModel.DurationLoaded | MusicBox/AudioLibraryViewModel.swift:159-164 | the loaded duration becomes `duration` |
| ViewModel.AudioLibraryViewModel.TogglePlayPause | MusicBox/AudioLibraryViewModel.swift:207-214 | `isPlaying` flips |
| ViewModel.AudioLibraryViewModel.SetVolume | MusicBox/AudioLibraryViewModel.swift:220-223 | the volume is stored unclamped |
| ViewModel.AudioLibraryViewModel.NextTrack | MusicBox/AudioLibraryViewModel.swift:225-241 | the queue's head is played and removed from the queue; with an empty queue, playback parks paused on the first track of the first album, or nothing changes if there is none |
| ViewModel.AudioLibraryViewModel.PreviousTrack | MusicBox/AudioLibraryViewModel.swift:243-262 | nothing happens with no track or album, or after more than one second; otherwise the previous track of the album plays, or playback pauses on the first track |

## Left out

- Audio output, `seek(to:)` and the player's own position are not modelled. A seek moves only the player's position, so `PreviousTrack` and `NextTrack` change nothing the model holds where the source seeks.
- Registering and removing the periodic time observer is left out. Its callback is `TimeObserved`.
- The callbacks are over-approximated. The environment may call `PlayerDidFinishPlaying`, `PlayerDidFail`, `TimeObserved` and `DurationLoaded` at any time. In the source, the first `play` throws before it sets up the time observer, the duration load and the notifications, so none of these callbacks can follow it until a later `play` sets them up.
- The `NotificationCenter` registrations in `play` are left out. Their callbacks are `PlayerDidFinishPlaying` and `PlayerDidFail`.
- `Task` and `@MainActor` scheduling are left out. An import and its `organizeLibrary` run to completion, in file order, with nothing interleaved.
- The concurrent duration load started by `play` is the separate `DurationLoaded` call.
- ID3 parsing is out of scope. `Metadata.ID3Tag` is what the tag reader hands over: the text frames present, the track-position part, and the front cover.
- Decoding the cover with `NSImage` is out of scope. It is folded into `ID3Tag.frontCover`, which is `None` when the data does not decode.
- `loadArtwork` is covered only as the `artwork` field taken from `frontCover`.
- The `FileManager` directory listing and `AVAsset` are out of scope. They are the parameters `directory` and `probe`.
- `UserDefaults.standard` is the `Defaults` object passed to the methods.
- `handleError`, `print`, the deinit handler, `removeTimeObserver` and `cleanup` have no effect on the modelled state and are left out.
- The SwiftUI views (`LibraryView.swift` apart from `formatDuration`, `PreferencesView.swift`, `MusicBoxApp.swift`) are not part of this model.
- `selectedAlbumArtist` is a field that no core method writes. It stays as the constructor sets it.
- `AlbumArtist` equality compares ids only. No modelled operation compares artists, so the model does not model that equality.
- `DurationFormat.FormatDuration`: takes the whole seconds `Int(duration)` as a `nat`. The `Double` to `Int` truncation, negative durations and non-finite durations are not modelled. The minutes are printed as an unbounded number, but `%d` reads a 32-bit C `int`, so the source prints 2^31 minutes or more wrapped (60 * 2^32 seconds shows as "0:00"). `FormatDurationValue`, `FormatDurationReadsBack` and `FormatDurationInjective` therefore describe the source only for durations below 2^31 minutes.
- `Text.Decimal`: renders any natural number. The `%d` it stands for renders the argument modulo 2^32, read as a signed 32-bit number, so the two agree only below 2^31.
- `Catalogue.ArtistIndex`: Swift's `String ==` in `firstIndex(where:)` compares by Unicode canonical equivalence; the model compares character sequences. A name written with a precomposed "é" and the same name written as "e" plus a combining accent are one artist in the source but two in the model, so the second track gets a new artist, and `Catalogue.LibraryValid`'s uniqueness holds only per character sequence.
- `Catalogue.AlbumIndex`: compares album titles by character sequence, not by Unicode canonical equivalence, with the same effect on which album a track is filed under.
- `Text.LexLess`: Swift compares strings by Unicode canonical ordering. The model compares character by character, which agrees on text without combining sequences.
- `Text.Lowercased`: lower-cases ASCII letters only. Swift's `lowercased()` is Unicode-aware. The filter's target "mp3" is ASCII, so the two filters differ only on a non-ASCII letter whose lower case is ASCII `m` or `p`.
- `Sorting.SortBy`: a stable insertion sort. Swift does not document the order of equal elements, so where equal elements occur the model fixes one order. In a valid library this matters only for tracks of one album that share a track number.
- `volume`, `currentTime` and `duration` are `real`, not `Float` or `TimeInterval`. Rounding is not modelled.
- Track-id uniqueness holds because the UUIDs are fresh. The model assumes it as a hypothesis (`Session.UniqueTrackIds`) of `Session.PlayFromLibrary`, rather than proving it from the identifier counter.
