/** `processAudioFile`'s pure part: which files are read (the `.mp3`
    filter), and how the tag frames become `updateLibrary`'s arguments. */
module Metadata {
  import opened Wrappers
  import opened Text
  import opened Entities
  import opened Catalogue

  /** The position of the last occurrence of `c` in `s`. */
  function LastIndexOf(s: string, c: char): (r: Option<nat>)
    ensures r.Some? ==> r.value < |s| && s[r.value] == c
    ensures r.Some? ==> forall k :: r.value < k < |s| ==> s[k] != c
    ensures r.None? <==> c !in s
  {
    LastIndexBelow(s, c, |s|)
  }

  /** The position of the last occurrence of `c` among the first `n`
      characters of `s`. */
  function LastIndexBelow(s: string, c: char, n: nat): (r: Option<nat>)
    requires n <= |s|
    ensures r.Some? ==> r.value < n && s[r.value] == c
    ensures r.Some? ==> forall k :: r.value < k < n ==> s[k] != c
    ensures r.None? <==> forall k :: 0 <= k < n ==> s[k] != c
  {
    if n == 0 then None
    else if s[n - 1] == c then Some(n - 1)
    else LastIndexBelow(s, c, n - 1)
  }

  /** `url.lastPathComponent`: the text after the last '/'. Unlike
      `lastPathComponent` this gives "" for a path ending in '/', which the
      path of a file never does. */
  function LastComponent(path: string): string {
    match LastIndexOf(path, '/')
    case None => path
    case Some(k) => path[k + 1..]
  }

  /** The last component is a suffix of the path holding no '/'. */
  lemma LastComponentIsSuffix(path: string)
    ensures '/' !in LastComponent(path)
    ensures |LastComponent(path)| <= |path| && path[|path| - |LastComponent(path)|..] == LastComponent(path)
  {
  }

  /** The last '.' of the file name, unless it is its first character (a
      hidden file such as ".mp3" has no extension). */
  function ExtensionDot(name: string): Option<nat> {
    match LastIndexOf(name, '.')
    case Some(d) => if d > 0 then Some(d) else None
    case None => None
  }

  /** `url.pathExtension`. */
  function PathExtension(path: string): string {
    var name := LastComponent(path);
    match ExtensionDot(name)
    case Some(d) => name[d + 1..]
    case None => ""
  }

  /** `url.deletingPathExtension().lastPathComponent`. */
  function FileStem(path: string): string {
    var name := LastComponent(path);
    match ExtensionDot(name)
    case Some(d) => name[..d]
    case None => name
  }

  /** The file name splits into stem and extension around a '.', and the
      extension holds no '.'; without an extension the stem is the name. */
  lemma StemAndExtension(path: string)
    ensures ExtensionDot(LastComponent(path)).Some? ==>
      LastComponent(path) == FileStem(path) + "." + PathExtension(path) && FileStem(path) != [] && '.' !in PathExtension(path)
    ensures ExtensionDot(LastComponent(path)).None? ==> FileStem(path) == LastComponent(path) && PathExtension(path) == ""
  {
    var name := LastComponent(path);
    if ExtensionDot(name).Some? {
      var d := ExtensionDot(name).value;
      assert name == name[..d] + "." + name[d + 1..];
    }
  }

  /** The filter of `addFilesToLibrary` and `scanFolder`:
      `url.pathExtension.lowercased() == "mp3"`. */
  predicate IsMp3(path: string) {
    Lowercased(PathExtension(path)) == "mp3"
  }

  /** Exactly the four spellings mp3, mP3, Mp3 and MP3 pass the filter. */
  lemma Mp3Spellings(path: string)
    ensures var e := PathExtension(path);
      IsMp3(path) <==> |e| == 3 && (e[0] == 'm' || e[0] == 'M') && (e[1] == 'p' || e[1] == 'P') && e[2] == '3'
  {
    LowercasedIsMp3(PathExtension(path));
  }

  lemma LowercasedIsMp3(e: string)
    ensures Lowercased(e) == "mp3" <==> |e| == 3 && (e[0] == 'm' || e[0] == 'M') && (e[1] == 'p' || e[1] == 'P') && e[2] == '3'
  {
    var l := Lowercased(e);
    if |e| == 3 {
      assert l == "mp3" <==> l[0] == 'm' && l[1] == 'p' && l[2] == '3';
      LowerIs(e[0], 'm', 'M');
      LowerIs(e[1], 'p', 'P');
      LowerIs(e[2], '3', '3');
    }
  }

  /** Which characters lower-case to `lower`: itself and `upper`. */
  lemma LowerIs(c: char, lower: char, upper: char)
    requires ('a' <= lower <= 'z' && upper as int == lower as int - 32) || (lower == upper && !('A' <= lower <= 'Z') && !('a' <= lower <= 'z'))
    ensures AsciiLower(c) == lower <==> c == lower || c == upper
  {
  }

  /** The ID3 text frames `processAudioFile` reads. */
  datatype TextFrame = AlbumArtistFrame | AlbumFrame | TitleFrame | RecordingYearFrame | GenreFrame

  /** A tag as the tag reader hands it over: the text frames present (with
      string content), the part number of the track-position frame, and the
      front-cover picture when it decodes to an image. */
  datatype ID3Tag = ID3Tag(text: map<TextFrame, string>, trackPosition: Option<int>, frontCover: Option<Artwork>)

  /** What reading one file yields: its tag (`None` when the reader returns
      nil or throws) and its duration (`None` when loading it throws). */
  datatype FileProbe = FileProbe(tag: Option<ID3Tag>, duration: Option<real>)

  /** `(frame as? ID3FrameWithStringContent)?.content ?? default`. */
  function FrameText(tag: ID3Tag, f: TextFrame, default: string): string {
    if f in tag.text then tag.text[f] else default
  }

  /** The year: the recording-year text read as `Int`, or 0. */
  function TagYear(tag: ID3Tag): int {
    if RecordingYearFrame in tag.text then ParseInt(tag.text[RecordingYearFrame]).GetOr(0) else 0
  }

  /** A year frame with a character other than the digits and one leading
      sign is read as year 0 (`Int(recordingYear) ?? 0`). */
  lemma TagYearNotANumber(tag: ID3Tag, k: nat)
    requires RecordingYearFrame in tag.text
    requires var s := tag.text[RecordingYearFrame];
      k < |s| && !IsDigit(s[k]) && (k > 0 || s[0] !in "+-")
    ensures TagYear(tag) == 0
  {
  }

  /** An empty year frame, or one holding only a sign, is read as year 0. */
  lemma TagYearNoDigits(tag: ID3Tag)
    requires RecordingYearFrame in tag.text
    requires tag.text[RecordingYearFrame] in ["", "+", "-"]
    ensures TagYear(tag) == 0
  {
  }

  /** A year above the largest 64-bit `Int`, written with or without `+`,
      is read as year 0. */
  lemma TagYearOverflow(tag: ID3Tag, n: nat)
    requires n > Int64Max
    requires RecordingYearFrame in tag.text
    requires tag.text[RecordingYearFrame] in [Decimal(n), "+" + Decimal(n)]
    ensures TagYear(tag) == 0
  {
    DecimalValue(n);
    assert ("+" + Decimal(n))[1..] == Decimal(n);
  }

  /** A year below the least 64-bit `Int` is read as year 0. */
  lemma TagYearUnderflow(tag: ID3Tag, n: nat)
    requires n > -Int64Min
    requires RecordingYearFrame in tag.text && tag.text[RecordingYearFrame] == "-" + Decimal(n)
    ensures TagYear(tag) == 0
  {
    DecimalValue(n);
    assert ("-" + Decimal(n))[1..] == Decimal(n);
  }

  /** A year written in decimal is read back as that year. */
  lemma TagYearDecimal(tag: ID3Tag, n: nat)
    requires n <= Int64Max
    requires RecordingYearFrame in tag.text && tag.text[RecordingYearFrame] == Decimal(n)
    ensures TagYear(tag) == n
  {
    ParseIntDecimal(n);
  }

  /** The `updateLibrary` arguments built from a tagged file with a known
      duration; `trackId` is the new track's UUID. */
  function ReadEntry(url: string, tag: ID3Tag, duration: real, trackId: nat): Entry {
    Entry(
      FrameText(tag, AlbumArtistFrame, "Unknown Artist"),
      FrameText(tag, AlbumFrame, "Unknown Album"),
      TagYear(tag),
      FrameText(tag, GenreFrame, "Unknown Genre"),
      Track(trackId, url, FrameText(tag, TitleFrame, FileStem(url)), tag.trackPosition.GetOr(0), duration),
      tag.frontCover)
  }

  /** `processAudioFile`'s outcome for one file: nothing when the tag cannot
      be read or the duration cannot be loaded. */
  function ExtractEntry(url: string, probe: FileProbe, trackId: nat): (r: Option<Entry>)
    ensures r.None? <==> probe.tag.None? || probe.duration.None?
  {
    if probe.tag.None? || probe.duration.None? then None
    else Some(ReadEntry(url, probe.tag.value, probe.duration.value, trackId))
  }

  /** Whether importing `url` adds a track: it passes the filter and its tag
      and duration can be read. */
  predicate Imports(url: string, probe: FileProbe) {
    IsMp3(url) && probe.tag.Some? && probe.duration.Some?
  }

  /** How many of `urls` an import adds. */
  function ImportCount(urls: seq<string>, probe: string -> FileProbe): (n: nat)
    ensures n <= |urls|
  {
    if urls == [] then 0
    else ImportCount(urls[..|urls| - 1], probe) + (if Imports(urls[|urls| - 1], probe(urls[|urls| - 1])) then 1 else 0)
  }
}
