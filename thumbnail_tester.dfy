/**
 * The thumbnail tester: the object key it derives from a song id, the
 * character each grey level becomes in the console preview, the preview's
 * rows, and the success and failure counts of a test run.
 *
 * The object store (existence probe, presigned download) is the parameter
 * `fetch`: the bytes of the object under a key, or `None` when the probe
 * or the download fails or answers with a status other than 200. The file
 * system is the parameter `save`: whether writing the downloaded file to a
 * path succeeds.
 */
module ThumbnailTester {
  import opened Wrappers
  import opened PyValue
  import PyText

  // ---------------------------------------------------------------------
  // The object key of a thumbnail

  /** `song_id.lstrip('0').zfill(6)`: the six-character stem of a song's thumbnail. */
  function ThumbnailId(songId: string): (id: string)
    ensures var core := PyText.LStripChar(songId, '0');
      |id| == if |core| >= 6 then |core| else 6
  {
    PyText.ZFill(PyText.LStripChar(songId, '0'), 6)
  }

  /** The key probed for a song: `thumbnails/{id}.png`. */
  function ProbePath(songId: string): string {
    "thumbnails/" + ThumbnailId(songId) + ".png"
  }

  /** Ids that differ only in leading zeros share a thumbnail. */
  lemma SameIdWithLeadingZeros(k: nat, songId: string)
    ensures ThumbnailId(PyText.Zeros(k) + songId) == ThumbnailId(songId)
    ensures ProbePath(PyText.Zeros(k) + songId) == ProbePath(songId)
  {
    PyText.LStripCharRepeat('0', k, songId);
  }

  /** For an id whose digits do not start with a sign, the stem is the digits padded with zeros. */
  lemma ThumbnailIdPads(songId: string)
    requires var core := PyText.LStripChar(songId, '0'); core == [] || !PyText.IsSign(core[0])
    ensures var core := PyText.LStripChar(songId, '0');
      ThumbnailId(songId) == PyText.Zeros(|ThumbnailId(songId)| - |core|) + core
  {
    var core := PyText.LStripChar(songId, '0');
    PyText.ZFillUnsigned(core, 6);
    assert ThumbnailId(songId) == PyText.ZFill(core, 6);
  }

  /** A six-character id whose digits do not start with a sign is its own stem. */
  lemma SixCharacterIdKept(songId: string)
    requires |songId| == 6
    requires var core := PyText.LStripChar(songId, '0'); core == [] || !PyText.IsSign(core[0])
    ensures ThumbnailId(songId) == songId
  {
    var core := PyText.LStripChar(songId, '0');
    PyText.LStripCharSplit(songId, '0');
    if |core| == 6 {
      assert PyText.Repeat('0', 0) + core == core;
    } else {
      var k := 6 - |core|;
      assert ThumbnailId(songId) == PyText.ZFill(core, 6) == PyText.Zeros(k) + core;
      assert PyText.Zeros(k) == PyText.Repeat('0', k);
    }
  }

  /** Deriving the stem of a stem changes nothing. */
  lemma ThumbnailIdIdempotent(songId: string)
    ensures ThumbnailId(ThumbnailId(songId)) == ThumbnailId(songId)
  {
    var core := PyText.LStripChar(songId, '0');
    var id := ThumbnailId(songId);
    if core == [] || !PyText.IsSign(core[0]) {
      ThumbnailIdPads(songId);
      PyText.LStripCharRepeat('0', |id| - |core|, core);
      assert PyText.LStripChar(id, '0') == core;
    } else {
      assert id[0] == core[0];
      assert PyText.LStripChar(id, '0') == id;
    }
  }

  // ---------------------------------------------------------------------
  // The console preview

  /** The preview's characters, from the darkest grey level to the lightest. */
  const AsciiChars: string := "@%#*+=-:. "

  /** A grey level of a greyscale (`L` mode) image. */
  type Pixel = p: int | 0 <= p <= 255

  /** `min(len(ascii_chars) - 1, pixel_value * len(ascii_chars) // 255)`. */
  function CharIndex(pixel: Pixel): (i: nat)
    ensures i < |AsciiChars|
  {
    var scaled := pixel * |AsciiChars| / 255;
    if scaled < |AsciiChars| - 1 then scaled else |AsciiChars| - 1
  }

  /** A lighter pixel never gets a darker character; black is `@` and white is a space. */
  lemma CharIndexMonotone(p: Pixel, q: Pixel)
    requires p <= q
    ensures CharIndex(p) <= CharIndex(q)
    ensures CharIndex(0) == 0 && AsciiChars[CharIndex(0)] == '@'
    ensures CharIndex(255) == |AsciiChars| - 1 && AsciiChars[CharIndex(255)] == ' '
  {
    assert |AsciiChars| == 10;
    assert p * 10 <= q * 10;
  }

  /** The preview row `y`: one character per pixel of the row. */
  function AsciiRow(pixel: (nat, nat) -> Pixel, width: nat, y: nat): (row: string)
    ensures |row| == width
  {
    seq(width, x requires 0 <= x < width => AsciiChars[CharIndex(pixel(x, y))])
  }

  /** A preview row holds no line break. */
  lemma AsciiRowNoBreak(pixel: (nat, nat) -> Pixel, width: nat, y: nat)
    ensures '\n' !in AsciiRow(pixel, width, y)
  {
    var row := AsciiRow(pixel, width, y);
    forall x | 0 <= x < width ensures row[x] != '\n' {
      var k := CharIndex(pixel(x, y));
      assert row[x] == AsciiChars[k];
      assert AsciiChars[k] != '\n' by {
        assert |AsciiChars| == 10;
        assert forall j :: 0 <= j < 10 ==> AsciiChars[j] != '\n';
      }
    }
  }

  /** `'\n'.join(lines)`. */
  function JoinLines(lines: seq<string>): string {
    if lines == [] then ""
    else if |lines| == 1 then lines[0]
    else lines[0] + "\n" + JoinLines(lines[1..])
  }

  /** `s.split('\n')`. */
  function SplitLines(s: string): (lines: seq<string>)
    ensures lines != []
  {
    if s == [] then [""]
    else
      var rest := SplitLines(s[1..]);
      if s[0] == '\n' then [""] + rest else [[s[0]] + rest[0]] + rest[1..]
  }

  /** A line without a line break splits into itself, followed by what follows the break after it. */
  lemma {:induction false} SplitLinesAppend(a: string, b: string)
    requires '\n' !in a
    ensures SplitLines(a) == [a]
    ensures SplitLines(a + "\n" + b) == [a] + SplitLines(b)
  {
    if a != [] {
      SplitLinesAppend(a[1..], b);
      assert (a + "\n" + b)[1..] == a[1..] + "\n" + b;
      assert [a[0]] + a[1..] == a;
    } else {
      assert a + "\n" + b == "\n" + b;
      assert ("\n" + b)[1..] == b;
    }
  }

  /** Joined lines without line breaks split back into the same lines. */
  lemma {:induction false} SplitJoinLines(lines: seq<string>)
    requires lines != [] && forall i :: 0 <= i < |lines| ==> '\n' !in lines[i]
    ensures SplitLines(JoinLines(lines)) == lines
  {
    if |lines| == 1 {
      SplitLinesAppend(lines[0], "");
    } else {
      SplitJoinLines(lines[1..]);
      SplitLinesAppend(lines[0], JoinLines(lines[1..]));
    }
  }

  /**
   * `render_ascii_art` on the resized greyscale image whose pixel at
   * column `x` and row `y` is `pixel(x, y)`: one line of `width`
   * characters per row, joined with line breaks.
   */
  method RenderAscii(pixel: (nat, nat) -> Pixel, width: nat, height: nat) returns (art: string)
    ensures art == JoinLines(seq(height, y requires 0 <= y < height => AsciiRow(pixel, width, y)))
  {
    ghost var rows := seq(height, y requires 0 <= y < height => AsciiRow(pixel, width, y));
    var lines: seq<string> := [];
    var y := 0;
    while y < height
      invariant y <= height
      invariant lines == rows[..y]
    {
      var line := "";
      var x := 0;
      while x < width
        invariant x <= width
        invariant line == AsciiRow(pixel, width, y)[..x]
      {
        assert AsciiRow(pixel, width, y)[..x + 1] == line + [AsciiChars[CharIndex(pixel(x, y))]];
        line := line + [AsciiChars[CharIndex(pixel(x, y))]];
        x := x + 1;
      }
      assert line == rows[y];
      assert rows[..y + 1] == lines + [line];
      lines := lines + [line];
      y := y + 1;
    }
    assert lines == rows;
    art := JoinLines(lines);
  }

  /** The preview reads back as `height` rows of `width` characters from the palette. */
  lemma PreviewRows(pixel: (nat, nat) -> Pixel, width: nat, height: nat)
    requires height > 0
    ensures SplitLines(JoinLines(seq(height, y requires 0 <= y < height => AsciiRow(pixel, width, y))))
      == seq(height, y requires 0 <= y < height => AsciiRow(pixel, width, y))
  {
    var lines := seq(height, y requires 0 <= y < height => AsciiRow(pixel, width, y));
    forall i | 0 <= i < |lines| ensures '\n' !in lines[i] {
      AsciiRowNoBreak(pixel, width, i);
    }
    SplitJoinLines(lines);
  }

  // ---------------------------------------------------------------------
  // A test run

  /** `os.path.join(directory, name)`: an absolute `name` replaces the directory. */
  function JoinPath(directory: string, name: string): (path: string)
    ensures name != [] && name[0] == '/' ==> path == name
    ensures !(name != [] && name[0] == '/') ==>
      |path| >= |directory| + |name| && path[..|directory|] == directory && path[|path| - |name|..] == name
    ensures !(name != [] && name[0] == '/') ==>
      |path| == |directory| + |name| + (if directory != [] && directory[|directory| - 1] != '/' then 1 else 0)
    ensures |path| > |directory| + |name| ==> path[|directory|] == '/'
  {
    if name != [] && name[0] == '/' then name
    else if directory == [] || directory[|directory| - 1] == '/' then directory + name
    else directory + "/" + name
  }

  /** What `get_thumbnail_from_b2` returns: success, the saved file's path, and the bytes. */
  datatype Download = Download(success: bool, outputPath: Option<string>, content: Option<seq<bv8>>)

  /**
   * `get_thumbnail_from_b2`: fetches the derived key and, when that
   * succeeds, saves the bytes as `{song_id}.png` in the output directory.
   * `save(path)` says whether writing that file succeeds; a failed write
   * is caught like a failed fetch.
   */
  function GetThumbnail(songId: string, outputDir: string, fetch: string -> Option<seq<bv8>>, save: string -> bool): (d: Download)
    ensures d.success <==> fetch(ProbePath(songId)).Some? && save(JoinPath(outputDir, songId + ".png"))
    ensures d.success ==> d.outputPath == Some(JoinPath(outputDir, songId + ".png")) && d.content == fetch(ProbePath(songId))
    ensures !d.success ==> d.outputPath == None && d.content == None
  {
    var path := JoinPath(outputDir, songId + ".png");
    match fetch(ProbePath(songId))
    case Some(bytes) => if save(path) then Download(true, Some(path), Some(bytes)) else Download(false, None, None)
    case None => Download(false, None, None)
  }

  /**
   * `str(song_id)`: a string id is itself, an integer id its decimal
   * digits; `text` renders the other kinds of value.
   */
  function IdText(id: Value, text: Value -> string): string {
    match id
    case Str(s) => s
    case Int(i) => PyText.IntToText(i)
    case _ => text(id)
  }

  /** `song.get(key, default)`. */
  function GetOr(song: Record, key: string, default: Value): Value {
    match Get(song, key)
    case Some(v) => v
    case None => default
  }

  /** One entry of `song_results`. */
  datatype SongResult = SongResult(songId: string, title: Value, artist: Value, success: bool, outputPath: Option<string>)

  /** The counters and results of a run (the timestamp is left out). */
  datatype Report = Report(totalSongs: nat, successCount: nat, failureCount: nat, songResults: seq<SongResult>)

  /** The result `main` records for a song with a truthy id. */
  function ResultOf(song: Record, text: Value -> string, outputDir: string, fetch: string -> Option<seq<bv8>>, save: string -> bool): SongResult
  {
    var songId := IdText(Lookup(song, "id"), text);
    var d := GetThumbnail(songId, outputDir, fetch, save);
    SongResult(songId, GetOr(song, "title", Str("Unknown")), GetOr(song, "artist", Str("Unknown")), d.success, d.outputPath)
  }

  /** The results of the songs with a truthy id, in catalog order. */
  function Results(songs: seq<Record>, text: Value -> string, outputDir: string, fetch: string -> Option<seq<bv8>>, save: string -> bool): seq<SongResult>
  {
    if songs == [] then []
    else
      var before := Results(songs[..|songs| - 1], text, outputDir, fetch, save);
      var song := songs[|songs| - 1];
      if Truthy(Lookup(song, "id")) then before + [ResultOf(song, text, outputDir, fetch, save)] else before
  }

  /** The number of songs with a truthy id. */
  function WithId(songs: seq<Record>): nat {
    if songs == [] then 0
    else WithId(songs[..|songs| - 1]) + if Truthy(Lookup(songs[|songs| - 1], "id")) then 1 else 0
  }

  /** The number of successful results. */
  function Successes(results: seq<SongResult>): (n: nat)
    ensures n <= |results|
  {
    if results == [] then 0
    else Successes(results[..|results| - 1]) + if results[|results| - 1].success then 1 else 0
  }

  /** One more result adds one to the successes when it is a success. */
  lemma SuccessesSnoc(results: seq<SongResult>, r: SongResult)
    ensures Successes(results + [r]) == Successes(results) + if r.success then 1 else 0
  {
    assert (results + [r])[..|results|] == results;
  }

  /**
   * Every song with a truthy id gets one result, so the results never
   * outnumber the songs, and a result is a success exactly when its
   * derived key could be fetched and the file could be written.
   */
  lemma {:induction false} ResultsCover(songs: seq<Record>, text: Value -> string, outputDir: string, fetch: string -> Option<seq<bv8>>, save: string -> bool)
    ensures |Results(songs, text, outputDir, fetch, save)| == WithId(songs) <= |songs|
    ensures forall r :: r in Results(songs, text, outputDir, fetch, save) ==>
      (r.success <==> fetch(ProbePath(r.songId)).Some? && save(JoinPath(outputDir, r.songId + ".png")))
  {
    if songs != [] {
      ResultsCover(songs[..|songs| - 1], text, outputDir, fetch, save);
    }
  }

  /** What `main`'s loop does with one song: skip it, or fetch it and count the outcome. */
  function Next(report: Report, song: Record, text: Value -> string, outputDir: string, fetch: string -> Option<seq<bv8>>, save: string -> bool): Report
  {
    if !Truthy(Lookup(song, "id")) then report
    else
      var r := ResultOf(song, text, outputDir, fetch, save);
      Report(report.totalSongs,
             report.successCount + (if r.success then 1 else 0),
             report.failureCount + (if r.success then 0 else 1),
             report.songResults + [r])
  }

  /** The report after `main`'s loop has run over `songs`. */
  function Tally(total: nat, songs: seq<Record>, text: Value -> string, outputDir: string, fetch: string -> Option<seq<bv8>>, save: string -> bool): Report
  {
    if songs == [] then Report(total, 0, 0, [])
    else Next(Tally(total, songs[..|songs| - 1], text, outputDir, fetch, save), songs[|songs| - 1], text, outputDir, fetch, save)
  }

  /**
   * The tally keeps the song count, records exactly the results of the
   * songs with an id, and splits them into successes and failures.
   */
  lemma {:induction false} TallyCounts(total: nat, songs: seq<Record>, text: Value -> string, outputDir: string, fetch: string -> Option<seq<bv8>>, save: string -> bool)
    ensures var report := Tally(total, songs, text, outputDir, fetch, save);
      report.totalSongs == total &&
      report.songResults == Results(songs, text, outputDir, fetch, save) &&
      report.successCount == Successes(report.songResults) &&
      report.successCount + report.failureCount == |report.songResults|
  {
    if songs != [] {
      var prefix := songs[..|songs| - 1];
      TallyCounts(total, prefix, text, outputDir, fetch, save);
      var before := Tally(total, prefix, text, outputDir, fetch, save);
      var song := songs[|songs| - 1];
      if Truthy(Lookup(song, "id")) {
        SuccessesSnoc(before.songResults, ResultOf(song, text, outputDir, fetch, save));
      }
    }
  }

  /** The body of `main`'s loop for one song. */
  method TestSong(report: Report, song: Record, text: Value -> string, outputDir: string, fetch: string -> Option<seq<bv8>>, save: string -> bool)
    returns (report': Report)
    ensures report' == Next(report, song, text, outputDir, fetch, save)
  {
    var songId := Lookup(song, "id");
    if !Truthy(songId) {
      return report;
    }
    var id := IdText(songId, text);
    var d := GetThumbnail(id, outputDir, fetch, save);
    var result := SongResult(id, GetOr(song, "title", Str("Unknown")), GetOr(song, "artist", Str("Unknown")), d.success, d.outputPath);
    if d.success {
      report' := report.(successCount := report.successCount + 1);
    } else {
      report' := report.(failureCount := report.failureCount + 1);
    }
    report' := report'.(songResults := report'.songResults + [result]);
  }

  /**
   * The test loop of `main`: songs without a truthy id are skipped, every
   * other song is fetched and counted as a success or a failure.
   */
  method TestThumbnails(songs: seq<Record>, text: Value -> string, outputDir: string, fetch: string -> Option<seq<bv8>>, save: string -> bool)
    returns (report: Report)
    ensures report == Tally(|songs|, songs, text, outputDir, fetch, save)
    ensures report.totalSongs == |songs|
    ensures report.songResults == Results(songs, text, outputDir, fetch, save)
    ensures report.successCount == Successes(report.songResults)
    ensures report.successCount + report.failureCount == |report.songResults|
  {
    report := Report(|songs|, 0, 0, []);
    var i := 0;
    while i < |songs|
      invariant i <= |songs|
      invariant report == Tally(|songs|, songs[..i], text, outputDir, fetch, save)
    {
      assert songs[..i + 1][..i] == songs[..i];
      report := TestSong(report, songs[i], text, outputDir, fetch, save);
      i := i + 1;
    }
    assert songs[..i] == songs;
    TallyCounts(|songs|, songs, text, outputDir, fetch, save);
  }
}
