/**
 * The HTTP handlers of the backend: the paged song listing, the audio
 * stream and the thumbnail served as PNG (backend/app.py).
 *
 * The catalog, the object store's URL signer, HTTP downloads and the image
 * library are parameters: each appears as the answer it gives, or as the
 * exception it raises (`Call`). Flask routing and JSON encoding are left out;
 * a handler's reply is the status and body it would hand to Flask.
 */
module App {
  import opened Wrappers
  import opened PyValue
  import PyText

  type Bytes = seq<bv8>

  /** The outcome of a call into an external service. */
  datatype Call<+T> = Answered(value: T) | Raised(message: string)

  /** A JSON error reply `{'error': error}` with its HTTP status. */
  datatype ErrorReply = ErrorReply(status: int, error: string)

  // ---------------------------------------------------------------------
  // GET /api/songs

  /** The largest page the listing serves, also the default page size. */
  const MaxPageSize := 30

  datatype Pagination = Pagination(pageSize: int, offset: int)

  /** `request.args.get(name, default)`. */
  function ArgOr(arg: Option<string>, default: string): string {
    match arg
    case Some(text) => text
    case None => default
  }

  /**
   * The `limit` and `offset` query arguments: `limit` defaults to 30 and is
   * cut down to 30, `offset` defaults to 0; `None` when either is not an integer.
   */
  function ParsePagination(limitArg: Option<string>, offsetArg: Option<string>): (r: Option<Pagination>)
    ensures r.Some? <==>
      PyText.ParseInt(ArgOr(limitArg, "30")).Some? && PyText.ParseInt(ArgOr(offsetArg, "0")).Some?
    ensures r.Some? ==> r.value.pageSize <= MaxPageSize
    ensures r.Some? ==> r.value.pageSize == PyText.ParseInt(ArgOr(limitArg, "30")).value
                                            || r.value.pageSize == MaxPageSize
    ensures r.Some? ==> r.value.pageSize <= PyText.ParseInt(ArgOr(limitArg, "30")).value
    ensures r.Some? ==> r.value.offset == PyText.ParseInt(ArgOr(offsetArg, "0")).value
  {
    match PyText.ParseInt(ArgOr(limitArg, "30"))
    case None => None
    case Some(limit) =>
      match PyText.ParseInt(ArgOr(offsetArg, "0"))
      case None => None
      case Some(offset) =>
        Some(Pagination(if limit < MaxPageSize then limit else MaxPageSize, offset))
  }

  /** Integer arguments are read back as the integers they render: `limit=n` gives min(n, 30). */
  lemma PaginationOfIntegers(n: int, m: int)
    ensures ParsePagination(Some(PyText.IntToText(n)), Some(PyText.IntToText(m)))
            == Some(Pagination(if n < MaxPageSize then n else MaxPageSize, m))
  {
    PyText.ParseIntRoundTrip(n);
    PyText.ParseIntRoundTrip(m);
  }

  /** Without arguments the listing asks for the first 30 songs. */
  lemma PaginationDefaults()
    ensures ParsePagination(None, None) == Some(Pagination(MaxPageSize, 0))
  {
    assert PyText.IntToText(30) == "30" by {
      assert PyText.DigitChar(3) == '3' && PyText.DigitChar(0) == '0';
      assert PyText.DecimalDigits(3) == "3";
      assert PyText.DecimalDigits(30) == PyText.DecimalDigits(3) + [PyText.DigitChar(0)];
    }
    assert PyText.IntToText(0) == "0" by {
      assert PyText.DigitChar(0) == '0';
    }
    PyText.ParseIntRoundTrip(30);
    PyText.ParseIntRoundTrip(0);
  }

  /** The inclusive row range `.range(lo, hi)` asks the catalog for. */
  function FetchRange(p: Pagination): (range: (int, int))
    ensures range.0 == p.offset && range.1 - range.0 + 1 == p.pageSize
  {
    (p.offset, p.offset + p.pageSize - 1)
  }

  datatype SongsReply =
    | SongsFailed(failure: ErrorReply)
    | SongsPage(songs: seq<Record>, total: int, offset: int, limit: int, hasMore: bool)

  /**
   * `get_songs` once the pagination is read: asks the catalog for the row
   * count (`count`; `None` when the reply has no count, read as 0) and for
   * the rows in the requested range (`fetch`), and reports whether more rows
   * follow.
   */
  function ServePage(p: Pagination, count: Call<Option<int>>, fetch: (int, int) -> Call<seq<Record>>): (r: SongsReply)
    ensures r.SongsFailed? ==> r.failure.status == 500
    ensures r.SongsPage? <==> count.Answered? && fetch(FetchRange(p).0, FetchRange(p).1).Answered?
    ensures r.SongsPage? ==>
      && r.limit == p.pageSize
      && r.offset == p.offset
      && fetch(FetchRange(p).0, FetchRange(p).1) == Answered(r.songs)
      && (r.hasMore <==> r.offset + |r.songs| < r.total)
  {
    match count
    case Raised(e) => SongsFailed(ErrorReply(500, e))
    case Answered(c) =>
      var total := match c case Some(n) => n case None => 0;
      var range := FetchRange(p);
      match fetch(range.0, range.1)
      case Raised(e) => SongsFailed(ErrorReply(500, e))
      case Answered(rows) =>
        SongsPage(rows, total, p.offset, p.pageSize, p.offset + |rows| < total)
  }

  /**
   * `get_songs`: a request whose `limit` or `offset` is not an integer gets a
   * 400 reply; otherwise the page is served as `ServePage` says.
   */
  function GetSongs(limitArg: Option<string>, offsetArg: Option<string>,
                    count: Call<Option<int>>, fetch: (int, int) -> Call<seq<Record>>): (r: SongsReply)
    ensures ParsePagination(limitArg, offsetArg).None? <==>
      r == SongsFailed(ErrorReply(400, "Invalid pagination parameters"))
    ensures r.SongsFailed? ==> r.failure.status == 400 || r.failure.status == 500
    ensures r.SongsPage? ==> r.limit <= MaxPageSize
    ensures ParsePagination(limitArg, offsetArg).Some? ==>
      r == ServePage(ParsePagination(limitArg, offsetArg).value, count, fetch)
  {
    match ParsePagination(limitArg, offsetArg)
    case None => SongsFailed(ErrorReply(400, "Invalid pagination parameters"))
    case Some(p) => ServePage(p, count, fetch)
  }

  /** The rows `lo..hi` (inclusive) of a catalog, as the catalog answers a range query. */
  function RangeOf(rows: seq<Record>, lo: int, hi: int): (page: seq<Record>)
    ensures 0 <= lo <= hi ==> |page| == if lo >= |rows| then 0 else Min(hi + 1, |rows|) - lo
  {
    if lo < 0 || lo >= |rows| || hi < lo then [] else rows[lo .. Min(hi + 1, |rows|)]
  }

  function Min(a: int, b: int): int {
    if a < b then a else b
  }

  /** A catalog that answers each range query with those rows of `rows`. */
  ghost predicate ServesRows(fetch: (int, int) -> Call<seq<Record>>, rows: seq<Record>) {
    forall lo, hi :: fetch(lo, hi) == Answered(RangeOf(rows, lo, hi))
  }

  /**
   * Against a catalog that answers with its exact count and its rows, a page
   * of size n >= 1 at offset m >= 0 holds rows `m .. m + n - 1` (as many of
   * them as exist), and says more follow exactly when rows remain beyond
   * that window.
   */
  lemma HasMoreIffRowsRemain(size: int, offset: int, rows: seq<Record>, fetch: (int, int) -> Call<seq<Record>>)
    requires size >= 1 && offset >= 0 && ServesRows(fetch, rows)
    ensures ServePage(Pagination(size, offset), Answered(Some(|rows|)), fetch)
      == SongsPage(RangeOf(rows, offset, offset + size - 1), |rows|, offset, size, offset + size < |rows|)
  {
    var page := RangeOf(rows, offset, offset + size - 1);
    assert fetch(offset, offset + size - 1) == Answered(page);
    assert offset + |page| < |rows| <==> offset + size < |rows|;
  }

  // ---------------------------------------------------------------------
  // GET /api/stream/<song_id>

  /** The headers added to every audio stream. */
  const StreamHeaders: seq<(string, string)> :=
    [("Accept-Ranges", "bytes"), ("Cache-Control", "no-cache"), ("Access-Control-Allow-Origin", "*")]

  datatype StreamReply =
    | StreamFailed(failure: ErrorReply)
    | AudioStream(url: string, contentType: string, headers: seq<(string, string)>)

  /**
   * `stream_song`: looks the song up (`query`), signs a URL for its
   * `storage_path` (`presign`), checks that the URL answers 200 (`probe`)
   * and then hands Flask a stream relaying that URL (see `Relay`).
   */
  function StreamSong(query: Call<seq<Record>>, presign: Value -> Call<string>,
                      probe: string -> Call<int>): (r: StreamReply)
    ensures query.Raised? ==> r == StreamFailed(ErrorReply(500, query.message))
    ensures query == Answered([]) ==> r == StreamFailed(ErrorReply(404, "Song not found"))
    ensures query.Answered? && query.value != [] && "storage_path" !in KeySet(query.value[0]) ==>
      r == StreamFailed(ErrorReply(500, "Invalid song data - missing storage path"))
    ensures r.AudioStream? <==>
      && query.Answered? && query.value != []
      && "storage_path" in KeySet(query.value[0])
      && presign(Lookup(query.value[0], "storage_path")).Answered?
      && probe(presign(Lookup(query.value[0], "storage_path")).value) == Answered(200)
    ensures r.AudioStream? ==>
      && r.url == presign(Lookup(query.value[0], "storage_path")).value
      && r.contentType == "audio/mpeg"
      && r.headers == StreamHeaders
    ensures r.StreamFailed? ==> r.failure.status == 404 || r.failure.status == 500
    ensures r.StreamFailed? ==> (r.failure.status == 404 <==> query == Answered([]))
    ensures query.Answered? && query.value != [] && "storage_path" in KeySet(query.value[0]) ==>
      var signed := presign(Lookup(query.value[0], "storage_path"));
      && (signed.Raised? ==>
            r == StreamFailed(ErrorReply(500, "Failed to generate streaming URL: " + signed.message)))
      && (signed.Answered? && probe(signed.value).Raised? ==>
            r == StreamFailed(ErrorReply(500, "Failed to generate streaming URL: " + probe(signed.value).message)))
      && (signed.Answered? && probe(signed.value).Answered? && probe(signed.value).value != 200 ==>
            r == StreamFailed(ErrorReply(500, "Failed to verify audio source")))
  {
    match query
    case Raised(e) => StreamFailed(ErrorReply(500, e))
    case Answered(rows) =>
      if rows == [] then StreamFailed(ErrorReply(404, "Song not found"))
      else
        match Get(rows[0], "storage_path")
        case None => StreamFailed(ErrorReply(500, "Invalid song data - missing storage path"))
        case Some(path) =>
          match presign(path)
          case Raised(e) => StreamFailed(ErrorReply(500, "Failed to generate streaming URL: " + e))
          case Answered(url) =>
            match probe(url)
            case Raised(e) => StreamFailed(ErrorReply(500, "Failed to generate streaming URL: " + e))
            case Answered(status) =>
              if status != 200 then StreamFailed(ErrorReply(500, "Failed to verify audio source"))
              else AudioStream(url, "audio/mpeg", StreamHeaders)
  }

  /** The upstream GET that the stream relays: its status, its body in chunks, and whether reading broke off. */
  datatype UpstreamBody = UpstreamBody(status: int, chunks: seq<Bytes>, broken: bool)

  /** The bytes of a sequence of chunks, in order. */
  function Flatten(chunks: seq<Bytes>): Bytes {
    if chunks == [] then [] else Flatten(chunks[..|chunks| - 1]) + chunks[|chunks| - 1]
  }

  /** The chunks that are not empty, in their order. */
  function NonEmptyChunks(chunks: seq<Bytes>): (kept: seq<Bytes>)
    ensures |kept| <= |chunks|
    ensures forall i :: 0 <= i < |kept| ==> kept[i] != [] && kept[i] in chunks
  {
    if chunks == [] then []
    else
      var last := chunks[|chunks| - 1];
      NonEmptyChunks(chunks[..|chunks| - 1]) + (if last == [] then [] else [last])
  }

  /** Dropping empty chunks does not change the bytes relayed. */
  lemma {:induction false} FlattenNonEmptyChunks(chunks: seq<Bytes>)
    ensures Flatten(NonEmptyChunks(chunks)) == Flatten(chunks)
  {
    if chunks != [] {
      var init, last := chunks[..|chunks| - 1], chunks[|chunks| - 1];
      FlattenNonEmptyChunks(init);
      var kept := NonEmptyChunks(init);
      assert Flatten(chunks) == Flatten(init) + last;
      if last == [] {
        assert NonEmptyChunks(chunks) == kept + [];
        assert kept + [] == kept;
        assert Flatten(init) + last == Flatten(init);
      } else {
        assert NonEmptyChunks(chunks) == kept + [last];
        assert (kept + [last])[..|kept|] == kept;
      }
    }
  }

  /**
   * The generator `generate()`: GETs the signed URL again and yields every
   * non-empty chunk of the body. `complete` is false when the generator ends
   * by raising: the GET itself failed or reading the body broke off.
   */
  method Relay(upstream: Call<UpstreamBody>) returns (sent: seq<Bytes>, complete: bool)
    ensures forall i :: 0 <= i < |sent| ==> sent[i] != []
    ensures upstream.Raised? ==> sent == [] && !complete
    ensures upstream.Answered? && upstream.value.status != 200 ==> sent == [] && complete
    ensures upstream.Answered? && upstream.value.status == 200 ==>
      && sent == NonEmptyChunks(upstream.value.chunks)
      && Flatten(sent) == Flatten(upstream.value.chunks)
      && complete == !upstream.value.broken
  {
    sent := [];
    match upstream
    case Raised(_) =>
      complete := false;
    case Answered(body) =>
      if body.status != 200 {
        complete := true;
        return;
      }
      var i := 0;
      while i < |body.chunks|
        invariant 0 <= i <= |body.chunks|
        invariant sent == NonEmptyChunks(body.chunks[..i])
      {
        var chunk := body.chunks[i];
        if chunk != [] {
          sent := sent + [chunk];
        }
        assert body.chunks[..i + 1][..i] == body.chunks[..i];
        i := i + 1;
      }
      assert body.chunks[..i] == body.chunks;
      FlattenNonEmptyChunks(body.chunks);
      complete := !body.broken;
  }

  // ---------------------------------------------------------------------
  // GET /api/thumbnail/<song_id>

  /** What the image library reports about an opened image. */
  datatype Image = Image(mode: string, hasTransparency: bool)

  /** The mode an image is converted to before it is saved as PNG. */
  function TargetMode(img: Image): (mode: string)
    ensures mode == "RGBA" || mode == "RGB"
    ensures mode == "RGBA" <==>
      img.mode == "RGBA" || img.mode == "LA" || (img.mode == "P" && img.hasTransparency)
  {
    if img.mode in {"RGBA", "LA"} || (img.mode == "P" && img.hasTransparency) then "RGBA" else "RGB"
  }

  /**
   * `convert_webp_to_png`: opens the image (`open`), converts it to its
   * target mode and saves it as PNG (`save`); `None` when either raises.
   */
  function ConvertWebpToPng(data: Bytes, open: Bytes -> Call<Image>,
                            save: (Image, string) -> Call<Bytes>): (png: Option<Bytes>)
    ensures png.Some? <==>
      open(data).Answered? && save(open(data).value, TargetMode(open(data).value)).Answered?
  {
    match open(data)
    case Raised(_) => None
    case Answered(img) =>
      match save(img, TargetMode(img))
      case Raised(_) => None
      case Answered(png) => Some(png)
  }

  /** The answer of an HTTP GET: status and body. */
  datatype Download = Download(status: int, content: Bytes)

  datatype ThumbnailReply =
    | ThumbnailFailed(failure: ErrorReply)
    | PngFile(data: Bytes, mimetype: string, downloadName: string)

  /**
   * `get_thumbnail`: looks the song up, signs a URL for its
   * `thumbnail_path`, downloads it and converts it to PNG.
   */
  function GetThumbnail(songId: string, query: Call<seq<Record>>, presign: Value -> Call<string>,
                        download: string -> Call<Download>, open: Bytes -> Call<Image>,
                        save: (Image, string) -> Call<Bytes>): (r: ThumbnailReply)
    ensures r.ThumbnailFailed? ==> r.failure.status == 404 || r.failure.status == 500
    ensures query.Answered? && (query.value == [] || !Truthy(Lookup(query.value[0], "thumbnail_path"))) ==>
      r.ThumbnailFailed? && r.failure.status == 404
    ensures r.PngFile? ==>
      && r.mimetype == "image/png"
      && r.downloadName == songId + ".png"
      && query.Answered? && query.value != []
      && var url := presign(Lookup(query.value[0], "thumbnail_path"));
      && url.Answered? && download(url.value).Answered?
      && download(url.value).value.status == 200
      && ConvertWebpToPng(download(url.value).value.content, open, save) == Some(r.data)
    ensures query.Answered? && query.value != [] && Truthy(Lookup(query.value[0], "thumbnail_path")) ==>
      var url := presign(Lookup(query.value[0], "thumbnail_path"));
      (url.Answered? && download(url.value).Answered? && download(url.value).value.status == 200) ==>
        (r.PngFile? <==> ConvertWebpToPng(download(url.value).value.content, open, save).Some?)
    ensures query.Raised? ==> r == ThumbnailFailed(ErrorReply(500, query.message))
    ensures query == Answered([]) ==> r == ThumbnailFailed(ErrorReply(404, "Song not found"))
    ensures query.Answered? && query.value != [] && !Truthy(Lookup(query.value[0], "thumbnail_path")) ==>
      r == ThumbnailFailed(ErrorReply(404, "No thumbnail available"))
    ensures query.Answered? && query.value != [] && Truthy(Lookup(query.value[0], "thumbnail_path")) ==>
      var url := presign(Lookup(query.value[0], "thumbnail_path"));
      && (url.Raised? || download(url.value).Raised? ==>
            r == ThumbnailFailed(ErrorReply(500, "Failed to access thumbnail")))
      && (url.Answered? && download(url.value).Answered? && download(url.value).value.status != 200 ==>
            r == ThumbnailFailed(ErrorReply(404, "Failed to download thumbnail")))
      && (url.Answered? && download(url.value).Answered? && download(url.value).value.status == 200 &&
          ConvertWebpToPng(download(url.value).value.content, open, save).None? ==>
            r == ThumbnailFailed(ErrorReply(500, "Failed to convert image")))
  {
    match query
    case Raised(e) => ThumbnailFailed(ErrorReply(500, e))
    case Answered(rows) =>
      if rows == [] then ThumbnailFailed(ErrorReply(404, "Song not found"))
      else
        var path := Lookup(rows[0], "thumbnail_path");
        if !Truthy(path) then ThumbnailFailed(ErrorReply(404, "No thumbnail available"))
        else
          match presign(path)
          case Raised(_) => ThumbnailFailed(ErrorReply(500, "Failed to access thumbnail"))
          case Answered(url) =>
            match download(url)
            case Raised(_) => ThumbnailFailed(ErrorReply(500, "Failed to access thumbnail"))
            case Answered(reply) =>
              if reply.status != 200 then ThumbnailFailed(ErrorReply(404, "Failed to download thumbnail"))
              else
                match open(reply.content)
                case Raised(_) => ThumbnailFailed(ErrorReply(500, "Failed to convert image"))
                case Answered(img) =>
                  match save(img, TargetMode(img))
                  case Raised(_) => ThumbnailFailed(ErrorReply(500, "Failed to convert image"))
                  case Answered(png) => PngFile(png, "image/png", songId + ".png")
  }
}
