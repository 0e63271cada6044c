/**
 * Ingestion of song metadata into the catalog (upload_to_supabase.py):
 * sanitising a song record before it is written, normalising tag names,
 * building object-store URLs and paths, the required-field gate and the
 * per-file statistics of an upload run.
 *
 * Reading files, JSON decoding and the catalog itself are parameters: a
 * metadata file is given as what reading and decoding it produced, and the
 * catalog as the answer its write gives.
 */
module Upload {
  import opened Wrappers
  import opened PyValue
  import PyText

  const DescriptionLimit := 10000
  const TitleLimit := 500
  const NameLimit := 255

  /** The keys `sanitize_data` converts to numbers. */
  predicate NumericKey(key: string) {
    key == "duration" || key == "view_count" || key == "like_count"
  }

  /** The keys `sanitize_data` treats specially; every other key passes through. */
  predicate SpecialKey(key: string) {
    NumericKey(key) || key == "release_date" || key == "description" || key == "title"
    || key == "artist" || key == "album"
  }

  /** `s[a:b]` for 0 <= a <= b: clipped to the string, never an error. */
  function Slice(s: string, a: nat, b: nat): (t: string)
    requires a <= b
    ensures |t| <= b - a
    ensures a <= b <= |s| ==> t == s[a..b]
  {
    var lo := if a < |s| then a else |s|;
    var hi := if b < |s| then b else |s|;
    s[lo..hi]
  }

  /** `s[:n]`: the first `n` characters of `s`, or all of `s` when it is shorter. */
  function Truncated(s: string, n: nat): (t: string)
    ensures t <= s
    ensures |t| == if |s| <= n then |s| else n
  {
    Slice(s, 0, n)
  }

  /** `float(v)`; `None` for the `TypeError` or `ValueError` Python raises. */
  function ToFloat(v: Value): (r: Option<Value>)
    ensures r.Some? ==> r.value.Float?
    ensures v.Bool? ==> r == Some(Float(if v.b then 1.0 else 0.0))
    ensures v.Int? ==> r == Some(Float(v.i as real))
    ensures v.Float? ==> r == Some(v)
    ensures v.Str? ==> (r.Some? <==> PyText.ParseFloat(v.s).Some?)
    ensures v.Str? && r.Some? ==> r.value.x == PyText.ParseFloat(v.s).value
    ensures v.Null? || v.List? || v.Obj? ==> r == None
  {
    match v
    case Bool(b) => Some(Float(if b then 1.0 else 0.0))
    case Int(i) => Some(Float(i as real))
    case Float(x) => Some(Float(x))
    case Str(s) =>
      (match PyText.ParseFloat(s)
       case Some(x) => Some(Float(x))
       case None => None)
    case _ => None
  }

  /** `int(v)`; `None` for the `TypeError` or `ValueError` Python raises. */
  function ToInt(v: Value): (r: Option<Value>)
    ensures r.Some? ==> r.value.Int?
    ensures v.Int? ==> r == Some(v)
    ensures v.Bool? ==> r == Some(Int(if v.b then 1 else 0))
    ensures v.Float? ==> r == Some(Int(PyText.Trunc(v.x)))
    ensures v.Str? ==> (r.Some? <==> PyText.ParseInt(v.s).Some?)
    ensures v.Str? && r.Some? ==> r.value.i == PyText.ParseInt(v.s).value
    ensures v.Null? || v.List? || v.Obj? ==> r == None
  {
    match v
    case Bool(b) => Some(Int(if b then 1 else 0))
    case Int(i) => Some(Int(i))
    case Float(x) => Some(Int(PyText.Trunc(x)))
    case Str(s) =>
      (match PyText.ParseInt(s)
       case Some(n) => Some(Int(n))
       case None => None)
    case _ => None
  }

  /**
   * `f"{v[:4]}-{v[4:6]}-{v[6:8]}"`: slicing a string never fails; any other
   * kind of value is dropped.
   */
  function FormatDate(v: Value): (r: Option<Value>)
    ensures r.Some? <==> v.Str?
    ensures r.Some? ==> r.value.Str? && |r.value.s| <= 10
  {
    match v
    case Str(s) => Some(Str(Slice(s, 0, 4) + "-" + Slice(s, 4, 6) + "-" + Slice(s, 6, 8)))
    case _ => None
  }

  /** An 8-character `YYYYMMDD` becomes `YYYY-MM-DD`: dashes at 4 and 7, the digits unchanged. */
  lemma FormatDateOfEightChars(s: string)
    requires |s| == 8
    ensures FormatDate(Str(s)).Some?
    ensures var d := FormatDate(Str(s)).value.s;
      |d| == 10 && d[4] == '-' && d[7] == '-' && d[..4] + d[5..7] + d[8..] == s
  {
    var d := FormatDate(Str(s)).value.s;
    assert d == s[0..4] + "-" + s[4..6] + "-" + s[6..8];
    assert d[..4] == s[..4] && d[5..7] == s[4..6] && d[8..] == s[6..];
    assert s == s[..4] + s[4..6] + s[6..];
  }

  /** The length caps applied to string values of the capped keys. */
  function Capped(key: string, v: Value): (r: Value)
  {
    if !v.Str? then v
    else if key == "description" then Str(Truncated(v.s, DescriptionLimit))
    else if key == "title" then Str(Truncated(v.s, TitleLimit))
    else if key == "artist" || key == "album" then Str(Truncated(v.s, NameLimit))
    else v
  }

  /**
   * One step of `sanitize_data`'s loop: the value stored under `key`, or
   * `None` when the entry is left out.
   */
  function SanitizeEntry(key: string, value: Value): (kept: Option<Value>)
    ensures value == Null || (value.Str? && PyText.Blank(value.s)) ==> kept == None
    ensures kept.Some? ==> kept.value != Null
    ensures !SpecialKey(key) ==> (kept.Some? <==> value != Null && !(value.Str? && PyText.Blank(value.s)))
    ensures !SpecialKey(key) && kept.Some? ==> kept.value == value
    ensures key == "view_count" || key == "like_count" ==> (kept.Some? ==> kept.value.Int?)
    ensures key == "duration" ==> (kept.Some? ==> kept.value.Float?)
    ensures (key == "view_count" || key == "like_count") && value != Null && !(value.Str? && PyText.Blank(value.s)) ==>
      kept == ToInt(value)
    ensures key == "duration" && value != Null && !(value.Str? && PyText.Blank(value.s)) ==>
      kept == ToFloat(value)
    ensures key == "description" && value.Str? && !PyText.Blank(value.s) ==>
      kept == Some(Str(Truncated(value.s, DescriptionLimit)))
    ensures key == "title" && value.Str? && !PyText.Blank(value.s) ==>
      kept == Some(Str(Truncated(value.s, TitleLimit)))
    ensures (key == "artist" || key == "album") && value.Str? && !PyText.Blank(value.s) ==>
      kept == Some(Str(Truncated(value.s, NameLimit)))
    ensures (key == "description" || key == "title" || key == "artist" || key == "album") && value != Null && !value.Str? ==>
      kept == Some(value)
    ensures key == "release_date" && value.Str? && !PyText.Blank(value.s) ==>
      kept == FormatDate(value)
    ensures key == "release_date" && (value.Int? || value.Float? || value.Bool?) ==>
      kept == if Truthy(value) then None else Some(value)
  {
    if value == Null then None
    else if value.Str? && PyText.Strip(value.s) == [] then None
    else
      var number :=
        if key == "duration" then ToFloat(value)
        else if NumericKey(key) then ToInt(value)
        else Some(value);
      match number
      case None => None
      case Some(v) =>
        var dated := if key == "release_date" && Truthy(v) then FormatDate(v) else Some(v);
        match dated
        case None => None
        case Some(d) => Some(Capped(key, d))
  }

  /** `sanitize_data` as a specification: the kept entries, in input order. */
  function Sanitized(data: Record): (clean: Record)
    ensures |clean| <= |data|
  {
    if data == [] then []
    else
      var (key, value) := data[|data| - 1];
      Sanitized(data[..|data| - 1]) +
        match SanitizeEntry(key, value)
        case Some(v) => [(key, v)]
        case None => []
  }

  /** `sanitize_data`: builds the sanitised dict entry by entry. */
  method SanitizeData(data: Record) returns (sanitized: Record)
    ensures sanitized == Sanitized(data)
  {
    sanitized := [];
    var i := 0;
    while i < |data|
      invariant 0 <= i <= |data|
      invariant sanitized == Sanitized(data[..i])
    {
      var (key, value) := data[i];
      var kept := SanitizeEntry(key, value);
      if kept.Some? {
        sanitized := sanitized + [(key, kept.value)];
      }
      assert data[..i + 1][..i] == data[..i];
      i := i + 1;
    }
    assert data[..i] == data;
  }

  /** The entries sanitising keeps, in input order: the keys of the result are a subsequence of the input's. */
  lemma {:induction false} SanitizedKeysInOrder(data: Record)
    ensures Subsequence(Keys(Sanitized(data)), Keys(data))
  {
    if data != [] {
      var init := data[..|data| - 1];
      var (key, value) := data[|data| - 1];
      SanitizedKeysInOrder(init);
      var prev := Sanitized(init);
      assert data == init + [(key, value)];
      KeysSnoc(init, (key, value));
      match SanitizeEntry(key, value)
      case Some(v) =>
        assert Sanitized(data) == prev + [(key, v)];
        KeysSnoc(prev, (key, v));
        SubsequenceSnoc(Keys(prev), Keys(init), key);
      case None =>
        assert Sanitized(data) == prev;
        SubsequenceSnoc(Keys(prev), Keys(init), key);
    }
  }

  /** Sanitising a dict gives a dict, whose keys are among the input's. */
  lemma {:induction false} SanitizedKeys(data: Record)
    requires UniqueKeys(data)
    ensures UniqueKeys(Sanitized(data)) && KeySet(Sanitized(data)) <= KeySet(data)
  {
    if data != [] {
      var init := data[..|data| - 1];
      var (key, value) := data[|data| - 1];
      UniqueKeysLast(data);
      SanitizedKeys(init);
      assert data == init + [(key, value)];
      KeySetSnoc(init, (key, value));
      var prev := Sanitized(init);
      if SanitizeEntry(key, value).Some? {
        var e := (key, SanitizeEntry(key, value).value);
        assert Sanitized(data) == prev + [e];
        KeySetSnoc(prev, e);
      } else {
        assert Sanitized(data) == prev;
      }
    }
  }

  /** The value sanitising leaves under `k`: what `SanitizeEntry` makes of the input's value, if any. */
  function SanitizedValue(data: Record, k: string): Option<Value> {
    match Get(data, k)
    case None => None
    case Some(v) => SanitizeEntry(k, v)
  }

  /** Each key of the sanitised dict holds exactly the sanitised input value under that key. */
  lemma {:induction false} SanitizedGet(data: Record, k: string)
    requires UniqueKeys(data)
    ensures Get(Sanitized(data), k) == SanitizedValue(data, k)
  {
    if data != [] {
      var init := data[..|data| - 1];
      var (key, value) := data[|data| - 1];
      UniqueKeysLast(data);
      SanitizedKeys(init);
      SanitizedGet(init, k);
      var prev := Sanitized(init);
      var tail: Record := match SanitizeEntry(key, value) case Some(v) => [(key, v)] case None => [];
      assert Sanitized(data) == prev + tail;
      assert data == init + [(key, value)];
      GetConcat(prev, tail, k);
      GetConcat(init, [(key, value)], k);
      if k == key {
        assert key !in KeySet(prev);
      }
    }
  }

  // ---------------------------------------------------------------------
  // Object-store locations

  /** The host part of every object-store URL. */
  const B2Host := ".s3.eu-central-003.backblazeb2.com/"

  /** `get_b2_url`: the public URL of `path` in `bucket`. */
  function B2Url(bucket: string, path: string): (url: string)
    ensures |url| == 8 + |bucket| + |B2Host| + |path|
    ensures url[..8] == "https://"
    ensures url[8..8 + |bucket|] == bucket
    ensures url[8 + |bucket|..|url| - |path|] == B2Host
    ensures url[|url| - |path|..] == path
  {
    "https://" + bucket + B2Host + path
  }

  /** Different files in the same bucket get different URLs. */
  lemma B2UrlInjective(bucket: string, p: string, q: string)
    requires B2Url(bucket, p) == B2Url(bucket, q)
    ensures p == q
  {
    var u := B2Url(bucket, p);
    assert |p| == |q|;
    assert p == u[|u| - |p|..] == q;
  }

  /** The object key of a song's audio: `audio/{id}.mp3`. */
  function AudioPath(fileId: string): string {
    "audio/" + fileId + ".mp3"
  }

  /** The object key of a song's thumbnail: `thumbnails/{id}.webp`. */
  function ThumbnailPath(fileId: string): string {
    "thumbnails/" + fileId + ".webp"
  }

  /** The file stem can be read back from both object keys. */
  lemma PathsCarryFileId(fileId: string)
    ensures AudioPath(fileId)[6..|AudioPath(fileId)| - 4] == fileId
    ensures ThumbnailPath(fileId)[11..|ThumbnailPath(fileId)| - 5] == fileId
  {
  }

  // ---------------------------------------------------------------------
  // Tags

  /**
   * The name `insert_tags` files a tag under: stripped and lower-cased;
   * `None` when the tag is empty, not a string, or blank.
   */
  function NormalizeTag(tag: Value): (name: Option<string>)
    ensures name.Some? ==> name.value != []
    ensures !(tag.Str? && tag.s != []) ==> name == None
  {
    if !Truthy(tag) || !tag.Str? then None
    else
      var t := PyText.Lower(PyText.Strip(tag.s));
      if t == [] then None else Some(t)
  }

  /** A normalised name is its own normal form: normalising twice changes nothing. */
  lemma NormalizeTagIdempotent(tag: Value)
    requires NormalizeTag(tag).Some?
    ensures NormalizeTag(Str(NormalizeTag(tag).value)) == NormalizeTag(tag)
  {
    var n := PyText.Lower(PyText.Strip(tag.s));
    PyText.LowerStripIdempotent(tag.s);
    assert NormalizeTag(tag) == Some(n);
    assert Truthy(Str(n));
  }

  /** What a tag list iterates over: list items, the characters of a string, the keys of a dict. */
  function TagItems(tags: Value): (items: Option<seq<Value>>)
    ensures tags.List? ==> items == Some(tags.items)
    ensures tags.Str? ==> items.Some? && |items.value| == |tags.s|
    ensures tags.Str? ==> forall i :: 0 <= i < |tags.s| ==> items.value[i] == Str([tags.s[i]])
    ensures tags.Obj? ==>
      && items.Some? && |items.value| == |tags.fields|
      && forall i :: 0 <= i < |tags.fields| ==> items.value[i] == Str(tags.fields[i].0)
    ensures items.None? <==> tags.Null? || tags.Bool? || tags.Int? || tags.Float?
  {
    match tags
    case List(items) => Some(items)
    case Str(s) => Some(seq(|s|, i requires 0 <= i < |s| => Str([s[i]])))
    case Obj(fields) => Some(seq(|fields|, i requires 0 <= i < |fields| => Str(fields[i].0)))
    case Null => None
    case Bool(_) => None
    case Int(_) => None
    case Float(_) => None
  }

  /** The normalised name of each tag, `None` for the tags `insert_tags` skips. */
  function TagNames(tags: seq<Value>): (names: seq<Option<string>>)
    ensures |names| == |tags| && forall i :: 0 <= i < |tags| ==> names[i] == NormalizeTag(tags[i])
  {
    seq(|tags|, i requires 0 <= i < |tags| => NormalizeTag(tags[i]))
  }

  /**
   * The tag map `insert_tags` builds from the normalised names: each name
   * mapped to the id `resolve(name)` the catalog yields for it (found, or
   * inserted); names whose both attempts fail (`None`) are left out.
   */
  function TagMap(names: seq<Option<string>>, resolve: string -> Option<int>): map<string, int> {
    if names == [] then map[]
    else AddTag(TagMap(names[..|names| - 1], resolve), names[|names| - 1], resolve)
  }

  /** One step of `insert_tags`: files `name` under the id the catalog yields for it, if any. */
  function AddTag(tagMap: map<string, int>, name: Option<string>, resolve: string -> Option<int>): map<string, int> {
    match name
    case None => tagMap
    case Some(n) =>
      match resolve(n)
      case None => tagMap
      case Some(id) => tagMap[n := id]
  }

  /**
   * The tag map holds exactly the resolvable names among `names`, each
   * mapped to its resolved id.
   */
  lemma {:induction false} TagMapContents(names: seq<Option<string>>, resolve: string -> Option<int>, name: string)
    ensures name in TagMap(names, resolve) <==> resolve(name).Some? && Some(name) in names
    ensures name in TagMap(names, resolve) ==> TagMap(names, resolve)[name] == resolve(name).value
  {
    if names != [] {
      var init := names[..|names| - 1];
      TagMapContents(init, resolve, name);
      assert names == init + [names[|names| - 1]];
    }
  }

  /**
   * What `insert_tags` files: a name is in the map exactly when some tag
   * normalises to it and the catalog resolves it, and every name in the map
   * is in normal form.
   */
  lemma TagMapOfTags(tags: seq<Value>, resolve: string -> Option<int>, name: string)
    ensures name in TagMap(TagNames(tags), resolve) <==>
      resolve(name).Some? && exists t :: t in tags && NormalizeTag(t) == Some(name)
    ensures name in TagMap(TagNames(tags), resolve) ==>
      name != [] && NormalizeTag(Str(name)) == Some(name)
  {
    var names := TagNames(tags);
    TagMapContents(names, resolve, name);
    if Some(name) in names {
      var i :| 0 <= i < |names| && names[i] == Some(name);
      assert tags[i] in tags;
      NormalizeTagIdempotent(tags[i]);
    }
    if exists t :: t in tags && NormalizeTag(t) == Some(name) {
      var t :| t in tags && NormalizeTag(t) == Some(name);
      var i :| 0 <= i < |tags| && tags[i] == t;
      assert names[i] == Some(name);
    }
  }

  /** `insert_tags`: resolves every tag of the list in turn into the tag map. */
  method InsertTags(tags: seq<Value>, resolve: string -> Option<int>) returns (tagMap: map<string, int>)
    ensures tagMap == TagMap(TagNames(tags), resolve)
  {
    ghost var names := TagNames(tags);
    tagMap := map[];
    var i := 0;
    while i < |tags|
      invariant 0 <= i <= |tags|
      invariant tagMap == TagMap(names[..i], resolve)
    {
      var name := NormalizeTag(tags[i]);
      assert name == names[i];
      tagMap := AddTag(tagMap, name, resolve);
      assert names[..i + 1][..i] == names[..i];
      i := i + 1;
    }
    assert names[..i] == names;
  }

  // ---------------------------------------------------------------------
  // Building and gating a song row

  /** The fields a song row must have, truthy, to be written. */
  const RequiredFields: seq<string> := ["id", "title", "duration"]

  /** The columns of a song row, in the order `upload_metadata_to_supabase` fills them. */
  const SongColumns: seq<string> := [
    "id", "title", "artist", "album", "duration", "release_date", "view_count", "like_count",
    "description", "source_url", "youtube_url", "storage_path", "thumbnail_path", "storage_url", "thumbnail_url"]

  lemma SongColumnsDistinct()
    ensures forall i, j :: 0 <= i < j < |SongColumns| ==> SongColumns[i] != SongColumns[j]
  {
  }

  /** The row holding `values` under the song columns, in column order. */
  function SongRow(values: seq<Value>): (row: Record)
    requires |values| == |SongColumns|
    ensures Keys(row) == SongColumns
  {
    seq(|SongColumns|, i requires 0 <= i < |SongColumns| => (SongColumns[i], values[i]))
  }

  /** The song columns are distinct, so each holds exactly its own value. */
  lemma SongRowGet(values: seq<Value>)
    requires |values| == |SongColumns|
    ensures UniqueKeys(SongRow(values))
    ensures forall i :: 0 <= i < |SongColumns| ==> Get(SongRow(values), SongColumns[i]) == Some(values[i])
  {
    var row := SongRow(values);
    SongColumnsDistinct();
    forall i | 0 <= i < |SongColumns| ensures Get(row, SongColumns[i]) == Some(values[i]) {
      GetAt(row, i);
    }
  }

  /** The song row `upload_metadata_to_supabase` builds from a metadata file, before sanitising. */
  function SongData(fileId: string, metadata: Record, bucket: string): (row: Record)
    ensures Keys(row) == SongColumns && UniqueKeys(row)
    ensures Get(row, "id") == Some(Str(fileId))
    ensures Get(row, "title") == Some(Lookup(metadata, "title"))
    ensures Get(row, "artist") == Some(Lookup(metadata, "uploader"))
    ensures Get(row, "album") == Some(Lookup(metadata, "album"))
    ensures Get(row, "duration") == Some(Lookup(metadata, "duration"))
    ensures Get(row, "release_date") == Some(Lookup(metadata, "upload_date"))
    ensures Get(row, "view_count") == Some(Lookup(metadata, "view_count"))
    ensures Get(row, "like_count") == Some(Lookup(metadata, "like_count"))
    ensures Get(row, "description") == Some(Lookup(metadata, "description"))
    ensures Get(row, "source_url") == Some(Lookup(metadata, "webpage_url"))
    ensures Get(row, "youtube_url") == Some(Lookup(metadata, "url"))
    ensures Get(row, "storage_path") == Some(Str(AudioPath(fileId)))
    ensures Get(row, "thumbnail_path") == Some(Str(ThumbnailPath(fileId)))
    ensures Get(row, "storage_url") == Some(Str(B2Url(bucket, AudioPath(fileId))))
    ensures Get(row, "thumbnail_url") == Some(Str(B2Url(bucket, ThumbnailPath(fileId))))
  {
    var values := [
      Str(fileId),
      Lookup(metadata, "title"),
      Lookup(metadata, "uploader"),
      Lookup(metadata, "album"),
      Lookup(metadata, "duration"),
      Lookup(metadata, "upload_date"),
      Lookup(metadata, "view_count"),
      Lookup(metadata, "like_count"),
      Lookup(metadata, "description"),
      Lookup(metadata, "webpage_url"),
      Lookup(metadata, "url"),
      Str(AudioPath(fileId)),
      Str(ThumbnailPath(fileId)),
      Str(B2Url(bucket, AudioPath(fileId))),
      Str(B2Url(bucket, ThumbnailPath(fileId)))
    ];
    SongRowGet(values);
    var row := SongRow(values);
    assert Get(row, SongColumns[0]) == Some(values[0]) && Get(row, SongColumns[1]) == Some(values[1]);
    assert Get(row, SongColumns[2]) == Some(values[2]) && Get(row, SongColumns[3]) == Some(values[3]);
    assert Get(row, SongColumns[4]) == Some(values[4]) && Get(row, SongColumns[5]) == Some(values[5]);
    assert Get(row, SongColumns[6]) == Some(values[6]) && Get(row, SongColumns[7]) == Some(values[7]);
    assert Get(row, SongColumns[8]) == Some(values[8]) && Get(row, SongColumns[9]) == Some(values[9]);
    assert Get(row, SongColumns[10]) == Some(values[10]) && Get(row, SongColumns[11]) == Some(values[11]);
    assert Get(row, SongColumns[12]) == Some(values[12]) && Get(row, SongColumns[13]) == Some(values[13]);
    assert Get(row, SongColumns[14]) == Some(values[14]);
    row
  }

  /** The required fields that are missing or falsy, in the order they are listed. */
  function MissingFields(row: Record): (missing: seq<string>)
    ensures forall f :: f in missing <==> f in RequiredFields && !Truthy(Lookup(row, f))
  {
    var id: seq<string> := if Truthy(Lookup(row, "id")) then [] else ["id"];
    id +
    (if Truthy(Lookup(row, "title")) then [] else ["title"]) +
    (if Truthy(Lookup(row, "duration")) then [] else ["duration"])
  }

  /**
   * The sanitised row of a metadata file, or `None` when the gate rejects
   * it: a zero duration is falsy, so it is rejected like a missing one.
   */
  function GatedSong(fileId: string, metadata: Record, bucket: string): (row: Option<Record>)
    ensures row.Some? ==> row.value == Sanitized(SongData(fileId, metadata, bucket))
    ensures row.Some? <==> MissingFields(Sanitized(SongData(fileId, metadata, bucket))) == []
  {
    var clean := Sanitized(SongData(fileId, metadata, bucket));
    if MissingFields(clean) == [] then Some(clean) else None
  }

  /** A metadata file whose duration is 0 (or 0.0) is rejected even though it has one. */
  lemma ZeroDurationRejected(fileId: string, metadata: Record, bucket: string)
    requires Lookup(metadata, "duration") == Int(0) || Lookup(metadata, "duration") == Float(0.0)
    ensures GatedSong(fileId, metadata, bucket) == None
  {
    var data := SongData(fileId, metadata, bucket);
    ZeroDurationRowRejected(data, Lookup(metadata, "duration"));
  }

  /** A row whose duration is 0 (or 0.0) is still missing its duration once sanitised. */
  lemma ZeroDurationRowRejected(data: Record, duration: Value)
    requires UniqueKeys(data) && Get(data, "duration") == Some(duration)
    requires duration == Int(0) || duration == Float(0.0)
    ensures MissingFields(Sanitized(data)) != []
  {
    SanitizedGet(data, "duration");
    ZeroDurationKept(duration);
    assert Lookup(Sanitized(data), "duration") == Float(0.0);
    assert "duration" in RequiredFields;
  }

  /** Sanitising keeps a zero duration, as the float `0.0`. */
  lemma ZeroDurationKept(duration: Value)
    requires duration == Int(0) || duration == Float(0.0)
    ensures SanitizeEntry("duration", duration) == Some(Float(0.0))
  {
  }

  /** An accepted row always carries a truthy id, title and duration. */
  lemma AcceptedHasRequiredFields(fileId: string, metadata: Record, bucket: string)
    requires GatedSong(fileId, metadata, bucket).Some?
    ensures forall f :: f in RequiredFields ==> Truthy(Lookup(GatedSong(fileId, metadata, bucket).value, f))
  {
  }

  // ---------------------------------------------------------------------
  // The upload run and its statistics

  /**
   * A metadata file as the upload run sees it: its stem, its text, what
   * `json.loads` made of the text (`None` for a decode error), and whether
   * the matching audio and thumbnail files exist.
   */
  datatype MetadataFile = MetadataFile(
    stem: string, content: string, decoded: Option<Value>, hasAudio: bool, hasThumbnail: bool)

  /** Which statistic a file ends up in; `Unexpected` is counted by none. */
  datatype Outcome = EmptyFile | DecodeError | MissingMedia | MissingRequired | ApiError | Successful | Unexpected

  /** The file has text that decodes to a truthy JSON value. */
  predicate Readable(f: MetadataFile) {
    !PyText.Blank(f.content) && f.decoded.Some? && Truthy(f.decoded.value)
  }

  /** A readable dict whose audio and thumbnail files both exist: the song row is built from it. */
  predicate Buildable(f: MetadataFile) {
    Readable(f) && f.hasAudio && f.hasThumbnail && f.decoded.value.Obj?
  }

  /** A truthy `tags` value that `insert_tags` cannot iterate. */
  predicate BadTags(metadata: Record) {
    Truthy(Lookup(metadata, "tags")) && TagItems(Lookup(metadata, "tags")).None?
  }

  /**
   * The fate of one metadata file. `store(row)` says whether the catalog's
   * insert or update of the row returned data (an exception counts as no).
   */
  function Classify(f: MetadataFile, bucket: string, store: Record -> bool): (o: Outcome)
    ensures PyText.Blank(f.content) ==> o == EmptyFile
    ensures o == EmptyFile <==> PyText.Blank(f.content) || (f.decoded.Some? && !Truthy(f.decoded.value))
    ensures o == DecodeError <==> !PyText.Blank(f.content) && f.decoded.None?
    ensures o == MissingMedia <==> Readable(f) && !(f.hasAudio && f.hasThumbnail)
    ensures o == Unexpected <==> Readable(f) && f.hasAudio && f.hasThumbnail && !f.decoded.value.Obj?
    ensures o == MissingRequired <==> Buildable(f) && GatedSong(f.stem, f.decoded.value.fields, bucket).None?
    ensures o == ApiError <==>
      && Buildable(f) && GatedSong(f.stem, f.decoded.value.fields, bucket).Some?
      && (!store(GatedSong(f.stem, f.decoded.value.fields, bucket).value) || BadTags(f.decoded.value.fields))
    ensures o == Successful <==>
      && Buildable(f) && GatedSong(f.stem, f.decoded.value.fields, bucket).Some?
      && store(GatedSong(f.stem, f.decoded.value.fields, bucket).value) && !BadTags(f.decoded.value.fields)
  {
    if PyText.Strip(f.content) == [] then EmptyFile
    else match f.decoded
      case None => DecodeError
      case Some(metadata) =>
        if !Truthy(metadata) then EmptyFile
        else if !f.hasAudio || !f.hasThumbnail then MissingMedia
        else if !metadata.Obj? then Unexpected
        else match GatedSong(f.stem, metadata.fields, bucket)
          case None => MissingRequired
          case Some(row) =>
            if !store(row) then ApiError
            else
              var tags := Lookup(metadata.fields, "tags");
              if Truthy(tags) && TagItems(tags).None? then ApiError else Successful
  }

  /** The outcome of each file, in order. */
  function Outcomes(files: seq<MetadataFile>, bucket: string, store: Record -> bool): (os: seq<Outcome>)
    ensures |os| == |files| && forall i :: 0 <= i < |files| ==> os[i] == Classify(files[i], bucket, store)
  {
    seq(|files|, i requires 0 <= i < |files| => Classify(files[i], bucket, store))
  }

  /** How many of `outcomes` are `o`. */
  function Count(outcomes: seq<Outcome>, o: Outcome): (n: nat)
    ensures n <= |outcomes|
  {
    if outcomes == [] then 0
    else Count(outcomes[..|outcomes| - 1], o) + (if outcomes[|outcomes| - 1] == o then 1 else 0)
  }

  /** The `stats` dict of an upload run. */
  datatype Stats = Stats(
    total: nat, processed: nat, emptyFiles: nat, jsonDecodeErrors: nat,
    missingMedia: nat, missingFields: nat, apiErrors: nat, successful: nat)

  /** The counters partition the files, except the ones that failed unexpectedly. */
  lemma {:induction false} OutcomesPartition(outcomes: seq<Outcome>)
    ensures
      Count(outcomes, EmptyFile) + Count(outcomes, DecodeError) + Count(outcomes, MissingMedia)
      + Count(outcomes, MissingRequired) + Count(outcomes, ApiError) + Count(outcomes, Successful)
      + Count(outcomes, Unexpected)
      == |outcomes|
  {
    if outcomes != [] {
      OutcomesPartition(outcomes[..|outcomes| - 1]);
    }
  }

  /** The statistics of a run over files with these outcomes. */
  function Tally(total: nat, outcomes: seq<Outcome>): Stats {
    Stats(total, 0, Count(outcomes, EmptyFile), Count(outcomes, DecodeError),
      Count(outcomes, MissingMedia), Count(outcomes, MissingRequired),
      Count(outcomes, ApiError), Count(outcomes, Successful))
  }

  /** The statistics after one more file with outcome `o`. */
  function Bump(st: Stats, o: Outcome): Stats {
    match o
    case EmptyFile => st.(emptyFiles := st.emptyFiles + 1)
    case DecodeError => st.(jsonDecodeErrors := st.jsonDecodeErrors + 1)
    case MissingMedia => st.(missingMedia := st.missingMedia + 1)
    case MissingRequired => st.(missingFields := st.missingFields + 1)
    case ApiError => st.(apiErrors := st.apiErrors + 1)
    case Successful => st.(successful := st.successful + 1)
    case Unexpected => st
  }

  lemma PrefixSnoc<T>(s: seq<T>, i: nat)
    requires i < |s|
    ensures s[..i + 1] == s[..i] + [s[i]]
  {
  }

  lemma TallySnoc(total: nat, outcomes: seq<Outcome>, o: Outcome)
    ensures Tally(total, outcomes + [o]) == Bump(Tally(total, outcomes), o)
  {
    assert (outcomes + [o])[..|outcomes|] == outcomes;
  }

  /**
   * `upload_metadata_to_supabase`: classifies every file in turn and counts
   * the outcomes. No statistics when there are no files or the catalog
   * cannot be reached (`connected` false). The `processed` counter is never
   * incremented.
   */
  method UploadMetadata(files: seq<MetadataFile>, bucket: string, connected: bool, store: Record -> bool)
    returns (stats: Option<Stats>)
    ensures stats.None? <==> files == [] || !connected
    ensures stats.Some? ==> stats.value == Tally(|files|, Outcomes(files, bucket, store))
  {
    if files == [] || !connected {
      return None;
    }
    ghost var outcomes := Outcomes(files, bucket, store);
    var st := Stats(|files|, 0, 0, 0, 0, 0, 0, 0);
    var i := 0;
    while i < |files|
      invariant 0 <= i <= |files|
      invariant st == Tally(|files|, outcomes[..i])
    {
      var outcome := Classify(files[i], bucket, store);
      assert outcome == outcomes[i];
      PrefixSnoc(outcomes, i);
      TallySnoc(|files|, outcomes[..i], outcome);
      st := Bump(st, outcome);
      i := i + 1;
    }
    assert outcomes[..i] == outcomes;
    return Some(st);
  }
}
