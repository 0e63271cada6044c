/**
 * Schema analysis and repair of a directory of JSON metadata files
 * (json_metadata_quality_tool.py): which keys occur how often, which keys
 * are common to at least 90% of the files, which files miss a common key or
 * carry a key outside the standard list, and the two repairs that rewrite a
 * file's record.
 *
 * The directory is an in-memory map from file name to what `json.load`
 * makes of the file (`None` when it cannot be loaded); a missing entry is a
 * file that does not exist. Backup files are a map of their own.
 */
module Quality {
  import opened Wrappers
  import opened PyValue

  /** The keys every metadata file should have, in the order a repaired file lists them. */
  const StandardKeys: seq<string> := [
    "id", "title", "artist", "album", "duration", "release_date",
    "view_count", "like_count", "description", "tags",
    "thumbnail_url", "audio_url", "created_at", "local_paths",
    "source_id", "source_url"
  ]

  const StandardSet: set<string> := set k | k in StandardKeys

  predicate Distinct<T(==)>(s: seq<T>) {
    forall i, j :: 0 <= i < j < |s| ==> s[i] != s[j]
  }

  // ---------------------------------------------------------------------
  // Ordering keys: `sort(key=lambda k: (-count[k], k))`

  /** Python's `<` on strings: lexicographic by code point. */
  predicate StrLess(a: string, b: string)
    decreases |a|
  {
    if a == [] then b != []
    else if b == [] then false
    else if a[0] != b[0] then a[0] < b[0]
    else StrLess(a[1..], b[1..])
  }

  lemma {:induction false} StrLessIrreflexive(a: string)
    ensures !StrLess(a, a)
    decreases |a|
  {
    if a != [] {
      StrLessIrreflexive(a[1..]);
    }
  }

  lemma {:induction false} StrLessTransitive(a: string, b: string, c: string)
    requires StrLess(a, b) && StrLess(b, c)
    ensures StrLess(a, c)
    decreases |a|
  {
    if a != [] && a[0] == b[0] && b[0] == c[0] {
      StrLessTransitive(a[1..], b[1..], c[1..]);
    }
  }

  /** Distinct strings are always ordered one way or the other. */
  lemma {:induction false} StrLessTotal(a: string, b: string)
    requires a != b
    ensures StrLess(a, b) || StrLess(b, a)
    decreases |a|
  {
    if a != [] && b != [] && a[0] == b[0] {
      assert a == [a[0]] + a[1..] && b == [b[0]] + b[1..];
      StrLessTotal(a[1..], b[1..]);
    }
  }

  /** A key's count in a `Counter`: 0 when absent. */
  function Tally(counter: map<string, nat>, k: string): nat {
    if k in counter then counter[k] else 0
  }

  /** `a` sorts before `b` under the key `(-count, key)`. */
  predicate Before(counter: map<string, nat>, a: string, b: string) {
    || Tally(counter, a) > Tally(counter, b)
    || (Tally(counter, a) == Tally(counter, b) && StrLess(a, b))
  }

  lemma BeforeTransitive(counter: map<string, nat>, a: string, b: string, c: string)
    requires Before(counter, a, b) && Before(counter, b, c)
    ensures Before(counter, a, c)
  {
    if Tally(counter, a) == Tally(counter, b) == Tally(counter, c) {
      StrLessTransitive(a, b, c);
    }
  }

  /** The sort key is a strict total order on keys. */
  lemma BeforeTotal(counter: map<string, nat>, a: string, b: string)
    ensures a != b ==> Before(counter, a, b) || Before(counter, b, a)
    ensures !Before(counter, a, a)
  {
    StrLessIrreflexive(a);
    if a != b {
      StrLessTotal(a, b);
    }
  }

  /** Sorted by descending count, ties by ascending key, each key once. */
  predicate Ranked(counter: map<string, nat>, s: seq<string>) {
    forall i, j :: 0 <= i < j < |s| ==> Before(counter, s[i], s[j])
  }

  /** Inserts `k` into a ranked list at its place. */
  function InsertRanked(counter: map<string, nat>, s: seq<string>, k: string): (r: seq<string>)
    ensures |r| == |s| + 1
    ensures forall x :: x in r <==> x in s || x == k
  {
    if s == [] then [k]
    else if Before(counter, k, s[0]) then [k] + s
    else [s[0]] + InsertRanked(counter, s[1..], k)
  }

  lemma {:induction false} InsertRankedKeepsRanked(counter: map<string, nat>, s: seq<string>, k: string)
    requires Ranked(counter, s) && k !in s
    ensures Ranked(counter, InsertRanked(counter, s, k))
  {
    var r := InsertRanked(counter, s, k);
    if s == [] {
    } else if Before(counter, k, s[0]) {
      forall j | 1 <= j < |r| ensures Before(counter, r[0], r[j]) {
        if j > 1 {
          BeforeTransitive(counter, k, s[0], s[j - 1]);
        }
      }
    } else {
      InsertRankedKeepsRanked(counter, s[1..], k);
      BeforeTotal(counter, k, s[0]);
      assert Before(counter, s[0], k);
      var rest := InsertRanked(counter, s[1..], k);
      assert r == [s[0]] + rest;
      forall j | 1 <= j < |r| ensures Before(counter, r[0], r[j]) {
        assert r[j] == rest[j - 1];
        assert rest[j - 1] in rest;
        if rest[j - 1] != k {
          var m :| 0 <= m < |s[1..]| && s[1..][m] == rest[j - 1];
          assert s[m + 1] == rest[j - 1];
        }
      }
    }
  }

  /** `k` is common: present in at least 90% of `total` files. */
  predicate IsCommon(counter: map<string, nat>, total: nat, k: string) {
    k in counter && 10 * counter[k] >= 9 * total
  }

  /**
   * The common keys of `_analyze_json_schema`: exactly the keys counted in
   * at least 90% of the files, most frequent first, ties by key.
   */
  method RankCommonKeys(counter: map<string, nat>, total: nat) returns (ranked: seq<string>)
    ensures forall k :: k in ranked <==> IsCommon(counter, total, k)
    ensures Ranked(counter, ranked)
  {
    ranked := [];
    var rest := set k | k in counter && 10 * counter[k] >= 9 * total;
    while rest != {}
      invariant forall k :: k in rest ==> IsCommon(counter, total, k)
      invariant forall k :: k in ranked <==> IsCommon(counter, total, k) && k !in rest
      invariant Ranked(counter, ranked)
      decreases rest
    {
      var k :| k in rest;
      InsertRankedKeepsRanked(counter, ranked, k);
      ranked := InsertRanked(counter, ranked, k);
      rest := rest - {k};
    }
  }

  /** A ranked list names each key once. */
  lemma RankedDistinct(counter: map<string, nat>, s: seq<string>)
    requires Ranked(counter, s)
    ensures Distinct(s)
  {
    forall i, j | 0 <= i < j < |s| ensures s[i] != s[j] {
      BeforeTotal(counter, s[i], s[j]);
    }
  }

  // ---------------------------------------------------------------------
  // Rebuilding a record key by key

  /**
   * `for key in keys: if key in data: ordered[key] = data[key]`, starting
   * from an empty dict: the entries of `data` under `keys`, in `keys` order.
   */
  function Pick(data: Record, keys: seq<string>): (picked: Record)
  {
    if keys == [] then []
    else
      var prev := Pick(data, keys[..|keys| - 1]);
      var k := keys[|keys| - 1];
      match Get(data, k)
      case Some(v) => prev + [(k, v)]
      case None => prev
  }

  /** Picking keeps exactly the listed keys present in `data`, each with its value. */
  lemma {:induction false} PickGet(data: Record, keys: seq<string>, k: string)
    requires Distinct(keys)
    ensures Get(Pick(data, keys), k) == if k in keys then Get(data, k) else None
    ensures UniqueKeys(Pick(data, keys)) && KeySet(Pick(data, keys)) <= set x | x in keys
  {
    if keys != [] {
      var init, last := keys[..|keys| - 1], keys[|keys| - 1];
      assert keys == init + [last];
      PickGet(data, init, k);
      var prev := Pick(data, init);
      assert last !in init;
      assert last !in KeySet(prev);
      match Get(data, last)
      case Some(v) =>
        GetConcat(prev, [(last, v)], k);
        KeySetSnoc(prev, (last, v));
        assert prev + [(last, v)] == Pick(data, keys);
        forall i, j | 0 <= i < j < |prev| + 1 ensures (prev + [(last, v)])[i].0 != (prev + [(last, v)])[j].0 {
          if j == |prev| {
            assert prev[i].0 in KeySet(prev);
          }
        }
      case None =>
        if k == last {
          assert Get(data, k) == None;
        }
    }
  }

  /** Standard keys are listed once each. */
  lemma StandardKeysDistinct()
    ensures Distinct(StandardKeys)
  {
  }

  /** `_remove_unusual_keys`'s record: only the standard keys, in standard order. */
  function KeepStandard(data: Record): Record {
    Pick(data, StandardKeys)
  }

  /**
   * The record `_remove_unusual_keys` writes: its keys are exactly the
   * record's keys that are standard, each with its original value, in
   * standard order.
   */
  lemma KeepStandardContents(data: Record, k: string)
    ensures Get(KeepStandard(data), k) == if k in StandardSet then Get(data, k) else None
    ensures KeySet(KeepStandard(data)) == KeySet(data) * StandardSet
    ensures Subsequence(Keys(KeepStandard(data)), StandardKeys)
  {
    StandardKeysDistinct();
    PickGet(data, StandardKeys, k);
    forall x ensures x in KeySet(KeepStandard(data)) <==> x in KeySet(data) * StandardSet {
      PickGet(data, StandardKeys, x);
    }
    PickInOrder(data, StandardKeys);
  }

  lemma {:induction false} PickInOrder(data: Record, keys: seq<string>)
    ensures Subsequence(Keys(Pick(data, keys)), keys)
  {
    if keys != [] {
      var init, last := keys[..|keys| - 1], keys[|keys| - 1];
      PickInOrder(data, init);
      var prev := Pick(data, init);
      match Get(data, last)
      case Some(v) =>
        var p := Pick(data, keys);
        assert p == prev + [(last, v)];
        assert Keys(p)[..|p| - 1] == Keys(prev);
      case None =>
    }
  }

  /**
   * `for key in data: if key not in ordered: ordered[key] = data[key]`:
   * appends the entries of `data` whose key `acc` does not hold yet.
   */
  function Extend(acc: Record, data: Record): (r: Record)
  {
    if data == [] then acc
    else
      var prev := Extend(acc, data[..|data| - 1]);
      var (k, v) := data[|data| - 1];
      if k in KeySet(prev) then prev else prev + [(k, v)]
  }

  /** Extending keeps every entry of `acc` and takes the rest from `data`. */
  lemma {:induction false} ExtendGet(acc: Record, data: Record, k: string)
    ensures Get(Extend(acc, data), k) == if Get(acc, k).Some? then Get(acc, k) else Get(data, k)
    ensures KeySet(Extend(acc, data)) == KeySet(acc) + KeySet(data)
  {
    if data != [] {
      var init := data[..|data| - 1];
      var (key, value) := data[|data| - 1];
      assert data == init + [(key, value)];
      ExtendGet(acc, init, k);
      KeySetSnoc(init, (key, value));
      GetConcat(init, [(key, value)], k);
      var prev := Extend(acc, init);
      if key !in KeySet(prev) {
        KeySetSnoc(prev, (key, value));
        GetConcat(prev, [(key, value)], k);
      }
    }
  }

  /** The entries of `data` whose key is not standard, in order. */
  function NonStandard(data: Record): (r: Record)
  {
    if data == [] then []
    else
      var prev := NonStandard(data[..|data| - 1]);
      if data[|data| - 1].0 in StandardSet then prev else prev + [data[|data| - 1]]
  }

  /**
   * When `acc` holds exactly the standard keys that `data` has, extending
   * appends `data`'s non-standard entries in their order.
   */
  lemma {:induction false} ExtendLayout(acc: Record, data: Record)
    requires UniqueKeys(data)
    requires forall i :: 0 <= i < |data| ==> (data[i].0 in KeySet(acc) <==> data[i].0 in StandardSet)
    ensures Extend(acc, data) == acc + NonStandard(data)
  {
    if data != [] {
      var init := data[..|data| - 1];
      var (key, value) := data[|data| - 1];
      UniqueKeysLast(data);
      assert forall i :: 0 <= i < |init| ==> init[i] == data[i];
      ExtendLayout(acc, init);
      NonStandardKeys(init);
      assert key in KeySet(acc) <==> key in StandardSet by {
        assert data[|data| - 1].0 == key;
      }
      var prev := Extend(acc, init);
      if key in StandardSet {
        KeySetConcat(acc, NonStandard(init));
      } else {
        KeySetConcat(acc, NonStandard(init));
        assert key !in KeySet(prev);
      }
    }
  }

  lemma {:induction false} NonStandardKeys(data: Record)
    ensures KeySet(NonStandard(data)) <= KeySet(data)
  {
    if data != [] {
      var init := data[..|data| - 1];
      NonStandardKeys(init);
      assert data == init + [data[|data| - 1]];
      KeySetSnoc(init, data[|data| - 1]);
      if data[|data| - 1].0 !in StandardSet {
        KeySetSnoc(NonStandard(init), data[|data| - 1]);
      }
    }
  }

  /** The reordering of `_fix_missing_keys`: standard keys first, then the rest. */
  function Reorder(data: Record): Record {
    Extend(Pick(data, StandardKeys), data)
  }

  /**
   * Reordering changes no key and no value, and lists the standard keys
   * first, in standard order, then the other keys in their prior order.
   */
  lemma ReorderContents(data: Record, k: string)
    requires UniqueKeys(data)
    ensures Get(Reorder(data), k) == Get(data, k)
    ensures KeySet(Reorder(data)) == KeySet(data)
    ensures Reorder(data) == KeepStandard(data) + NonStandard(data)
  {
    StandardKeysDistinct();
    var picked := Pick(data, StandardKeys);
    ExtendGet(picked, data, k);
    PickGet(data, StandardKeys, k);
    forall x | x in KeySet(picked) ensures x in KeySet(data) {
      PickGet(data, StandardKeys, x);
    }
    forall i | 0 <= i < |data| ensures data[i].0 in KeySet(picked) <==> data[i].0 in StandardSet {
      PickGet(data, StandardKeys, data[i].0);
      assert data[i].0 in KeySet(data);
    }
    ExtendLayout(picked, data);
  }

  // ---------------------------------------------------------------------
  // Copying missing keys from the original file

  /** `needle in s` for strings. */
  predicate Substring(needle: string, s: string) {
    exists i :: 0 <= i <= |s| && needle <= s[i..]
  }

  /** `key in v`; `None` for the `TypeError` when `v` is not a container. */
  function Contains(v: Value, key: string): (r: Option<bool>)
    ensures v.Obj? ==> r == Some(key in KeySet(v.fields))
  {
    match v
    case Obj(fields) => Some(key in KeySet(fields))
    case List(items) => Some(Str(key) in items)
    case Str(s) => Some(Substring(key, s))
    case Null => None
    case Bool(_) => None
    case Int(_) => None
    case Float(_) => None
  }

  /**
   * `for key in missing: if key in original: data[key] = original[key]`;
   * `None` for the `TypeError` raised when `original` is not a dict and
   * cannot answer `in` or be indexed by a key it contains.
   */
  function CopyMissing(data: Record, original: Value, missing: seq<string>): (r: Option<Record>)
    ensures original.Obj? ==> r.Some?
  {
    if missing == [] then Some(data)
    else
      match CopyMissing(data, original, missing[..|missing| - 1])
      case None => None
      case Some(prev) =>
        var k := missing[|missing| - 1];
        match Contains(original, k)
        case None => None
        case Some(false) => Some(prev)
        case Some(true) =>
          if original.Obj? then Some(Put(prev, k, Get(original.fields, k).value)) else None
  }

  /**
   * Copying from a dict: each missing key the original has takes the
   * original's value; every other key keeps the value it had.
   */
  lemma {:induction false} CopyMissingGet(data: Record, original: Record, missing: seq<string>, k: string)
    ensures Get(CopyMissing(data, Obj(original), missing).value, k) ==
      if k in missing && Get(original, k).Some? then Get(original, k) else Get(data, k)
    ensures UniqueKeys(data) ==> UniqueKeys(CopyMissing(data, Obj(original), missing).value)
  {
    if missing != [] {
      var init, last := missing[..|missing| - 1], missing[|missing| - 1];
      assert missing == init + [last];
      CopyMissingGet(data, original, init, k);
      var prev := CopyMissing(data, Obj(original), init).value;
      if last in KeySet(original) {
        PutGet(prev, last, Get(original, last).value, k);
        PutKeys(prev, last, Get(original, last).value);
      }
    }
  }

  /**
   * `_fix_missing_keys` on one file: the missing keys (in `missing` order)
   * copied from the original, then the keys reordered. `None` when the
   * original cannot be loaded or the copy raises.
   */
  function FixRecord(data: Record, original: Option<Value>, missing: seq<string>): (r: Option<Record>)
    ensures original.Some? && original.value.Obj? ==> r.Some?
  {
    match original
    case None => None
    case Some(o) =>
      match CopyMissing(data, o, missing)
      case None => None
      case Some(copied) => Some(Reorder(copied))
  }

  /**
   * What a repaired record holds: every key it had, with its value, plus
   * each missing key the original dict has, with the original's value.
   */
  lemma FixRecordGet(data: Record, original: Record, missing: seq<string>, k: string)
    requires UniqueKeys(data)
    requires forall m :: m in missing ==> m !in KeySet(data)
    ensures FixRecord(data, Some(Obj(original)), missing).Some?
    ensures Get(FixRecord(data, Some(Obj(original)), missing).value, k) ==
      if k in missing then Get(original, k) else Get(data, k)
  {
    CopyMissingGet(data, original, missing, k);
    var copied := CopyMissing(data, Obj(original), missing).value;
    ReorderContents(copied, k);
  }

  /** A file whose original holds all its missing keys has none missing after the repair. */
  lemma FixRecordComplete(data: Record, original: Record, missing: seq<string>)
    requires UniqueKeys(data)
    requires forall m :: m in missing ==> m !in KeySet(data) && m in KeySet(original)
    ensures KeySet(FixRecord(data, Some(Obj(original)), missing).value) == KeySet(data) + set m | m in missing
  {
    var fixed := FixRecord(data, Some(Obj(original)), missing).value;
    forall x ensures x in KeySet(fixed) <==> x in KeySet(data) + set m | m in missing {
      FixRecordGet(data, original, missing, x);
    }
  }

  // ---------------------------------------------------------------------
  // The repairs as the loops that build them

  /**
   * The loop that copies `keys`, in order, from a dict into a new
   * `OrderedDict`, as `_remove_unusual_keys` and `_fix_missing_keys` do
   * with the standard keys.
   */
  method PickKeys(data: Record, keys: seq<string>) returns (ordered: Record)
    ensures ordered == Pick(data, keys)
  {
    ordered := [];
    var i := 0;
    while i < |keys|
      invariant 0 <= i <= |keys|
      invariant ordered == Pick(data, keys[..i])
    {
      assert keys[..i + 1][..i] == keys[..i];
      var value := Get(data, keys[i]);
      if value.Some? {
        ordered := ordered + [(keys[i], value.value)];
      }
      i := i + 1;
    }
    assert keys[..i] == keys;
  }

  /** The two loops of `_fix_missing_keys` that rebuild a record in standard order. */
  method ReorderKeys(data: Record) returns (ordered: Record)
    ensures ordered == Reorder(data)
  {
    ordered := PickKeys(data, StandardKeys);
    ghost var picked := ordered;
    var i := 0;
    while i < |data|
      invariant 0 <= i <= |data|
      invariant ordered == Extend(picked, data[..i])
    {
      assert data[..i + 1][..i] == data[..i];
      var (key, value) := data[i];
      if Get(ordered, key).None? {
        ordered := ordered + [(key, value)];
      }
      i := i + 1;
    }
    assert data[..i] == data;
  }

  /** Once the copy has raised, copying more keys does not undo it. */
  lemma {:induction false} CopyMissingStaysFailed(data: Record, original: Value, missing: seq<string>, i: nat)
    requires i <= |missing| && CopyMissing(data, original, missing[..i]).None?
    ensures CopyMissing(data, original, missing).None?
    decreases |missing|
  {
    if i < |missing| {
      var init := missing[..|missing| - 1];
      assert init[..i] == missing[..i];
      CopyMissingStaysFailed(data, original, init, i);
    } else {
      assert missing[..i] == missing;
    }
  }

  /** The copy loop of `_fix_missing_keys`, stopping at the first `TypeError`. */
  method CopyMissingKeys(data: Record, original: Value, missing: seq<string>) returns (copied: Option<Record>)
    ensures copied == CopyMissing(data, original, missing)
  {
    var acc := data;
    var i := 0;
    while i < |missing|
      invariant 0 <= i <= |missing|
      invariant CopyMissing(data, original, missing[..i]) == Some(acc)
    {
      assert missing[..i + 1][..i] == missing[..i];
      var key := missing[i];
      var found := Contains(original, key);
      if found.None? || (found.value && !original.Obj?) {
        CopyMissingStaysFailed(data, original, missing, i + 1);
        return None;
      }
      if found.value {
        acc := Put(acc, key, Get(original.fields, key).value);
      }
      i := i + 1;
    }
    assert missing[..i] == missing;
    return Some(acc);
  }

  // ---------------------------------------------------------------------
  // Scanning the directory

  /** Why a file could not be analysed. */
  datatype ErrorReason = NotADictionary | Unloadable

  /** What `json.load` makes of file `f` of `dir`; `None` when it cannot be loaded. */
  function Load(dir: map<string, Option<Value>>, f: string): Option<Value> {
    if f in dir then dir[f] else None
  }

  /** The top-level keys of a loaded document, when it is a dict. */
  function KeysOf(doc: Option<Value>): Option<set<string>> {
    match doc
    case Some(Obj(fields)) => Some(KeySet(fields))
    case _ => None
  }

  predicate IsDict(doc: Option<Value>) {
    doc.Some? && doc.value.Obj?
  }

  /** The entries of a loaded dict document. */
  function Fields(doc: Option<Value>): Record {
    match doc
    case Some(Obj(fields)) => fields
    case _ => []
  }

  /** `file_keys` as a scan of `files` fills it. */
  function ParsedKeys(files: seq<string>, dir: map<string, Option<Value>>): map<string, set<string>> {
    if files == [] then map[]
    else
      var prev := ParsedKeys(files[..|files| - 1], dir);
      var f := files[|files| - 1];
      match KeysOf(Load(dir, f))
      case Some(keys) => prev[f := keys]
      case None => prev
  }

  /** A file has a `file_keys` entry exactly when it loads as a dict; the entry is its key set. */
  lemma {:induction false} ParsedKeysContents(files: seq<string>, dir: map<string, Option<Value>>, f: string)
    ensures f in ParsedKeys(files, dir) <==> f in files && KeysOf(Load(dir, f)).Some?
    ensures f in ParsedKeys(files, dir) ==> ParsedKeys(files, dir)[f] == KeysOf(Load(dir, f)).value
  {
    if files != [] {
      var init := files[..|files| - 1];
      ParsedKeysContents(init, dir, f);
      assert files == init + [files[|files| - 1]];
    }
  }

  /** How many of `files` load as a dict holding key `k`. */
  function Frequency(files: seq<string>, dir: map<string, Option<Value>>, k: string): nat {
    if files == [] then 0
    else
      Frequency(files[..|files| - 1], dir, k) +
        match KeysOf(Load(dir, files[|files| - 1]))
        case Some(keys) => if k in keys then 1 else 0
        case None => 0
  }

  /** The `errors` a scan of `files` records, in order. */
  function ScanErrors(files: seq<string>, dir: map<string, Option<Value>>): seq<(string, ErrorReason)> {
    if files == [] then []
    else
      var prev := ScanErrors(files[..|files| - 1], dir);
      var f := files[|files| - 1];
      match Load(dir, f)
      case None => prev + [(f, Unloadable)]
      case Some(Obj(_)) => prev
      case Some(_) => prev + [(f, NotADictionary)]
  }

  /** Every file is either recorded as an error or counted at most once per key. */
  lemma {:induction false} ScanAccountsForFiles(files: seq<string>, dir: map<string, Option<Value>>, k: string)
    ensures Frequency(files, dir, k) + |ScanErrors(files, dir)| <= |files|
  {
    if files != [] {
      ScanAccountsForFiles(files[..|files| - 1], dir, k);
    }
  }

  /** A file that loads as a dict without `k` keeps `k`'s count below the number of files. */
  lemma {:induction false} FrequencyMissed(files: seq<string>, dir: map<string, Option<Value>>, k: string, f: string)
    requires f in files && KeysOf(Load(dir, f)).Some? && k !in KeysOf(Load(dir, f)).value
    ensures Frequency(files, dir, k) < |files|
  {
    var init := files[..|files| - 1];
    if f == files[|files| - 1] {
      ScanAccountsForFiles(init, dir, k);
    } else {
      assert files == init + [files[|files| - 1]];
      FrequencyMissed(init, dir, k, f);
    }
  }

  /**
   * No file can miss a common key unless there are at least ten files: with
   * fewer, 90% of the files means all of them.
   */
  lemma MissingNeedsTenFiles(files: seq<string>, dir: map<string, Option<Value>>, k: string, f: string)
    requires 10 * Frequency(files, dir, k) >= 9 * |files|
    requires f in files && KeysOf(Load(dir, f)).Some? && k !in KeysOf(Load(dir, f)).value
    ensures |files| >= 10
  {
    FrequencyMissed(files, dir, k, f);
  }

  /** What scanning one more file adds to the scan of the files before it. */
  lemma ScanStep(files: seq<string>, dir: map<string, Option<Value>>, i: nat)
    requires i < |files|
    ensures KeysOf(Load(dir, files[i])).Some? ==>
      ParsedKeys(files[..i + 1], dir) == ParsedKeys(files[..i], dir)[files[i] := KeysOf(Load(dir, files[i])).value]
    ensures KeysOf(Load(dir, files[i])).None? ==> ParsedKeys(files[..i + 1], dir) == ParsedKeys(files[..i], dir)
    ensures forall k :: (Frequency(files[..i + 1], dir, k) == Frequency(files[..i], dir, k) +
      if KeysOf(Load(dir, files[i])).Some? && k in KeysOf(Load(dir, files[i])).value then 1 else 0)
    ensures ScanErrors(files[..i + 1], dir) == ScanErrors(files[..i], dir) +
      match Load(dir, files[i])
      case None => [(files[i], Unloadable)]
      case Some(Obj(_)) => []
      case Some(_) => [(files[i], NotADictionary)]
  {
    assert files[..i + 1][..i] == files[..i];
  }

  /** `key_counter.update(keys)`. */
  function Bump(counter: map<string, nat>, keys: set<string>): (r: map<string, nat>)
    ensures forall k :: Tally(r, k) == Tally(counter, k) + if k in keys then 1 else 0
  {
    map k | k in counter.Keys + keys :: Tally(counter, k) + if k in keys then 1 else 0
  }

  /** The common keys as a set. */
  function CommonSet(commonKeys: seq<string>): set<string> {
    set k | k in commonKeys
  }

  /** `files_with_missing_keys`: each file lacking some common key, with the keys it lacks. */
  function MissingMap(fileKeys: map<string, set<string>>, common: set<string>): (flagged: map<string, set<string>>)
    ensures flagged.Keys <= fileKeys.Keys
  {
    map f | f in fileKeys && common - fileKeys[f] != {} :: common - fileKeys[f]
  }

  /** `files_with_unusual_keys`: each file with keys outside the standard list, with those keys. */
  function UnusualMap(fileKeys: map<string, set<string>>): (flagged: map<string, set<string>>)
    ensures flagged.Keys <= fileKeys.Keys
  {
    map f | f in fileKeys && fileKeys[f] - StandardSet != {} :: fileKeys[f] - StandardSet
  }

  /** Flagging one more file of `fileKeys` for missing keys. */
  lemma MissingMapStep(fileKeys: map<string, set<string>>, common: set<string>, rest: set<string>, f: string)
    requires f in rest && rest <= fileKeys.Keys
    ensures MissingMap(fileKeys - (rest - {f}), common) ==
      if common - fileKeys[f] != {} then MissingMap(fileKeys - rest, common)[f := common - fileKeys[f]]
      else MissingMap(fileKeys - rest, common)
  {
  }

  /** Flagging one more file of `fileKeys` for unusual keys. */
  lemma UnusualMapStep(fileKeys: map<string, set<string>>, rest: set<string>, f: string)
    requires f in rest && rest <= fileKeys.Keys
    ensures UnusualMap(fileKeys - (rest - {f})) ==
      if fileKeys[f] - StandardSet != {} then UnusualMap(fileKeys - rest)[f := fileKeys[f] - StandardSet]
      else UnusualMap(fileKeys - rest)
  {
  }

  /** The missing keys of a file in the order they are copied: the order of `common_keys`. */
  function MissingOrder(commonKeys: seq<string>, missing: set<string>): (order: seq<string>)
    ensures forall k :: k in order <==> k in commonKeys && k in missing
  {
    if commonKeys == [] then []
    else
      var prev := MissingOrder(commonKeys[..|commonKeys| - 1], missing);
      var k := commonKeys[|commonKeys| - 1];
      assert commonKeys == commonKeys[..|commonKeys| - 1] + [k];
      if k in missing then prev + [k] else prev
  }

  predicate IsJsonName(f: string) {
    |f| >= 5 && f[|f| - 5..] == ".json"
  }

  /** The names in a directory listing that end in `.json`, in listing order. */
  function JsonFiles(listing: seq<string>): (names: seq<string>)
    ensures forall f :: f in names <==> f in listing && IsJsonName(f)
  {
    if listing == [] then []
    else
      var prev := JsonFiles(listing[..|listing| - 1]);
      var f := listing[|listing| - 1];
      assert listing == listing[..|listing| - 1] + [f];
      if IsJsonName(f) then prev + [f] else prev
  }

  /** A flagged file after its repair: the repaired dict, or the file unchanged when the repair raises. */
  function FixedFile(doc: Option<Value>, source: Option<Value>, order: seq<string>): (fixed: Option<Value>)
    ensures IsDict(doc) ==> IsDict(fixed)
  {
    match FixRecord(Fields(doc), source, order)
    case Some(r) => Some(Obj(r))
    case None => doc
  }

  /** The document `_fix_missing_keys` leaves for file `f`: repaired when it is flagged and has an original. */
  function FixedDoc(dir: map<string, Option<Value>>, originals: map<string, Option<Value>>, commonKeys: seq<string>,
                    missing: map<string, set<string>>, f: string): Option<Value>
  {
    if f in missing && f in originals then FixedFile(Load(dir, f), originals[f], MissingOrder(commonKeys, missing[f]))
    else Load(dir, f)
  }

  /** The directory once `_fix_missing_keys` has treated the files in `done`. */
  function WithMissingKeys(dir: map<string, Option<Value>>, originals: map<string, Option<Value>>, commonKeys: seq<string>,
                           missing: map<string, set<string>>, done: set<string>): (r: map<string, Option<Value>>)
    ensures r.Keys == dir.Keys
    ensures forall f :: f in dir && IsDict(dir[f]) ==> IsDict(r[f])
  {
    map f | f in dir :: if f in done then FixedDoc(dir, originals, commonKeys, missing, f) else dir[f]
  }

  /** The backups once `_fix_missing_keys` has treated `done`: every treated file with an original gets a fresh one. */
  function BackupsRefreshed(backups: map<string, Value>, dir: map<string, Option<Value>>,
                            originals: map<string, Option<Value>>, done: set<string>): map<string, Value>
  {
    map f | f in backups.Keys + (done * originals.Keys) ::
      if f in done && f in originals then Obj(Fields(Load(dir, f))) else backups[f]
  }

  /** Treating one more file in `_fix_missing_keys`. */
  lemma FixStep(dir: map<string, Option<Value>>, originals: map<string, Option<Value>>,
                commonKeys: seq<string>, missing: map<string, set<string>>, done: set<string>, f: string)
    requires f in dir && f !in done
    ensures f in originals ==>
      WithMissingKeys(dir, originals, commonKeys, missing, done + {f}) ==
      WithMissingKeys(dir, originals, commonKeys, missing, done)[f := FixedDoc(dir, originals, commonKeys, missing, f)]
    ensures f !in originals ==>
      WithMissingKeys(dir, originals, commonKeys, missing, done + {f}) == WithMissingKeys(dir, originals, commonKeys, missing, done)
  {
  }

  /** The backup `_fix_missing_keys` writes for one more file. */
  lemma RefreshStep(backups: map<string, Value>, dir: map<string, Option<Value>>,
                    originals: map<string, Option<Value>>, done: set<string>, f: string)
    requires f !in done
    ensures BackupsRefreshed(backups, dir, originals, done + {f}) ==
      if f in originals then BackupsRefreshed(backups, dir, originals, done)[f := Obj(Fields(Load(dir, f)))]
      else BackupsRefreshed(backups, dir, originals, done)
  {
    var before := BackupsRefreshed(backups, dir, originals, done);
    var after := BackupsRefreshed(backups, dir, originals, done + {f});
    if f in originals {
      assert after.Keys == before.Keys + {f};
    } else {
      assert after.Keys == before.Keys;
    }
  }

  /** The directory once `_remove_unusual_keys` has rewritten the files in `done`. */
  function WithStandardKeys(dir: map<string, Option<Value>>, done: set<string>): (r: map<string, Option<Value>>)
    ensures r.Keys == dir.Keys
    ensures forall f :: f in dir && IsDict(dir[f]) ==> IsDict(r[f])
    ensures forall f :: f in dir ==> IsDict(r[f]) || (f !in done && r[f] == dir[f])
  {
    map f | f in dir :: if f in done then Some(Obj(KeepStandard(Fields(dir[f])))) else dir[f]
  }

  /** The backups once `_remove_unusual_keys` has treated `done`: an existing backup is kept. */
  function BackupsKept(backups: map<string, Value>, dir: map<string, Option<Value>>, done: set<string>): map<string, Value>
  {
    map f | f in backups.Keys + done :: if f in backups then backups[f] else Obj(Fields(Load(dir, f)))
  }

  /** Rewriting one more file in `_remove_unusual_keys`. */
  lemma RemovalStep(dir: map<string, Option<Value>>, done: set<string>, f: string)
    requires f in dir && f !in done
    ensures WithStandardKeys(dir, done + {f}) == WithStandardKeys(dir, done)[f := Some(Obj(KeepStandard(Fields(dir[f]))))]
  {
  }

  /** Backing up one more file in `_remove_unusual_keys`, unless it has a backup. */
  lemma BackupStep(dir: map<string, Option<Value>>, backups: map<string, Value>, done: set<string>, f: string)
    requires f !in done
    ensures f in BackupsKept(backups, dir, done) <==> f in backups
    ensures BackupsKept(backups, dir, done + {f}) ==
      if f in backups then BackupsKept(backups, dir, done)
      else BackupsKept(backups, dir, done)[f := Obj(Fields(Load(dir, f)))]
  {
  }

  /** After `_remove_unusual_keys`, a rescan flags none of the rewritten files for unusual keys. */
  lemma RemovalClearsUnusualKeys(files: seq<string>, dir: map<string, Option<Value>>, done: set<string>, f: string)
    requires f in done && f in dir
    ensures f !in UnusualMap(ParsedKeys(files, WithStandardKeys(dir, done)))
  {
    var cleaned := WithStandardKeys(dir, done);
    ParsedKeysContents(files, cleaned, f);
    KeepStandardContents(Fields(dir[f]), f);
  }

  /**
   * The loop of `_analyze_json_schema` (and of `_verify_fixes`): loads each
   * file, records the keys of each dict, counts them into `counter`, and
   * lists the files that are not dicts or cannot be loaded.
   */
  method ScanDirectory(files: seq<string>, dir: map<string, Option<Value>>, counter: map<string, nat>)
    returns (parsed: map<string, set<string>>, counted: map<string, nat>, problems: seq<(string, ErrorReason)>)
    ensures parsed == ParsedKeys(files, dir)
    ensures forall f :: f in parsed ==> f in dir && IsDict(dir[f])
    ensures forall k :: Tally(counted, k) == Tally(counter, k) + Frequency(files, dir, k)
    ensures problems == ScanErrors(files, dir)
  {
    parsed, counted, problems := map[], counter, [];
    var i := 0;
    while i < |files|
      invariant 0 <= i <= |files|
      invariant parsed == ParsedKeys(files[..i], dir)
      invariant forall k :: Tally(counted, k) == Tally(counter, k) + Frequency(files[..i], dir, k)
      invariant problems == ScanErrors(files[..i], dir)
    {
      ScanStep(files, dir, i);
      var f := files[i];
      match Load(dir, f) {
        case None =>
          problems := problems + [(f, Unloadable)];
        case Some(v) =>
          if v.Obj? {
            var keys := KeySet(v.fields);
            parsed := parsed[f := keys];
            counted := Bump(counted, keys);
          } else {
            problems := problems + [(f, NotADictionary)];
          }
      }
      i := i + 1;
    }
    assert files[..i] == files;
    forall f | f in parsed ensures f in dir && IsDict(dir[f]) {
      ParsedKeysContents(files, dir, f);
    }
  }

  /** The loop of `_identify_files_with_missing_keys`. */
  method FlagMissing(fileKeys: map<string, set<string>>, common: set<string>) returns (flagged: map<string, set<string>>)
    ensures flagged == MissingMap(fileKeys, common)
  {
    flagged := map[];
    var rest := fileKeys.Keys;
    while rest != {}
      invariant rest <= fileKeys.Keys
      invariant flagged == MissingMap(fileKeys - rest, common)
      decreases rest
    {
      var f :| f in rest;
      var missing := common - fileKeys[f];
      if missing != {} {
        flagged := flagged[f := missing];
      }
      MissingMapStep(fileKeys, common, rest, f);
      rest := rest - {f};
    }
    assert fileKeys - {} == fileKeys;
  }

  /** The loop of `_identify_files_with_unusual_keys`. */
  method FlagUnusual(fileKeys: map<string, set<string>>) returns (flagged: map<string, set<string>>)
    ensures flagged == UnusualMap(fileKeys)
  {
    flagged := map[];
    var rest := fileKeys.Keys;
    while rest != {}
      invariant rest <= fileKeys.Keys
      invariant flagged == UnusualMap(fileKeys - rest)
      decreases rest
    {
      var f :| f in rest;
      var unusual := fileKeys[f] - StandardSet;
      if unusual != {} {
        flagged := flagged[f := unusual];
      }
      UnusualMapStep(fileKeys, rest, f);
      rest := rest - {f};
    }
    assert fileKeys - {} == fileKeys;
  }

  /**
   * The body of `_fix_missing_keys` for one file with an original: reads
   * the original, copies the missing keys and reorders. `ok` is false when
   * this raises, and the file is then left as it was.
   */
  method RepairFile(doc: Option<Value>, source: Option<Value>, order: seq<string>) returns (fixed: Option<Value>, ok: bool)
    ensures fixed == FixedFile(doc, source, order)
    ensures ok <==> FixRecord(Fields(doc), source, order).Some?
  {
    if source.None? {
      return doc, false;
    }
    var copied := CopyMissingKeys(Fields(doc), source.value, order);
    if copied.None? {
      return doc, false;
    }
    var ordered := ReorderKeys(copied.value);
    return Some(Obj(ordered)), true;
  }

  /** The scan and the two flagging loops `_verify_fixes` runs from scratch. */
  method Rescan(files: seq<string>, dir: map<string, Option<Value>>, common: set<string>)
    returns (parsed: map<string, set<string>>, counted: map<string, nat>,
             missing: map<string, set<string>>, unusual: map<string, set<string>>)
    ensures parsed == ParsedKeys(files, dir)
    ensures forall f :: f in parsed ==> f in dir && IsDict(dir[f])
    ensures forall k :: Tally(counted, k) == Frequency(files, dir, k)
    ensures missing == MissingMap(parsed, common) && unusual == UnusualMap(parsed)
  {
    var problems;
    parsed, counted, problems := ScanDirectory(files, dir, map[]);
    missing := FlagMissing(parsed, common);
    unusual := FlagUnusual(parsed);
  }

  /** The set of names in `ks`. */
  function Elems(ks: seq<string>): set<string> {
    set k | k in ks
  }

  /** The keys of a dict, one at a time, in the order the loop over its items visits them. */
  method KeysInOrder(keys: set<string>) returns (ks: seq<string>)
    ensures Distinct(ks) && Elems(ks) == keys && |ks| == |keys|
  {
    ks := [];
    var rest := keys;
    while rest != {}
      invariant rest <= keys && Distinct(ks)
      invariant Elems(ks) == keys - rest && |ks| + |rest| == |keys|
      decreases rest
    {
      var k :| k in rest;
      assert Elems(ks + [k]) == Elems(ks) + {k};
      ks := ks + [k];
      rest := rest - {k};
    }
  }

  /** The directory after `_fix_missing_keys` has visited `files` in this order. */
  function RepairedDir(dir: map<string, Option<Value>>, originals: map<string, Option<Value>>, commonKeys: seq<string>,
                       missing: map<string, set<string>>, files: seq<string>): map<string, Option<Value>>
  {
    if files == [] then dir
    else
      var f := files[|files| - 1];
      var before := RepairedDir(dir, originals, commonKeys, missing, files[..|files| - 1]);
      if f in originals then before[f := FixedDoc(dir, originals, commonKeys, missing, f)] else before
  }

  /** The backups after `_fix_missing_keys` has visited `files` in this order. */
  function RepairedBackups(backups: map<string, Value>, dir: map<string, Option<Value>>,
                           originals: map<string, Option<Value>>, files: seq<string>): map<string, Value>
  {
    if files == [] then backups
    else
      var f := files[|files| - 1];
      var before := RepairedBackups(backups, dir, originals, files[..|files| - 1]);
      if f in originals then before[f := Obj(Fields(Load(dir, f)))] else before
  }

  /** Visiting distinct files one by one has the effect `WithMissingKeys` states for their set. */
  lemma {:induction false} RepairedDirIsWithMissingKeys(dir: map<string, Option<Value>>, originals: map<string, Option<Value>>,
                                                         commonKeys: seq<string>, missing: map<string, set<string>>, files: seq<string>)
    requires Distinct(files) && Elems(files) <= dir.Keys
    ensures RepairedDir(dir, originals, commonKeys, missing, files) == WithMissingKeys(dir, originals, commonKeys, missing, Elems(files))
  {
    if files == [] {
      assert WithMissingKeys(dir, originals, commonKeys, missing, {}) == dir;
    } else {
      var p := files[..|files| - 1];
      var f := files[|files| - 1];
      assert files == p + [f];
      assert Elems(files) == Elems(p) + {f};
      assert f !in Elems(p);
      RepairedDirIsWithMissingKeys(dir, originals, commonKeys, missing, p);
      FixStep(dir, originals, commonKeys, missing, Elems(p), f);
    }
  }

  /** The backups written while visiting distinct files are the ones `BackupsRefreshed` states for their set. */
  lemma {:induction false} RepairedBackupsAreRefreshed(backups: map<string, Value>, dir: map<string, Option<Value>>,
                                                       originals: map<string, Option<Value>>, files: seq<string>)
    requires Distinct(files)
    ensures RepairedBackups(backups, dir, originals, files) == BackupsRefreshed(backups, dir, originals, Elems(files))
  {
    if files == [] {
      assert BackupsRefreshed(backups, dir, originals, {}) == backups;
    } else {
      var p := files[..|files| - 1];
      var f := files[|files| - 1];
      assert files == p + [f];
      assert Elems(files) == Elems(p) + {f};
      assert f !in Elems(p);
      RepairedBackupsAreRefreshed(backups, dir, originals, p);
      RefreshStep(backups, dir, originals, Elems(p), f);
    }
  }

  /** A file not yet visited keeps its contents. */
  lemma {:induction false} RepairedUntouched(dir: map<string, Option<Value>>, originals: map<string, Option<Value>>, commonKeys: seq<string>,
                                            missing: map<string, set<string>>, files: seq<string>, f: string)
    requires f !in files
    ensures Load(RepairedDir(dir, originals, commonKeys, missing, files), f) == Load(dir, f)
  {
    if files != [] {
      assert f != files[|files| - 1];
      RepairedUntouched(dir, originals, commonKeys, missing, files[..|files| - 1], f);
    }
  }

  /**
   * One pass of `_fix_missing_keys`, for the `i`-th flagged file: backs up
   * the file and repairs it when it has an original (`ok` when the repair
   * succeeded), else leaves both as they are.
   */
  method RepairNext(dir: map<string, Option<Value>>, backups: map<string, Value>, originals: map<string, Option<Value>>,
                    commonKeys: seq<string>, flagged: map<string, set<string>>, files: seq<string>, i: nat,
                    contents: map<string, Option<Value>>, saved: map<string, Value>)
    returns (contents': map<string, Option<Value>>, saved': map<string, Value>, ok: bool)
    requires i < |files| && Distinct(files) && Elems(files) <= flagged.Keys <= dir.Keys
    requires contents == RepairedDir(dir, originals, commonKeys, flagged, files[..i])
    requires saved == RepairedBackups(backups, dir, originals, files[..i])
    ensures contents' == RepairedDir(dir, originals, commonKeys, flagged, files[..i + 1])
    ensures saved' == RepairedBackups(backups, dir, originals, files[..i + 1])
    ensures ok <==> Repairable(dir, originals, commonKeys, flagged, files[i])
  {
    var f := files[i];
    assert files[..i + 1][..i] == files[..i];
    assert f !in files[..i];
    RepairedUntouched(dir, originals, commonKeys, flagged, files[..i], f);
    var data := Load(contents, f);
    if f in originals {
      saved' := saved[f := Obj(Fields(data))];
      var doc;
      doc, ok := RepairFile(data, originals[f], MissingOrder(commonKeys, flagged[f]));
      assert doc == FixedDoc(dir, originals, commonKeys, flagged, f);
      contents' := contents[f := doc];
    } else {
      contents', saved', ok := contents, saved, false;
    }
  }

  /**
   * `_fix_missing_keys` counts file `f` as fixed: it is flagged, has an
   * original, and copying the missing keys from that original does not raise.
   */
  predicate Repairable(dir: map<string, Option<Value>>, originals: map<string, Option<Value>>, commonKeys: seq<string>,
                       flagged: map<string, set<string>>, f: string)
  {
    && f in flagged && f in originals
    && FixRecord(Fields(Load(dir, f)), originals[f], MissingOrder(commonKeys, flagged[f])).Some?
  }

  /** The flagged files `_fix_missing_keys` counts as fixed. */
  function RepairableFiles(dir: map<string, Option<Value>>, originals: map<string, Option<Value>>, commonKeys: seq<string>,
                           flagged: map<string, set<string>>): set<string>
  {
    set f | f in flagged.Keys && Repairable(dir, originals, commonKeys, flagged, f)
  }

  /** The entries of `s` that satisfy `p`. */
  function Where<T>(s: seq<T>, p: T -> bool): set<T> {
    set x | x in s && p(x)
  }

  /** The number of entries of `s` that satisfy `p`. */
  function CountWhere<T>(s: seq<T>, p: T -> bool): nat {
    if s == [] then 0
    else CountWhere(s[..|s| - 1], p) + if p(s[|s| - 1]) then 1 else 0
  }

  /** Counted along a list without repeats, the entries satisfying `p` are those of its set. */
  lemma {:induction false} CountWhereIsCard<T>(s: seq<T>, p: T -> bool)
    requires Distinct(s)
    ensures CountWhere(s, p) == |Where(s, p)|
  {
    if s != [] {
      var init := s[..|s| - 1];
      var last := s[|s| - 1];
      CountWhereIsCard(init, p);
      var before := Where(init, p);
      var after := Where(s, p);
      assert s == init + [last];
      assert last !in init;
      forall x ensures x in after <==> x in before || (x == last && p(x)) {
        assert x in s <==> x in init || x == last;
      }
      if p(last) {
        assert after == before + {last};
      } else {
        assert after == before;
      }
    }
  }

  /** The loop of `_fix_missing_keys` over the flagged files, on the directory and its backups. */
  method RepairMissing(dir: map<string, Option<Value>>, backups: map<string, Value>, originals: map<string, Option<Value>>,
                       commonKeys: seq<string>, flagged: map<string, set<string>>)
    returns (contents: map<string, Option<Value>>, saved: map<string, Value>, fixed: nat, failed: nat)
    requires flagged.Keys <= dir.Keys
    ensures fixed + failed == |flagged.Keys|
    ensures fixed == |RepairableFiles(dir, originals, commonKeys, flagged)|
    ensures contents == WithMissingKeys(dir, originals, commonKeys, flagged, flagged.Keys)
    ensures saved == BackupsRefreshed(backups, dir, originals, flagged.Keys)
  {
    var files := KeysInOrder(flagged.Keys);
    ghost var repairable := f => Repairable(dir, originals, commonKeys, flagged, f);
    contents, saved := dir, backups;
    fixed, failed := 0, 0;
    var i := 0;
    while i < |files|
      invariant i <= |files|
      invariant fixed + failed == i
      invariant fixed == CountWhere(files[..i], repairable)
      invariant contents == RepairedDir(dir, originals, commonKeys, flagged, files[..i])
      invariant saved == RepairedBackups(backups, dir, originals, files[..i])
    {
      var ok;
      contents, saved, ok := RepairNext(dir, backups, originals, commonKeys, flagged, files, i, contents, saved);
      assert files[..i + 1][..i] == files[..i];
      if ok {
        fixed := fixed + 1;
      } else {
        failed := failed + 1;
      }
      i := i + 1;
    }
    assert files[..i] == files;
    CountWhereIsCard(files, repairable);
    assert RepairableFiles(dir, originals, commonKeys, flagged) == Where(files, repairable);
    RepairedDirIsWithMissingKeys(dir, originals, commonKeys, flagged, files);
    RepairedBackupsAreRefreshed(backups, dir, originals, files);
  }

  /** The directory after `_remove_unusual_keys` has visited `files` in this order. */
  function CleanedDir(dir: map<string, Option<Value>>, files: seq<string>): map<string, Option<Value>>
  {
    if files == [] then dir
    else
      var f := files[|files| - 1];
      CleanedDir(dir, files[..|files| - 1])[f := Some(Obj(KeepStandard(Fields(Load(dir, f)))))]
  }

  /** The backups after `_remove_unusual_keys` has visited `files` in this order. */
  function CleanedBackups(backups: map<string, Value>, dir: map<string, Option<Value>>, files: seq<string>): map<string, Value>
  {
    if files == [] then backups
    else
      var f := files[|files| - 1];
      var before := CleanedBackups(backups, dir, files[..|files| - 1]);
      if f in before then before else before[f := Obj(Fields(Load(dir, f)))]
  }

  /** Visiting distinct files one by one rewrites them as `WithStandardKeys` states for their set. */
  lemma {:induction false} CleanedIsWithStandardKeys(dir: map<string, Option<Value>>, files: seq<string>)
    requires Distinct(files) && Elems(files) <= dir.Keys
    ensures CleanedDir(dir, files) == WithStandardKeys(dir, Elems(files))
  {
    if files == [] {
      assert WithStandardKeys(dir, {}) == dir;
    } else {
      var p := files[..|files| - 1];
      var f := files[|files| - 1];
      assert files == p + [f];
      assert Elems(files) == Elems(p) + {f};
      assert f !in Elems(p);
      CleanedIsWithStandardKeys(dir, p);
      RemovalStep(dir, Elems(p), f);
    }
  }

  /** Visiting distinct files one by one backs them up as `BackupsKept` states for their set. */
  lemma {:induction false} CleanedBackupsAreKept(dir: map<string, Option<Value>>, backups: map<string, Value>, files: seq<string>)
    requires Distinct(files) && Elems(files) <= dir.Keys
    ensures CleanedBackups(backups, dir, files) == BackupsKept(backups, dir, Elems(files))
  {
    if files == [] {
      assert BackupsKept(backups, dir, {}) == backups;
    } else {
      var p := files[..|files| - 1];
      var f := files[|files| - 1];
      assert files == p + [f];
      assert Elems(files) == Elems(p) + {f};
      assert f !in Elems(p);
      CleanedBackupsAreKept(dir, backups, p);
      BackupStep(dir, backups, Elems(p), f);
    }
  }

  /** A file not yet visited keeps its contents and its backup state. */
  lemma {:induction false} CleanedUntouched(dir: map<string, Option<Value>>, backups: map<string, Value>, files: seq<string>, f: string)
    requires f !in files
    ensures Load(CleanedDir(dir, files), f) == Load(dir, f)
    ensures f in CleanedBackups(backups, dir, files) <==> f in backups
  {
    if files != [] {
      assert f != files[|files| - 1];
      CleanedUntouched(dir, backups, files[..|files| - 1], f);
    }
  }

  /** One pass of `_remove_unusual_keys`, for the `i`-th flagged file: backs it up unless a backup exists, keeps its standard keys. */
  method RemoveNext(dir: map<string, Option<Value>>, backups: map<string, Value>, files: seq<string>, i: nat,
                    contents: map<string, Option<Value>>, saved: map<string, Value>)
    returns (contents': map<string, Option<Value>>, saved': map<string, Value>)
    requires i < |files| && Distinct(files)
    requires contents == CleanedDir(dir, files[..i])
    requires saved == CleanedBackups(backups, dir, files[..i])
    ensures contents' == CleanedDir(dir, files[..i + 1])
    ensures saved' == CleanedBackups(backups, dir, files[..i + 1])
  {
    var f := files[i];
    assert files[..i + 1][..i] == files[..i];
    assert f !in files[..i];
    CleanedUntouched(dir, backups, files[..i], f);
    var data := Load(contents, f);
    saved' := saved;
    if f !in saved {
      saved' := saved[f := Obj(Fields(data))];
    }
    var ordered := PickKeys(Fields(data), StandardKeys);
    contents' := contents[f := Some(Obj(ordered))];
  }

  /** The loop of `_remove_unusual_keys` over the flagged files, on the directory and its backups. */
  method RemoveUnusual(dir: map<string, Option<Value>>, backups: map<string, Value>, flagged: set<string>)
    returns (contents: map<string, Option<Value>>, saved: map<string, Value>, fixed: nat)
    requires flagged <= dir.Keys
    ensures fixed == |flagged|
    ensures contents == WithStandardKeys(dir, flagged)
    ensures saved == BackupsKept(backups, dir, flagged)
  {
    var files := KeysInOrder(flagged);
    contents, saved := dir, backups;
    fixed := 0;
    while fixed < |files|
      invariant fixed <= |files|
      invariant contents == CleanedDir(dir, files[..fixed])
      invariant saved == CleanedBackups(backups, dir, files[..fixed])
    {
      contents, saved := RemoveNext(dir, backups, files, fixed, contents, saved);
      fixed := fixed + 1;
    }
    assert files[..fixed] == files;
    CleanedIsWithStandardKeys(dir, files);
    CleanedBackupsAreKept(dir, backups, files);
  }

  /**
   * The tool's state (`JsonMetadataQualityTool`): the files it analyses,
   * the directory's contents and backups, the original directory when there
   * is one, and what the analysis found.
   */
  class QualityTool {
    var jsonFiles: seq<string>
    var totalFiles: nat
    var dir: map<string, Option<Value>>
    var original: Option<map<string, Option<Value>>>
    var backups: map<string, Value>
    var keyCounter: map<string, nat>
    var fileKeys: map<string, set<string>>
    var commonKeys: seq<string>
    var filesWithMissingKeys: map<string, set<string>>
    var filesWithUnusualKeys: map<string, set<string>>
    var errors: seq<(string, ErrorReason)>

    /** Every analysed file is a dict in the directory, and every flagged file was analysed. */
    ghost predicate Valid()
      reads this
    {
      && totalFiles == |jsonFiles|
      && (forall f :: f in fileKeys ==> f in dir && IsDict(dir[f]))
      && filesWithMissingKeys.Keys <= fileKeys.Keys
      && filesWithUnusualKeys.Keys <= fileKeys.Keys
    }

    /** `__init__` followed by `_load_files`: the `.json` names of the listing, nothing analysed yet. */
    constructor(listing: seq<string>, dir: map<string, Option<Value>>,
                original: Option<map<string, Option<Value>>>, backups: map<string, Value>)
      ensures Valid()
      ensures jsonFiles == JsonFiles(listing) && totalFiles == |jsonFiles|
      ensures this.dir == dir && this.original == original && this.backups == backups
      ensures keyCounter == map[] && fileKeys == map[] && commonKeys == []
      ensures filesWithMissingKeys == map[] && filesWithUnusualKeys == map[] && errors == []
    {
      jsonFiles := JsonFiles(listing);
      totalFiles := |JsonFiles(listing)|;
      this.dir := dir;
      this.original := original;
      this.backups := backups;
      keyCounter := map[];
      fileKeys := map[];
      commonKeys := [];
      filesWithMissingKeys := map[];
      filesWithUnusualKeys := map[];
      errors := [];
    }

    /** Loads every file in turn, recording the keys of each dict and counting them. */
    method ScanFiles() returns (problems: seq<(string, ErrorReason)>)
      requires Valid()
      modifies this
      ensures jsonFiles == old(jsonFiles) && totalFiles == old(totalFiles) && dir == old(dir)
      ensures original == old(original) && backups == old(backups) && commonKeys == old(commonKeys)
      ensures filesWithMissingKeys == old(filesWithMissingKeys) && filesWithUnusualKeys == old(filesWithUnusualKeys)
      ensures errors == old(errors)
      ensures Valid()
      ensures fileKeys == old(fileKeys) + ParsedKeys(jsonFiles, dir)
      ensures forall k :: Tally(keyCounter, k) == Tally(old(keyCounter), k) + Frequency(jsonFiles, dir, k)
      ensures problems == ScanErrors(jsonFiles, dir)
    {
      var parsed, counted;
      parsed, counted, problems := ScanDirectory(jsonFiles, dir, keyCounter);
      fileKeys, keyCounter := fileKeys + parsed, counted;
    }

    /** `_analyze_json_schema`: scans the files, then ranks the keys found in at least 90% of them. */
    method AnalyzeSchema()
      requires Valid()
      modifies this
      ensures jsonFiles == old(jsonFiles) && totalFiles == old(totalFiles) && dir == old(dir)
      ensures original == old(original) && backups == old(backups)
      ensures filesWithMissingKeys == old(filesWithMissingKeys) && filesWithUnusualKeys == old(filesWithUnusualKeys)
      ensures Valid()
      ensures fileKeys == old(fileKeys) + ParsedKeys(jsonFiles, dir)
      ensures forall k :: Tally(keyCounter, k) == Tally(old(keyCounter), k) + Frequency(jsonFiles, dir, k)
      ensures errors == old(errors) + ScanErrors(jsonFiles, dir)
      ensures forall k :: k in commonKeys <==> IsCommon(keyCounter, totalFiles, k)
      ensures Ranked(keyCounter, commonKeys)
    {
      var problems := ScanFiles();
      errors := errors + problems;
      commonKeys := RankCommonKeys(keyCounter, totalFiles);
    }

    /** `_identify_files_with_missing_keys`: flags each analysed file lacking a common key. */
    method IdentifyMissingKeys()
      requires Valid()
      modifies this
      ensures jsonFiles == old(jsonFiles) && totalFiles == old(totalFiles) && dir == old(dir)
      ensures original == old(original) && backups == old(backups) && commonKeys == old(commonKeys)
      ensures keyCounter == old(keyCounter) && fileKeys == old(fileKeys)
      ensures filesWithUnusualKeys == old(filesWithUnusualKeys) && errors == old(errors)
      ensures Valid()
      ensures filesWithMissingKeys == old(filesWithMissingKeys) + MissingMap(fileKeys, CommonSet(commonKeys))
    {
      var flagged := FlagMissing(fileKeys, CommonSet(commonKeys));
      filesWithMissingKeys := filesWithMissingKeys + flagged;
    }

    /** `_identify_files_with_unusual_keys`: flags each analysed file with a key outside the standard list. */
    method IdentifyUnusualKeys()
      requires Valid()
      modifies this
      ensures jsonFiles == old(jsonFiles) && totalFiles == old(totalFiles) && dir == old(dir)
      ensures original == old(original) && backups == old(backups) && commonKeys == old(commonKeys)
      ensures keyCounter == old(keyCounter) && fileKeys == old(fileKeys)
      ensures filesWithMissingKeys == old(filesWithMissingKeys) && errors == old(errors)
      ensures Valid()
      ensures filesWithUnusualKeys == old(filesWithUnusualKeys) + UnusualMap(fileKeys)
    {
      var flagged := FlagUnusual(fileKeys);
      filesWithUnusualKeys := filesWithUnusualKeys + flagged;
    }

    /**
     * `_fix_missing_keys`: for each flagged file with an original, backs it
     * up, copies the missing keys the original has and reorders the keys.
     * `fixed` counts the rewritten files, `failed` the others.
     */
    method FixMissingKeys() returns (fixed: nat, failed: nat)
      requires Valid() && original.Some?
      modifies this
      ensures jsonFiles == old(jsonFiles) && totalFiles == old(totalFiles) && original == old(original)
      ensures keyCounter == old(keyCounter) && fileKeys == old(fileKeys) && commonKeys == old(commonKeys)
      ensures filesWithMissingKeys == old(filesWithMissingKeys) && filesWithUnusualKeys == old(filesWithUnusualKeys)
      ensures errors == old(errors)
      ensures Valid()
      ensures fixed + failed == |filesWithMissingKeys.Keys|
      ensures fixed == |RepairableFiles(old(dir), original.value, commonKeys, filesWithMissingKeys)|
      ensures dir == WithMissingKeys(old(dir), original.value, commonKeys, filesWithMissingKeys, filesWithMissingKeys.Keys)
      ensures backups == BackupsRefreshed(old(backups), old(dir), original.value, filesWithMissingKeys.Keys)
    {
      var contents, saved;
      contents, saved, fixed, failed := RepairMissing(dir, backups, original.value, commonKeys, filesWithMissingKeys);
      dir, backups := contents, saved;
    }

    /**
     * `_remove_unusual_keys`: backs up each flagged file unless a backup
     * exists, then keeps only its standard keys, in standard order.
     */
    method RemoveUnusualKeys() returns (fixed: nat)
      requires Valid()
      modifies this
      ensures jsonFiles == old(jsonFiles) && totalFiles == old(totalFiles) && original == old(original)
      ensures keyCounter == old(keyCounter) && fileKeys == old(fileKeys) && commonKeys == old(commonKeys)
      ensures filesWithMissingKeys == old(filesWithMissingKeys) && filesWithUnusualKeys == old(filesWithUnusualKeys)
      ensures errors == old(errors)
      ensures Valid()
      ensures fixed == |filesWithUnusualKeys.Keys|
      ensures dir == WithStandardKeys(old(dir), filesWithUnusualKeys.Keys)
      ensures backups == BackupsKept(old(backups), old(dir), filesWithUnusualKeys.Keys)
    {
      var contents, saved;
      contents, saved, fixed := RemoveUnusual(dir, backups, filesWithUnusualKeys.Keys);
      dir, backups := contents, saved;
    }

    /** The "fully compliant" count the summary and the verification print. */
    function CompliantFiles(): int
      reads this
    {
      CompliantAsWritten(totalFiles, filesWithMissingKeys.Keys, filesWithUnusualKeys.Keys)
    }

    /**
     * `_verify_fixes`: clears the findings, rescans the files (skipping
     * those that are not dicts, without recording errors) and flags them
     * again against the common keys found before the repairs.
     */
    method VerifyFixes()
      requires Valid()
      modifies this
      ensures jsonFiles == old(jsonFiles) && totalFiles == old(totalFiles) && dir == old(dir)
      ensures original == old(original) && backups == old(backups) && commonKeys == old(commonKeys)
      ensures errors == old(errors)
      ensures Valid()
      ensures fileKeys == ParsedKeys(jsonFiles, dir)
      ensures forall k :: Tally(keyCounter, k) == Frequency(jsonFiles, dir, k)
      ensures filesWithMissingKeys == MissingMap(fileKeys, CommonSet(commonKeys))
      ensures filesWithUnusualKeys == UnusualMap(fileKeys)
    {
      var parsed, counted, missing, unusual := Rescan(jsonFiles, dir, CommonSet(commonKeys));
      keyCounter, fileKeys, filesWithMissingKeys, filesWithUnusualKeys := counted, parsed, missing, unusual;
    }

    /**
     * `run`: analyses the files and, when some file is flagged and the fix
     * is confirmed (`proceed`: the auto-fix flag or the user's answer),
     * repairs missing keys (only with an original directory), removes
     * unusual keys and verifies. Returns the compliant count of the
     * verification, if it ran.
     */
    method Run(proceed: bool) returns (compliant: Option<int>, ghost counted: map<string, nat>)
      requires Valid()
      modifies this
      ensures Valid()
      ensures jsonFiles != [] ==>
        && (forall k :: Tally(counted, k) == Tally(old(keyCounter), k) + Frequency(jsonFiles, old(dir), k))
        && (forall k :: k in commonKeys <==> IsCommon(counted, totalFiles, k))
        && Ranked(counted, commonKeys)
      ensures jsonFiles == old(jsonFiles) && totalFiles == old(totalFiles) && original == old(original)
      ensures jsonFiles == [] ==> compliant == None && dir == old(dir) && backups == old(backups)
      ensures !proceed ==> compliant == None && dir == old(dir) && backups == old(backups)
      ensures var parsed := old(fileKeys) + ParsedKeys(jsonFiles, old(dir));
        var missing := old(filesWithMissingKeys) + MissingMap(parsed, CommonSet(commonKeys));
        var unusual := old(filesWithUnusualKeys) + UnusualMap(parsed);
        && (jsonFiles != [] ==> (compliant.Some? <==> proceed && (missing != map[] || unusual != map[])))
        && (jsonFiles != [] && compliant.None? ==>
              && fileKeys == parsed && filesWithMissingKeys == missing && filesWithUnusualKeys == unusual
              && dir == old(dir) && backups == old(backups))
        && (compliant.Some? ==>
              && dir == RunDir(old(dir), original, commonKeys, missing, unusual.Keys)
              && backups == RunBackups(old(backups), old(dir), original, commonKeys, missing, unusual.Keys))
      ensures compliant.Some? ==>
        && fileKeys == ParsedKeys(jsonFiles, dir)
        && filesWithMissingKeys == MissingMap(fileKeys, CommonSet(commonKeys))
        && filesWithUnusualKeys == UnusualMap(fileKeys)
        && compliant.value == CompliantFiles()
        && compliant.value == Compliant(totalFiles, filesWithMissingKeys.Keys, filesWithUnusualKeys.Keys)
             - |filesWithMissingKeys.Keys * filesWithUnusualKeys.Keys|
    {
      counted := keyCounter;
      if jsonFiles == [] {
        return None, counted;
      }
      AnalyzeSchema();
      counted := keyCounter;
      IdentifyMissingKeys();
      IdentifyUnusualKeys();
      compliant := None;
      if (filesWithMissingKeys != map[] || filesWithUnusualKeys != map[]) && proceed {
        ghost var dir0, backups0 := dir, backups;
        ghost var repairs := filesWithMissingKeys != map[] && original.Some?;
        if filesWithMissingKeys != map[] && original.Some? {
          var _, _ := FixMissingKeys();
        }
        ghost var dir1, backups1 := dir, backups;
        assert dir1 == if repairs then WithMissingKeys(dir0, original.value, commonKeys, filesWithMissingKeys, filesWithMissingKeys.Keys) else dir0;
        assert backups1 == if repairs then BackupsRefreshed(backups0, dir0, original.value, filesWithMissingKeys.Keys) else backups0;
        if filesWithUnusualKeys != map[] {
          var _ := RemoveUnusualKeys();
        }
        assert dir == if filesWithUnusualKeys.Keys != {} then WithStandardKeys(dir1, filesWithUnusualKeys.Keys) else dir1;
        assert backups == if filesWithUnusualKeys.Keys != {} then BackupsKept(backups1, dir1, filesWithUnusualKeys.Keys) else backups1;
        assert dir == RunDir(dir0, original, commonKeys, filesWithMissingKeys, filesWithUnusualKeys.Keys);
        assert backups == RunBackups(backups0, dir0, original, commonKeys, filesWithMissingKeys, filesWithUnusualKeys.Keys);
        VerifyFixes();
        compliant := Some(CompliantFiles());
        CompliantAsWrittenUndercounts(totalFiles, filesWithMissingKeys.Keys, filesWithUnusualKeys.Keys);
      }
    }
  }

  /**
   * The directory after the repairs of a run: the missing keys copied in
   * (only with an original directory), then the unusual keys removed.
   */
  function RunDir(dir: map<string, Option<Value>>, original: Option<map<string, Option<Value>>>,
                  commonKeys: seq<string>, missing: map<string, set<string>>,
                  unusual: set<string>): map<string, Option<Value>>
  {
    var fixed := if missing != map[] && original.Some? then WithMissingKeys(dir, original.value, commonKeys, missing, missing.Keys) else dir;
    if unusual != {} then WithStandardKeys(fixed, unusual) else fixed
  }

  /** The backups after the repairs of a run, taken before each rewrite. */
  function RunBackups(backups: map<string, Value>, dir: map<string, Option<Value>>,
                      original: Option<map<string, Option<Value>>>, commonKeys: seq<string>,
                      missing: map<string, set<string>>, unusual: set<string>): map<string, Value>
  {
    var repairs := missing != map[] && original.Some?;
    var saved := if repairs then BackupsRefreshed(backups, dir, original.value, missing.Keys) else backups;
    var fixed := if repairs then WithMissingKeys(dir, original.value, commonKeys, missing, missing.Keys) else dir;
    if unusual != {} then BackupsKept(saved, fixed, unusual) else saved
  }

  // ---------------------------------------------------------------------
  // The compliance count

  /**
   * The fully compliant count as the summary computes it: the files
   * minus those missing keys minus those with unusual keys.
   */
  function CompliantAsWritten(total: nat, missing: set<string>, unusual: set<string>): int {
    total - |missing| - |unusual|
  }

  /** The files that neither miss a common key nor carry an unusual one. */
  function Compliant(total: nat, missing: set<string>, unusual: set<string>): int {
    total - |missing + unusual|
  }

  /** The summary's count subtracts the files with both problems twice. */
  lemma CompliantAsWrittenUndercounts(total: nat, missing: set<string>, unusual: set<string>)
    ensures CompliantAsWritten(total, missing, unusual) == Compliant(total, missing, unusual) - |missing * unusual|
  {
    assert missing + unusual == missing + (unusual - missing);
    assert unusual == (unusual - missing) + (missing * unusual);
    assert (unusual - missing) * (missing * unusual) == {};
  }

  /** Counted over a set of files that holds every flagged one, the compliant files are the unflagged ones. */
  lemma CompliantCountsUnflagged(files: set<string>, missing: set<string>, unusual: set<string>)
    requires missing <= files && unusual <= files
    ensures Compliant(|files|, missing, unusual) == |files - (missing + unusual)|
  {
    var flagged := missing + unusual;
    assert files == (files - flagged) + flagged;
    assert (files - flagged) * flagged == {};
  }

  /** Ten files, nine holding only "id" and one ("j") holding only "zzz". */
  function ExampleFileKeys(): map<string, set<string>> {
    map["a" := {"id"}, "b" := {"id"}, "c" := {"id"}, "d" := {"id"}, "e" := {"id"},
        "f" := {"id"}, "g" := {"id"}, "h" := {"id"}, "i" := {"id"}, "j" := {"zzz"}]
  }

  /**
   * With the files of `ExampleFileKeys`, "id" is common (nine in ten) and
   * "zzz" is not, so "j" is flagged both for missing "id" and for the
   * unusual "zzz": the summary reports 8 compliant files where 9 are.
   */
  lemma CompliantAsWrittenExample()
    ensures IsCommon(map["id" := 9, "zzz" := 1], 10, "id") && !IsCommon(map["id" := 9, "zzz" := 1], 10, "zzz")
    ensures MissingMap(ExampleFileKeys(), {"id"}).Keys == {"j"}
    ensures UnusualMap(ExampleFileKeys()).Keys == {"j"}
    ensures CompliantAsWritten(10, {"j"}, {"j"}) == 8
    ensures Compliant(10, {"j"}, {"j"}) == 9
  {
    var fileKeys := ExampleFileKeys();
    assert "id" == StandardKeys[0];
    assert {"id"} - StandardSet == {};
    assert "zzz" in {"zzz"} - StandardSet;
    assert "id" in {"id"} - {"zzz"};
    forall f | f in fileKeys ensures fileKeys[f] == if f == "j" then {"zzz"} else {"id"} {
    }
    forall f ensures f in MissingMap(fileKeys, {"id"}) <==> f == "j" {
    }
    forall f ensures f in UnusualMap(fileKeys) <==> f == "j" {
    }
  }
}
