# spotify-v3 backend and data scripts, modelled in Dafny

This project models the core of the spotify-v3 music player's Python side:

- the Flask backend (`backend/app.py`): the paged song listing
  `/api/songs`, the audio relay `/api/stream/<id>` and the thumbnail
  conversion `/api/thumbnail/<id>`;
- the metadata ingestion script (`upload_to_supabase.py`): sanitising a song
  record, normalising tags, building object-store URLs, the required-field
  gate and the statistics of an upload run;
- the JSON metadata quality tool (`json_metadata_quality_tool.py`): key
  frequencies, the 90% common keys, flagging files with missing or unusual
  keys, the two repairs with their backups, and the re-verification;
- the thumbnail scripts: the key the tester probes (`thumbnail_tester.py`),
  its ASCII preview and test counters, the path rule of
  `test_thumbnail_paths.py`, and the path repair of
  `update_thumbnail_paths.py`;
- the tag statistics of `get_top_tags.py`.

Everything outside the program is a parameter. This covers the Supabase
catalog, the Backblaze B2 object store (presigning, HEAD and GET), HTTP
downloads, the Pillow image library, the file system and user prompts. Most
appear as the answer they give, or as the exception they raise
(`App.Call`). The thumbnail tester's write of a downloaded file is the
parameter `save`, which says whether the write succeeds. The quality
tool's backup and rewrite writes always succeed in the model; see
"Left out". A JSON document is a `PyValue.Value`. A Python dict is a
`PyValue.Record`, an ordered list of key/value pairs, because Python dicts
keep insertion order. The Python string operations the scripts use (`strip`,
`lstrip`, `lower`, `zfill`, `int()`, `float()`, `str(n)`) are modelled in
`PyText`.

Modules, one per source file, plus two shared ones:

| file | module | models |
|---|---|---|
| pytext.dfy | `Wrappers`, `PyText` | `Option`; Python `str` operations |
| values.dfy | `PyValue` | JSON values, dicts, truthiness |
| app.dfy | `App` | backend/app.py |
| upload.dfy | `Upload` | upload_to_supabase.py |
| quality.dfy | `Quality` | json_metadata_quality_tool.py (class `QualityTool`) |
| thumbnail_tester.dfy | `ThumbnailTester` | thumbnail_tester.py |
| test_thumbnail_paths.dfy | `ThumbnailPathFormat` | test_thumbnail_paths.py |
| update_thumbnail_paths.dfy | `UpdateThumbnailPaths` | update_thumbnail_paths.py |
| top_tags.dfy | `TopTags` | get_top_tags.py |

Loops in the source are `method`s with `while` loops. Each is proved equal
to a specification function, and the properties are then proved about that
function as lemmas. The quality tool keeps its state in instance fields that
its steps update, so it is the class `Quality.QualityTool`. Its step
methods state their whole new state in terms of the old one; `Run` states
the directory, the backups, the findings and the count it leaves.

## Model

| member | source | states |
|---|---|---|
| `PyText.StripLeft` | upload_to_supabase.py:31 | `lstrip()` keeps a suffix of the string, everything dropped is whitespace, and the result does not start with whitespace |
| `PyText.StripRight` | upload_to_supabase.py:31 | `rstrip()` keeps a prefix of the string, everything dropped is whitespace, and the result does not end with whitespace |
| `PyText.Strip` | upload_to_supabase.py:31 | `strip()` is empty exactly when the string is blank (the "empty string" test of `sanitize_data`); otherwise it starts and ends with non-whitespace |
| `PyText.StripSlice` | upload_to_supabase.py:31 | `strip()` is the slice of the string that lies between its leading and its trailing whitespace: everything before and after it is whitespace |
| `PyText.StripTrimmed` | upload_to_supabase.py:74 | a string with no whitespace at either end is its own strip |
| `PyText.LStripChar` | update_thumbnail_paths.py:64 | `lstrip('0')` never lengthens the id, and what remains does not start with '0' |
| `PyText.LStripCharRepeat` | thumbnail_tester.py:120 | leading zeros added in front of an id make no difference to `lstrip('0')` |
| `PyText.LStripCharSplit` | thumbnail_tester.py:120 | an id is exactly the zeros `lstrip('0')` removes followed by what it keeps |
| `PyText.LStripCharTwice` | update_thumbnail_paths.py:64 | `lstrip('0')` is idempotent |
| `PyText.Lower` | upload_to_supabase.py:74 | `lower()` keeps the length and lower-cases each character |
| `PyText.LowerTrimmed` | upload_to_supabase.py:74 | lower-casing a stripped tag leaves it stripped |
| `PyText.LowerTwice` | upload_to_supabase.py:74 | lower-casing is idempotent |
| `PyText.LowerStripIdempotent` | upload_to_supabase.py:74 | `tag.strip().lower()` applied to its own result changes nothing |
| `PyText.ZFill` | thumbnail_tester.py:122 | `zfill(6)` gives `max(len, 6)` characters and leaves a string of six or more unchanged |
| `PyText.ZFillUnsigned` | thumbnail_tester.py:122 | for a string that does not start with a sign, `zfill` only prepends zeros |
| `PyText.DecimalDigits` | thumbnail_tester.py:266 | `str(n)` of a natural number is a non-empty digit string, has no leading zero unless n is 0, and denotes n |
| `PyText.DropUnderscores` | backend/app.py:115-116 | removing the underscores from a string of digits and underscores leaves only digits, and never lengthens it |
| `PyText.ParseUnsigned` | backend/app.py:115-116 | an unsigned literal body is accepted exactly when it is digit groups separated by single underscores |
| `PyText.ParseInt` | backend/app.py:115-116 | `int(s)` raises `ValueError` (None) on a blank string |
| `PyText.ParseDecimalDigits` | backend/app.py:115-116 | reading back the decimal rendering of a natural number gives the number |
| `PyText.ParseIntRoundTrip` | backend/app.py:115-116 | `int(str(n)) == n` for every integer n |
| `PyText.ParseUnsignedDecimal` | upload_to_supabase.py:37 | the unsigned body of a decimal literal never reads as a negative number; the values it denotes are the lemmas below |
| `PyText.DecimalValue` | upload_to_supabase.py:37 | the number written `whole.frac` is at least its whole part |
| `PyText.ParseWholeDigits` | upload_to_supabase.py:37 | a run of digits reads as the integer it denotes |
| `PyText.ParsePointDigits` | upload_to_supabase.py:37 | `whole.frac` (either side may be empty, not both) reads as the whole part plus the fraction digits divided by ten to the number of fraction digits |
| `PyText.IndexOfFirst` | upload_to_supabase.py:37 | the search for the decimal point finds the first one |
| `PyText.ParseFloat` | upload_to_supabase.py:37 | `float(s)` raises `ValueError` (None) on a blank string |
| `PyText.Trunc` | upload_to_supabase.py:37 | `int(x)` of a float truncates toward zero |
| `PyValue.Get` | json_metadata_quality_tool.py:277-278 | `d[k]` has a value exactly when `k in d` |
| `PyValue.PutGet` | json_metadata_quality_tool.py:278 | after `d[k] = v`, `d[k]` is `v` and every other key keeps its value |
| `PyValue.PutKeys` | json_metadata_quality_tool.py:278 | `d[k] = v` adds `k` to the keys and keeps them unique |
| `App.ParsePagination` | backend/app.py:114-120 | the arguments are accepted exactly when `limit` (default "30") and `offset` (default "0") parse as integers; the page size is the parsed limit cut down to 30; the offset is the parsed offset |
| `App.PaginationOfIntegers` | backend/app.py:115-116 | integer arguments n and m give page size `min(n, 30)` and offset m |
| `App.PaginationDefaults` | backend/app.py:115-116 | without arguments the listing asks for 30 songs from offset 0 |
| `App.FetchRange` | backend/app.py:128-131 | the inclusive range starts at the offset and spans exactly the page size |
| `App.ServePage` | backend/app.py:122-145 | a page is served exactly when both catalog queries answer, otherwise the reply is a 500; the page carries the fetched rows, the offset, the limit, and `has_more` exactly when `offset + len(rows) < total` |
| `App.GetSongs` | backend/app.py:110-145 | the reply is the 400 "Invalid pagination parameters" exactly when an argument is not an integer; otherwise it is the served page; failures are 400 or 500; a page's limit never exceeds 30 |
| `App.RangeOf` | backend/app.py:128-131 | a range query `lo..hi` answers with the rows of that window that exist |
| `App.HasMoreIffRowsRemain` | backend/app.py:122-141 | against a catalog with exact count and rows, a page of size n at offset m holds rows m..m+n-1 that exist, and `has_more` holds exactly when rows remain beyond that window |
| `App.StreamSong` | backend/app.py:147-230 | a failure is a 404 exactly when the query answers no rows; a raised query, a row without `storage_path`, a presign or probe exception (with its message) and a probe status other than 200 ("Failed to verify audio source") are each a 500; otherwise an `audio/mpeg` stream of the signed URL with the three CORS and caching headers |
| `App.NonEmptyChunks` | backend/app.py:205-207 | the relayed chunks are non-empty chunks of the body, no more of them than the body has |
| `App.FlattenNonEmptyChunks` | backend/app.py:205-207 | skipping empty chunks does not change the bytes relayed |
| `App.Relay` | backend/app.py:198-212 | the generator yields nothing when the GET fails (and then raises) or answers other than 200; on 200 it yields exactly the non-empty chunks, so the listener receives the whole body, and it ends by raising exactly when reading broke off |
| `App.TargetMode` | backend/app.py:37-41 | the image is converted to RGBA exactly when its mode is RGBA or LA, or P with transparency; otherwise to RGB |
| `App.ConvertWebpToPng` | backend/app.py:32-50 | a PNG is produced exactly when opening the image and saving it in its target mode both succeed |
| `App.GetThumbnail` | backend/app.py:232-298 | a raised query is a 500; no row is 404 "Song not found"; a falsy `thumbnail_path` is 404 "No thumbnail available"; a failed signing or download is 500 "Failed to access thumbnail"; a download status other than 200 is 404 "Failed to download thumbnail"; a failed conversion is 500 "Failed to convert image"; otherwise the PNG conversion of the download, named `<song_id>.png` with type `image/png` |
| `Upload.Slice` | upload_to_supabase.py:45 | slicing clips to the string and never fails; within bounds it is the ordinary slice |
| `Upload.Truncated` | upload_to_supabase.py:50-59 | `s[:n]` is the first n characters of s, or all of s when it is shorter |
| `Upload.ToFloat` | upload_to_supabase.py:37 | `float(v)`: True and False give 1.0 and 0.0, an int its value, a float itself, a string the number `float()` reads from it (failing exactly when that fails); None, lists and dicts fail |
| `Upload.ToInt` | upload_to_supabase.py:37 | `int(v)`: True and False give 1 and 0, an int itself, a float its truncation toward zero, a string the integer `int()` reads from it (failing exactly when that fails); None, lists and dicts fail |
| `Upload.FormatDate` | upload_to_supabase.py:42-47 | a string date always formats, to at most 10 characters; other kinds of value are dropped |
| `Upload.FormatDateOfEightChars` | upload_to_supabase.py:44-45 | `YYYYMMDD` becomes `YYYY-MM-DD`: ten characters, dashes at 4 and 7, and the eight characters unchanged around them |
| `Upload.SanitizeEntry` | upload_to_supabase.py:26-61 | None and blank strings are dropped; other keys pass through unchanged; view and like counts are kept as their `int()` conversion and duration as its `float()` conversion, and dropped when that fails; description, title, artist and album strings are cut to their first 10000, 500 and 255 characters; non-null values of those four keys that are not strings are kept unchanged; a non-blank string release date is reformatted; a numeric or boolean release date is dropped when truthy and kept when falsy |
| `Upload.Sanitized` | upload_to_supabase.py:23-63 | the sanitised dict has no more entries than the input |
| `Upload.SanitizeData` | upload_to_supabase.py:23-63 | the loop builds exactly the sanitised dict |
| `Upload.SanitizedKeysInOrder` | upload_to_supabase.py:26-61 | the sanitised keys are a subsequence of the input's keys, in input order |
| `Upload.SanitizedKeys` | upload_to_supabase.py:26-61 | sanitising a dict gives a dict whose keys are among the input's |
| `Upload.SanitizedGet` | upload_to_supabase.py:26-61 | each key of the result holds exactly what sanitising made of the input's value under that key |
| `Upload.B2Url` | upload_to_supabase.py:102-108 | the URL is `https://`, the bucket, the fixed B2 host and the path, in that order |
| `Upload.B2UrlInjective` | upload_to_supabase.py:102-108 | different paths in one bucket get different URLs |
| `Upload.PathsCarryFileId` | upload_to_supabase.py:189-190 | the file stem can be read back from `audio/<id>.mp3` and from `thumbnails/<id>.webp` |
| `Upload.NormalizeTag` | upload_to_supabase.py:69-76 | a kept tag name is non-empty; empty and non-string tags are skipped |
| `Upload.NormalizeTagIdempotent` | upload_to_supabase.py:74 | a normalised tag name is its own normal form |
| `Upload.TagItems` | upload_to_supabase.py:243-245 | a tag list is iterated item by item, a string character by character (each a one-character string) and a dict by its keys in order; `None`, booleans and numbers are not iterable, and only they give no items |
| `Upload.TagNames` | upload_to_supabase.py:69-76 | each tag is normalised on its own, in order |
| `Upload.TagMapContents` | upload_to_supabase.py:65-100 | the tag map holds exactly the resolvable names, each mapped to its resolved id |
| `Upload.TagMapOfTags` | upload_to_supabase.py:65-100 | a name is filed exactly when some tag normalises to it and the catalog resolves it, and every filed name is in normal form |
| `Upload.InsertTags` | upload_to_supabase.py:65-100 | the loop builds exactly that tag map |
| `Upload.SongColumnsDistinct` | upload_to_supabase.py:199-215 | the song row's columns are distinct |
| `Upload.SongRow` | upload_to_supabase.py:199-215 | the row lists the song columns in order |
| `Upload.SongRowGet` | upload_to_supabase.py:199-215 | each column holds exactly its own value |
| `Upload.SongData` | upload_to_supabase.py:188-215 | the unsanitised row has exactly the fifteen columns, in order: the file id, title, uploader as artist, album, duration, upload date as release date, view and like counts, description, webpage URL as source URL, URL as YouTube URL, the audio and thumbnail keys, and their B2 URLs |
| `Upload.MissingFields` | upload_to_supabase.py:221-222 | the missing fields are exactly the required fields (id, title, duration) that are absent or falsy |
| `Upload.GatedSong` | upload_to_supabase.py:217-227 | a row passes the gate exactly when its sanitised form has no missing field, and then it is that sanitised form |
| `Upload.ZeroDurationRejected` | upload_to_supabase.py:221-227 | a file whose duration is 0 or 0.0 is rejected as missing its duration |
| `Upload.ZeroDurationRowRejected` | upload_to_supabase.py:221-227 | any row whose duration is 0 or 0.0 still misses its duration once sanitised |
| `Upload.ZeroDurationKept` | upload_to_supabase.py:35-39 | sanitising keeps a zero duration, as the float 0.0 |
| `Upload.AcceptedHasRequiredFields` | upload_to_supabase.py:221-227 | an accepted row has a truthy id, title and duration |
| `Upload.Classify` | upload_to_supabase.py:141-276 | each of the seven outcomes holds exactly under its condition: empty file (blank text or a falsy JSON value), JSON error (no decode), missing files (a readable record without the audio or the thumbnail), missing required fields (a dict record that fails the gate), API error (the catalog rejects the row, or a truthy `tags` value is not iterable), unexpected error (a readable record with both media files that is not a dict, counted by no statistic) and success |
| `Upload.Outcomes` | upload_to_supabase.py:141-276 | each file is classified on its own, in order |
| `Upload.Count` | upload_to_supabase.py:121-130 | a counter never exceeds the number of files |
| `Upload.OutcomesPartition` | upload_to_supabase.py:121-130 | the six counters plus the unexpected failures add up to the number of files |
| `Upload.UploadMetadata` | upload_to_supabase.py:110-286 | no statistics when there are no files or the connection test fails; otherwise the total is the number of files, each outcome counter is the number of files with that outcome, and `processed` stays 0 |
| `Quality.BeforeTransitive` | json_metadata_quality_tool.py:146 | the sort key `(-count, key)` orders keys transitively |
| `Quality.BeforeTotal` | json_metadata_quality_tool.py:146 | the sort key is a strict total order on keys |
| `Quality.InsertRanked` | json_metadata_quality_tool.py:142-146 | inserting a key into the ranking adds exactly that key |
| `Quality.InsertRankedKeepsRanked` | json_metadata_quality_tool.py:146 | inserting a new key into a ranked list keeps it ranked |
| `Quality.RankCommonKeys` | json_metadata_quality_tool.py:140-146 | the common keys are exactly the keys counted in at least 90% of the files, most frequent first, ties by key |
| `Quality.RankedDistinct` | json_metadata_quality_tool.py:142-146 | the common keys are listed once each |
| `Quality.PickGet` | json_metadata_quality_tool.py:281-284 | copying the listed keys into a new dict keeps exactly the listed keys present, each with its value |
| `Quality.StandardKeysDistinct` | json_metadata_quality_tool.py:42-47 | the standard keys are listed once each |
| `Quality.KeepStandardContents` | json_metadata_quality_tool.py:337-341 | the rewritten record has exactly the standard keys the file had, with their values, in standard order |
| `Quality.PickInOrder` | json_metadata_quality_tool.py:338-341 | copied keys follow the order of the key list |
| `Quality.ExtendGet` | json_metadata_quality_tool.py:286-289 | appending the remaining keys keeps every entry already copied and takes the rest from the file |
| `Quality.ExtendLayout` | json_metadata_quality_tool.py:280-289 | after the standard keys are copied, the non-standard entries follow in their original order |
| `Quality.NonStandardKeys` | json_metadata_quality_tool.py:286-289 | the appended entries come from the file |
| `Quality.ReorderContents` | json_metadata_quality_tool.py:280-289 | reordering changes no key and no value: standard keys first in standard order, then the rest in prior order |
| `Quality.Contains` | json_metadata_quality_tool.py:277 | `key in original` on a dict asks whether the key is present |
| `Quality.CopyMissing` | json_metadata_quality_tool.py:276-278 | copying from an original that is a dict never raises |
| `Quality.CopyMissingGet` | json_metadata_quality_tool.py:276-278 | each missing key the original has takes the original's value; every other key keeps its value; the record stays a dict |
| `Quality.FixRecord` | json_metadata_quality_tool.py:259-293 | the repair of a file with a dict original always succeeds |
| `Quality.FixRecordGet` | json_metadata_quality_tool.py:259-293 | a repaired record holds every key it had, with its value, plus each missing key from the original |
| `Quality.FixRecordComplete` | json_metadata_quality_tool.py:259-293 | when the original holds all missing keys, the repaired file's keys are its old keys plus the missing ones |
| `Quality.PickKeys` | json_metadata_quality_tool.py:338-341 | the loop builds exactly the picked record |
| `Quality.ReorderKeys` | json_metadata_quality_tool.py:280-289 | the two loops build exactly the reordered record |
| `Quality.CopyMissingKeys` | json_metadata_quality_tool.py:276-278 | the copy loop gives exactly the specified copy, or the exception |
| `Quality.ParsedKeysContents` | json_metadata_quality_tool.py:114-133 | a file has a `file_keys` entry exactly when it loads as a dict, and the entry is its key set |
| `Quality.ScanAccountsForFiles` | json_metadata_quality_tool.py:114-138 | a key's count plus the recorded errors never exceed the number of files |
| `Quality.FrequencyMissed` | json_metadata_quality_tool.py:129-133 | a dict file without a key keeps that key's count below the number of files |
| `Quality.MissingNeedsTenFiles` | json_metadata_quality_tool.py:140-160 | a file can miss a common key only when there are at least ten files |
| `Quality.Bump` | json_metadata_quality_tool.py:133 | `key_counter.update(keys)` adds one to each key of the file and nothing else |
| `Quality.MissingMap` | json_metadata_quality_tool.py:157-160 | only analysed files are flagged for missing keys |
| `Quality.UnusualMap` | json_metadata_quality_tool.py:178-181 | only analysed files are flagged for unusual keys |
| `Quality.MissingOrder` | json_metadata_quality_tool.py:276 | the keys copied are exactly the file's missing common keys |
| `Quality.JsonFiles` | json_metadata_quality_tool.py:95 | the analysed files are exactly the listed names ending in `.json` |
| `Quality.FixedFile` | json_metadata_quality_tool.py:259-304 | repairing a dict file leaves a dict file, whether or not the repair raised |
| `Quality.WithMissingKeys` | json_metadata_quality_tool.py:252-304 | the repair adds no file and leaves every dict file a dict |
| `Quality.WithStandardKeys` | json_metadata_quality_tool.py:320-345 | the removal adds no file; a rewritten file is a dict; every other file is unchanged |
| `Quality.RemovalClearsUnusualKeys` | json_metadata_quality_tool.py:337-345 | after the removal, a rescan flags none of the rewritten files for unusual keys |
| `Quality.ScanDirectory` | json_metadata_quality_tool.py:114-138 | the scan records exactly the key sets of the dict files, adds each key's file count to the counter, and lists the other files as errors, in order |
| `Quality.FlagMissing` | json_metadata_quality_tool.py:157-160 | the loop flags exactly the files lacking a common key, with the keys they lack |
| `Quality.FlagUnusual` | json_metadata_quality_tool.py:178-181 | the loop flags exactly the files with non-standard keys, with those keys |
| `Quality.RepairFile` | json_metadata_quality_tool.py:271-293 | one file's repair gives the specified repaired file, and it reports success exactly when copying the missing keys from the original does not fail |
| `Quality.Rescan` | json_metadata_quality_tool.py:368-399 | the re-verification recounts from zero and flags again against the earlier common keys |
| `Quality.KeysInOrder` | json_metadata_quality_tool.py:252 | iterating a dict visits each flagged file exactly once |
| `Quality.RepairedDirIsWithMissingKeys` | json_metadata_quality_tool.py:252-304 | visiting the flagged files one by one has the effect stated for the whole set |
| `Quality.RepairedBackupsAreRefreshed` | json_metadata_quality_tool.py:265-269 | every visited file with an original gets a fresh backup of its loaded content |
| `Quality.RepairNext` | json_metadata_quality_tool.py:256-304 | one pass backs up and repairs a file that has an original, and leaves the others; a success means the original exists |
| `Quality.CountWhereIsCard` | json_metadata_quality_tool.py:295-304 | counting the files that pass a test along a list without repeats gives the size of the set of such files |
| `Quality.RepairMissing` | json_metadata_quality_tool.py:243-308 | `fixed` counts exactly the flagged files that have an original and whose key copy does not raise, and fixed plus failed is the number of flagged files; the directory and the backups end as specified for the flagged set |
| `Quality.CleanedIsWithStandardKeys` | json_metadata_quality_tool.py:320-345 | visiting the flagged files one by one rewrites them as stated for the whole set |
| `Quality.CleanedBackupsAreKept` | json_metadata_quality_tool.py:331-335 | an existing backup is never overwritten; a file without one gets one |
| `Quality.RemoveNext` | json_metadata_quality_tool.py:324-347 | one pass backs up a file unless a backup exists, then keeps its standard keys |
| `Quality.RemoveUnusual` | json_metadata_quality_tool.py:310-360 | every flagged file is rewritten with only its standard keys; the backups are kept or created as specified |
| `Quality.QualityTool.constructor` | json_metadata_quality_tool.py:16-47 | the tool starts from the `.json` names of the listing with nothing analysed |
| `Quality.QualityTool.ScanFiles` | json_metadata_quality_tool.py:114-138 | the scan adds each dict file's keys to `file_keys` and its counts to `key_counter`, and changes nothing else |
| `Quality.QualityTool.AnalyzeSchema` | json_metadata_quality_tool.py:108-149 | after the scan, the errors grow by the scan's errors and the common keys are exactly the ranked keys present in at least 90% of the files |
| `Quality.QualityTool.IdentifyMissingKeys` | json_metadata_quality_tool.py:151-160 | each analysed file lacking a common key is flagged with the keys it lacks; nothing else changes |
| `Quality.QualityTool.IdentifyUnusualKeys` | json_metadata_quality_tool.py:172-181 | each analysed file with a non-standard key is flagged with those keys; nothing else changes |
| `Quality.QualityTool.FixMissingKeys` | json_metadata_quality_tool.py:243-308 | the directory and backups become the repaired ones; `fixed` is the number of flagged files with an original whose key copy does not raise, and fixed plus failed is the number of flagged files |
| `Quality.QualityTool.RemoveUnusualKeys` | json_metadata_quality_tool.py:310-360 | every flagged file is rewritten with its standard keys; backups are created only where none exists |
| `Quality.QualityTool.VerifyFixes` | json_metadata_quality_tool.py:362-405 | the findings are rebuilt from scratch against the repaired directory and the earlier common keys |
| `Quality.QualityTool.Run` | json_metadata_quality_tool.py:49-83 | with files, the analysis counts every key over the files on top of the earlier counter, and the common keys are exactly those in at least 90% of the files, ranked (lines 140-146); nothing is repaired without files or without confirmation; the verification runs exactly when there are files, some file is flagged by the analysis and the fix is confirmed; the directory and backups are then those of the missing-key repair (only with an original directory) followed by the unusual-key removal, the findings are rebuilt from the repaired files, and the count returned is the printed one (lines 397-401), which falls short of the unflagged files by the files flagged twice; otherwise the analysis findings remain |
| `Quality.CompliantAsWrittenUndercounts` | json_metadata_quality_tool.py:206 | the summary's count subtracts the files with both problems twice |
| `Quality.CompliantCountsUnflagged` | json_metadata_quality_tool.py:401 | the corrected count is the number of files flagged for neither problem |
| `Quality.CompliantAsWrittenExample` | json_metadata_quality_tool.py:140-221 | with nine files holding only "id" and one holding only "zzz", the summary reports 8 compliant files where 9 are |
| `ThumbnailTester.ThumbnailId` | thumbnail_tester.py:118-122 | the derived id has six characters, or more when the id without its leading zeros is longer |
| `ThumbnailTester.SameIdWithLeadingZeros` | thumbnail_tester.py:118-125 | ids that differ only in leading zeros probe the same key |
| `ThumbnailTester.ThumbnailIdPads` | thumbnail_tester.py:118-122 | for unsigned digits, the derived id is the digits padded on the left with zeros |
| `ThumbnailTester.SixCharacterIdKept` | thumbnail_tester.py:118-122 | a six-character unsigned id is its own derived id |
| `ThumbnailTester.ThumbnailIdIdempotent` | thumbnail_tester.py:118-122 | deriving the id twice changes nothing |
| `ThumbnailTester.CharIndex` | thumbnail_tester.py:185-195 | the character index is always within the ten-character palette |
| `ThumbnailTester.CharIndexMonotone` | thumbnail_tester.py:185-195 | a lighter pixel never gets a darker character; black is `@` and white is a space |
| `ThumbnailTester.AsciiRow` | thumbnail_tester.py:189-196 | a preview line has one character per pixel column |
| `ThumbnailTester.AsciiRowNoBreak` | thumbnail_tester.py:189-196 | a preview line holds no line break |
| `ThumbnailTester.SplitLines` | thumbnail_tester.py:198 | splitting on line breaks always gives at least one line |
| `ThumbnailTester.SplitJoinLines` | thumbnail_tester.py:198 | lines without breaks, joined with `\n`, split back into the same lines |
| `ThumbnailTester.RenderAscii` | thumbnail_tester.py:168-198 | the nested loops build exactly the joined preview lines |
| `ThumbnailTester.PreviewRows` | thumbnail_tester.py:185-198 | the preview reads back as `height` lines of `width` palette characters |
| `ThumbnailTester.JoinPath` | thumbnail_tester.py:146 | `os.path.join`: a name starting with `/` replaces the directory; otherwise the path is the directory, then exactly one `/` when the directory is non-empty and does not already end in `/`, then the name |
| `ThumbnailTester.GetThumbnail` | thumbnail_tester.py:116-166 | the download succeeds exactly when the derived key can be fetched and `<song_id>.png` can be written in the output directory; then it returns that path and the fetched bytes, otherwise nothing |
| `ThumbnailTester.Successes` | thumbnail_tester.py:281-292 | successes never outnumber the results |
| `ThumbnailTester.ResultsCover` | thumbnail_tester.py:260-294 | each song with a truthy id gets one result, so results never outnumber songs, and a result is a success exactly when its derived key can be fetched and its file written |
| `ThumbnailTester.TallyCounts` | thumbnail_tester.py:252-294 | the run keeps the song total, records exactly the results of songs with an id, counts the successes among them, and successes plus failures equal the results |
| `ThumbnailTester.TestSong` | thumbnail_tester.py:261-294 | one loop pass skips a song without an id, otherwise appends its result and bumps its counter |
| `ThumbnailTester.TestThumbnails` | thumbnail_tester.py:252-294 | the loop's report has the song total, the results of the songs with an id, the successes among them, and successes plus failures equal to the results |
| `ThumbnailPathFormat.FormatIdCases` | test_thumbnail_paths.py:16-21 | the id changes exactly when it has seven characters and a leading zero, and then it loses only that zero |
| `ThumbnailPathFormat.FormatIdIdempotent` | test_thumbnail_paths.py:16-21 | formatting a formatted id changes nothing |
| `ThumbnailPathFormat.TestIdsLoseFirstZero` | test_thumbnail_paths.py:31-42 | every exercised id loses its first zero and becomes six characters |
| `ThumbnailPathFormat.EdgeCases` | test_thumbnail_paths.py:46-58 | only `0123456` among the edge cases is transformed, to `thumbnails/123456.png` |
| `ThumbnailPathFormat.StrippedDigitsUnsigned` | thumbnail_tester.py:120 | what `lstrip('0')` keeps of a digit string does not start with a sign |
| `ThumbnailPathFormat.AgreesWithTester` | test_thumbnail_paths.py:10-27 | for a seven-digit id with a leading zero, the rule gives the key the tester probes |
| `ThumbnailPathFormat.DisagreesWithTesterOnShortIds` | test_thumbnail_paths.py:10-27 | for ids shorter than six characters, the rule and the tester disagree |
| `UpdateThumbnailPaths.CorrectPathIgnoresLeadingZeros` | update_thumbnail_paths.py:64-67 | ids that differ only in leading zeros get the same path |
| `UpdateThumbnailPaths.AgreesWithTesterIff` | update_thumbnail_paths.py:64-67 | the repaired path is the key the tester probes exactly when the id without leading zeros has three characters and no sign |
| `UpdateThumbnailPaths.UpdateIff` | update_thumbnail_paths.py:56-73 | a row is written exactly when it has a truthy path, a string id and a path other than the correct one, and it is written the correct path |
| `UpdateThumbnailPaths.CrashIsFinal` | update_thumbnail_paths.py:55-64 | once a non-string id has raised, later rows are not visited |
| `UpdateThumbnailPaths.AttemptsSound` | update_thumbnail_paths.py:55-76 | at most one write per row; each write carries the correct path for its id and comes from a row whose path differed |
| `UpdateThumbnailPaths.Succeeded` | update_thumbnail_paths.py:71-76 | the successful writes never outnumber the writes issued |
| `UpdateThumbnailPaths.UpdatePaths` | update_thumbnail_paths.py:43-78 | no rows ends the script; otherwise the writes issued are exactly the attempts, it crashes exactly on a non-string id with a path, and the final count is the number of successful writes, at most the number of rows |
| `UpdateThumbnailPaths.ApplyRows` | update_thumbnail_paths.py:73 | the writes keep the number of rows |
| `UpdateThumbnailPaths.ApplyRowSettled` | update_thumbnail_paths.py:59-73 | after its write took effect, a row that did not crash is kept or skipped |
| `UpdateThumbnailPaths.SecondPassIssuesNothing` | update_thumbnail_paths.py:55-76 | when every issued write took effect, a second pass issues nothing |
| `UpdateThumbnailPaths.Idempotent` | update_thumbnail_paths.py:43-78 | re-running the script after all its writes succeeded updates nothing |
| `TopTags.AddToGroupNames` | get_top_tags.py:54 | appending a name adds it to that song's list and changes no other list |
| `TopTags.AddToGroupKeys` | get_top_tags.py:49-54 | appending a name adds its song to the keys and keeps each song once with a non-empty list |
| `TopTags.GroupedNames` | get_top_tags.py:48-54 | each song's list holds exactly its relations' tag names in row order, and a song has an entry exactly when it has a name |
| `TopTags.GroupTags` | get_top_tags.py:48-54 | the loop builds exactly that grouping, skipping relations without a truthy tag name |
| `TopTags.MultiTag` | get_top_tags.py:57 | the multi-tag songs are exactly the entries with more than one name |
| `TopTags.IncrementCount` | get_top_tags.py:66 | `tag_counts[tag] += 1` adds one to that tag and leaves the others |
| `TopTags.CounterOfCount` | get_top_tags.py:61-66 | each tag is counted once per occurrence, duplicates included |
| `TopTags.CounterOfTallied` | get_top_tags.py:61-66 | the counter holds each tag once, with a positive count |
| `TopTags.GroupedKeepsNames` | get_top_tags.py:48-54 | grouping loses and invents no name |
| `TopTags.CountTags` | get_top_tags.py:60-67 | the nested loops count every name of every song and record exactly the grouped songs as tagged |
| `TopTags.SortDescSorted` | get_top_tags.py:104-107 | `most_common` sorts in non-increasing count order and keeps the same entries |
| `TopTags.SortDescStable` | get_top_tags.py:104-107 | tags with equal counts keep their first-counted order |
| `TopTags.MostCommon` | get_top_tags.py:104-107 | `most_common(10)` returns the first min(10, number of tags) entries of the stable descending sort |
| `TopTags.MostCommonIsTop` | get_top_tags.py:104-107 | the returned entries come from the counter in non-increasing order, and no entry left out outnumbers one kept |
| `TopTags.MostCommonLeavesOut` | get_top_tags.py:104-107 | the returned entries are taken from the counter, and every entry left out is outnumbered by or ties with every entry returned |
| `TopTags.TailOutnumbered` | get_top_tags.py:104-107 | in a list sorted by descending count, no entry past the first k outnumbers one of them |
| `TopTags.PrefixMultiset` | get_top_tags.py:104-107 | a prefix takes its entries from the list, and what it leaves is the rest of the list |
| `TopTags.InfoOf` | get_top_tags.py:26 | `song_info[k]` is a song row with id k, absent exactly when no row has that id |
| `TopTags.FirstOneIsFirst` | get_top_tags.py:79-84 | an example exists exactly when some song has one tag and a row, and it is the first such song |
| `TopTags.FindOneTagExample` | get_top_tags.py:79-84 | the loop with its `break` finds exactly that example |
| `TopTags.GetTopTags` | get_top_tags.py:15-107 | the run crashes exactly when one of the first five relations has a null join (line 46, checked first) or there are no songs (line 73); otherwise it finishes with the analysis of the relations |
| `TopTags.AnalyzeTags` | get_top_tags.py:48-107 | at most ten tags in non-increasing order, each with the number of relations naming it; the tagged songs are exactly those with a named relation; the multi-tag songs and the one-tag example as stated above; the whole is the analysis of the grouped relations |

## Left out

- I/O is not modelled: the file system, HTTP, the Supabase client and the B2 client. Each is a parameter that answers or raises.
- Not modelled: environment variables and credential checks, logging, `print`, progress bars, argument parsing and the interactive prompt. The prompt's answer and the auto-fix flag are the parameter `proceed` of `Quality.QualityTool.Run`.
- `render_ascii_art`: image decoding, resizing and the aspect-ratio height are not modelled. The preview is modelled from the resized greyscale pixels, and its two exception messages are left out.
- Image decoding and PNG encoding in `backend/app.py`: the image library is a parameter reporting the mode and transparency.
- App.ServePage: the reply's `count` stands for the attribute being present or absent. A count attribute present but `None`, which would make the `has_more` comparison raise and give a 500, is not represented.
- App.Relay: the stream is a finished list of chunks. Laziness and the interleaving with the client are not modelled.
- ThumbnailTester.IdText: `str(id)` for an id that is neither a string nor an integer is the parameter `text`.
- ThumbnailTester.TestThumbnails: the `timestamp` field, writing `results.json`, clearing the output directory and the summary's success rate are left out.
- PyText.ParseInt and PyText.ParseFloat: only ASCII digits and whitespace are modelled. `float()` covers plain decimal notation, so exponents, `inf`, `nan` and Unicode digits are left out.
- PyText.Strip: whitespace is the ASCII set (space, tab, newline, carriage return, vertical tab, form feed, and the separators `\x1c`–`\x1f`). Python's `strip()` also removes Unicode whitespace such as U+00A0, U+0085 and U+2028, which the model keeps.
- PyText.Lower: only `A` to `Z` are lowered. Python's `lower()` also maps other letters, such as `É` to `é`.
- PyText.ParseFloat: a digit group separator is rejected. Python's `float("1_000.5")` reads 1000.5.
- PyText.LStripChar: the contract states only the length bound and the first character. The prefix-of-zeros property is the lemma `PyText.LStripCharSplit`.
- Upload.SanitizeEntry: a release date given as a list or a dict is dropped in the model. Python formats a sliced list into a string. For a dict, the result depends on the Python version: before 3.12, `value[:4]` raises a `TypeError` that is caught, so the entry is dropped as in the model; from 3.12 it raises a `KeyError` that is not caught.
- Upload.TagMap: the catalog's answer for a name is a function `resolve` of the name, so every occurrence of a name gets the same answer. `insert_tags` queries the catalog again for each occurrence, so a catalog that changes between queries (a concurrent insert, a transient error) can give a repeated name a different id or none.
- Upload.Classify: a file that cannot be read as UTF-8 is not represented, because the content is given as text. Linking tags to the song (`song_tags` upserts) is left out: each failure there is caught and printed and changes no statistic.
- Quality.QualityTool.FixMissingKeys: writing the backup or the repaired file (json_metadata_quality_tool.py:268-269, 292-293) never fails in the model. In Python a failed write is caught, the file counts as failed, and a backup written before the failure stays.
- Quality.QualityTool.RemoveUnusualKeys: writing the backup or the cleaned file (json_metadata_quality_tool.py:334-335, 344-345) never fails in the model, so every flagged file counts as fixed. In Python a failed write is caught and counts the file as failed.
- Quality.RankCommonKeys: the 90% threshold is the exact rational `10 * count >= 9 * total`, not the float product `total * 0.9`.
- `generate_report` and `main` of the quality tool are left out: they only print or write a report.
- TopTags.GetTopTags: the printed statistics, `tags_per_song` and the example prints are not modelled.
- TopTags.GetTopTags: two more crashes are not modelled, and the model finishes in both cases. A multi-tag song with a row whose names are not strings raises `TypeError` at get_top_tags.py:100 (`', '.join`). A song row without `title` or `artist` raises `KeyError` at lines 89-90 or 98-99. The catalog stores tag names as text, and the query selects `title` and `artist`, so the query does not return such rows.
- TopTags.GetTopTags: a crash is an outcome; the exception's traceback and the lines printed before it are not modelled.
- TopTags.GetTopTags: a relation whose joined tag is not a dict is not representable, so its `AttributeError` is left out. A song row without an `id` key is read as `None` rather than raising `KeyError`. Ids are compared by value, whereas Python treats `1`, `1.0` and `True` as one dict key.
- UpdateThumbnailPaths.UpdatePaths: the fetch's exception and `sys.exit(1)` on missing credentials are not modelled. Only the empty result is modelled, as `NoSongs`.
- Quality.WithMissingKeys: Python visits the missing keys of a file (`for key in missing_keys`) in set order, which depends on string hashing. The model visits them in the common-key order. Standard keys end up in standard order either way. When two or more missing keys are not standard keys, Python may append them in a different order than the model does.
- Quality.QualityTool.Run: like the source, the printed count includes the files that could not be loaded, because `total_files` counts every `.json` name.

## Findings

| source | as written | input that shows it | evidently intended | confidence | as-written member | corrected member |
|---|---|---|---|---|---|---|
| json_metadata_quality_tool.py:206 | the summary (and the same formula at lines 401 and 428) computes the compliant count as the total minus the number of files with missing keys minus the number with unusual keys, which subtracts a file flagged for both problems twice | ten files: nine holding only `id`, one holding only `zzz`; `id` is common and `zzz` unusual, so the one file is flagged twice and 8 is reported where 9 files are compliant | the number of files flagged for neither problem: `total_files - len(missing ∪ unusual)` | not executed | `Quality.CompliantAsWrittenExample` | `Quality.CompliantCountsUnflagged` |
