/**
 * The tag analysis script: it groups the joined song-tag rows by song,
 * counts how often each tag name is used, picks an example song with one
 * tag, and returns the ten most used tags.
 *
 * The three queries are the parameters `songs` (the `songs` rows) and
 * `rels` (the `song_tags` rows with their joined tag).
 */
module TopTags {
  import opened Wrappers
  import opened PyValue

  // ---------------------------------------------------------------------
  // Grouping tags by song

  /** A `song_tags` row: the song's id and the joined `tags` object, `None` when the join is null. */
  datatype Relation = Relation(songId: Value, tag: Option<Record>)

  /** The tag name a relation contributes: the joined tag's name, when the tag and its name are truthy. */
  function Contribution(r: Relation): Option<Value> {
    match r.tag
    case None => None
    case Some(t) => if t != [] && Truthy(Lookup(t, "name")) then Some(Lookup(t, "name")) else None
  }

  /** The names all relations contribute, in row order. */
  function Contributions(rels: seq<Relation>): seq<Value> {
    if rels == [] then []
    else
      var before := Contributions(rels[..|rels| - 1]);
      match Contribution(rels[|rels| - 1])
      case Some(n) => before + [n]
      case None => before
  }

  /** The names the relations of song `k` contribute, in row order. */
  function NamesFor(rels: seq<Relation>, k: Value): seq<Value> {
    if rels == [] then []
    else
      var before := NamesFor(rels[..|rels| - 1], k);
      var r := rels[|rels| - 1];
      if r.songId == k && Contribution(r).Some? then before + [Contribution(r).value] else before
  }

  /** `song_to_tags`: each song's names, songs in the order they first contributed. */
  type Groups = seq<(Value, seq<Value>)>

  /** The songs of a grouping. */
  function KeysOf(g: Groups): set<Value> {
    if g == [] then {} else {g[0].0} + KeysOf(g[1..])
  }

  /** The names of song `k`, or none when it has no entry. */
  function NamesOf(g: Groups, k: Value): seq<Value> {
    if g == [] then []
    else if g[0].0 == k then g[0].1
    else NamesOf(g[1..], k)
  }

  /** No song twice, and no song with an empty list (a `defaultdict` entry appears with its first name). */
  predicate WellGrouped(g: Groups) {
    g == [] || (g[0].1 != [] && g[0].0 !in KeysOf(g[1..]) && WellGrouped(g[1..]))
  }

  /** `song_to_tags[k].append(n)`. */
  function AddToGroup(g: Groups, k: Value, n: Value): Groups {
    if g == [] then [(k, [n])]
    else if g[0].0 == k then [(k, g[0].1 + [n])] + g[1..]
    else [g[0]] + AddToGroup(g[1..], k, n)
  }

  /** Appending a name adds it to that song's list and changes no other list. */
  lemma {:induction false} AddToGroupNames(g: Groups, k: Value, n: Value, j: Value)
    ensures NamesOf(AddToGroup(g, k, n), j) == if j == k then NamesOf(g, k) + [n] else NamesOf(g, j)
  {
    if g != [] && g[0].0 != k {
      AddToGroupNames(g[1..], k, n, j);
    }
  }

  /** Appending a name adds its song to the keys and keeps the grouping well formed. */
  lemma {:induction false} AddToGroupKeys(g: Groups, k: Value, n: Value)
    ensures KeysOf(AddToGroup(g, k, n)) == KeysOf(g) + {k}
    ensures WellGrouped(g) ==> WellGrouped(AddToGroup(g, k, n))
  {
    if g != [] && g[0].0 != k {
      AddToGroupKeys(g[1..], k, n);
      assert AddToGroup(g, k, n)[1..] == AddToGroup(g[1..], k, n);
    }
  }

  /** In a well-formed grouping a song has an entry exactly when it has names. */
  lemma {:induction false} KeysOfNames(g: Groups, k: Value)
    requires WellGrouped(g)
    ensures k in KeysOf(g) <==> NamesOf(g, k) != []
  {
    if g != [] && g[0].0 != k {
      KeysOfNames(g[1..], k);
    }
  }

  /** `song_to_tags` after the grouping loop has run over `rels`. */
  function Grouped(rels: seq<Relation>): Groups {
    if rels == [] then []
    else
      var before := Grouped(rels[..|rels| - 1]);
      var r := rels[|rels| - 1];
      match Contribution(r)
      case Some(n) => AddToGroup(before, r.songId, n)
      case None => before
  }

  /** The grouping is well formed and lists, per song, exactly that song's contributed names in row order. */
  lemma {:induction false} GroupedNames(rels: seq<Relation>, k: Value)
    ensures WellGrouped(Grouped(rels))
    ensures NamesOf(Grouped(rels), k) == NamesFor(rels, k)
    ensures k in KeysOf(Grouped(rels)) <==> NamesFor(rels, k) != []
  {
    if rels != [] {
      var prefix := rels[..|rels| - 1];
      var r := rels[|rels| - 1];
      GroupedNames(prefix, k);
      if Contribution(r).Some? {
        AddToGroupNames(Grouped(prefix), r.songId, Contribution(r).value, k);
        AddToGroupKeys(Grouped(prefix), r.songId, Contribution(r).value);
      }
      KeysOfNames(Grouped(rels), k);
    }
  }

  /** The grouping loop: relations without a truthy tag name are passed over. */
  method GroupTags(rels: seq<Relation>) returns (g: Groups)
    ensures g == Grouped(rels)
    ensures WellGrouped(g)
  {
    g := [];
    for i := 0 to |rels|
      invariant g == Grouped(rels[..i])
    {
      assert rels[..i + 1][..i] == rels[..i];
      var relation := rels[i];
      match relation.tag {
        case Some(t) =>
          if t != [] && Truthy(Lookup(t, "name")) {
            g := AddToGroup(g, relation.songId, Lookup(t, "name"));
          }
        case None =>
      }
    }
    assert rels[..|rels|] == rels;
    GroupedNames(rels, Null);
  }

  /** `multi_tag_songs`: the entries with more than one name, in grouping order. */
  function MultiTag(g: Groups): (m: Groups)
    ensures forall e :: e in m <==> e in g && |e.1| > 1
  {
    if g == [] then []
    else if |g[0].1| > 1 then [g[0]] + MultiTag(g[1..])
    else MultiTag(g[1..])
  }

  // ---------------------------------------------------------------------
  // Counting

  /** A `Counter`: tags with their counts, in the order they were first counted. */
  type Counter = seq<(Value, nat)>

  /** `counter[t]`: zero for a tag never counted. */
  function Count(c: Counter, t: Value): nat {
    if c == [] then 0
    else if c[0].0 == t then c[0].1
    else Count(c[1..], t)
  }

  /** No tag twice, and every count at least one. */
  predicate Tallied(c: Counter) {
    c == [] || (c[0].1 >= 1 && Count(c[1..], c[0].0) == 0 && Tallied(c[1..]))
  }

  /** `counter[t] += 1`. */
  function Increment(c: Counter, t: Value): Counter {
    if c == [] then [(t, 1)]
    else if c[0].0 == t then [(t, c[0].1 + 1)] + c[1..]
    else [c[0]] + Increment(c[1..], t)
  }

  /** Incrementing `t` adds one to its count, leaves the others, and keeps the counter tallied. */
  lemma {:induction false} IncrementCount(c: Counter, t: Value, u: Value)
    ensures Count(Increment(c, t), u) == Count(c, u) + if u == t then 1 else 0
    ensures Tallied(c) ==> Tallied(Increment(c, t))
  {
    if c != [] && c[0].0 != t {
      IncrementCount(c[1..], t, u);
      IncrementCount(c[1..], t, c[0].0);
      assert Increment(c, t)[1..] == Increment(c[1..], t);
    }
  }

  /** In a tallied counter every entry carries its tag's count, which is positive. */
  lemma {:induction false} TalliedEntry(c: Counter, e: (Value, nat))
    requires Tallied(c) && e in c
    ensures e.1 == Count(c, e.0) && e.1 >= 1
  {
    if c[0] != e {
      TalliedEntry(c[1..], e);
    }
  }

  /** The counter after counting `names` in order. */
  function CounterOf(names: seq<Value>): Counter {
    if names == [] then [] else Increment(CounterOf(names[..|names| - 1]), names[|names| - 1])
  }

  /** Each tag is counted once per occurrence, duplicates included. */
  lemma {:induction false} CounterOfCount(names: seq<Value>, t: Value)
    ensures Count(CounterOf(names), t) == multiset(names)[t]
  {
    if names != [] {
      var prefix := names[..|names| - 1];
      var last := names[|names| - 1];
      CounterOfCount(prefix, t);
      IncrementCount(CounterOf(prefix), last, t);
      assert names == prefix + [last];
      assert multiset(names)[t] == multiset(prefix)[t] + if last == t then 1 else 0;
    }
  }

  /** Counting keeps the counter tallied. */
  lemma {:induction false} CounterOfTallied(names: seq<Value>)
    ensures Tallied(CounterOf(names))
  {
    if names != [] {
      var prefix := names[..|names| - 1];
      CounterOfTallied(prefix);
      IncrementCount(CounterOf(prefix), names[|names| - 1], names[|names| - 1]);
    }
  }

  /** All names of a grouping, song after song. */
  function Flatten(g: Groups): seq<Value> {
    if g == [] then [] else g[0].1 + Flatten(g[1..])
  }

  lemma {:induction false} FlattenSnoc(g: Groups, e: (Value, seq<Value>))
    ensures Flatten(g + [e]) == Flatten(g) + e.1
    ensures KeysOf(g + [e]) == KeysOf(g) + {e.0}
  {
    if g == [] {
      assert [e][1..] == [];
    } else {
      FlattenSnoc(g[1..], e);
      assert (g + [e])[1..] == g[1..] + [e];
    }
  }

  /** Appending a name to a song's list adds exactly that name to all names. */
  lemma {:induction false} AddToGroupFlatten(g: Groups, k: Value, n: Value)
    ensures multiset(Flatten(AddToGroup(g, k, n))) == multiset(Flatten(g)) + multiset{n}
  {
    if g != [] && g[0].0 != k {
      AddToGroupFlatten(g[1..], k, n);
      assert AddToGroup(g, k, n)[1..] == AddToGroup(g[1..], k, n);
    }
  }

  /** Grouping loses and invents no name: all names of the grouping are the contributed names. */
  lemma {:induction false} GroupedKeepsNames(rels: seq<Relation>)
    ensures multiset(Flatten(Grouped(rels))) == multiset(Contributions(rels))
  {
    if rels != [] {
      var prefix := rels[..|rels| - 1];
      var r := rels[|rels| - 1];
      GroupedKeepsNames(prefix);
      if Contribution(r).Some? {
        AddToGroupFlatten(Grouped(prefix), r.songId, Contribution(r).value);
      }
    }
  }

  /** The counting loop: every name of every song is counted, and every song is recorded as tagged. */
  method CountTags(g: Groups) returns (counts: Counter, withTags: set<Value>)
    ensures counts == CounterOf(Flatten(g))
    ensures withTags == KeysOf(g)
  {
    counts := [];
    withTags := {};
    for i := 0 to |g|
      invariant counts == CounterOf(Flatten(g[..i]))
      invariant withTags == KeysOf(g[..i])
    {
      var tags := g[i].1;
      ghost var done := Flatten(g[..i]);
      assert done + tags[..0] == done;
      for j := 0 to |tags|
        invariant counts == CounterOf(done + tags[..j])
      {
        assert (done + tags[..j + 1])[..|done| + j] == done + tags[..j];
        counts := Increment(counts, tags[j]);
      }
      assert g[..i + 1] == g[..i] + [g[i]];
      assert tags[..|tags|] == tags;
      FlattenSnoc(g[..i], g[i]);
      withTags := withTags + {g[i].0};
    }
    assert g[..|g|] == g;
  }

  // ---------------------------------------------------------------------
  // The ten most used tags

  /** Counts never increase along the list. */
  predicate NonIncreasing(c: Counter) {
    |c| <= 1 || (c[0].1 >= c[1].1 && NonIncreasing(c[1..]))
  }

  /** The entries with count `v`, in order. */
  function WithCount(c: Counter, v: nat): Counter {
    if c == [] then []
    else if c[0].1 == v then [c[0]] + WithCount(c[1..], v)
    else WithCount(c[1..], v)
  }

  /** Places `x`, which came first, before the first entry that does not outnumber it. */
  function Insert(x: (Value, nat), t: Counter): (r: Counter)
    ensures |r| == |t| + 1
    ensures r[0] == x || (t != [] && r[0] == t[0])
  {
    if t == [] || t[0].1 <= x.1 then [x] + t else [t[0]] + Insert(x, t[1..])
  }

  /** `sorted(items, key=count, reverse=True)`, which keeps equal counts in their original order. */
  function SortDesc(c: Counter): (r: Counter)
    ensures |r| == |c|
  {
    if c == [] then [] else Insert(c[0], SortDesc(c[1..]))
  }

  lemma {:induction false} InsertKeepsOrder(x: (Value, nat), t: Counter)
    requires NonIncreasing(t)
    ensures NonIncreasing(Insert(x, t))
  {
    if t != [] && t[0].1 > x.1 {
      InsertKeepsOrder(x, t[1..]);
    }
  }

  lemma {:induction false} InsertKeepsEntries(x: (Value, nat), t: Counter)
    ensures multiset(Insert(x, t)) == multiset(t) + multiset{x}
  {
    if t != [] && t[0].1 > x.1 {
      InsertKeepsEntries(x, t[1..]);
      assert t == [t[0]] + t[1..];
    }
  }

  /** Inserting `x` puts it ahead of the entries with its count. */
  lemma {:induction false} InsertStable(x: (Value, nat), t: Counter, v: nat)
    ensures WithCount(Insert(x, t), v) == if x.1 == v then [x] + WithCount(t, v) else WithCount(t, v)
  {
    if t != [] && t[0].1 > x.1 {
      InsertStable(x, t[1..], v);
    }
  }

  /** The sorted counter is in non-increasing order and holds the same entries. */
  lemma {:induction false} SortDescSorted(c: Counter)
    ensures NonIncreasing(SortDesc(c))
    ensures multiset(SortDesc(c)) == multiset(c)
  {
    if c != [] {
      SortDescSorted(c[1..]);
      InsertKeepsOrder(c[0], SortDesc(c[1..]));
      InsertKeepsEntries(c[0], SortDesc(c[1..]));
      assert c == [c[0]] + c[1..];
    }
  }

  /** Sorting is stable: entries with equal counts keep their order. */
  lemma {:induction false} SortDescStable(c: Counter, v: nat)
    ensures WithCount(SortDesc(c), v) == WithCount(c, v)
  {
    if c != [] {
      SortDescStable(c[1..], v);
      InsertStable(c[0], SortDesc(c[1..]), v);
    }
  }

  /** In a non-increasing list no later entry outnumbers an earlier one. */
  lemma {:induction false} NonIncreasingPairs(c: Counter, i: nat, j: nat)
    requires NonIncreasing(c) && i <= j < |c|
    ensures c[j].1 <= c[i].1
  {
    if i < j {
      if i == 0 {
        NonIncreasingPairs(c[1..], 0, j - 1);
      } else {
        NonIncreasingPairs(c[1..], i - 1, j - 1);
      }
    }
  }

  /** `counter.most_common(n)`. */
  function MostCommon(c: Counter, n: nat): (r: Counter)
    ensures |r| == if |c| < n then |c| else n
    ensures r == SortDesc(c)[..|r|]
  {
    var sorted := SortDesc(c);
    if |sorted| <= n then sorted else sorted[..n]
  }

  /**
   * The most common entries come in non-increasing order, each is an entry
   * of the counter, and every entry left out is outnumbered by or ties
   * with every entry kept.
   */
  lemma MostCommonIsTop(c: Counter, n: nat)
    ensures NonIncreasing(MostCommon(c, n))
    ensures forall e :: e in MostCommon(c, n) ==> e in c
    ensures forall i, j :: 0 <= i < |MostCommon(c, n)| <= j < |SortDesc(c)| ==> SortDesc(c)[j].1 <= MostCommon(c, n)[i].1
  {
    var sorted := SortDesc(c);
    SortDescSorted(c);
    forall e | e in MostCommon(c, n) ensures e in c {
      assert e in multiset(sorted);
    }
    forall i, j | 0 <= i < |MostCommon(c, n)| <= j < |sorted| ensures sorted[j].1 <= MostCommon(c, n)[i].1 {
      NonIncreasingPairs(sorted, i, j);
    }
    if |sorted| > n {
      NonIncreasingPrefix(sorted, n);
    }
  }

  /**
   * What `most_common` leaves out of the counter: the kept entries are
   * taken from it as many times as it holds them, and every entry left
   * out is outnumbered by or ties with every entry kept.
   */
  lemma MostCommonLeavesOut(c: Counter, n: nat)
    ensures multiset(MostCommon(c, n)) <= multiset(c)
    ensures forall e, i :: e in multiset(c) - multiset(MostCommon(c, n)) && 0 <= i < |MostCommon(c, n)| ==>
      e.1 <= MostCommon(c, n)[i].1
  {
    var sorted := SortDesc(c);
    var top := MostCommon(c, n);
    var k := |top|;
    SortDescSorted(c);
    PrefixMultiset(sorted, k);
    TailOutnumbered(sorted, k);
  }

  /** A prefix takes its entries from the sequence; what it leaves is the rest. */
  lemma PrefixMultiset<T>(s: seq<T>, k: nat)
    requires k <= |s|
    ensures multiset(s[..k]) <= multiset(s)
    ensures multiset(s) - multiset(s[..k]) == multiset(s[k..])
  {
    assert s == s[..k] + s[k..];
  }

  /** In a non-increasing list, no entry after the first `k` outnumbers one of them. */
  lemma TailOutnumbered(c: Counter, k: nat)
    requires NonIncreasing(c) && k <= |c|
    ensures forall e, i :: e in multiset(c[k..]) && 0 <= i < k ==> e.1 <= c[i].1
  {
    forall e, i | e in multiset(c[k..]) && 0 <= i < k ensures e.1 <= c[i].1 {
      assert e in c[k..];
      var j :| k <= j < |c| && c[j] == e;
      NonIncreasingPairs(c, i, j);
    }
  }

  lemma {:induction false} NonIncreasingPrefix(c: Counter, n: nat)
    requires NonIncreasing(c) && n <= |c|
    ensures NonIncreasing(c[..n])
  {
    if n >= 2 {
      NonIncreasingPrefix(c[1..], n - 1);
      assert c[..n][1..] == c[1..][..n - 1];
    }
  }

  // ---------------------------------------------------------------------
  // The one-tag example

  /** `song_info[k]`: the last song row with id `k` (later rows overwrite earlier ones). */
  function InfoOf(songs: seq<Record>, k: Value): (r: Option<Record>)
    ensures r.Some? ==> r.value in songs && Lookup(r.value, "id") == k
    ensures r.None? ==> forall s :: s in songs ==> Lookup(s, "id") != k
  {
    if songs == [] then None
    else if Lookup(songs[|songs| - 1], "id") == k then Some(songs[|songs| - 1])
    else
      var before := InfoOf(songs[..|songs| - 1], k);
      assert songs == songs[..|songs| - 1] + [songs[|songs| - 1]];
      before
  }

  /** The example the script looks for: one tag, and a row in `song_info`. */
  predicate OneTagWithInfo(e: (Value, seq<Value>), songs: seq<Record>) {
    |e.1| == 1 && InfoOf(songs, e.0).Some?
  }

  /** `one_tag_example`: the first grouped song that qualifies, with its row and names. */
  function FirstOne(g: Groups, songs: seq<Record>): Option<(Value, Record, seq<Value>)> {
    if g == [] then None
    else if OneTagWithInfo(g[0], songs) then Some((g[0].0, InfoOf(songs, g[0].0).value, g[0].1))
    else FirstOne(g[1..], songs)
  }

  /** The example exists exactly when some song qualifies, and it is the first one that does. */
  lemma {:induction false} FirstOneIsFirst(g: Groups, songs: seq<Record>)
    ensures FirstOne(g, songs).Some? <==> exists i :: 0 <= i < |g| && OneTagWithInfo(g[i], songs)
    ensures FirstOne(g, songs).Some? ==>
      exists i :: (0 <= i < |g| && OneTagWithInfo(g[i], songs) &&
                   FirstOne(g, songs).value == (g[i].0, InfoOf(songs, g[i].0).value, g[i].1) &&
                   forall j :: 0 <= j < i ==> !OneTagWithInfo(g[j], songs))
  {
    if g != [] && !OneTagWithInfo(g[0], songs) {
      FirstOneIsFirst(g[1..], songs);
      if FirstOne(g, songs).Some? {
        var i :| 0 <= i < |g[1..]| && OneTagWithInfo(g[1..][i], songs) &&
          FirstOne(g, songs).value == (g[1..][i].0, InfoOf(songs, g[1..][i].0).value, g[1..][i].1) &&
          (forall j :: 0 <= j < i ==> !OneTagWithInfo(g[1..][j], songs));
        assert OneTagWithInfo(g[i + 1], songs);
        assert forall j :: 0 <= j < i + 1 ==> !OneTagWithInfo(g[j], songs) by {
          forall j | 0 <= j < i + 1 ensures !OneTagWithInfo(g[j], songs) {
            if j > 0 {
              assert g[j] == g[1..][j - 1];
            }
          }
        }
      } else {
        forall i | 0 <= i < |g| ensures !OneTagWithInfo(g[i], songs) {
          if i > 0 {
            assert g[i] == g[1..][i - 1];
          }
        }
      }
    }
  }

  /** The search loop with its `break`. */
  method FindOneTagExample(g: Groups, songs: seq<Record>) returns (example: Option<(Value, Record, seq<Value>)>)
    ensures example == FirstOne(g, songs)
  {
    example := None;
    var i := 0;
    while i < |g|
      invariant i <= |g|
      invariant FirstOne(g, songs) == FirstOne(g[i..], songs)
    {
      assert g[i..][1..] == g[i + 1..];
      var tags := g[i].1;
      var info := InfoOf(songs, g[i].0);
      if |tags| == 1 && info.Some? {
        example := Some((g[i].0, info.value, tags));
        return;
      }
      i := i + 1;
    }
  }

  // ---------------------------------------------------------------------
  // The whole analysis

  /** What the script computes besides its printed statistics. */
  datatype Analysis = Analysis(
    multiTag: Groups,
    withTags: set<Value>,
    oneTagExample: Option<(Value, Record, seq<Value>)>,
    top: Counter)

  /** The analysis of the relations, as the script assembles it. */
  function Analyze(songs: seq<Record>, rels: seq<Relation>): Analysis {
    var g := Grouped(rels);
    Analysis(MultiTag(g), KeysOf(g), FirstOne(g, songs), MostCommon(CounterOf(Flatten(g)), 10))
  }

  /** Why the script stops with an exception instead of returning. */
  datatype Crash =
    | NullTagPreviewed  // `.get('name', ...)` on the null join of one of the first five relations
    | NoSongs           // the percentage of tagged songs divides by a song count of zero

  /** How a run of the script ends. */
  datatype Outcome = Crashed(crash: Crash) | Finished(analysis: Analysis)

  /** One of the first five relations, the ones the script prints, has a null join. */
  predicate NullInPreview(rels: seq<Relation>) {
    exists i :: 0 <= i < |rels| && i < 5 && rels[i].tag == None
  }

  /**
   * `get_top_tags`: prints the first five relations, which fails on a null
   * join; with no songs the tagged percentage fails; otherwise the
   * analysis of the relations.
   */
  method GetTopTags(songs: seq<Record>, rels: seq<Relation>) returns (r: Outcome)
    ensures r.Crashed? <==> NullInPreview(rels) || songs == []
    ensures NullInPreview(rels) ==> r == Crashed(NullTagPreviewed)
    ensures !NullInPreview(rels) && songs == [] ==> r == Crashed(NoSongs)
    ensures r.Finished? ==> r.analysis == Analyze(songs, rels)
  {
    var i := 0;
    while i < |rels| && i < 5
      invariant i <= |rels| && i <= 5
      invariant forall j :: 0 <= j < i ==> rels[j].tag != None
    {
      if rels[i].tag == None {
        return Crashed(NullTagPreviewed);
      }
      i := i + 1;
    }
    if songs == [] {
      return Crashed(NoSongs);
    }
    var a := AnalyzeTags(songs, rels);
    return Finished(a);
  }

  /**
   * The analysis a finishing run returns: at most ten tags in
   * non-increasing order of use, each with the number of relations that
   * name it; the tagged songs are exactly those with a contributing relation.
   */
  method AnalyzeTags(songs: seq<Record>, rels: seq<Relation>) returns (a: Analysis)
    ensures |a.top| <= 10 && NonIncreasing(a.top)
    ensures forall e :: e in a.top ==> e.1 == multiset(Contributions(rels))[e.0] && e.1 >= 1
    ensures forall k :: k in a.withTags <==> NamesFor(rels, k) != []
    ensures forall e :: e in a.multiTag <==> e in Grouped(rels) && |e.1| > 1
    ensures a.oneTagExample == FirstOne(Grouped(rels), songs)
    ensures a == Analyze(songs, rels)
  {
    var g := GroupTags(rels);
    var multi := MultiTag(g);
    var counts, withTags := CountTags(g);
    var example := FindOneTagExample(g, songs);
    var top := MostCommon(counts, 10);
    MostCommonIsTop(counts, 10);
    GroupedKeepsNames(rels);
    forall e | e in top ensures e.1 == multiset(Contributions(rels))[e.0] && e.1 >= 1 {
      CounterOfCount(Flatten(g), e.0);
      CounterOfTallied(Flatten(g));
      TalliedEntry(counts, e);
    }
    forall k ensures k in withTags <==> NamesFor(rels, k) != [] {
      GroupedNames(rels, k);
    }
    a := Analysis(multi, withTags, example, top);
  }
}
