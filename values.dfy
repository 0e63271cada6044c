/**
 * Values as Python's `json` module loads them, and `dict`s as ordered lists
 * of key/value pairs (Python dicts remember insertion order).
 */
module PyValue {
  import opened Wrappers

  datatype Value =
    | Null
    | Bool(b: bool)
    | Int(i: int)
    | Float(x: real)
    | Str(s: string)
    | List(items: seq<Value>)
    | Obj(fields: seq<(string, Value)>)

  /** A dict: its entries in insertion order. */
  type Record = seq<(string, Value)>

  /** Python's truth value of `v` (`if v:`). */
  predicate Truthy(v: Value) {
    match v
    case Null => false
    case Bool(b) => b
    case Int(i) => i != 0
    case Float(x) => x != 0.0
    case Str(s) => s != []
    case List(items) => items != []
    case Obj(fields) => fields != []
  }

  /** `list(d.keys())`. */
  function Keys(r: Record): (ks: seq<string>)
    ensures |ks| == |r| && forall i :: 0 <= i < |r| ==> ks[i] == r[i].0
  {
    seq(|r|, i requires 0 <= i < |r| => r[i].0)
  }

  /** `set(d.keys())`. */
  function KeySet(r: Record): set<string> {
    set i | 0 <= i < |r| :: r[i].0
  }

  /** No key occurs twice, as in every Python dict. */
  predicate UniqueKeys(r: Record) {
    forall i, j :: 0 <= i < j < |r| ==> r[i].0 != r[j].0
  }

  /** `d[k]` when `k in d`, else `None`. */
  function Get(r: Record, k: string): (v: Option<Value>)
    ensures v.Some? <==> k in KeySet(r)
  {
    if r == [] then None
    else if r[0].0 == k then Some(r[0].1)
    else
      var v := Get(r[1..], k);
      assert KeySet(r) == {r[0].0} + KeySet(r[1..]) by {
        forall x | x in KeySet(r) ensures x in {r[0].0} + KeySet(r[1..]) {
          var i :| 0 <= i < |r| && r[i].0 == x;
          if i > 0 { assert r[1..][i - 1].0 == x; }
        }
      }
      v
  }

  /** In a dict the entry found for `k` is the one at `k`'s position. */
  lemma {:induction false} GetAt(r: Record, i: nat)
    requires UniqueKeys(r) && i < |r|
    ensures Get(r, r[i].0) == Some(r[i].1)
  {
    if i > 0 {
      GetAt(r[1..], i - 1);
    }
  }

  /** `d.get(k)`: the value at `k`, or `None` when `k` is absent. */
  function Lookup(r: Record, k: string): Value {
    match Get(r, k)
    case Some(v) => v
    case None => Null
  }

  /** In a dict the last key does not occur before it. */
  lemma UniqueKeysLast(r: Record)
    requires UniqueKeys(r) && r != []
    ensures UniqueKeys(r[..|r| - 1]) && r[|r| - 1].0 !in KeySet(r[..|r| - 1])
  {
  }

  /** `a` is `b` with some elements left out, the rest in the same order. */
  predicate Subsequence<T(==)>(a: seq<T>, b: seq<T>)
    decreases |b|
  {
    || a == []
    || (&& b != []
        && ((a[|a| - 1] == b[|b| - 1] && Subsequence(a[..|a| - 1], b[..|b| - 1]))
            || Subsequence(a, b[..|b| - 1])))
  }

  /** Appending `x` to `b`, and possibly to `a`, keeps `a` a subsequence of `b`. */
  lemma SubsequenceSnoc<T>(a: seq<T>, b: seq<T>, x: T)
    requires Subsequence(a, b)
    ensures Subsequence(a + [x], b + [x]) && Subsequence(a, b + [x])
  {
    assert (a + [x])[..|a|] == a;
    assert (b + [x])[..|b|] == b;
  }

  /** Appending an entry appends its key to the key list. */
  lemma KeysSnoc(r: Record, e: (string, Value))
    ensures Keys(r + [e]) == Keys(r) + [e.0]
  {
  }

  /** Appending an entry adds its key to the key set. */
  lemma KeySetSnoc(r: Record, e: (string, Value))
    ensures KeySet(r + [e]) == KeySet(r) + {e.0}
  {
    var s := r + [e];
    forall x | x in KeySet(s) ensures x in KeySet(r) + {e.0} {
      var i :| 0 <= i < |s| && s[i].0 == x;
      if i < |r| { assert r[i].0 == x; }
    }
    forall x | x in KeySet(r) ensures x in KeySet(s) {
      var i :| 0 <= i < |r| && r[i].0 == x;
      assert s[i].0 == x;
    }
    assert s[|r|].0 == e.0;
  }

  /** A lookup in `a + b` finds `a`'s entry first. */
  lemma {:induction false} GetConcat(a: Record, b: Record, k: string)
    ensures Get(a + b, k) == if Get(a, k).Some? then Get(a, k) else Get(b, k)
  {
    if a != [] {
      assert (a + b)[1..] == a[1..] + b;
      GetConcat(a[1..], b, k);
    } else {
      assert a + b == b;
    }
  }

  /** `d[k] = v`: replaces the value in place when `k` is present, else appends. */
  function Put(r: Record, k: string, v: Value): Record {
    if r == [] then [(k, v)]
    else if r[0].0 == k then [(k, v)] + r[1..]
    else [r[0]] + Put(r[1..], k, v)
  }

  /** After `d[k] = v`, `d[k]` is `v` and every other key keeps its value. */
  lemma {:induction false} PutGet(r: Record, k: string, v: Value, j: string)
    ensures Get(Put(r, k, v), j) == if j == k then Some(v) else Get(r, j)
  {
    if r != [] && r[0].0 != k {
      PutGet(r[1..], k, v, j);
      assert Put(r, k, v)[1..] == Put(r[1..], k, v);
    }
  }

  /** `d[k] = v` adds `k` to the keys and keeps them unique. */
  lemma {:induction false} PutKeys(r: Record, k: string, v: Value)
    ensures KeySet(Put(r, k, v)) == KeySet(r) + {k}
    ensures UniqueKeys(r) ==> UniqueKeys(Put(r, k, v))
  {
    if r != [] {
      var p := Put(r, k, v);
      assert r == [r[0]] + r[1..];
      KeySetConcat([r[0]], r[1..]);
      KeySetSingleton(r[0]);
      if r[0].0 == k {
        assert p == [(k, v)] + r[1..];
        KeySetSingleton((k, v));
        KeySetConcat([(k, v)], r[1..]);
      } else {
        PutKeys(r[1..], k, v);
        assert p == [r[0]] + Put(r[1..], k, v);
        KeySetConcat([r[0]], Put(r[1..], k, v));
        if UniqueKeys(r) {
          assert r[0].0 !in KeySet(r[1..]);
          assert r[0].0 !in KeySet(Put(r[1..], k, v));
          forall i | 1 <= i < |p| ensures p[i].0 != p[0].0 {
            assert p[i] == Put(r[1..], k, v)[i - 1];
          }
        }
      }
    } else {
      KeySetSingleton((k, v));
    }
  }

  lemma KeySetSingleton(e: (string, Value))
    ensures KeySet([e]) == {e.0}
  {
    assert [e][0].0 == e.0;
  }

  lemma KeySetConcat(a: Record, b: Record)
    ensures KeySet(a + b) == KeySet(a) + KeySet(b)
  {
    var c := a + b;
    forall x | x in KeySet(c) ensures x in KeySet(a) + KeySet(b) {
      var i :| 0 <= i < |c| && c[i].0 == x;
      if i < |a| { assert a[i].0 == x; } else { assert b[i - |a|].0 == x; }
    }
    forall x | x in KeySet(a) + KeySet(b) ensures x in KeySet(c) {
      if x in KeySet(a) {
        var i :| 0 <= i < |a| && a[i].0 == x;
        assert c[i].0 == x;
      } else {
        var i :| 0 <= i < |b| && b[i].0 == x;
        assert c[|a| + i].0 == x;
      }
    }
  }
}
