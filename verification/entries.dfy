/**
  Ordered string-to-string maps: the entries of a JavaScript object literal
  (in `Object.entries` order), a header record, and `URLSearchParams`.
  Assigning an existing key keeps its position.
 */
module Entries {
  import opened Results

  type Entry = (string, string)

  /** The value of the first entry named `k`. */
  function Get(m: seq<Entry>, k: string): Option<string> {
    if m == [] then None
    else if m[0].0 == k then Some(m[0].1)
    else Get(m[1..], k)
  }

  /** No key occurs twice: true of every object and of every map built by `Set`. */
  predicate DistinctKeys(m: seq<Entry>) {
    forall i, j :: 0 <= i < j < |m| ==> m[i].0 != m[j].0
  }

  /** Every entry not named `k`, in order. */
  function Without(m: seq<Entry>, k: string): (r: seq<Entry>)
    ensures Get(r, k) == None
    ensures forall k' :: k' != k ==> Get(r, k') == Get(m, k')
    ensures Get(m, k) == None ==> r == m
    ensures forall i :: 0 <= i < |r| ==> r[i].0 != k && r[i] in m
    ensures DistinctKeys(m) ==> DistinctKeys(r)
  {
    if m == [] then []
    else if m[0].0 == k then Without(m[1..], k)
    else [m[0]] + Without(m[1..], k)
  }

  /**
    `params.set(k, v)`: the first entry named `k` takes the value `v` in
    place and any later ones are removed; without such an entry `(k, v)` is
    appended.
   */
  function Set(m: seq<Entry>, k: string, v: string): (r: seq<Entry>)
    ensures Get(r, k) == Some(v)
    ensures forall k' :: k' != k ==> Get(r, k') == Get(m, k')
    ensures Get(m, k) == None ==> r == m + [(k, v)]
    ensures DistinctKeys(m) ==> DistinctKeys(r)
    ensures forall i :: 0 <= i < |r| ==> r[i].0 == k || r[i] in m
  {
    if m == [] then [(k, v)]
    else if m[0].0 == k then [(k, v)] + Without(m[1..], k)
    else
      var rest := Set(m[1..], k, v);
      assert DistinctKeys(m) ==> forall i :: 0 <= i < |rest| ==> rest[i].0 != m[0].0 by {
        if DistinctKeys(m) {
          HeadKeyNotInTail(m, rest, k);
        }
      }
      [m[0]] + rest
  }

  /** Entries drawn from the tail of a map without repeated keys, or named `k`, avoid the head's key. */
  lemma HeadKeyNotInTail(m: seq<Entry>, rest: seq<Entry>, k: string)
    requires DistinctKeys(m) && m != [] && m[0].0 != k
    requires forall i :: 0 <= i < |rest| ==> rest[i].0 == k || rest[i] in m[1..]
    ensures forall i :: 0 <= i < |rest| ==> rest[i].0 != m[0].0
  {
    forall i | 0 <= i < |rest|
      ensures rest[i].0 != m[0].0
    {
      if rest[i] in m[1..] {
        var j :| 0 <= j < |m[1..]| && m[1..][j] == rest[i];
        assert m[j + 1] == rest[i];
      }
    }
  }

  /** Applying `Set` to every entry of `es`, first to last. */
  function SetAll(m: seq<Entry>, es: seq<Entry>): seq<Entry>
    decreases |es|
  {
    if es == [] then m else SetAll(Set(m, es[0].0, es[0].1), es[1..])
  }

  /** The value of the LAST entry of `es` named `k`. */
  function LastValue(es: seq<Entry>, k: string): Option<string> {
    if es == [] then None
    else
      var later := LastValue(es[1..], k);
      if later.Some? then later
      else if es[0].0 == k then Some(es[0].1)
      else None
  }

  /** After `SetAll`, a key set by `es` holds the value of its last entry there; any other key is untouched. */
  lemma {:induction false} SetAllGet(m: seq<Entry>, es: seq<Entry>, k: string)
    ensures Get(SetAll(m, es), k) == (if LastValue(es, k).Some? then LastValue(es, k) else Get(m, k))
    decreases |es|
  {
    if es != [] {
      SetAllGet(Set(m, es[0].0, es[0].1), es[1..], k);
    }
  }

  /** `SetAll` keeps the keys distinct. */
  lemma {:induction false} SetAllDistinct(m: seq<Entry>, es: seq<Entry>)
    requires DistinctKeys(m)
    ensures DistinctKeys(SetAll(m, es))
    decreases |es|
  {
    if es != [] {
      SetAllDistinct(Set(m, es[0].0, es[0].1), es[1..]);
    }
  }

  lemma {:induction false} GetNoneIffAbsent(m: seq<Entry>, k: string)
    ensures Get(m, k) == None <==> forall i :: 0 <= i < |m| ==> m[i].0 != k
  {
    if m != [] {
      GetNoneIffAbsent(m[1..], k);
      assert forall i :: 1 <= i < |m| ==> m[i] == m[1..][i - 1];
    }
  }

  /** Entries with distinct keys are taken over verbatim and in order. */
  lemma {:induction false} SetAllFresh(m: seq<Entry>, es: seq<Entry>)
    requires DistinctKeys(m + es)
    ensures SetAll(m, es) == m + es
    decreases |es|
  {
    if es != [] {
      var e := es[0];
      assert (m + es)[|m|] == e;
      assert forall i :: 0 <= i < |m| ==> m[i].0 != e.0 by {
        assert forall i :: 0 <= i < |m| ==> (m + es)[i] == m[i];
      }
      GetNoneIffAbsent(m, e.0);
      assert Set(m, e.0, e.1) == m + [e];
      assert m + [e] + es[1..] == m + es;
      SetAllFresh(m + [e], es[1..]);
    }
  }

  /**
    Setting the entries of `es` one by one on an empty map: distinct keys,
    each holding its last value in `es`, and `es` itself when its keys are
    already distinct.
   */
  lemma SetAllFromEmpty(es: seq<Entry>)
    ensures DistinctKeys(SetAll([], es))
    ensures forall k :: Get(SetAll([], es), k) == LastValue(es, k)
    ensures DistinctKeys(es) ==> SetAll([], es) == es
  {
    SetAllDistinct([], es);
    forall k
      ensures Get(SetAll([], es), k) == LastValue(es, k)
    {
      SetAllGet([], es, k);
    }
    if DistinctKeys(es) {
      assert [] + es == es;
      SetAllFresh([], es);
    }
  }

  /** In a map with distinct keys, each entry is what its key looks up. */
  lemma {:induction false} GetAt(m: seq<Entry>, i: nat)
    requires DistinctKeys(m) && i < |m|
    ensures Get(m, m[i].0) == Some(m[i].1)
  {
    if i > 0 {
      GetAt(m[1..], i - 1);
    }
  }

  /** Setting a key that is present, in a map without repeated keys, overwrites its entry in place. */
  lemma {:induction false} SetInPlace(m: seq<Entry>, k: string, v: string)
    requires DistinctKeys(m)
    requires Get(m, k).Some?
    ensures |Set(m, k, v)| == |m|
    ensures forall i :: 0 <= i < |m| ==> Set(m, k, v)[i] == (if m[i].0 == k then (k, v) else m[i])
    decreases |m|
  {
    var tail := m[1..];
    assert DistinctKeys(tail) by {
      forall a, c | 0 <= a < c < |tail|
        ensures tail[a].0 != tail[c].0
      {
        assert tail[a] == m[a + 1] && tail[c] == m[c + 1];
      }
    }
    if m[0].0 == k {
      GetNoneIffAbsent(tail, k);
      assert forall i :: 0 <= i < |tail| ==> tail[i].0 != k by {
        forall i | 0 <= i < |tail|
          ensures tail[i].0 != k
        {
          assert tail[i] == m[i + 1];
        }
      }
      assert Without(tail, k) == tail;
    } else {
      SetInPlace(tail, k, v);
      assert Set(m, k, v) == [m[0]] + Set(tail, k, v);
    }
  }
}
