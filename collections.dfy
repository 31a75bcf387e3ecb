/** Order-preserving filtering of sequences: JavaScript `Array.prototype.filter`, Python list comprehensions with `if`. */
module Seqs {
  import opened Wrappers

  /** The elements of `s` that satisfy `p`, in their original order. */
  function Filter<T>(s: seq<T>, p: T -> bool): (r: seq<T>)
    ensures |r| <= |s|
    ensures forall i :: 0 <= i < |r| ==> p(r[i])
    decreases |s|
  {
    if s == [] then []
    else if p(s[|s| - 1]) then Filter(s[..|s| - 1], p) + [s[|s| - 1]]
    else Filter(s[..|s| - 1], p)
  }

  /** Filtering distributes over concatenation, so filtering can be done one element at a time. */
  lemma {:induction false} FilterAppend<T>(s: seq<T>, t: seq<T>, p: T -> bool)
    ensures Filter(s + t, p) == Filter(s, p) + Filter(t, p)
    decreases |t|
  {
    if t == [] {
      assert s + t == s;
    } else {
      var init, last := t[..|t| - 1], t[|t| - 1];
      assert t == init + [last];
      assert (s + t)[..|s + t| - 1] == s + init;
      assert (s + t)[|s + t| - 1] == last;
      FilterAppend(s, init, p);
      if p(last) {
        assert Filter(t, p) == Filter(init, p) + [last];
        assert Filter(s + t, p) == Filter(s + init, p) + [last];
      } else {
        assert Filter(t, p) == Filter(init, p);
        assert Filter(s + t, p) == Filter(s + init, p);
      }
    }
  }

  /** Keeping everything keeps the sequence as it is. */
  lemma {:induction false} FilterAll<T>(s: seq<T>, p: T -> bool)
    requires forall i :: 0 <= i < |s| ==> p(s[i])
    ensures Filter(s, p) == s
    decreases |s|
  {
    if s != [] {
      FilterAll(s[..|s| - 1], p);
    }
  }

  /** An element is kept exactly when it occurs in `s` and satisfies `p`. */
  lemma {:induction false} FilterMembers<T>(s: seq<T>, p: T -> bool, x: T)
    ensures x in Filter(s, p) <==> x in s && p(x)
    decreases |s|
  {
    if s != [] {
      var init, last := s[..|s| - 1], s[|s| - 1];
      assert s == init + [last];
      FilterMembers(init, p, x);
    }
  }

  /** The union of `f` over the first `n` elements of `s`. */
  function UnionOf<T, U>(s: seq<T>, n: nat, f: T -> set<U>): set<U>
    requires n <= |s|
  {
    if n == 0 then {} else UnionOf(s, n - 1, f) + f(s[n - 1])
  }

  /** Something is in the union exactly when one of the first `n` elements contributes it. */
  lemma {:induction false} UnionOfExactly<T, U>(s: seq<T>, n: nat, f: T -> set<U>, u: U)
    requires n <= |s|
    ensures u in UnionOf(s, n, f) <==> exists k :: 0 <= k < n && u in f(s[k])
  {
    if n > 0 {
      UnionOfExactly(s, n - 1, f, u);
      if u in f(s[n - 1]) {
        assert 0 <= n - 1 < n && u in f(s[n - 1]);
      }
    }
  }

  // ---------------------------------------------------------------------------
  // Keeping the first element of each key
  // ---------------------------------------------------------------------------

  /** The keys the elements of `s` have; elements whose key is None have none. */
  function KeysOf<T, K>(s: seq<T>, key: T -> Option<K>): set<K> {
    if s == [] then {}
    else
      var init := KeysOf(s[..|s| - 1], key);
      var k := key(s[|s| - 1]);
      if k.Some? then init + {k.value} else init
  }

  /** An element with no key, or with a key not among `seen`. */
  predicate Unseen<K>(seen: set<K>, k: Option<K>) {
    k.None? || k.value !in seen
  }

  /** The elements of `s` without a key and the first element of each key, in order. */
  function FirstOfEachKey<T, K(==)>(s: seq<T>, key: T -> Option<K>): (r: seq<T>)
    ensures |r| <= |s|
  {
    if s == [] then []
    else
      var init := s[..|s| - 1];
      FirstOfEachKey(init, key) + (if Unseen(KeysOf(init, key), key(s[|s| - 1])) then [s[|s| - 1]] else [])
  }

  /** No two elements with a key share it. */
  predicate DistinctKeys<T, K(==)>(s: seq<T>, key: T -> Option<K>) {
    forall i, j :: 0 <= i < j < |s| && key(s[i]).Some? ==> key(s[i]) != key(s[j])
  }

  lemma {:induction false} KeysOfExactly<T, K>(s: seq<T>, key: T -> Option<K>, k: K)
    ensures k in KeysOf(s, key) <==> exists i :: 0 <= i < |s| && key(s[i]) == Some(k)
    decreases |s|
  {
    if s != [] {
      var init := s[..|s| - 1];
      KeysOfExactly(init, key, k);
      if exists i :: 0 <= i < |s| && key(s[i]) == Some(k) {
        var i :| 0 <= i < |s| && key(s[i]) == Some(k);
        if i < |s| - 1 {
          assert init[i] == s[i];
        }
      }
      if k in KeysOf(init, key) {
        var i :| 0 <= i < |init| && key(init[i]) == Some(k);
        assert s[i] == init[i];
      }
    }
  }

  /** What is kept has distinct keys, and the same keys as the whole sequence. */
  lemma {:induction false} FirstOfEachKeyDistinct<T, K>(s: seq<T>, key: T -> Option<K>)
    ensures DistinctKeys(FirstOfEachKey(s, key), key)
    ensures KeysOf(FirstOfEachKey(s, key), key) == KeysOf(s, key)
    decreases |s|
  {
    if s != [] {
      var init, last := s[..|s| - 1], s[|s| - 1];
      FirstOfEachKeyDistinct(init, key);
      var d := FirstOfEachKey(init, key);
      if Unseen(KeysOf(init, key), key(last)) {
        AppendUnseen(d, last, key);
      } else {
        assert FirstOfEachKey(s, key) == d;
      }
    }
  }

  lemma AppendUnseen<T, K>(d: seq<T>, last: T, key: T -> Option<K>)
    requires DistinctKeys(d, key) && Unseen(KeysOf(d, key), key(last))
    ensures DistinctKeys(d + [last], key)
    ensures KeysOf(d + [last], key) == KeysOf(d, key) + (if key(last).Some? then {key(last).value} else {})
  {
    var kept := d + [last];
    assert kept[..|kept| - 1] == d && kept[|kept| - 1] == last;
    forall i, j | 0 <= i < j < |kept| && key(kept[i]).Some?
      ensures key(kept[i]) != key(kept[j])
    {
      assert kept[i] == d[i];
      if j == |kept| - 1 {
        KeysOfExactly(d, key, key(d[i]).value);
      } else {
        assert kept[j] == d[j];
      }
    }
  }

  /** A sequence whose keys are already distinct is kept whole. */
  lemma {:induction false} DistinctKeptWhole<T, K>(s: seq<T>, key: T -> Option<K>)
    requires DistinctKeys(s, key)
    ensures FirstOfEachKey(s, key) == s
    decreases |s|
  {
    if s != [] {
      var init, last := s[..|s| - 1], s[|s| - 1];
      assert DistinctKeys(init, key) by {
        forall i, j | 0 <= i < j < |init| && key(init[i]).Some?
          ensures key(init[i]) != key(init[j])
        {
          assert init[i] == s[i] && init[j] == s[j];
        }
      }
      DistinctKeptWhole(init, key);
      if key(last).Some? {
        forall i | 0 <= i < |init|
          ensures key(init[i]) != Some(key(last).value)
        {
          assert init[i] == s[i];
        }
        KeysOfExactly(init, key, key(last).value);
      }
      assert s == init + [last];
    }
  }

  /** Keeping the first of each key twice is keeping it once. */
  lemma FirstOfEachKeyIdempotent<T, K>(s: seq<T>, key: T -> Option<K>)
    ensures FirstOfEachKey(FirstOfEachKey(s, key), key) == FirstOfEachKey(s, key)
  {
    FirstOfEachKeyDistinct(s, key);
    DistinctKeptWhole(FirstOfEachKey(s, key), key);
  }

  /** The test for "has no key". */
  function Keyless<T, K>(key: T -> Option<K>): T -> bool {
    (x: T) => key(x).None?
  }

  /** Elements without a key all survive, in their order. */
  lemma {:induction false} KeylessSurvive<T, K>(s: seq<T>, key: T -> Option<K>)
    ensures Filter(FirstOfEachKey(s, key), Keyless(key)) == Filter(s, Keyless(key))
    decreases |s|
  {
    if s != [] {
      var init, last := s[..|s| - 1], s[|s| - 1];
      var keyless := Keyless(key);
      KeylessSurvive(init, key);
      var extra := if Unseen(KeysOf(init, key), key(last)) then [last] else [];
      FilterAppend(FirstOfEachKey(init, key), extra, keyless);
      if extra == [] {
        assert Filter(s, keyless) == Filter(init, keyless);
      } else {
        assert extra[..0] == [];
      }
    }
  }

  /** A property of every element holds of every element kept. */
  lemma {:induction false} FirstOfEachKeyKeeps<T, K>(s: seq<T>, key: T -> Option<K>, p: T -> bool)
    requires forall i :: 0 <= i < |s| ==> p(s[i])
    ensures forall i :: 0 <= i < |FirstOfEachKey(s, key)| ==> p(FirstOfEachKey(s, key)[i])
    decreases |s|
  {
    if s != [] {
      FirstOfEachKeyKeeps(s[..|s| - 1], key, p);
    }
  }

  /** The defined results of `f` over `s`, in order. */
  function FilterMap<T, U>(s: seq<T>, f: T -> Option<U>): (r: seq<U>)
    ensures |r| <= |s|
  {
    if s == [] then []
    else
      var init := FilterMap(s[..|s| - 1], f);
      var y := f(s[|s| - 1]);
      if y.Some? then init + [y.value] else init
  }

  /**
   * The loop that keeps the first element of each key: a set of the keys seen so far
   * and a counter of the elements dropped.
   */
  method KeepFirstOfEachKey<T, K(==)>(s: seq<T>, key: T -> Option<K>) returns (kept: seq<T>, dropped: nat)
    ensures kept == FirstOfEachKey(s, key)
    ensures dropped == |s| - |kept|
  {
    var seen: set<K> := {};
    kept, dropped := [], 0;
    for i := 0 to |s|
      invariant kept == FirstOfEachKey(s[..i], key)
      invariant seen == KeysOf(s[..i], key)
      invariant dropped == i - |kept|
    {
      assert s[..i + 1][..i] == s[..i];
      var k := key(s[i]);
      if k.None? {
        kept := kept + [s[i]];
      } else if k.value in seen {
        dropped := dropped + 1;
      } else {
        seen := seen + {k.value};
        kept := kept + [s[i]];
      }
    }
    assert s[..|s|] == s;
  }

  /** The loop that collects the defined results of `f`, in order. */
  method CollectDefined<T, U>(s: seq<T>, f: T -> Option<U>) returns (r: seq<U>)
    ensures r == FilterMap(s, f)
  {
    r := [];
    for i := 0 to |s|
      invariant r == FilterMap(s[..i], f)
    {
      assert s[..i + 1][..i] == s[..i];
      var y := f(s[i]);
      if y.Some? {
        r := r + [y.value];
      }
    }
    assert s[..|s|] == s;
  }

  /** Something is collected exactly when `f` defines it for some element. */
  lemma {:induction false} FilterMapMembers<T, U>(s: seq<T>, f: T -> Option<U>, y: U)
    ensures y in FilterMap(s, f) <==> exists i :: 0 <= i < |s| && f(s[i]) == Some(y)
    decreases |s|
  {
    if s != [] {
      var init := s[..|s| - 1];
      FilterMapMembers(init, f, y);
      if exists i :: 0 <= i < |s| && f(s[i]) == Some(y) {
        var i :| 0 <= i < |s| && f(s[i]) == Some(y);
        if i < |s| - 1 {
          assert init[i] == s[i];
        }
      }
      if exists i :: 0 <= i < |init| && f(init[i]) == Some(y) {
        var i :| 0 <= i < |init| && f(init[i]) == Some(y);
        assert s[i] == init[i];
      }
    }
  }

  /** Collecting distributes over concatenation, so the order of the input is kept. */
  lemma {:induction false} FilterMapAppend<T, U>(s: seq<T>, t: seq<T>, f: T -> Option<U>)
    ensures FilterMap(s + t, f) == FilterMap(s, f) + FilterMap(t, f)
    decreases |t|
  {
    if t == [] {
      assert s + t == s;
    } else {
      var init := t[..|t| - 1];
      assert (s + t)[..|s + t| - 1] == s + init;
      assert (s + t)[|s + t| - 1] == t[|t| - 1];
      FilterMapAppend(s, init, f);
    }
  }

  /** A property of every defined result holds of every collected element. */
  lemma {:induction false} FilterMapAll<T, U>(s: seq<T>, f: T -> Option<U>, p: U -> bool)
    requires forall i :: 0 <= i < |s| && f(s[i]).Some? ==> p(f(s[i]).value)
    ensures forall k :: 0 <= k < |FilterMap(s, f)| ==> p(FilterMap(s, f)[k])
    decreases |s|
  {
    if s != [] {
      FilterMapAll(s[..|s| - 1], f, p);
    }
  }

  /** The map from `key(x)` to `x` built over `s` in order: a later element with the same key overwrites. */
  function KeyedBy<V, K>(s: seq<V>, key: V -> K): map<K, V> {
    if s == [] then map[]
    else KeyedBy(s[..|s| - 1], key)[key(s[|s| - 1]) := s[|s| - 1]]
  }

  /** A key is in the map exactly when some element has it. */
  lemma {:induction false} KeyedByKeys<V, K>(s: seq<V>, key: V -> K, k: K)
    ensures k in KeyedBy(s, key) <==> exists i :: 0 <= i < |s| && key(s[i]) == k
    decreases |s|
  {
    if s != [] {
      var init := s[..|s| - 1];
      KeyedByKeys(init, key, k);
      if exists i :: 0 <= i < |init| && key(init[i]) == k {
        var i :| 0 <= i < |init| && key(init[i]) == k;
        assert s[i] == init[i];
      }
      if exists i :: 0 <= i < |s| && key(s[i]) == k {
        var i :| 0 <= i < |s| && key(s[i]) == k;
        if i < |init| {
          assert init[i] == s[i];
        }
      }
    }
  }

  /** A key maps to the last element that has it. */
  lemma {:induction false} KeyedByLast<V, K>(s: seq<V>, key: V -> K, k: K) returns (i: nat)
    requires k in KeyedBy(s, key)
    ensures i < |s| && s[i] == KeyedBy(s, key)[k] && key(s[i]) == k
    ensures forall j :: i < j < |s| ==> key(s[j]) != k
    decreases |s|
  {
    var n := |s| - 1;
    var init := s[..n];
    if key(s[n]) == k {
      i := n;
    } else {
      i := KeyedByLast(init, key, k);
      assert s[i] == init[i];
      forall j | i < j < n
        ensures key(s[j]) != k
      {
        assert s[j] == init[j];
      }
    }
  }
}
