/**
 * Collection transforms of LambdaUtil.java: mapping a list with or without its nulls,
 * mapping then converting, list-to-map with the later duplicate winning, and deduplication
 * by key keeping the first element of each key.
 *
 * A Java null is `None`: mapped values are `Option<T>`, and keys are `Option<K>`, so a key
 * function that returns null is a key function that returns `None`.
 */
module Lambda {
  import opened Wrappers

  /* ---------- Subsequences ---------- */

  /**
   * `a` can be obtained from `b` by deleting elements, order kept. Matched greedily from the
   * end, which decides subsequence exactly.
   */
  predicate IsSubsequence<T(==)>(a: seq<T>, b: seq<T>)
    decreases |b|
  {
    if a == [] then true
    else if b == [] then false
    else if a[|a| - 1] == b[|b| - 1] then IsSubsequence(a[..|a| - 1], b[..|b| - 1])
    else IsSubsequence(a, b[..|b| - 1])
  }

  /** Dropping the last element of a subsequence leaves a subsequence. */
  lemma {:induction false} SubsequenceDropLast<T>(a: seq<T>, b: seq<T>)
    requires a != [] && IsSubsequence(a, b)
    ensures IsSubsequence(a[..|a| - 1], b)
    decreases |b|, 0
  {
    var a', b' := a[..|a| - 1], b[..|b| - 1];
    assert b == b' + [b[|b| - 1]];
    if a[|a| - 1] == b[|b| - 1] {
      SubsequenceExtend(a', b', b[|b| - 1]);
    } else {
      SubsequenceDropLast(a, b');
      SubsequenceExtend(a', b', b[|b| - 1]);
    }
  }

  /** A subsequence of `b` is a subsequence of `b` with one more element at the end. */
  lemma {:induction false} SubsequenceExtend<T>(a: seq<T>, b: seq<T>, x: T)
    requires IsSubsequence(a, b)
    ensures IsSubsequence(a, b + [x])
    decreases |b|, 1
  {
    assert (b + [x])[..|b|] == b;
    if a != [] && a[|a| - 1] == x {
      SubsequenceDropLast(a, b);
    }
  }

  /** Appending the same element to both sides keeps a subsequence. */
  lemma SubsequenceAppend<T>(a: seq<T>, b: seq<T>, x: T)
    requires IsSubsequence(a, b)
    ensures IsSubsequence(a + [x], b + [x])
  {
    assert (a + [x])[..|a|] == a;
    assert (b + [x])[..|b|] == b;
  }

  /* ---------- toList ---------- */

  /** `sourceList.stream().map(mapFun)`: every element mapped, in order. */
  function Map<R, T>(src: seq<R>, f: R -> Option<T>): (r: seq<Option<T>>)
    ensures |r| == |src|
    ensures forall i :: 0 <= i < |src| ==> r[i] == f(src[i])
  {
    if src == [] then [] else Map(src[..|src| - 1], f) + [f(src[|src| - 1])]
  }

  /**
   * `filter(Objects::nonNull)`: the same list without its nulls. The non-null values keep
   * their number of occurrences and their order.
   */
  function WithoutNulls<T(==,!new)>(s: seq<Option<T>>): (r: seq<Option<T>>)
    ensures None !in r
    ensures |r| <= |s|
    ensures forall x: Option<T> :: x in r <==> x in s && x.Some?
    ensures forall x: Option<T> :: x.Some? ==> multiset(r)[x] == multiset(s)[x]
    ensures IsSubsequence(r, s)
  {
    if s == [] then []
    else
      var init, last := s[..|s| - 1], s[|s| - 1];
      assert s == init + [last];
      var r := WithoutNulls(init);
      if last.None? then
        SubsequenceExtend(r, init, last);
        r
      else
        SubsequenceAppend(r, init, last);
        r + [last]
  }

  /**
   * toList(sourceList, mapFun, nullable): an empty source gives an empty list; otherwise the
   * mapped list, from which the nulls are removed unless `nullable`.
   */
  function ToList<R, T(==,!new)>(src: seq<R>, f: R -> Option<T>, nullable: bool): (r: seq<Option<T>>)
    ensures src == [] ==> r == []
    ensures nullable ==> |r| == |src| && forall i :: 0 <= i < |src| ==> r[i] == f(src[i])
    ensures !nullable ==> r == WithoutNulls(Map(src, f))
  {
    if |src| == 0 then []
    else
      var mapped := Map(src, f);
      if !nullable then WithoutNulls(mapped) else mapped
  }

  /** toList(sourceList, mapFun): the mapped non-null values, in source order. */
  function ToListNonNull<R, T(==,!new)>(src: seq<R>, f: R -> Option<T>): (r: seq<Option<T>>)
    ensures r == ToList(src, f, false)
    ensures None !in r && |r| <= |src|
    ensures forall x :: x in r <==> x.Some? && exists i :: 0 <= i < |src| && f(src[i]) == x
  {
    var r := ToList(src, f, false);
    assert forall x :: x in Map(src, f) <==> exists i :: 0 <= i < |src| && f(src[i]) == x;
    r
  }

  /**
   * toList(sourceList, mapFun, convertFun): an empty list when the source is empty or every
   * mapped value is null; otherwise `convertFun` of the mapped non-null values.
   */
  function ToListConvert<R, M(==,!new), T>(src: seq<R>, f: R -> Option<M>, convert: seq<Option<M>> -> seq<Option<T>>)
    : (r: seq<Option<T>>)
    ensures (forall x :: x in src ==> f(x).None?) ==> r == []
    ensures (exists x :: x in src && f(x).Some?) ==> r == convert(ToListNonNull(src, f))
  {
    if |src| == 0 then []
    else
      var medium := ToListNonNull(src, f);
      if |medium| == 0 then [] else convert(medium)
  }

  /* ---------- toMap ---------- */

  /** replaceMergeFunction: of two values under one key, the later one is kept. */
  function ReplaceMerge<U>(earlier: U, later: U): U
  {
    later
  }

  /** The keys of a list's elements; `None` stands for the null key. */
  function KeysOf<T, K(==)>(s: seq<T>, key: T -> Option<K>): (r: set<Option<K>>)
    ensures forall x :: x in s ==> key(x) in r
    ensures forall k :: k in r ==> exists i :: 0 <= i < |s| && key(s[i]) == k
  {
    if s == [] then {}
    else
      var r := KeysOf(s[..|s| - 1], key);
      assert forall i :: 0 <= i < |s| - 1 ==> s[..|s| - 1][i] == s[i];
      r + {key(s[|s| - 1])}
  }

  /**
   * `Collectors.toMap(keyFun, identity(), replaceMergeFunction())` over non-null elements:
   * each element put under its key in list order, merged into an existing entry with
   * ReplaceMerge.
   */
  function CollectToMap<R, K(==)>(src: seq<R>, key: R -> Option<K>): (m: map<Option<K>, R>)
    ensures m.Keys == KeysOf(src, key)
    ensures |m| <= |src|
  {
    if src == [] then map[]
    else
      var m := CollectToMap(src[..|src| - 1], key);
      var x := src[|src| - 1];
      var k := key(x);
      m[k := if k in m then ReplaceMerge(m[k], x) else x]
  }

  /** Each key of the map holds the last element of the list with that key. */
  lemma {:induction false} CollectToMapLastWins<R, K>(src: seq<R>, key: R -> Option<K>, i: int)
    requires 0 <= i < |src|
    requires forall j :: i < j < |src| ==> key(src[j]) != key(src[i])
    ensures key(src[i]) in CollectToMap(src, key)
    ensures CollectToMap(src, key)[key(src[i])] == src[i]
  {
    if i < |src| - 1 {
      var init := src[..|src| - 1];
      assert init[i] == src[i];
      CollectToMapLastWins(init, key, i);
    }
  }

  /** The exception toMap raises when the list holds a null element. */
  datatype ToMapError = NullPointerException

  /** The elements of a list that holds no null. */
  function Unwrap<R>(src: seq<Option<R>>): (r: seq<R>)
    requires forall i :: 0 <= i < |src| ==> src[i].Some?
    ensures |r| == |src|
    ensures forall i :: 0 <= i < |src| ==> src[i] == Some(r[i])
  {
    if src == [] then [] else Unwrap(src[..|src| - 1]) + [src[|src| - 1].value]
  }

  /**
   * toMap(sourceList, keyFun): an empty map for an empty list; a NullPointerException when an
   * element is null; otherwise CollectToMap of the elements.
   */
  function ToMap<R, K(==)>(src: seq<Option<R>>, key: R -> Option<K>): (r: Result<map<Option<K>, R>, ToMapError>)
    ensures src == [] ==> r == Ok(map[])
    ensures r.Err? <==> exists i :: 0 <= i < |src| && src[i].None?
    ensures r.Ok? ==> r.value == CollectToMap(Unwrap(src), key)
    ensures r.Ok? ==> forall i :: 0 <= i < |src| ==> key(src[i].value) in r.value
    ensures r.Ok? ==> |r.value| <= |src|
  {
    if |src| == 0 then Ok(map[])
    else if exists i :: 0 <= i < |src| && src[i].None? then Err(NullPointerException)
    else
      var elements := Unwrap(src);
      Ok(CollectToMap(elements, key))
  }

  /**
   * toMap(sourceList, targetListFun, keyFun): an empty map for an empty list, without applying
   * `targetListFun`; otherwise toMap of the converted list.
   */
  function ToMapVia<R, T, K(==)>(src: seq<Option<R>>, target: seq<Option<R>> -> seq<Option<T>>, key: T -> Option<K>)
    : (r: Result<map<Option<K>, T>, ToMapError>)
    ensures src == [] ==> r == Ok(map[])
    ensures src != [] ==> r == ToMap(target(src), key)
  {
    if |src| == 0 then Ok(map[]) else ToMap(target(src), key)
  }

  /* ---------- distinct ---------- */

  /**
   * The elements of `s` whose key has not occurred earlier in `s`, in order: the first
   * element of each key.
   */
  function FirstByKey<T, K(==)>(s: seq<T>, key: T -> Option<K>): seq<T>
  {
    if s == [] then []
    else
      var init, last := s[..|s| - 1], s[|s| - 1];
      FirstByKey(init, key) + if key(last) in KeysOf(init, key) then [] else [last]
  }

  /** No two elements of `s` have the same key. */
  predicate DistinctKeys<T, K(==)>(s: seq<T>, key: T -> Option<K>) {
    forall i, j :: 0 <= i < j < |s| ==> key(s[i]) != key(s[j])
  }

  /** The deduplicated list is a subsequence of the list. */
  lemma {:induction false} FirstByKeySubsequence<T, K>(s: seq<T>, key: T -> Option<K>)
    ensures IsSubsequence(FirstByKey(s, key), s)
  {
    if s != [] {
      var init, last := s[..|s| - 1], s[|s| - 1];
      assert s == init + [last];
      var r := FirstByKey(init, key);
      FirstByKeySubsequence(init, key);
      if key(last) in KeysOf(init, key) {
        assert FirstByKey(s, key) == r;
        SubsequenceExtend(r, init, last);
      } else {
        assert FirstByKey(s, key) == r + [last];
        SubsequenceAppend(r, init, last);
      }
    }
  }

  /** The deduplicated list has every key of the list. */
  lemma {:induction false} FirstByKeyKeys<T, K>(s: seq<T>, key: T -> Option<K>)
    ensures KeysOf(FirstByKey(s, key), key) == KeysOf(s, key)
  {
    if s != [] {
      var init, last := s[..|s| - 1], s[|s| - 1];
      var r := FirstByKey(init, key);
      FirstByKeyKeys(init, key);
      assert KeysOf(s, key) == KeysOf(init, key) + {key(last)};
      if key(last) in KeysOf(init, key) {
        assert FirstByKey(s, key) == r;
      } else {
        assert FirstByKey(s, key) == r + [last];
        KeysOfAppend(r, last, key);
      }
    }
  }

  /** No two elements of the deduplicated list have the same key. */
  lemma {:induction false} FirstByKeyDistinct<T, K>(s: seq<T>, key: T -> Option<K>)
    ensures DistinctKeys(FirstByKey(s, key), key)
  {
    if s != [] {
      var init, last := s[..|s| - 1], s[|s| - 1];
      var r := FirstByKey(init, key);
      FirstByKeyDistinct(init, key);
      if key(last) !in KeysOf(init, key) {
        FirstByKeyKeys(init, key);
        forall i | 0 <= i < |r| ensures key(r[i]) != key(last) {
          assert r[i] in r;
        }
      }
    }
  }

  lemma KeysOfAppend<T, K>(s: seq<T>, x: T, key: T -> Option<K>)
    ensures KeysOf(s + [x], key) == KeysOf(s, key) + {key(x)}
  {
    assert (s + [x])[..|s|] == s;
  }

  /** The first element with a given key is kept. */
  lemma {:induction false} FirstByKeyKeepsFirst<T, K>(s: seq<T>, key: T -> Option<K>, i: int)
    requires 0 <= i < |s|
    requires forall j :: 0 <= j < i ==> key(s[j]) != key(s[i])
    ensures s[i] in FirstByKey(s, key)
  {
    var init := s[..|s| - 1];
    if i == |s| - 1 {
      forall j | 0 <= j < |init| ensures key(init[j]) != key(s[i]) {
        assert init[j] == s[j];
      }
    } else {
      assert init[i] == s[i];
      FirstByKeyKeepsFirst(init, key, i);
    }
  }

  /** A list whose keys are already distinct is left as it is. */
  lemma {:induction false} FirstByKeyOfDistinct<T, K>(s: seq<T>, key: T -> Option<K>)
    requires DistinctKeys(s, key)
    ensures FirstByKey(s, key) == s
  {
    if s != [] {
      var init, last := s[..|s| - 1], s[|s| - 1];
      assert DistinctKeys(init, key) by {
        forall i, j | 0 <= i < j < |init| ensures key(init[i]) != key(init[j]) {
          assert init[i] == s[i] && init[j] == s[j];
        }
      }
      FirstByKeyOfDistinct(init, key);
      forall j | 0 <= j < |init| ensures key(init[j]) != key(last) {
        assert init[j] == s[j];
      }
      assert s == init + [last];
    }
  }

  /** distinct is idempotent. */
  lemma FirstByKeyIdempotent<T, K>(s: seq<T>, key: T -> Option<K>)
    ensures FirstByKey(FirstByKey(s, key), key) == FirstByKey(s, key)
  {
    FirstByKeyDistinct(s, key);
    FirstByKeyOfDistinct(FirstByKey(s, key), key);
  }

  /**
   * The predicate distinctPredicate returns: it remembers the keys it has seen, the null key
   * as the sentinel `None`, and accepts an element when its key is new.
   */
  class DistinctPredicate<T, K(==)> {
    const keyFun: T -> Option<K>
    var keySet: set<Option<K>>

    /** distinctPredicate(sourceList, keyFun, false) and distinctPredicate(keyFun): no key seen. */
    constructor (keyFun: T -> Option<K>)
      ensures this.keyFun == keyFun && keySet == {}
    {
      this.keyFun := keyFun;
      keySet := {};
    }

    /** `keySet.add(key)`: true when the key was not yet in the set, which now holds it. */
    method Test(target: T) returns (added: bool)
      modifies this
      ensures added <==> keyFun(target) !in old(keySet)
      ensures keySet == old(keySet) + {keyFun(target)}
    {
      var key := keyFun(target);
      added := key !in keySet;
      keySet := keySet + {key};
    }
  }

  /**
   * distinct(sourceList, keyFun): the list filtered by a fresh distinctPredicate, which keeps
   * the first element of each key.
   */
  method Distinct<T(==), K(==)>(src: seq<T>, keyFun: T -> Option<K>) returns (r: seq<T>)
    ensures r == FirstByKey(src, keyFun)
    ensures IsSubsequence(r, src) && DistinctKeys(r, keyFun)
    ensures KeysOf(r, keyFun) == KeysOf(src, keyFun)
  {
    var p := new DistinctPredicate(keyFun);
    r := [];
    for i := 0 to |src|
      invariant p.keyFun == keyFun
      invariant p.keySet == KeysOf(src[..i], keyFun)
      invariant r == FirstByKey(src[..i], keyFun)
    {
      assert src[..i + 1][..i] == src[..i];
      var keep := p.Test(src[i]);
      if keep {
        r := r + [src[i]];
      }
    }
    assert src[..|src|] == src;
    FirstByKeySubsequence(src, keyFun);
    FirstByKeyKeys(src, keyFun);
    FirstByKeyDistinct(src, keyFun);
  }
}
