/**
 * The stable sort both `sortImagesByTime` and the route builder rely on
 * (`Array.prototype.sort` with a numeric comparator is stable). It is
 * modelled by insertion sort, and `SortedUnique` shows that the result is the
 * only sequence that is ordered by key and keeps the input order among equal
 * keys, so every stable sort produces it.
 */
module StableSort {

  predicate SortedBy<T>(s: seq<T>, key: T -> int)
  {
    forall i, j :: 0 <= i < j < |s| ==> key(s[i]) <= key(s[j])
  }

  /** The elements whose key is `k`, in their order in `s`. */
  function WithKey<T>(s: seq<T>, key: T -> int, k: int): (r: seq<T>)
    ensures |r| <= |s|
  {
    if s == [] then []
    else (if key(s[0]) == k then [s[0]] else []) + WithKey(s[1..], key, k)
  }

  /** Puts `x` before the first element whose key is not smaller. */
  function InsertFirst<T>(x: T, s: seq<T>, key: T -> int): (r: seq<T>)
    ensures |r| == |s| + 1
  {
    if s == [] || key(x) <= key(s[0]) then [x] + s
    else [s[0]] + InsertFirst(x, s[1..], key)
  }

  /** Insertion sort: sort the tail, then insert the head in front of its equals. */
  function Sort<T>(s: seq<T>, key: T -> int): (r: seq<T>)
    ensures |r| == |s|
  {
    if s == [] then [] else InsertFirst(s[0], Sort(s[1..], key), key)
  }

  lemma SortedSnoc<T>(s: seq<T>, x: T, key: T -> int)
    requires SortedBy(s, key) && forall j :: 0 <= j < |s| ==> key(s[j]) <= key(x)
    ensures SortedBy(s + [x], key)
  {
    assert forall j :: 0 <= j < |s| ==> (s + [x])[j] == s[j];
  }

  lemma {:induction false} InsertSorted<T>(x: T, s: seq<T>, key: T -> int)
    requires SortedBy(s, key)
    ensures SortedBy(InsertFirst(x, s, key), key)
    ensures s != [] ==> InsertFirst(x, s, key)[0] == x || InsertFirst(x, s, key)[0] == s[0]
    decreases |s|
  {
    if s == [] || key(x) <= key(s[0]) {
    } else {
      InsertSorted(x, s[1..], key);
      var t := InsertFirst(x, s[1..], key);
      assert forall i :: 0 <= i < |t| ==> key(s[0]) <= key(t[i]) by {
        assert multiset(t) == multiset{x} + multiset(s[1..]) by { InsertPermutes(x, s[1..], key); }
        forall i | 0 <= i < |t|
          ensures key(s[0]) <= key(t[i])
        {
          assert t[i] in multiset(t);
          if t[i] != x {
            assert t[i] in multiset(s[1..]);
            var j :| 0 <= j < |s[1..]| && s[1..][j] == t[i];
            assert s[j + 1] == t[i];
          }
        }
      }
    }
  }

  lemma {:induction false} InsertPermutes<T>(x: T, s: seq<T>, key: T -> int)
    ensures multiset(InsertFirst(x, s, key)) == multiset{x} + multiset(s)
    decreases |s|
  {
    if s == [] || key(x) <= key(s[0]) {
    } else {
      InsertPermutes(x, s[1..], key);
      assert s == [s[0]] + s[1..];
    }
  }

  /** Insertion keeps every key's subsequence, with `x` in front of its equals. */
  lemma {:induction false} InsertWithKey<T>(x: T, s: seq<T>, key: T -> int, k: int)
    ensures WithKey(InsertFirst(x, s, key), key, k) ==
      (if key(x) == k then [x] else []) + WithKey(s, key, k)
    decreases |s|
  {
    var r := InsertFirst(x, s, key);
    var own := if key(x) == k then [x] else [];
    if s == [] || key(x) <= key(s[0]) {
      assert r == [x] + s && r[1..] == s;
      assert WithKey(r, key, k) == own + WithKey(s, key, k);
    } else {
      var head := if key(s[0]) == k then [s[0]] else [];
      var rest := WithKey(s[1..], key, k);
      InsertWithKey(x, s[1..], key, k);
      assert r[0] == s[0] && r[1..] == InsertFirst(x, s[1..], key);
      assert WithKey(r, key, k) == head + (own + rest);
      assert WithKey(s, key, k) == head + rest;
      assert head == [] || own == [];
      assert head + (own + rest) == own + (head + rest);
    }
  }

  /** The result of `Sort` is ordered by key. */
  lemma {:induction false} SortSorted<T>(s: seq<T>, key: T -> int)
    ensures SortedBy(Sort(s, key), key)
    decreases |s|
  {
    if s != [] {
      SortSorted(s[1..], key);
      InsertSorted(s[0], Sort(s[1..], key), key);
    }
  }

  /** `Sort` rearranges its input and neither adds nor drops an element. */
  lemma {:induction false} SortPermutes<T>(s: seq<T>, key: T -> int)
    ensures multiset(Sort(s, key)) == multiset(s)
    decreases |s|
  {
    if s != [] {
      SortPermutes(s[1..], key);
      InsertPermutes(s[0], Sort(s[1..], key), key);
      assert s == [s[0]] + s[1..];
    }
  }

  /** Stability: elements with equal keys keep their input order. */
  lemma {:induction false} SortStable<T>(s: seq<T>, key: T -> int, k: int)
    ensures WithKey(Sort(s, key), key, k) == WithKey(s, key, k)
    decreases |s|
  {
    if s != [] {
      SortStable(s[1..], key, k);
      InsertWithKey(s[0], Sort(s[1..], key), key, k);
    }
  }

  lemma {:induction false} FirstKeyIsLeast<T>(s: seq<T>, key: T -> int, k: int)
    requires SortedBy(s, key) && WithKey(s, key, k) != []
    ensures s != [] && key(s[0]) <= k
    decreases |s|
  {
    if s != [] && key(s[0]) != k {
      FirstKeyIsLeast(s[1..], key, k);
    }
  }

  lemma HasOwnKey<T>(s: seq<T>, key: T -> int)
    ensures s != [] ==> WithKey(s, key, key(s[0])) != []
  {
  }

  /**
   * Ordered by key with the same per-key subsequences determines the sequence:
   * any two stable sorts of one input give the same output.
   */
  lemma {:induction false} SortedUnique<T>(a: seq<T>, b: seq<T>, key: T -> int)
    requires SortedBy(a, key) && SortedBy(b, key)
    requires forall k :: WithKey(a, key, k) == WithKey(b, key, k)
    ensures a == b
    decreases |a|
  {
    if a == [] || b == [] {
      HasOwnKey(a, key);
      HasOwnKey(b, key);
    } else {
      var ka, kb := key(a[0]), key(b[0]);
      assert WithKey(a, key, ka) != [];
      FirstKeyIsLeast(b, key, ka);
      assert WithKey(b, key, kb) != [];
      FirstKeyIsLeast(a, key, kb);
      assert ka == kb;
      assert WithKey(a, key, ka)[0] == a[0];
      assert WithKey(b, key, ka)[0] == b[0];
      forall k
        ensures WithKey(a[1..], key, k) == WithKey(b[1..], key, k)
      {
        assert WithKey(a, key, k) == WithKey(b, key, k);
        if k == ka {
          assert WithKey(a, key, k) == [a[0]] + WithKey(a[1..], key, k);
          assert WithKey(b, key, k) == [b[0]] + WithKey(b[1..], key, k);
          assert WithKey(a, key, k)[1..] == WithKey(a[1..], key, k);
          assert WithKey(b, key, k)[1..] == WithKey(b[1..], key, k);
        } else {
          assert WithKey(a, key, k) == WithKey(a[1..], key, k);
          assert WithKey(b, key, k) == WithKey(b[1..], key, k);
        }
      }
      SortedUnique(a[1..], b[1..], key);
      assert a == [a[0]] + a[1..] && b == [b[0]] + b[1..];
    }
  }

  /** Sorting an ordered sequence changes nothing. */
  lemma {:induction false} SortOfSorted<T>(s: seq<T>, key: T -> int)
    requires SortedBy(s, key)
    ensures Sort(s, key) == s
  {
    SortSorted(s, key);
    forall k
      ensures WithKey(Sort(s, key), key, k) == WithKey(s, key, k)
    {
      SortStable(s, key, k);
    }
    SortedUnique(Sort(s, key), s, key);
  }

  /** Sorting twice is sorting once. */
  lemma {:induction false} SortIdempotent<T>(s: seq<T>, key: T -> int)
    ensures Sort(Sort(s, key), key) == Sort(s, key)
  {
    SortSorted(s, key);
    SortOfSorted(Sort(s, key), key);
  }
}
