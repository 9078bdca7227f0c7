/** A stable insertion sort by an integer key, the model of Python's `list.sort(key=...)`. */
module Sorting {

  predicate SortedBy<T>(s: seq<T>, key: T -> int) {
    forall i, j :: 0 <= i < j < |s| ==> key(s[i]) <= key(s[j])
  }

  /** Inserts x after every element whose key is not greater than x's. */
  function InsertBy<T(==)>(s: seq<T>, x: T, key: T -> int): (r: seq<T>)
    ensures |r| == |s| + 1
    ensures multiset(r) == multiset(s) + multiset{x}
  {
    if s == [] then [x]
    else if key(x) < key(s[0]) then [x] + s
    else
      assert s == [s[0]] + s[1..];
      [s[0]] + InsertBy(s[1..], x, key)
  }

  /** Number of leading elements of s whose key is not greater than x's. */
  function InsertPos<T>(s: seq<T>, x: T, key: T -> int): (k: nat)
    ensures k <= |s|
  {
    if s == [] || key(x) < key(s[0]) then 0 else 1 + InsertPos(s[1..], x, key)
  }

  /** `InsertBy` keeps s in its order and puts x right after its first
      `InsertPos` elements. */
  lemma {:induction false} InsertBySplits<T>(s: seq<T>, x: T, key: T -> int)
    ensures InsertBy(s, x, key) == s[..InsertPos(s, x, key)] + [x] + s[InsertPos(s, x, key)..]
  {
    if s == [] || key(x) < key(s[0]) {
      assert s[..0] == [] && s[0..] == s;
    } else {
      var t := s[1..];
      InsertBySplits(t, x, key);
      var k := InsertPos(t, x, key);
      assert s[..k + 1] == [s[0]] + t[..k];
      assert s[k + 1..] == t[k..];
    }
  }

  /** The elements before the insertion point have a key up to x's, and the one
      right after it (if any) a greater key. */
  lemma {:induction false} InsertPosBounds<T>(s: seq<T>, x: T, key: T -> int)
    ensures forall i :: 0 <= i < InsertPos(s, x, key) ==> key(s[i]) <= key(x)
    ensures InsertPos(s, x, key) < |s| ==> key(x) < key(s[InsertPos(s, x, key)])
  {
    if s != [] && key(x) >= key(s[0]) {
      var t := s[1..];
      InsertPosBounds(t, x, key);
      forall i | 0 <= i < InsertPos(s, x, key) ensures key(s[i]) <= key(x) {
        if i > 0 {
          assert s[i] == t[i - 1];
        }
      }
    }
  }

  function SortBy<T(==)>(s: seq<T>, key: T -> int): (r: seq<T>)
    ensures |r| == |s|
  {
    if s == [] then [] else InsertBy(SortBy(s[..|s| - 1], key), s[|s| - 1], key)
  }

  lemma {:induction false} InsertBySorted<T>(s: seq<T>, x: T, key: T -> int)
    requires SortedBy(s, key)
    ensures SortedBy(InsertBy(s, x, key), key)
  {
    if s != [] && key(x) >= key(s[0]) {
      var rest := InsertBy(s[1..], x, key);
      InsertBySorted(s[1..], x, key);
      forall j | 0 <= j < |rest| ensures key(s[0]) <= key(rest[j]) {
        assert rest[j] in multiset(rest);
        assert rest[j] in multiset(s[1..]) || rest[j] == x;
        if rest[j] != x {
          var k :| 0 <= k < |s[1..]| && s[1..][k] == rest[j];
          assert s[k + 1] == rest[j];
        }
      }
      var r := [s[0]] + rest;
      forall i, j | 0 <= i < j < |r| ensures key(r[i]) <= key(r[j]) {
        if i > 0 {
          assert r[i] == rest[i - 1] && r[j] == rest[j - 1];
        } else {
          assert r[j] == rest[j - 1];
        }
      }
    }
  }

  lemma {:induction false} SortBySorted<T>(s: seq<T>, key: T -> int)
    ensures SortedBy(SortBy(s, key), key)
  {
    if s != [] {
      SortBySorted(s[..|s| - 1], key);
      InsertBySorted(SortBy(s[..|s| - 1], key), s[|s| - 1], key);
    }
  }

  lemma {:induction false} SortByPermutes<T>(s: seq<T>, key: T -> int)
    ensures multiset(SortBy(s, key)) == multiset(s)
  {
    if s != [] {
      SortByPermutes(s[..|s| - 1], key);
      assert s == s[..|s| - 1] + [s[|s| - 1]];
    }
  }

  lemma {:induction false} InsertLargest<T>(s: seq<T>, x: T, key: T -> int)
    requires forall i :: 0 <= i < |s| ==> key(s[i]) <= key(x)
    ensures InsertBy(s, x, key) == s + [x]
  {
    if s != [] {
      InsertLargest(s[1..], x, key);
      assert s == [s[0]] + s[1..];
    }
  }

  /** Sorting a sorted list leaves it as it is. */
  lemma {:induction false} SortSortedNoop<T>(s: seq<T>, key: T -> int)
    requires SortedBy(s, key)
    ensures SortBy(s, key) == s
  {
    if s != [] {
      var init := s[..|s| - 1];
      SortSortedNoop(init, key);
      InsertLargest(init, s[|s| - 1], key);
      assert init + [s[|s| - 1]] == s;
    }
  }

  /** The elements of s whose key is k, in their order in s. */
  function WithKey<T>(s: seq<T>, key: T -> int, k: int): seq<T> {
    if s == [] then []
    else WithKey(s[..|s| - 1], key, k) + (if key(s[|s| - 1]) == k then [s[|s| - 1]] else [])
  }

  lemma {:induction false} WithKeyAppend<T>(a: seq<T>, b: seq<T>, key: T -> int, k: int)
    ensures WithKey(a + b, key, k) == WithKey(a, key, k) + WithKey(b, key, k)
  {
    if b == [] {
      assert a + b == a;
    } else {
      var init := b[..|b| - 1];
      WithKeyAppend(a, init, key, k);
      assert (a + b)[..|a + b| - 1] == a + init;
    }
  }

  lemma {:induction false} WithKeyAbsent<T>(s: seq<T>, key: T -> int, k: int)
    requires forall i :: 0 <= i < |s| ==> key(s[i]) != k
    ensures WithKey(s, key, k) == []
  {
    if s != [] {
      WithKeyAbsent(s[..|s| - 1], key, k);
    }
  }

  lemma WithKeySingle<T>(x: T, key: T -> int, k: int)
    ensures WithKey([x], key, k) == if key(x) == k then [x] else []
  {
    assert [x][..0] == [];
  }

  /** In a sorted list, everything from the insertion point on has a key above x's. */
  lemma AfterInsertPosAbove<T>(s: seq<T>, x: T, key: T -> int)
    requires SortedBy(s, key)
    ensures var p := InsertPos(s, x, key);
      forall i :: 0 <= i < |s[p..]| ==> key(x) < key(s[p..][i])
  {
    var p := InsertPos(s, x, key);
    InsertPosBounds(s, x, key);
    forall i | 0 <= i < |s[p..]| ensures key(x) < key(s[p..][i]) {
      assert s[p..][i] == s[p + i];
    }
  }

  /** Filtering `pre + [x] + post` when nothing in `post` has x's key. */
  lemma WithKeyAround<T>(pre: seq<T>, x: T, post: seq<T>, key: T -> int, k: int)
    requires key(x) == k ==> WithKey(post, key, k) == []
    ensures WithKey(pre + [x] + post, key, k) == WithKey(pre + post, key, k) + (if key(x) == k then [x] else [])
  {
    WithKeyAppend(pre + [x], post, key, k);
    WithKeyAppend(pre, [x], key, k);
    WithKeyAppend(pre, post, key, k);
    WithKeySingle(x, key, k);
  }

  /** Inserting into a sorted list puts x after every element with the same key. */
  lemma InsertByWithKey<T>(s: seq<T>, x: T, key: T -> int, k: int)
    requires SortedBy(s, key)
    ensures WithKey(InsertBy(s, x, key), key, k) == WithKey(s, key, k) + (if key(x) == k then [x] else [])
  {
    var p := InsertPos(s, x, key);
    var pre, post := s[..p], s[p..];
    InsertBySplits(s, x, key);
    if key(x) == k {
      AfterInsertPosAbove(s, x, key);
      WithKeyAbsent(post, key, k);
    }
    WithKeyAround(pre, x, post, key, k);
    assert pre + post == s;
  }

  /** The sort is stable: the elements with any one key keep their input order. */
  lemma {:induction false} SortByStable<T>(s: seq<T>, key: T -> int, k: int)
    ensures WithKey(SortBy(s, key), key, k) == WithKey(s, key, k)
  {
    if s != [] {
      var init := s[..|s| - 1];
      var x := s[|s| - 1];
      SortByStable(init, key, k);
      SortBySorted(init, key);
      InsertByWithKey(SortBy(init, key), x, key, k);
    }
  }

  /** Appending to a sorted list and sorting inserts the new element in its place. */
  lemma SortAfterAppend<T>(s: seq<T>, x: T, key: T -> int)
    requires SortedBy(s, key)
    ensures SortBy(s + [x], key) == InsertBy(s, x, key)
  {
    assert (s + [x])[..|s|] == s;
    SortSortedNoop(s, key);
  }
}
