/**
 * Python's `sorted(s, key=...)` with a string key: a stable sort in the
 * case-sensitive, code-point order of Python string comparison.
 */
module Sorting {
  import opened Text

  /** s is in non-decreasing key order. */
  ghost predicate SortedBy<T>(s: seq<T>, key: T -> string) {
    forall i, j :: 0 <= i < j < |s| ==> !Less(key(s[j]), key(s[i]))
  }

  /** The elements of s whose key is k, in their order in s. */
  function WithKey<T>(s: seq<T>, key: T -> string, k: string): seq<T>
    decreases |s|
  {
    if s == [] then [] else (if key(s[0]) == k then [s[0]] else []) + WithKey(s[1..], key, k)
  }

  /** Places x after every element whose key is not greater than x's. */
  function Insert<T>(x: T, s: seq<T>, key: T -> string): seq<T>
    decreases |s|
  {
    if s == [] then [x]
    else if Less(key(x), key(s[0])) then [x] + s
    else [s[0]] + Insert(x, s[1..], key)
  }

  /** `sorted(s, key=key)`: insertion sort, taking the elements in their original order. */
  function SortBy<T>(s: seq<T>, key: T -> string): seq<T>
    decreases |s|
  {
    if s == [] then [] else Insert(s[|s| - 1], SortBy(s[..|s| - 1], key), key)
  }

  lemma {:induction false} WithKeySnoc<T>(s: seq<T>, x: T, key: T -> string, k: string)
    ensures WithKey(s + [x], key, k) == WithKey(s, key, k) + (if key(x) == k then [x] else [])
    decreases |s|
  {
    if s == [] {
      assert s + [x] == [x];
    } else {
      var head := if key(s[0]) == k then [s[0]] else [];
      var last := if key(x) == k then [x] else [];
      assert (s + [x])[0] == s[0] && (s + [x])[1..] == s[1..] + [x];
      assert WithKey(s + [x], key, k) == head + WithKey(s[1..] + [x], key, k);
      WithKeySnoc(s[1..], x, key, k);
      assert WithKey(s, key, k) == head + WithKey(s[1..], key, k);
      assert head + (WithKey(s[1..], key, k) + last) == head + WithKey(s[1..], key, k) + last;
    }
  }

  lemma {:induction false} InsertMultiset<T>(x: T, s: seq<T>, key: T -> string)
    ensures multiset(Insert(x, s, key)) == multiset(s) + multiset{x}
    decreases |s|
  {
    if s != [] && !Less(key(x), key(s[0])) {
      InsertMultiset(x, s[1..], key);
      assert s == [s[0]] + s[1..];
    }
  }

  lemma {:induction false} InsertSorted<T>(x: T, s: seq<T>, key: T -> string)
    requires SortedBy(s, key)
    ensures SortedBy(Insert(x, s, key), key)
    decreases |s|
  {
    if s == [] {
    } else if Less(key(x), key(s[0])) {
      var r := [x] + s;
      forall i, j | 0 <= i < j < |r| ensures !Less(key(r[j]), key(r[i])) {
        if i == 0 {
          assert r[j] == s[j - 1];
          if j - 1 > 0 {
            assert !Less(key(s[j - 1]), key(s[0]));
          } else {
            LessIrreflexive(key(s[0]));
          }
          NotLessBelow(key(r[j]), key(x), key(s[0]));
        } else {
          assert r[i] == s[i - 1] && r[j] == s[j - 1];
        }
      }
    } else {
      var t := Insert(x, s[1..], key);
      assert SortedBy(s[1..], key) by {
        forall i, j | 0 <= i < j < |s[1..]| ensures !Less(key(s[1..][j]), key(s[1..][i])) {
          assert s[1..][i] == s[i + 1] && s[1..][j] == s[j + 1];
        }
      }
      InsertSorted(x, s[1..], key);
      InsertMultiset(x, s[1..], key);
      var r := [s[0]] + t;
      forall i, j | 0 <= i < j < |r| ensures !Less(key(r[j]), key(r[i])) {
        if i == 0 {
          assert r[j] == t[j - 1];
          assert t[j - 1] in multiset(t);
          if r[j] != x {
            assert r[j] in multiset(s[1..]);
            var m :| 0 <= m < |s[1..]| && s[1..][m] == r[j];
            assert s[m + 1] == r[j];
          }
        } else {
          assert r[i] == t[i - 1] && r[j] == t[j - 1];
        }
      }
    }
  }

  /** What is not below c is not below anything below c. */
  lemma NotLessBelow(a: string, b: string, c: string)
    requires !Less(a, c) && Less(b, c)
    ensures !Less(a, b)
  {
    if Less(a, b) {
      LessTransitive(a, b, c);
    }
  }

  /** In a sorted sequence whose first key is above k, no element has key k. */
  lemma {:induction false} NoKeyBelowFirst<T>(s: seq<T>, key: T -> string, k: string)
    requires SortedBy(s, key) && s != [] && Less(k, key(s[0]))
    ensures WithKey(s, key, k) == []
    decreases |s|
  {
    LessIrreflexive(k);
    if |s| > 1 {
      assert !Less(key(s[1]), key(s[0]));
      LessTotal(key(s[1]), key(s[0]));
      if Less(key(s[0]), key(s[1])) {
        LessTransitive(k, key(s[0]), key(s[1]));
      }
      assert SortedBy(s[1..], key) by {
        forall i, j | 0 <= i < j < |s[1..]| ensures !Less(key(s[1..][j]), key(s[1..][i])) {
          assert s[1..][i] == s[i + 1] && s[1..][j] == s[j + 1];
        }
      }
      NoKeyBelowFirst(s[1..], key, k);
    }
  }

  lemma {:induction false} InsertWithKey<T>(x: T, s: seq<T>, key: T -> string, k: string)
    requires SortedBy(s, key)
    ensures WithKey(Insert(x, s, key), key, k) == WithKey(s, key, k) + (if key(x) == k then [x] else [])
    decreases |s|
  {
    if s == [] {
    } else if Less(key(x), key(s[0])) {
      assert ([x] + s)[1..] == s;
      if key(x) == k {
        NoKeyBelowFirst(s, key, k);
      }
    } else {
      assert SortedBy(s[1..], key) by {
        forall i, j | 0 <= i < j < |s[1..]| ensures !Less(key(s[1..][j]), key(s[1..][i])) {
          assert s[1..][i] == s[i + 1] && s[1..][j] == s[j + 1];
        }
      }
      InsertWithKey(x, s[1..], key, k);
      var t := Insert(x, s[1..], key);
      assert Insert(x, s, key) == [s[0]] + t;
      assert ([s[0]] + t)[1..] == t;
      assert WithKey(s, key, k) == (if key(s[0]) == k then [s[0]] else []) + WithKey(s[1..], key, k);
    }
  }

  /**
   * `sorted` returns the elements in key order, as a permutation of the input, and
   * keeps elements with equal keys in their original order (stability).
   */
  lemma {:induction false} SortByCorrect<T>(s: seq<T>, key: T -> string)
    ensures SortedBy(SortBy(s, key), key)
    ensures multiset(SortBy(s, key)) == multiset(s)
    ensures forall k :: WithKey(SortBy(s, key), key, k) == WithKey(s, key, k)
    decreases |s|
  {
    if s != [] {
      var init, x := s[..|s| - 1], s[|s| - 1];
      SortByCorrect(init, key);
      InsertSorted(x, SortBy(init, key), key);
      InsertMultiset(x, SortBy(init, key), key);
      assert s == init + [x];
      forall k ensures WithKey(SortBy(s, key), key, k) == WithKey(s, key, k) {
        InsertWithKey(x, SortBy(init, key), key, k);
        WithKeySnoc(init, x, key, k);
      }
    }
  }
}
