/**
 The newest-first order the record lists sort by. A record's key is its date
 read as a day number (`new Date(date).getTime()`); a date that reads as an
 invalid date has no key and is placed after every dated record.
 */
module NewestFirst {
  import opened Types
  import opened Seqs

  /** `a` may come before `b` in a newest-first list. */
  predicate NotOlder(a: Option<int>, b: Option<int>)
  {
    b.None? || (a.Some? && a.value >= b.value)
  }

  /** Every record comes no later, by key, than each record before it. */
  predicate SortedBy<T>(s: seq<T>, key: T -> Option<int>)
  {
    forall i, j :: 0 <= i < j < |s| ==> NotOlder(key(s[i]), key(s[j]))
  }

  /** Insert `x` before the first record it is not older than. */
  function Insert<T>(x: T, s: seq<T>, key: T -> Option<int>): seq<T>
  {
    if |s| == 0 then [x]
    else if NotOlder(key(x), key(s[0])) then [x] + s
    else [s[0]] + Insert(x, s[1..], key)
  }

  lemma {:induction false} InsertPermutes<T>(x: T, s: seq<T>, key: T -> Option<int>)
    ensures multiset(Insert(x, s, key)) == multiset(s) + multiset{x}
    ensures forall k :: 0 <= k < |Insert(x, s, key)| ==> Insert(x, s, key)[k] == x || Insert(x, s, key)[k] in s
  {
    if |s| > 0 {
      assert s == [s[0]] + s[1..];
      if !NotOlder(key(x), key(s[0])) {
        InsertPermutes(x, s[1..], key);
      }
    }
  }

  /** Inserting into a newest-first list keeps it newest first. */
  lemma {:induction false} InsertSorted<T>(x: T, s: seq<T>, key: T -> Option<int>)
    requires SortedBy(s, key)
    ensures SortedBy(Insert(x, s, key), key)
  {
    if |s| > 0 && !NotOlder(key(x), key(s[0])) {
      var rest := Insert(x, s[1..], key);
      InsertSorted(x, s[1..], key);
      InsertPermutes(x, s[1..], key);
      var r := [s[0]] + rest;
      forall i, j | 0 <= i < j < |r|
        ensures NotOlder(key(r[i]), key(r[j]))
      {
        if i == 0 {
          var y := rest[j - 1];
          if y != x {
            var m :| 0 <= m < |s[1..]| && s[1..][m] == y;
            assert s[m + 1] == y;
          }
        } else {
          assert r[i] == rest[i - 1] && r[j] == rest[j - 1];
        }
      }
    }
  }

  /** The records sorted newest first (an insertion sort). */
  function Sort<T(==)>(s: seq<T>, key: T -> Option<int>): (r: seq<T>)
    ensures SortedBy(r, key)
    ensures multiset(r) == multiset(s)
  {
    if |s| == 0 then []
    else
      var rest := Sort(s[1..], key);
      InsertSorted(s[0], rest, key);
      InsertPermutes(s[0], rest, key);
      assert s == [s[0]] + s[1..];
      Insert(s[0], rest, key)
  }

  /** The records of `s` whose key is `k`, in their order in `s`. */
  function WithKey<T>(s: seq<T>, key: T -> Option<int>, k: Option<int>): (r: seq<T>)
    ensures forall i :: 0 <= i < |r| ==> key(r[i]) == k
  {
    Filter(s, (x: T) => key(x) == k)
  }

  lemma WithKeyCons<T>(y: T, t: seq<T>, key: T -> Option<int>, k: Option<int>)
    ensures WithKey([y] + t, key, k) == (if key(y) == k then [y] else []) + WithKey(t, key, k)
  {
    var r := [y] + t;
    assert r[0] == y && r[1..] == t;
  }

  /** Inserting `x` puts it ahead of every record with its key, and leaves the others of that key in order. */
  lemma {:induction false} InsertWithKey<T>(x: T, s: seq<T>, key: T -> Option<int>, k: Option<int>)
    ensures WithKey(Insert(x, s, key), key, k) == (if key(x) == k then [x] else []) + WithKey(s, key, k)
  {
    if |s| == 0 {
      WithKeyCons(x, s, key, k);
    } else if NotOlder(key(x), key(s[0])) {
      WithKeyCons(x, s, key, k);
    } else {
      var rest := Insert(x, s[1..], key);
      assert Insert(x, s, key) == [s[0]] + rest;
      assert key(s[0]) != key(x);
      WithKeyCons(s[0], rest, key, k);
      InsertWithKey(x, s[1..], key, k);
      assert s == [s[0]] + s[1..];
      WithKeyCons(s[0], s[1..], key, k);
    }
  }

  /** Sorting is stable: the records sharing a key keep their relative order. */
  lemma {:induction false} SortStable<T>(s: seq<T>, key: T -> Option<int>, k: Option<int>)
    ensures WithKey(Sort(s, key), key, k) == WithKey(s, key, k)
  {
    if |s| > 0 {
      SortStable(s[1..], key, k);
      InsertWithKey(s[0], Sort(s[1..], key), key, k);
    }
  }
}
