/**
 * The newest-first order both list screens put entries in (src/screens/DiaryListScreen.tsx and
 * src/screens/HomeScreen.tsx): `entries.sort((a, b) => time(b.date) - time(a.date))`.
 * `Array.prototype.sort` is stable, so entries of the same day keep their stored order. The
 * order is stated as a specification over any integer key, one definition meeting it
 * (insertion by key) is given, and the specification is proved to pin the result down to that
 * one sequence. The screens use it with the key of the entry's date.
 */
module EntryOrder {
  import opened Types
  import opened DateUtil

  /** The number the comparator subtracts: the entry's day as a comparable key. */
  function Key(e: DiaryEntry): (k: int)
    ensures k >= 0
    ensures !IsIsoDate(e.date) ==> k == 0
  {
    DateKey(e.date)
  }

  /** Keys never increase along the sequence: largest key first. */
  predicate SortedBy(s: seq<DiaryEntry>, key: DiaryEntry -> int) {
    forall i, j :: 0 <= i < j < |s| ==> key(s[i]) >= key(s[j])
  }

  /** The entries of `s` with key `k`, in their order in `s`. */
  function WithKey(s: seq<DiaryEntry>, key: DiaryEntry -> int, k: int): seq<DiaryEntry> {
    if s == [] then [] else (if key(s[0]) == k then [s[0]] else []) + WithKey(s[1..], key, k)
  }

  /** What a stable descending sort promises: sorted, and each key's entries kept in input order. */
  ghost predicate IsStableSortBy(input: seq<DiaryEntry>, output: seq<DiaryEntry>, key: DiaryEntry -> int) {
    SortedBy(output, key) && forall k :: WithKey(output, key, k) == WithKey(input, key, k)
  }

  /** `e` placed after every entry of `t` whose key is at least its own. */
  function Insert(t: seq<DiaryEntry>, e: DiaryEntry, key: DiaryEntry -> int): (r: seq<DiaryEntry>)
    ensures multiset(r) == multiset(t) + multiset{e}
  {
    if t == [] then [e]
    else if key(t[0]) >= key(e) then
      assert t == [t[0]] + t[1..];
      [t[0]] + Insert(t[1..], e, key)
    else [e] + t
  }

  /** Insertion of each entry, in input order, into the sorted prefix. */
  function SortBy(s: seq<DiaryEntry>, key: DiaryEntry -> int): (r: seq<DiaryEntry>)
    ensures multiset(r) == multiset(s)
  {
    if s == [] then []
    else
      assert s == s[..|s| - 1] + [s[|s| - 1]];
      Insert(SortBy(s[..|s| - 1], key), s[|s| - 1], key)
  }

  /** In a sorted sequence the first entry has the largest key. */
  lemma HeadIsLargest(s: seq<DiaryEntry>, key: DiaryEntry -> int)
    requires SortedBy(s, key) && s != []
    ensures forall x :: x in s ==> key(x) <= key(s[0])
  {
    forall x | x in s
      ensures key(x) <= key(s[0])
    {
      var j :| 0 <= j < |s| && s[j] == x;
      if j > 0 {
        assert key(s[0]) >= key(s[j]);
      }
    }
  }

  /** Everything in the insertion result comes from `t` or is `e`. */
  lemma InsertBound(t: seq<DiaryEntry>, e: DiaryEntry, key: DiaryEntry -> int, bound: int)
    requires forall x :: x in t ==> key(x) <= bound
    requires key(e) <= bound
    ensures forall x :: x in Insert(t, e, key) ==> key(x) <= bound
  {
    forall x | x in Insert(t, e, key)
      ensures key(x) <= bound
    {
      assert x in multiset(Insert(t, e, key));
    }
  }

  /** The tail of a sorted sequence is sorted. */
  lemma SortedTail(t: seq<DiaryEntry>, key: DiaryEntry -> int)
    requires SortedBy(t, key) && t != []
    ensures SortedBy(t[1..], key)
  {
    forall i, j | 0 <= i < j < |t[1..]|
      ensures key(t[1..][i]) >= key(t[1..][j])
    {
      assert t[1..][i] == t[i + 1] && t[1..][j] == t[j + 1];
    }
  }

  /** An entry whose key bounds every key of a sorted sequence can lead it. */
  lemma ConsSorted(h: DiaryEntry, rest: seq<DiaryEntry>, key: DiaryEntry -> int)
    requires SortedBy(rest, key)
    requires forall x :: x in rest ==> key(x) <= key(h)
    ensures SortedBy([h] + rest, key)
  {
    var r := [h] + rest;
    forall i, j | 0 <= i < j < |r|
      ensures key(r[i]) >= key(r[j])
    {
      assert r[j] == rest[j - 1] && r[j] in rest;
      if i > 0 {
        assert r[i] == rest[i - 1];
      }
    }
  }

  /** Inserting into a sorted sequence keeps it sorted. */
  lemma {:induction false} InsertSorted(t: seq<DiaryEntry>, e: DiaryEntry, key: DiaryEntry -> int)
    requires SortedBy(t, key)
    ensures SortedBy(Insert(t, e, key), key)
  {
    if t != [] {
      HeadIsLargest(t, key);
      if key(t[0]) >= key(e) {
        SortedTail(t, key);
        InsertSorted(t[1..], e, key);
        InsertBound(t[1..], e, key, key(t[0]));
        ConsSorted(t[0], Insert(t[1..], e, key), key);
      } else {
        ConsSorted(e, t, key);
      }
    }
  }

  /** The insertion sort yields a sorted sequence. */
  lemma {:induction false} SortSorted(s: seq<DiaryEntry>, key: DiaryEntry -> int)
    ensures SortedBy(SortBy(s, key), key)
  {
    if s != [] {
      SortSorted(s[..|s| - 1], key);
      InsertSorted(SortBy(s[..|s| - 1], key), s[|s| - 1], key);
    }
  }

  /** Filtering by key distributes over appending one entry. */
  lemma {:induction false} WithKeyAppend(p: seq<DiaryEntry>, x: DiaryEntry, key: DiaryEntry -> int, k: int)
    ensures WithKey(p + [x], key, k) == WithKey(p, key, k) + (if key(x) == k then [x] else [])
  {
    if p != [] {
      assert (p + [x])[1..] == p[1..] + [x];
      WithKeyAppend(p[1..], x, key, k);
    }
  }

  /** Filtering by key selects only entries of `s` with that key. */
  lemma {:induction false} WithKeyMembers(s: seq<DiaryEntry>, key: DiaryEntry -> int, k: int)
    ensures forall x :: x in WithKey(s, key, k) ==> x in s && key(x) == k
  {
    if s != [] {
      WithKeyMembers(s[1..], key, k);
    }
  }

  /** A sequence whose keys are all below `k` has nothing with key `k`. */
  lemma {:induction false} WithKeyBelow(t: seq<DiaryEntry>, key: DiaryEntry -> int, k: int)
    requires forall x :: x in t ==> key(x) < k
    ensures WithKey(t, key, k) == []
  {
    if t != [] {
      WithKeyBelow(t[1..], key, k);
    }
  }

  /** Filtering a sequence with a known first entry. */
  lemma WithKeyCons(x: DiaryEntry, rest: seq<DiaryEntry>, key: DiaryEntry -> int, k: int)
    ensures WithKey([x] + rest, key, k) == (if key(x) == k then [x] else []) + WithKey(rest, key, k)
  {
    assert ([x] + rest)[1..] == rest;
  }

  /** Inserting into a sorted sequence puts the new entry last among those of its key. */
  lemma {:induction false} InsertWithKey(t: seq<DiaryEntry>, e: DiaryEntry, key: DiaryEntry -> int, k: int)
    requires SortedBy(t, key)
    ensures WithKey(Insert(t, e, key), key, k) == WithKey(t, key, k) + (if key(e) == k then [e] else [])
  {
    if t != [] {
      assert t == [t[0]] + t[1..];
      WithKeyCons(t[0], t[1..], key, k);
      if key(t[0]) >= key(e) {
        SortedTail(t, key);
        InsertWithKey(t[1..], e, key, k);
        WithKeyCons(t[0], Insert(t[1..], e, key), key, k);
      } else {
        HeadIsLargest(t, key);
        WithKeyCons(e, t, key, k);
        if key(e) == k {
          WithKeyBelow(t, key, k);
        }
      }
    }
  }

  /** Sorting keeps, for every key, that key's entries in their input order. */
  lemma {:induction false} SortKeepsKeyOrder(s: seq<DiaryEntry>, key: DiaryEntry -> int, k: int)
    ensures WithKey(SortBy(s, key), key, k) == WithKey(s, key, k)
  {
    if s != [] {
      var p, x := s[..|s| - 1], s[|s| - 1];
      assert s == p + [x];
      SortKeepsKeyOrder(p, key, k);
      SortSorted(p, key);
      InsertWithKey(SortBy(p, key), x, key, k);
      WithKeyAppend(p, x, key, k);
    }
  }

  /** `SortBy` is a stable descending sort and a permutation of its input. */
  lemma SortIsStableSort(s: seq<DiaryEntry>, key: DiaryEntry -> int)
    ensures IsStableSortBy(s, SortBy(s, key), key)
    ensures multiset(SortBy(s, key)) == multiset(s)
  {
    SortSorted(s, key);
    forall k
      ensures WithKey(SortBy(s, key), key, k) == WithKey(s, key, k)
    {
      SortKeepsKeyOrder(s, key, k);
    }
  }

  /** The filter for the first entry's key is led by that entry. */
  lemma FirstLeadsItsKey(s: seq<DiaryEntry>, key: DiaryEntry -> int)
    ensures s != [] ==> WithKey(s, key, key(s[0])) == [s[0]] + WithKey(s[1..], key, key(s[0]))
  {
  }

  /** Two sorted sequences with the same entries per key, in the same order, are equal. */
  lemma {:induction false} SameKeysSameSequence(a: seq<DiaryEntry>, b: seq<DiaryEntry>, key: DiaryEntry -> int)
    requires SortedBy(a, key) && SortedBy(b, key)
    requires forall k :: WithKey(a, key, k) == WithKey(b, key, k)
    ensures a == b
    decreases |a|
  {
    FirstLeadsItsKey(a, key);
    FirstLeadsItsKey(b, key);
    assert (a == []) == (b == []) by {
      if a != [] {
        assert WithKey(b, key, key(a[0])) != [];
      }
      if b != [] {
        assert WithKey(a, key, key(b[0])) != [];
      }
    }
    if a != [] {
      HeadIsLargest(a, key);
      HeadIsLargest(b, key);
      WithKeyMembers(a, key, key(b[0]));
      WithKeyMembers(b, key, key(a[0]));
      assert a[0] in WithKey(b, key, key(a[0]));
      assert b[0] in WithKey(a, key, key(b[0]));
      var top := key(a[0]);
      assert key(b[0]) == top;
      assert WithKey(a, key, top)[0] == a[0];
      assert WithKey(b, key, top)[0] == b[0];
      forall k
        ensures WithKey(a[1..], key, k) == WithKey(b[1..], key, k)
      {
        var head := if key(a[0]) == k then [a[0]] else [];
        var wa, wb := WithKey(a[1..], key, k), WithKey(b[1..], key, k);
        assert head + wa == WithKey(a, key, k) == WithKey(b, key, k) == head + wb;
        assert (head + wa)[|head|..] == wa;
        assert (head + wb)[|head|..] == wb;
      }
      SortedTail(a, key);
      SortedTail(b, key);
      SameKeysSameSequence(a[1..], b[1..], key);
      assert a == [a[0]] + a[1..];
      assert b == [b[0]] + b[1..];
    }
  }

  /**
   * Any stable descending sort of the input is exactly `SortBy` of it, so the model's sort
   * stands for the library's whatever algorithm the library uses.
   */
  lemma StableSortIsUnique(input: seq<DiaryEntry>, output: seq<DiaryEntry>, key: DiaryEntry -> int)
    requires IsStableSortBy(input, output, key)
    ensures output == SortBy(input, key)
  {
    SortIsStableSort(input, key);
    SameKeysSameSequence(output, SortBy(input, key), key);
  }

  /** The order both list screens display: by date, newest first, same-day entries in stored order. */
  function SortNewestFirst(s: seq<DiaryEntry>): (r: seq<DiaryEntry>)
    ensures multiset(r) == multiset(s)
    ensures SortedBy(r, Key)
  {
    SortSorted(s, Key);
    SortBy(s, Key)
  }
}
