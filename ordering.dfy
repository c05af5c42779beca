/** Ordering call records by `createdAt`: oldest first for the store's
    `ORDER BY createdAt`, newest first for the router's `list`. The sort is
    stable: records with equal `createdAt` keep their relative order. That is
    what `Array.prototype.sort` promises (stable since ES2019); for SQL's
    `ORDER BY`, which leaves the order of ties to the server, it is the
    model's choice of one permitted order. */
module Ordering {
  import opened Schema
  import opened Seqs

  /** `a` may stand before `b`. */
  predicate InOrder(a: CallRow, b: CallRow, newestFirst: bool) {
    if newestFirst then a.createdAt >= b.createdAt else a.createdAt <= b.createdAt
  }

  predicate Sorted(s: seq<CallRow>, newestFirst: bool) {
    forall i, j | 0 <= i < j < |s| :: InOrder(s[i], s[j], newestFirst)
  }

  /** Inserts `x` after every element that may stand before it. */
  function Insert(x: CallRow, s: seq<CallRow>, newestFirst: bool): seq<CallRow> {
    if s == [] then [x]
    else if InOrder(s[0], x, newestFirst) then [s[0]] + Insert(x, s[1..], newestFirst)
    else [x] + s
  }

  /** Stable insertion sort: each element is inserted after the ones that came before it. */
  function SortBy(s: seq<CallRow>, newestFirst: bool): seq<CallRow>
    decreases |s|
  {
    if s == [] then [] else Insert(s[|s| - 1], SortBy(s[..|s| - 1], newestFirst), newestFirst)
  }

  /** The records created at time `t`, in their order in `s`. */
  function CreatedAt(s: seq<CallRow>, t: int): seq<CallRow> {
    Filter(s, AtTime(t))
  }

  function AtTime(t: int): CallRow -> bool {
    (c: CallRow) => c.createdAt == t
  }

  lemma {:induction false} InsertPermutes(x: CallRow, s: seq<CallRow>, newestFirst: bool)
    ensures multiset(Insert(x, s, newestFirst)) == multiset(s) + multiset{x}
  {
    if s != [] {
      assert s == [s[0]] + s[1..];
      if InOrder(s[0], x, newestFirst) {
        InsertPermutes(x, s[1..], newestFirst);
      }
    }
  }

  /** The tail of a sorted sequence is sorted. */
  lemma SortedTail(s: seq<CallRow>, newestFirst: bool)
    requires s != [] && Sorted(s, newestFirst)
    ensures Sorted(s[1..], newestFirst)
  {
    var tail := s[1..];
    forall i, j | 0 <= i < j < |tail| ensures InOrder(tail[i], tail[j], newestFirst) {
      assert tail[i] == s[i + 1] && tail[j] == s[j + 1];
    }
  }

  /** A record that may stand before every element of a sorted sequence may head it. */
  lemma SortedCons(a: CallRow, r: seq<CallRow>, newestFirst: bool)
    requires Sorted(r, newestFirst)
    requires forall j | 0 <= j < |r| :: InOrder(a, r[j], newestFirst)
    ensures Sorted([a] + r, newestFirst)
  {
    var c := [a] + r;
    forall i, j | 0 <= i < j < |c| ensures InOrder(c[i], c[j], newestFirst) {
      assert c[j] == r[j - 1];
      if i > 0 {
        assert c[i] == r[i - 1];
      }
    }
  }

  /** Insertion adds only `x`, so a bound on `x` and on `s` bounds the result. */
  lemma InsertBounded(a: CallRow, x: CallRow, s: seq<CallRow>, newestFirst: bool)
    requires InOrder(a, x, newestFirst)
    requires forall j | 0 <= j < |s| :: InOrder(a, s[j], newestFirst)
    ensures forall j | 0 <= j < |Insert(x, s, newestFirst)| :: InOrder(a, Insert(x, s, newestFirst)[j], newestFirst)
  {
    var r := Insert(x, s, newestFirst);
    InsertPermutes(x, s, newestFirst);
    forall j | 0 <= j < |r| ensures InOrder(a, r[j], newestFirst) {
      assert r[j] in multiset(r);
      if r[j] != x {
        assert r[j] in multiset(s);
        var m :| 0 <= m < |s| && s[m] == r[j];
      }
    }
  }

  lemma {:induction false} InsertSorted(x: CallRow, s: seq<CallRow>, newestFirst: bool)
    requires Sorted(s, newestFirst)
    ensures Sorted(Insert(x, s, newestFirst), newestFirst)
  {
    if s == [] {
    } else if InOrder(s[0], x, newestFirst) {
      var tail := s[1..];
      SortedTail(s, newestFirst);
      InsertSorted(x, tail, newestFirst);
      assert forall j | 0 <= j < |tail| :: InOrder(s[0], tail[j], newestFirst) by {
        forall j | 0 <= j < |tail| ensures InOrder(s[0], tail[j], newestFirst) {
          assert tail[j] == s[j + 1];
        }
      }
      InsertBounded(s[0], x, tail, newestFirst);
      SortedCons(s[0], Insert(x, tail, newestFirst), newestFirst);
    } else {
      forall j | 0 <= j < |s| ensures InOrder(x, s[j], newestFirst) {
        if j > 0 {
          assert InOrder(s[0], s[j], newestFirst);
        }
      }
      SortedCons(x, s, newestFirst);
    }
  }

  lemma {:induction false} SortBySorted(s: seq<CallRow>, newestFirst: bool)
    ensures Sorted(SortBy(s, newestFirst), newestFirst)
    ensures multiset(SortBy(s, newestFirst)) == multiset(s)
    decreases |s|
  {
    if s != [] {
      var init := s[..|s| - 1];
      SortBySorted(init, newestFirst);
      InsertSorted(s[|s| - 1], SortBy(init, newestFirst), newestFirst);
      InsertPermutes(s[|s| - 1], SortBy(init, newestFirst), newestFirst);
      assert s == init + [s[|s| - 1]];
    }
  }

  lemma CreatedAtCons(a: CallRow, r: seq<CallRow>, t: int)
    ensures CreatedAt([a] + r, t) == (if a.createdAt == t then [a] else []) + CreatedAt(r, t)
  {
    assert ([a] + r)[0] == a && ([a] + r)[1..] == r;
  }

  /** When `x` goes in front of a sorted `s`, no record of `s` shares its `createdAt`. */
  lemma InsertInFront(x: CallRow, s: seq<CallRow>, newestFirst: bool, t: int)
    requires s != [] && Sorted(s, newestFirst) && !InOrder(s[0], x, newestFirst)
    ensures CreatedAt([x] + s, t) == CreatedAt(s, t) + (if x.createdAt == t then [x] else [])
  {
    CreatedAtCons(x, s, t);
    if x.createdAt == t {
      forall i | 0 <= i < |s| ensures !AtTime(t)(s[i]) {
        if i > 0 {
          assert InOrder(s[0], s[i], newestFirst);
        }
      }
      FilterKeepsNone(s, AtTime(t));
    }
  }

  /** Inserting into a sorted sequence puts `x` after every record with its `createdAt`. */
  lemma {:induction false} InsertCreatedAt(x: CallRow, s: seq<CallRow>, newestFirst: bool, t: int)
    requires Sorted(s, newestFirst)
    ensures CreatedAt(Insert(x, s, newestFirst), t)
         == CreatedAt(s, t) + (if x.createdAt == t then [x] else [])
  {
    if s == [] {
      CreatedAtCons(x, [], t);
    } else if InOrder(s[0], x, newestFirst) {
      var tail := s[1..];
      SortedTail(s, newestFirst);
      InsertCreatedAt(x, tail, newestFirst, t);
      CreatedAtCons(s[0], Insert(x, tail, newestFirst), t);
      assert s == [s[0]] + tail;
      CreatedAtCons(s[0], tail, t);
    } else {
      InsertInFront(x, s, newestFirst, t);
    }
  }

  /** Sorting is stable: for every creation time, the records created then keep their order. */
  lemma {:induction false} SortByStable(s: seq<CallRow>, newestFirst: bool, t: int)
    ensures CreatedAt(SortBy(s, newestFirst), t) == CreatedAt(s, t)
    decreases |s|
  {
    if s != [] {
      var init, x := s[..|s| - 1], s[|s| - 1];
      var sorted := SortBy(init, newestFirst);
      assert SortBy(s, newestFirst) == Insert(x, sorted, newestFirst);
      SortByStable(init, newestFirst, t);
      SortBySorted(init, newestFirst);
      InsertCreatedAt(x, sorted, newestFirst, t);
      assert s == init + [x];
      CreatedAtSnoc(init, x, t);
    }
  }

  lemma CreatedAtSnoc(s: seq<CallRow>, x: CallRow, t: int)
    ensures CreatedAt(s + [x], t) == CreatedAt(s, t) + (if x.createdAt == t then [x] else [])
  {
    FilterConcat(s, [x], AtTime(t));
    assert [x][1..] == [];
  }
}
