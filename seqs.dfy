/** Sequence helpers shared by the table operations: the first row that
    satisfies a condition (a `WHERE … LIMIT 1` select, `Array.find`) and
    the rows that satisfy it (a `WHERE` select, the rows a `DELETE` keeps). */
module Seqs {
  import opened Wrappers

  /** Index of the first element satisfying `p`, or `None` when there is none. */
  function FirstIndex<T>(s: seq<T>, p: T -> bool): (r: Option<nat>)
    ensures r.None? <==> forall i | 0 <= i < |s| :: !p(s[i])
    ensures r.Some? ==> r.value < |s| && p(s[r.value])
    ensures r.Some? ==> forall j | 0 <= j < r.value :: !p(s[j])
  {
    if s == [] then None
    else if p(s[0]) then Some(0)
    else match FirstIndex(s[1..], p)
      case None => None
      case Some(k) => Some(k + 1)
  }

  /** The elements satisfying `p`, in their original order. */
  function Filter<T>(s: seq<T>, p: T -> bool): (r: seq<T>)
    ensures |r| <= |s|
  {
    if s == [] then []
    else (if p(s[0]) then [s[0]] else []) + Filter(s[1..], p)
  }

  /** Exactly the elements satisfying `p` survive. */
  lemma {:induction false} FilterMember<T>(s: seq<T>, p: T -> bool, x: T)
    ensures x in Filter(s, p) <==> x in s && p(x)
  {
    if s != [] {
      FilterMember(s[1..], p, x);
      assert s == [s[0]] + s[1..];
    }
  }

  lemma {:induction false} FilterConcat<T>(a: seq<T>, b: seq<T>, p: T -> bool)
    ensures Filter(a + b, p) == Filter(a, p) + Filter(b, p)
  {
    if a == [] {
      assert a + b == b;
    } else {
      var head := if p(a[0]) then [a[0]] else [];
      calc {
        Filter(a + b, p);
        { assert (a + b)[0] == a[0]; assert (a + b)[1..] == a[1..] + b; }
        head + Filter(a[1..] + b, p);
        { FilterConcat(a[1..], b, p); }
        head + (Filter(a[1..], p) + Filter(b, p));
        (head + Filter(a[1..], p)) + Filter(b, p);
      }
    }
  }

  lemma {:induction false} FilterKeepsAll<T>(s: seq<T>, p: T -> bool)
    requires forall i | 0 <= i < |s| :: p(s[i])
    ensures Filter(s, p) == s
  {
    if s != [] {
      FilterKeepsAll(s[1..], p);
    }
  }

  lemma {:induction false} FilterKeepsNone<T>(s: seq<T>, p: T -> bool)
    requires forall i | 0 <= i < |s| :: !p(s[i])
    ensures Filter(s, p) == []
  {
    if s != [] {
      FilterKeepsNone(s[1..], p);
    }
  }

  /** When exactly the element at `k` fails `p`, filtering removes just that one
      and keeps the others in order. */
  lemma {:induction false} FilterRemovesOne<T>(s: seq<T>, p: T -> bool, k: nat)
    requires k < |s| && !p(s[k])
    requires forall i | 0 <= i < |s| && i != k :: p(s[i])
    ensures Filter(s, p) == s[..k] + s[k + 1..]
  {
    var pre, post := s[..k], s[k + 1..];
    var rest := [s[k]] + post;
    assert s == pre + rest;
    forall i | 0 <= i < |pre| ensures p(pre[i]) {
      assert pre[i] == s[i];
    }
    forall i | 0 <= i < |post| ensures p(post[i]) {
      assert post[i] == s[k + 1 + i];
    }
    FilterKeepsAll(pre, p);
    FilterKeepsAll(post, p);
    assert rest[0] == s[k] && rest[1..] == post;
    assert Filter(rest, p) == post;
    FilterConcat(pre, rest, p);
  }
}
