/** Sequence and set helpers shared by the model: the order-preserving filter
    and the sum that the source writes with Array.prototype.filter and reduce,
    and the membership toggle that its Set-based selections use. */
module Seqs {

  datatype Option<T> = None | Some(value: T) {
    /** `x ?? d` in the source: the value when present, else the default. */
    function GetOr(default: T): T {
      match this
      case Some(v) => v
      case None => default
    }
  }

  datatype Result<T, E> = Success(value: T) | Failure(error: E)

  /** `a` can be obtained from `b` by deleting elements (order is kept). */
  predicate IsSubsequence<T(==)>(a: seq<T>, b: seq<T>)
    decreases |b|
  {
    a == [] || (b != [] && if a[0] == b[0] then IsSubsequence(a[1..], b[1..]) else IsSubsequence(a, b[1..]))
  }

  /** Prepending an element to the larger sequence keeps a subsequence a subsequence. */
  lemma {:induction false} SubsequenceCons<T>(a: seq<T>, x: T, b: seq<T>)
    requires IsSubsequence(a, b)
    ensures IsSubsequence(a, [x] + b)
    decreases |b|, 1
  {
    if a != [] && a[0] == x {
      SubsequenceDropHead(a, b);
      assert ([x] + b)[1..] == b;
    } else if a != [] {
      assert ([x] + b)[1..] == b;
    }
  }

  /** Dropping the first element of a subsequence keeps it a subsequence. */
  lemma {:induction false} SubsequenceDropHead<T>(a: seq<T>, b: seq<T>)
    requires a != [] && IsSubsequence(a, b)
    ensures IsSubsequence(a[1..], b)
    decreases |b|, 0
  {
    assert b != [];
    if a[0] == b[0] {
      SubsequenceCons(a[1..], b[0], b[1..]);
    } else {
      SubsequenceDropHead(a, b[1..]);
      SubsequenceCons(a[1..], b[0], b[1..]);
    }
    assert [b[0]] + b[1..] == b;
  }

  /** Array.prototype.filter: the elements of `s` satisfying `p`, in order. */
  function Filter<T(==,!new)>(s: seq<T>, p: T -> bool): (r: seq<T>)
    ensures |r| <= |s|
    ensures forall x :: x in r <==> x in s && p(x)
    ensures IsSubsequence(r, s)
  {
    if s == [] then []
    else
      var rest := Filter(s[1..], p);
      assert s == [s[0]] + s[1..];
      if p(s[0]) then
        assert ([s[0]] + rest)[1..] == rest;
        [s[0]] + rest
      else
        SubsequenceCons(rest, s[0], s[1..]);
        rest
  }

  /** Array.prototype.map. */
  function Map<T, U>(s: seq<T>, f: T -> U): (r: seq<U>)
    ensures |r| == |s| && forall i :: 0 <= i < |s| ==> r[i] == f(s[i])
  {
    if s == [] then [] else [f(s[0])] + Map(s[1..], f)
  }

  /** The values of a mapped sequence are exactly the images of its elements. */
  lemma {:induction false} MapContains<T, U>(s: seq<T>, f: T -> U)
    ensures forall y :: y in Map(s, f) <==> exists i :: 0 <= i < |s| && y == f(s[i])
  {
    var r := Map(s, f);
    forall y | y in r
      ensures exists i :: 0 <= i < |s| && y == f(s[i])
    {
      var i :| 0 <= i < |r| && r[i] == y;
    }
  }

  /** Mapping distributes over concatenation. */
  lemma {:induction false} MapAppend<T, U>(a: seq<T>, b: seq<T>, f: T -> U)
    ensures Map(a + b, f) == Map(a, f) + Map(b, f)
  {
    if a == [] {
      assert a + b == b;
    } else {
      var t := a[1..];
      assert a + b == [a[0]] + (t + b);
      MapAppend(t, b, f);
      calc {
        Map(a + b, f);
        [f(a[0])] + Map(t + b, f);
        [f(a[0])] + (Map(t, f) + Map(b, f));
        ([f(a[0])] + Map(t, f)) + Map(b, f);
      }
    }
  }

  /** The complement of a predicate. */
  function Not<T>(p: T -> bool): T -> bool {
    x => !p(x)
  }

  lemma {:induction false} FilterAppend<T(!new)>(a: seq<T>, b: seq<T>, p: T -> bool)
    ensures Filter(a + b, p) == Filter(a, p) + Filter(b, p)
  {
    if a == [] {
      assert a + b == b;
    } else {
      var t := a[1..];
      assert a + b == [a[0]] + (t + b);
      FilterAppend(t, b, p);
      if p(a[0]) {
        calc {
          Filter(a + b, p);
          [a[0]] + Filter(t + b, p);
          [a[0]] + (Filter(t, p) + Filter(b, p));
          ([a[0]] + Filter(t, p)) + Filter(b, p);
        }
      } else {
        calc {
          Filter(a + b, p);
          Filter(t + b, p);
          Filter(t, p) + Filter(b, p);
        }
      }
    }
  }

  /** Filtering by `p` and by its complement splits `s` into two parts whose
      multisets add up to that of `s`. */
  lemma {:induction false} FilterPartition<T(!new)>(s: seq<T>, p: T -> bool)
    ensures multiset(Filter(s, p)) + multiset(Filter(s, Not(p))) == multiset(s)
  {
    if s != [] {
      var x, rest := s[0], s[1..];
      FilterPartition(rest, p);
      var kept, dropped := Filter(rest, p), Filter(rest, Not(p));
      var k, d := Filter(s, p), Filter(s, Not(p));
      assert multiset(s) == multiset{x} + multiset(rest) by {
        assert s == [x] + rest;
      }
      if p(x) {
        assert k == [x] + kept && d == dropped;
        assert multiset(k) == multiset{x} + multiset(kept);
      } else {
        assert Not(p)(x);
        assert k == kept && d == [x] + dropped;
        assert multiset(d) == multiset{x} + multiset(dropped);
      }
    }
  }

  /** reduce((total, x) => total + f(x), 0). */
  function Sum<T>(s: seq<T>, f: T -> int): int {
    if s == [] then 0 else f(s[0]) + Sum(s[1..], f)
  }

  lemma {:induction false} SumAppend<T>(a: seq<T>, b: seq<T>, f: T -> int)
    ensures Sum(a + b, f) == Sum(a, f) + Sum(b, f)
  {
    if a == [] {
      assert a + b == b;
    } else {
      assert (a + b)[1..] == a[1..] + b;
      SumAppend(a[1..], b, f);
    }
  }

  /** A sum splits over the two sides of a filter. */
  lemma {:induction false} SumPartition<T(!new)>(s: seq<T>, p: T -> bool, f: T -> int)
    ensures Sum(s, f) == Sum(Filter(s, p), f) + Sum(Filter(s, Not(p)), f)
  {
    if s != [] {
      SumPartition(s[1..], p, f);
    }
  }

  /** `f` where `p` holds and 0 elsewhere. */
  function Masked<T>(p: T -> bool, f: T -> int): T -> int {
    x => if p(x) then f(x) else 0
  }

  /** Summing over a filter is summing the masked terms over everything. */
  lemma {:induction false} SumFilter<T(!new)>(s: seq<T>, p: T -> bool, f: T -> int)
    ensures Sum(Filter(s, p), f) == Sum(s, Masked(p, f))
  {
    if s != [] {
      SumFilter(s[1..], p, f);
      if p(s[0]) {
        assert ([s[0]] + Filter(s[1..], p))[1..] == Filter(s[1..], p);
      }
    }
  }

  /** A sum of non-negative terms is non-negative. */
  lemma {:induction false} SumNonNegative<T>(s: seq<T>, f: T -> int)
    requires forall i :: 0 <= i < |s| ==> f(s[i]) >= 0
    ensures Sum(s, f) >= 0
  {
    if s != [] {
      SumNonNegative(s[1..], f);
    }
  }

  /** Removing the element at `k` takes its term out of the sum. */
  lemma {:induction false} SumRemoveAt<T>(s: seq<T>, k: nat, f: T -> int)
    requires k < |s|
    ensures Sum(s[..k] + s[k + 1..], f) == Sum(s, f) - f(s[k])
  {
    var front, back := s[..k], s[k + 1..];
    assert s == (front + [s[k]]) + back;
    SumAppend(front + [s[k]], back, f);
    SumAppend(front, [s[k]], f);
    SumAppend(front, back, f);
    assert Sum([s[k]], f) == f(s[k]) + Sum([], f);
  }

  /** Set.has(x) ? delete(x) : add(x). */
  function Toggle<T(!new)>(s: set<T>, x: T): (r: set<T>)
    ensures x in r <==> x !in s
    ensures forall y :: y != x ==> (y in r <==> y in s)
  {
    if x in s then s - {x} else s + {x}
  }

  /** Toggling the same element twice restores the set. */
  lemma ToggleTwice<T(!new)>(s: set<T>, x: T)
    ensures Toggle(Toggle(s, x), x) == s
  {
    assert forall y :: y in Toggle(Toggle(s, x), x) <==> y in s;
  }

  /** Index of the first element satisfying `p`, or -1 (Array.prototype.findIndex). */
  function FindIndex<T>(s: seq<T>, p: T -> bool): (k: int)
    ensures -1 <= k < |s|
    ensures k >= 0 ==> p(s[k]) && forall i :: 0 <= i < k ==> !p(s[i])
    ensures k == -1 ==> forall i :: 0 <= i < |s| ==> !p(s[i])
  {
    if s == [] then -1
    else if p(s[0]) then 0
    else
      var k := FindIndex(s[1..], p);
      if k == -1 then -1 else k + 1
  }
}
