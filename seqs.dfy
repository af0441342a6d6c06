/** `Array.prototype.filter` on sequences, and the facts the rest of the model needs about it. */
module Seqs {

  /** The elements of `s` that satisfy `f`, in their original order. */
  function Filter<T(!new)>(f: T -> bool, s: seq<T>): (r: seq<T>)
    ensures |r| <= |s|
    ensures forall x :: x in r <==> x in s && f(x)
    ensures multiset(r) <= multiset(s)
  {
    if s == [] then []
    else
      assert s == [s[0]] + s[1..];
      (if f(s[0]) then [s[0]] else []) + Filter(f, s[1..])
  }

  /** Filtering distributes over concatenation, so the kept elements stay in order. */
  lemma {:induction false} FilterAppend<T(!new)>(f: T -> bool, a: seq<T>, b: seq<T>)
    ensures Filter(f, a + b) == Filter(f, a) + Filter(f, b)
  {
    if a == [] {
      assert a + b == b;
    } else {
      assert (a + b)[1..] == a[1..] + b;
      FilterAppend(f, a[1..], b);
    }
  }

  /** A filter that keeps every element returns its input unchanged. */
  lemma {:induction false} FilterKeepsAll<T(!new)>(f: T -> bool, s: seq<T>)
    requires forall x :: x in s ==> f(x)
    ensures Filter(f, s) == s
  {
    if s != [] {
      FilterKeepsAll(f, s[1..]);
    }
  }

  /** Filtering keeps exactly the multiset of the elements that satisfy `f`. */
  lemma {:induction false} FilterMultiset<T(!new)>(f: T -> bool, s: seq<T>, x: T)
    ensures multiset(Filter(f, s))[x] == if f(x) then multiset(s)[x] else 0
  {
    if s != [] {
      FilterMultiset(f, s[1..], x);
      assert s == [s[0]] + s[1..];
    }
  }

  /** Filtering one element keeps it exactly when it satisfies `f`. */
  lemma FilterSingleton<T(!new)>(f: T -> bool, x: T)
    ensures Filter(f, [x]) == if f(x) then [x] else []
  {
    assert [x][1..] == [];
  }

  /** Filtering a non-empty sequence: the filtered front, then the last element if it is kept. */
  lemma FilterSplitLast<T(!new)>(f: T -> bool, s: seq<T>)
    requires s != []
    ensures Filter(f, s) == Filter(f, s[..|s| - 1]) + if f(s[|s| - 1]) then [s[|s| - 1]] else []
  {
    var init, x := s[..|s| - 1], s[|s| - 1];
    calc {
      Filter(f, s);
      { assert s == init + [x]; }
      Filter(f, init + [x]);
      { FilterAppend(f, init, [x]); }
      Filter(f, init) + Filter(f, [x]);
      { FilterSingleton(f, x); }
      Filter(f, init) + if f(x) then [x] else [];
    }
  }
}
