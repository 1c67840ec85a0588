/** The list operations the source performs through JavaScript's Array methods
    (`filter`, `findIndex`, `map`, `splice`, assignment at an index), as functions
    on sequences, with the facts about them that the rest of the model relies on. */
module Seqs {

  /** `s.filter(p)`: the elements satisfying `p`, in their original order. */
  function Filter<T(!new)>(p: T -> bool, s: seq<T>): (r: seq<T>)
    ensures |r| <= |s|
    ensures forall x :: x in r <==> x in s && p(x)
  {
    if s == [] then []
    else
      assert s == [s[0]] + s[1..];
      if p(s[0]) then [s[0]] + Filter(p, s[1..]) else Filter(p, s[1..])
  }

  /** A filter keeps every passing element as often as the input holds it, and no
      other element. */
  lemma {:induction false} FilterCounts<T(!new)>(p: T -> bool, s: seq<T>)
    ensures forall x :: multiset(Filter(p, s))[x] == if p(x) then multiset(s)[x] else 0
  {
    if s != [] {
      FilterCounts(p, s[1..]);
      assert s == [s[0]] + s[1..];
    }
  }

  /** `r` can be obtained from `s` by deleting elements (order is kept). */
  ghost predicate IsSubsequence<T>(r: seq<T>, s: seq<T>)
    decreases |s|
  {
    r == [] || (s != [] && (IsSubsequence(r, s[1..]) || (r[0] == s[0] && IsSubsequence(r[1..], s[1..]))))
  }

  lemma {:induction false} FilterIsSubsequence<T(!new)>(p: T -> bool, s: seq<T>)
    ensures IsSubsequence(Filter(p, s), s)
  {
    if s != [] {
      FilterIsSubsequence(p, s[1..]);
      if p(s[0]) {
        assert Filter(p, s)[1..] == Filter(p, s[1..]);
      }
    }
  }

  lemma {:induction false} FilterAppend<T(!new)>(p: T -> bool, a: seq<T>, b: seq<T>)
    ensures Filter(p, a + b) == Filter(p, a) + Filter(p, b)
  {
    if a == [] {
      assert a + b == b;
    } else {
      assert (a + b)[1..] == a[1..] + b;
      FilterAppend(p, a[1..], b);
      var h := if p(a[0]) then [a[0]] else [];
      calc {
        Filter(p, a + b);
        h + Filter(p, a[1..] + b);
        h + (Filter(p, a[1..]) + Filter(p, b));
        (h + Filter(p, a[1..])) + Filter(p, b);
      }
    }
  }

  /** One step of a filter: the head, if it passes, then the filtered tail. */
  lemma FilterCons<T(!new)>(p: T -> bool, s: seq<T>)
    requires s != []
    ensures Filter(p, s) == (if p(s[0]) then [s[0]] else []) + Filter(p, s[1..])
  {
  }

  /** A filter that every element passes returns its input. */
  lemma {:induction false} FilterKeepsAll<T(!new)>(p: T -> bool, s: seq<T>)
    requires forall i :: 0 <= i < |s| ==> p(s[i])
    ensures Filter(p, s) == s
  {
    if s != [] {
      FilterKeepsAll(p, s[1..]);
    }
  }

  /** A filter that no element passes returns nothing. */
  lemma {:induction false} FilterDropsAll<T(!new)>(p: T -> bool, s: seq<T>)
    requires forall i :: 0 <= i < |s| ==> !p(s[i])
    ensures Filter(p, s) == []
  {
    if s != [] {
      FilterDropsAll(p, s[1..]);
    }
  }

  /** Filtering twice is filtering once by the conjunction. */
  lemma {:induction false} FilterFilter<T(!new)>(p: T -> bool, q: T -> bool, pq: T -> bool, s: seq<T>)
    requires forall x :: pq(x) == (p(x) && q(x))
    ensures Filter(q, Filter(p, s)) == Filter(pq, s)
  {
    if s != [] {
      FilterFilter(p, q, pq, s[1..]);
      if p(s[0]) {
        assert Filter(p, s) == [s[0]] + Filter(p, s[1..]);
        assert Filter(p, s)[1..] == Filter(p, s[1..]);
      }
    }
  }

  /** Filters by two predicates that agree on every element of `s` give the same result. */
  lemma {:induction false} FilterCongruent<T(!new)>(p: T -> bool, q: T -> bool, s: seq<T>)
    requires forall i :: 0 <= i < |s| ==> p(s[i]) == q(s[i])
    ensures Filter(p, s) == Filter(q, s)
  {
    if s != [] {
      FilterCongruent(p, q, s[1..]);
    }
  }

  /** `s.findIndex(p)`: the first index whose element satisfies `p`, or -1. */
  function FirstIndex<T>(s: seq<T>, p: T -> bool): (i: int)
    ensures -1 <= i < |s|
    ensures i == -1 <==> forall k :: 0 <= k < |s| ==> !p(s[k])
    ensures 0 <= i ==> p(s[i]) && forall k :: 0 <= k < i ==> !p(s[k])
  {
    if s == [] then -1
    else if p(s[0]) then 0
    else
      var j := FirstIndex(s[1..], p);
      if j == -1 then -1 else j + 1
  }

  /** Predicates that agree on every element find the same first index. */
  lemma FirstIndexCongruent<T>(s: seq<T>, p: T -> bool, q: T -> bool)
    requires forall i :: 0 <= i < |s| ==> p(s[i]) == q(s[i])
    ensures FirstIndex(s, p) == FirstIndex(s, q)
  {
  }

  /** The first element satisfying `p` replaced by its image under `f`; the reference
      definition for the source's `copy[findIndex(p)] = f(...)`. */
  function ReplaceFirst<T>(s: seq<T>, p: T -> bool, f: T -> T): (r: seq<T>)
    ensures |r| == |s|
  {
    if s == [] then []
    else if p(s[0]) then [f(s[0])] + s[1..]
    else [s[0]] + ReplaceFirst(s[1..], p, f)
  }

  /** Replacing the first match is an assignment at the index `FirstIndex` finds. */
  lemma {:induction false} ReplaceFirstAt<T>(s: seq<T>, p: T -> bool, f: T -> T)
    ensures var i := FirstIndex(s, p);
      ReplaceFirst(s, p, f) == if i == -1 then s else s[i := f(s[i])]
  {
    if s == [] {
    } else if p(s[0]) {
      assert FirstIndex(s, p) == 0;
      assert [f(s[0])] + s[1..] == s[0 := f(s[0])];
    } else {
      ReplaceFirstAt(s[1..], p, f);
      var j := FirstIndex(s[1..], p);
      assert FirstIndex(s, p) == if j == -1 then -1 else j + 1;
      if j == -1 {
        assert [s[0]] + s[1..] == s;
      } else {
        assert [s[0]] + s[1..][j := f(s[1..][j])] == s[j + 1 := f(s[j + 1])];
      }
    }
  }

  /** `s.map(x => p(x) ? f(x) : x)`: every element satisfying `p` is replaced. */
  function MapWhere<T>(s: seq<T>, p: T -> bool, f: T -> T): (r: seq<T>)
    ensures |r| == |s|
    ensures forall i :: 0 <= i < |s| ==> r[i] == if p(s[i]) then f(s[i]) else s[i]
  {
    if s == [] then []
    else [if p(s[0]) then f(s[0]) else s[0]] + MapWhere(s[1..], p, f)
  }

  /** When at most one element matches, replacing the first match and replacing every
      match are the same; with two matches they differ. */
  lemma {:induction false} ReplaceFirstIsMapWhere<T>(s: seq<T>, p: T -> bool, f: T -> T)
    requires forall i, j :: 0 <= i < j < |s| && p(s[i]) ==> !p(s[j])
    ensures ReplaceFirst(s, p, f) == MapWhere(s, p, f)
  {
    ReplaceFirstAt(s, p, f);
    var i := FirstIndex(s, p);
    var a, b := ReplaceFirst(s, p, f), MapWhere(s, p, f);
    forall k | 0 <= k < |s| ensures a[k] == b[k] {
      if i != -1 && k != i {
        if k < i {
          assert !p(s[k]);
        } else {
          assert !p(s[k]);
        }
      }
    }
  }

  /** `s.splice(i, 1)`: the element at `i` taken out. */
  function RemoveAt<T>(s: seq<T>, i: nat): (r: seq<T>)
    requires i < |s|
    ensures |r| == |s| - 1
  {
    s[..i] + s[i + 1..]
  }

  /** `s.splice(i, 0, x)`: `x` inserted so that it lands at index `i`. */
  function InsertAt<T>(s: seq<T>, i: nat, x: T): (r: seq<T>)
    requires i <= |s|
    ensures |r| == |s| + 1 && r[i] == x
  {
    s[..i] + [x] + s[i..]
  }

  /** The array move both reorder operations perform: remove the element at `from`,
      then insert it at `to` in the shortened array. */
  function Move<T>(s: seq<T>, from: nat, to: nat): (r: seq<T>)
    requires from < |s| && to < |s|
  {
    InsertAt(RemoveAt(s, from), to, s[from])
  }

  /** A move is a permutation that puts the moved element at `to` and keeps every
      other element in its relative order. */
  lemma MoveFacts<T>(s: seq<T>, from: nat, to: nat)
    requires from < |s| && to < |s|
    ensures |Move(s, from, to)| == |s|
    ensures Move(s, from, to)[to] == s[from]
    ensures multiset(Move(s, from, to)) == multiset(s)
    ensures RemoveAt(Move(s, from, to), to) == RemoveAt(s, from)
  {
    var rest := RemoveAt(s, from);
    var r := Move(s, from, to);
    assert multiset(r) == multiset(s) by {
      var a, b := s[..from], s[from + 1..];
      assert s == a + [s[from]] + b;
      assert rest == a + b;
      assert r == rest[..to] + [s[from]] + rest[to..];
      calc {
        multiset(r);
        multiset(rest[..to]) + multiset{s[from]} + multiset(rest[to..]);
        { assert rest == rest[..to] + rest[to..]; }
        multiset(rest) + multiset{s[from]};
        multiset(a) + multiset(b) + multiset{s[from]};
        multiset(s);
      }
    }
    assert r == rest[..to] + [s[from]] + rest[to..];
    assert r[..to] == rest[..to];
    assert r[to + 1..] == rest[to..];
  }

  /** Moving an element onto its own index changes nothing. */
  lemma MoveSelf<T>(s: seq<T>, i: nat)
    requires i < |s|
    ensures Move(s, i, i) == s
  {
    assert Move(s, i, i) == s[..i] + [s[i]] + s[i + 1..];
    assert s == s[..i] + [s[i]] + s[i + 1..];
  }

  /** How `splice` reads its start argument: negative counts from the end, and the
      result is clamped to `0..len`. */
  function SpliceIndex(i: int, len: nat): (r: nat)
    ensures r <= len
    ensures 0 <= i <= len ==> r == i
    ensures -(len as int) <= i < 0 ==> r == len + i
    ensures i < -(len as int) ==> r == 0
    ensures i > len ==> r == len
  {
    if i < 0 then (if len + i < 0 then 0 else len + i)
    else if i > len then len
    else i
  }
}
