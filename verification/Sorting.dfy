/** The contract of Python's `sorted` and `list.sort`: a stable sort. */
module Sorting {

  ghost predicate TotalPreorder<T(!new)>(le: (T, T) -> bool) {
    && (forall a, b :: le(a, b) || le(b, a))
    && (forall a, b, c :: le(a, b) && le(b, c) ==> le(a, c))
  }

  ghost predicate Sorted<T>(le: (T, T) -> bool, s: seq<T>) {
    forall i, j :: 0 <= i < j < |s| ==> le(s[i], s[j])
  }

  function Insert<T>(le: (T, T) -> bool, x: T, s: seq<T>): (r: seq<T>)
    ensures multiset(r) == multiset{x} + multiset(s)
  {
    if s == [] || le(x, s[0]) then [x] + s
    else
      assert s == [s[0]] + s[1..];
      [s[0]] + Insert(le, x, s[1..])
  }

  function SortBy<T>(le: (T, T) -> bool, s: seq<T>): (r: seq<T>)
    ensures multiset(r) == multiset(s)
  {
    if s == [] then []
    else
      assert s == [s[0]] + s[1..];
      Insert(le, s[0], SortBy(le, s[1..]))
  }

  lemma {:induction false} InsertSorted<T(!new)>(le: (T, T) -> bool, x: T, s: seq<T>)
    requires TotalPreorder(le) && Sorted(le, s)
    ensures Sorted(le, Insert(le, x, s))
  {
    if s == [] {
    } else if le(x, s[0]) {
      forall j | 0 <= j < |s| ensures le(x, s[j]) {
        assert j == 0 || le(s[0], s[j]);
      }
    } else {
      InsertSorted(le, x, s[1..]);
      var rest := Insert(le, x, s[1..]);
      forall j | 0 <= j < |rest| ensures le(s[0], rest[j]) {
        assert rest[j] in multiset(rest);
        assert rest[j] == x || rest[j] in s[1..];
      }
    }
  }

  lemma {:induction false} SortBySorted<T(!new)>(le: (T, T) -> bool, s: seq<T>)
    requires TotalPreorder(le)
    ensures Sorted(le, SortBy(le, s))
  {
    if s != [] {
      SortBySorted(le, s[1..]);
      InsertSorted(le, s[0], SortBy(le, s[1..]));
    }
  }

  /** Position by position, the two sequences are related. */
  ghost predicate Pairwise<T>(related: (T, T) -> bool, s: seq<T>, t: seq<T>) {
    |s| == |t| && forall i :: 0 <= i < |s| ==> related(s[i], t[i])
  }

  /** The order does not tell related elements apart. */
  ghost predicate Respects<T(!new)>(le: (T, T) -> bool, related: (T, T) -> bool) {
    forall a, b, c, d :: related(a, b) && related(c, d) ==> le(a, c) == le(b, d)
  }

  lemma SameComparison<T(!new)>(le: (T, T) -> bool, related: (T, T) -> bool, a: T, b: T, c: T, d: T)
    requires Respects(le, related) && related(a, b) && related(c, d)
    ensures le(a, c) == le(b, d)
  {
  }

  lemma {:induction false} InsertPairwise<T(!new)>(le: (T, T) -> bool, related: (T, T) -> bool, x: T, y: T, s: seq<T>, t: seq<T>)
    requires Respects(le, related) && related(x, y) && Pairwise(related, s, t)
    ensures Pairwise(related, Insert(le, x, s), Insert(le, y, t))
  {
    hide Respects;
    if s != [] {
      SameComparison(le, related, x, y, s[0], t[0]);
    }
    if s == [] || le(x, s[0]) {
      PairwiseCons(related, x, y, s, t);
    } else {
      InsertPairwise(le, related, x, y, s[1..], t[1..]);
      PairwiseCons(related, s[0], t[0], Insert(le, x, s[1..]), Insert(le, y, t[1..]));
    }
  }

  lemma PairwiseCons<T>(related: (T, T) -> bool, a: T, b: T, s: seq<T>, t: seq<T>)
    requires related(a, b) && Pairwise(related, s, t)
    ensures Pairwise(related, [a] + s, [b] + t)
  {
  }

  /** Repetition depends only on which positions agree. */
  lemma SamePattern<A, B>(s: seq<A>, t: seq<B>)
    requires |s| == |t| && forall i, j :: 0 <= i < j < |s| ==> (s[i] == s[j] <==> t[i] == t[j])
    ensures NoRepeats(s) <==> NoRepeats(t)
  {
  }

  /** Sorting pairs up what was paired up. */
  lemma {:induction false} SortByPairwise<T(!new)>(le: (T, T) -> bool, related: (T, T) -> bool, s: seq<T>, t: seq<T>)
    requires Respects(le, related) && Pairwise(related, s, t)
    ensures Pairwise(related, SortBy(le, s), SortBy(le, t))
  {
    hide Respects, Insert;
    if s != [] {
      SortByPairwise(le, related, s[1..], t[1..]);
      InsertPairwise(le, related, s[0], t[0], SortBy(le, s[1..]), SortBy(le, t[1..]));
    }
  }

  function Filter<T(!new)>(p: T -> bool, s: seq<T>): (r: seq<T>)
    ensures forall x :: x in r <==> x in s && p(x)
  {
    if s == [] then [] else if p(s[0]) then [s[0]] + Filter(p, s[1..]) else Filter(p, s[1..])
  }

  lemma {:induction false} FilterAppend<T(!new)>(p: T -> bool, s: seq<T>, t: seq<T>)
    ensures Filter(p, s + t) == Filter(p, s) + Filter(p, t)
  {
    if s == [] {
      assert s + t == t;
    } else {
      assert (s + t)[1..] == s[1..] + t;
      FilterAppend(p, s[1..], t);
    }
  }

  lemma {:induction false} InsertStable<T(!new)>(le: (T, T) -> bool, p: T -> bool, x: T, s: seq<T>)
    requires TotalPreorder(le)
    requires forall a, b :: p(a) && p(b) ==> le(a, b)
    ensures Filter(p, Insert(le, x, s)) == (if p(x) then [x] else []) + Filter(p, s)
  {
    if s == [] || le(x, s[0]) {
      var r := [x] + s;
      assert r[1..] == s;
    } else {
      InsertStable(le, p, x, s[1..]);
      var rest := Insert(le, x, s[1..]);
      assert ([s[0]] + rest)[1..] == rest;
      assert !(p(x) && p(s[0]));
    }
  }

  /** Elements that compare equal keep their order. */
  lemma {:induction false} SortByStable<T(!new)>(le: (T, T) -> bool, p: T -> bool, s: seq<T>)
    requires TotalPreorder(le)
    requires forall a, b :: p(a) && p(b) ==> le(a, b)
    ensures Filter(p, SortBy(le, s)) == Filter(p, s)
  {
    if s != [] {
      SortByStable(le, p, s[1..]);
      InsertStable(le, p, s[0], SortBy(le, s[1..]));
    }
  }

  lemma MultisetTail<T>(s: seq<T>)
    requires s != []
    ensures multiset(s[1..]) == multiset(s) - multiset{s[0]}
  {
    assert s == [s[0]] + s[1..];
  }

  /** The head of a sorted sequence is below all its members. */
  lemma SortedHead<T>(le: (T, T) -> bool, s: seq<T>, x: T)
    requires Sorted(le, s) && x in s && x != s[0]
    ensures le(s[0], x)
  {
  }

  /** When no two elements compare equal, there is one sorted arrangement. */
  lemma {:induction false} SortedUnique<T(!new)>(le: (T, T) -> bool, s: seq<T>, t: seq<T>)
    requires multiset(s) == multiset(t)
    requires Sorted(le, s) && Sorted(le, t)
    requires forall a, b :: a in s && b in s && le(a, b) && le(b, a) ==> a == b
    ensures s == t
  {
    assert |s| == |multiset(s)| == |multiset(t)| == |t|;
    if s != [] {
      assert s[0] in multiset(t) && t[0] in multiset(s);
      if s[0] != t[0] {
        SortedHead(le, s, t[0]);
        SortedHead(le, t, s[0]);
        assert false;
      }
      MultisetTail(s);
      MultisetTail(t);
      SortedUnique(le, s[1..], t[1..]);
      assert s == [s[0]] + s[1..] && t == [t[0]] + t[1..];
    }
  }

  /** Sums do not depend on the order of the summands. */
  function SumOf<T>(f: T -> int, s: seq<T>): int {
    if s == [] then 0 else f(s[0]) + SumOf(f, s[1..])
  }

  lemma {:induction false} SumOfAppend<T>(f: T -> int, s: seq<T>, t: seq<T>)
    ensures SumOf(f, s + t) == SumOf(f, s) + SumOf(f, t)
  {
    if s == [] {
      assert s + t == t;
    } else {
      SumOfAppend(f, s[1..], t);
      assert (s + t)[1..] == s[1..] + t;
    }
  }

  lemma {:induction false} SumOfPermutation<T>(f: T -> int, s: seq<T>, t: seq<T>)
    requires multiset(s) == multiset(t)
    ensures SumOf(f, s) == SumOf(f, t)
  {
    if s == [] {
      assert |multiset(t)| == 0;
    } else {
      assert s[0] in multiset(t);
      var front, back := TakeOut(t, s[0]);
      MultisetTail(s);
      SumOfPermutation(f, s[1..], front + back);
      SumOfMiddle(f, front, s[0], back);
    }
  }

  lemma SumOfMiddle<T>(f: T -> int, front: seq<T>, x: T, back: seq<T>)
    ensures SumOf(f, front + ([x] + back)) == f(x) + SumOf(f, front + back)
  {
    SumOfAppend(f, front, back);
    SumOfAppend(f, front, [x] + back);
    assert ([x] + back)[1..] == back;
  }

  lemma {:induction false} SumOfMonotone<T(!new)>(f: T -> int, g: T -> int, s: seq<T>)
    requires forall x :: x in s ==> f(x) <= g(x)
    ensures SumOf(f, s) <= SumOf(g, s)
  {
    if s != [] {
      SumOfMonotone(f, g, s[1..]);
    }
  }

  ghost predicate NoRepeats<T>(s: seq<T>) {
    forall i, j :: 0 <= i < j < |s| ==> s[i] != s[j]
  }

  lemma {:induction false} NoRepeatsCount<T>(s: seq<T>, x: T)
    requires NoRepeats(s)
    ensures multiset(s)[x] <= 1
  {
    if s != [] {
      NoRepeatsCount(s[1..], x);
      MultisetTail(s);
      assert s == [s[0]] + s[1..];
    }
  }

  /** Rearranging a sequence introduces no repetition. */
  lemma NoRepeatsPermutation<T>(s: seq<T>, t: seq<T>)
    requires NoRepeats(s) && multiset(s) == multiset(t)
    ensures NoRepeats(t)
  {
    forall i, j | 0 <= i < j < |t| ensures t[i] != t[j] {
      assert t == t[..i] + [t[i]] + t[i + 1..j] + [t[j]] + t[j + 1..];
      NoRepeatsCount(s, t[i]);
      assert t[i] == t[j] ==> multiset(t)[t[i]] >= 2;
    }
  }

  lemma NoRepeatsConcat<T>(s: seq<T>, t: seq<T>)
    ensures NoRepeats(s + t) <==> NoRepeats(s) && NoRepeats(t) && forall x :: x in s ==> x !in t
  {
    var all := s + t;
    if NoRepeats(all) {
      forall i, j | 0 <= i < j < |s| ensures s[i] != s[j] { assert all[i] != all[j]; }
      forall i, j | 0 <= i < j < |t| ensures t[i] != t[j] { assert all[|s| + i] != all[|s| + j]; }
      forall i, j | 0 <= i < |s| && 0 <= j < |t| ensures s[i] != t[j] { assert all[i] != all[|s| + j]; }
    }
    if NoRepeats(s) && NoRepeats(t) && forall x :: x in s ==> x !in t {
      forall i, j | 0 <= i < j < |all| ensures all[i] != all[j] {
        if i < |s| <= j {
          assert all[i] in s && all[j] in t;
        }
      }
    }
  }

  function Map<A, B>(f: A -> B, s: seq<A>): (r: seq<B>)
    ensures |r| == |s| && forall i :: 0 <= i < |s| ==> r[i] == f(s[i])
  {
    seq(|s|, (i: nat) requires i < |s| => f(s[i]))
  }

  lemma MapConcat<A, B>(f: A -> B, s: seq<A>, t: seq<A>)
    ensures Map(f, s + t) == Map(f, s) + Map(f, t)
  {
  }

  lemma MapMiddle<A, B>(f: A -> B, front: seq<A>, x: A, back: seq<A>)
    ensures multiset(Map(f, front + ([x] + back))) == multiset{f(x)} + multiset(Map(f, front + back))
  {
    MapConcat(f, front, back);
    MapConcat(f, front, [x] + back);
    MapConcat(f, [x], back);
    assert Map(f, [x]) == [f(x)];
  }

  lemma TakeOut<T>(t: seq<T>, x: T) returns (front: seq<T>, back: seq<T>)
    requires x in multiset(t)
    ensures t == front + ([x] + back) && multiset(front + back) == multiset(t) - multiset{x}
  {
    var i :| 0 <= i < |t| && t[i] == x;
    front, back := t[..i], t[i + 1..];
    assert t == front + ([x] + back);
  }

  /** Mapping respects rearrangement. */
  lemma {:induction false} MapPermutation<A, B>(f: A -> B, s: seq<A>, t: seq<A>)
    requires multiset(s) == multiset(t)
    ensures multiset(Map(f, s)) == multiset(Map(f, t))
  {
    if s == [] {
      assert |multiset(t)| == 0;
    } else {
      var rest := s[1..];
      assert s == [] + ([s[0]] + rest);
      MapMiddle(f, [], s[0], rest);
      assert [] + rest == rest;
      assert s[0] in multiset(t);
      var front, back := TakeOut(t, s[0]);
      MultisetTail(s);
      MapPermutation(f, rest, front + back);
      MapMiddle(f, front, s[0], back);
    }
  }
}
