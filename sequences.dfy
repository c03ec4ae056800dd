/** The array operations both the server and the web client build on: `filter`,
    counting `filter(...).length`, and the stable `sort` with a numeric comparator. */
module Sequences {

  /** `a` is `b` with some elements left out, the rest in their original order. */
  ghost predicate IsSubsequence<T>(a: seq<T>, b: seq<T>)
    decreases |b|
  {
    if a == [] then true
    else if b == [] then false
    else if a[0] == b[0] then IsSubsequence(a[1..], b[1..])
    else IsSubsequence(a, b[1..])
  }

  function Filter<T>(p: T -> bool, s: seq<T>): (r: seq<T>)
    ensures |r| <= |s|
    ensures forall i | 0 <= i < |r| :: r[i] in s && p(r[i])
    ensures forall i | 0 <= i < |s| && p(s[i]) :: s[i] in r
  {
    if s == [] then [] else (if p(s[0]) then [s[0]] else []) + Filter(p, s[1..])
  }

  lemma {:induction false} FilterIsSubsequence<T>(p: T -> bool, s: seq<T>)
    ensures IsSubsequence(Filter(p, s), s)
  {
    if s != [] {
      FilterIsSubsequence(p, s[1..]);
      var rest := Filter(p, s[1..]);
      if p(s[0]) {
        assert Filter(p, s) == [s[0]] + rest;
        assert ([s[0]] + rest)[1..] == rest;
      } else {
        assert Filter(p, s) == rest;
        SubsequenceOfTail(rest, s);
      }
    }
  }

  /** Dropping the head of the longer sequence keeps a subsequence a subsequence. */
  lemma {:induction false} SubsequenceOfTail<T>(a: seq<T>, b: seq<T>)
    requires b != []
    requires IsSubsequence(a, b[1..])
    ensures IsSubsequence(a, b)
    decreases |b|, 0
  {
    if a != [] && a[0] == b[0] {
      SubsequenceDropHead(a, b[1..]);
    }
  }

  lemma {:induction false} SubsequenceDropHead<T>(a: seq<T>, b: seq<T>)
    requires a != []
    requires IsSubsequence(a, b)
    ensures IsSubsequence(a[1..], b)
    decreases |b|, 1
  {
    if b != [] {
      if a[0] == b[0] {
        SubsequenceOfTail(a[1..], b);
      } else {
        SubsequenceDropHead(a, b[1..]);
        SubsequenceOfTail(a[1..], b);
      }
    }
  }

  /** A filter that rejects nothing returns its input unchanged. */
  lemma {:induction false} FilterKeepsAll<T>(p: T -> bool, s: seq<T>)
    requires forall i | 0 <= i < |s| :: p(s[i])
    ensures Filter(p, s) == s
  {
    if s != [] {
      FilterKeepsAll(p, s[1..]);
    }
  }

  /** Filtering twice is filtering once by the conjunction. */
  lemma {:induction false} FilterFilter<T>(p: T -> bool, q: T -> bool, both: T -> bool, s: seq<T>)
    requires forall x :: both(x) == (p(x) && q(x))
    ensures Filter(q, Filter(p, s)) == Filter(both, s)
  {
    if s != [] {
      FilterFilter(p, q, both, s[1..]);
      var head := if p(s[0]) then [s[0]] else [];
      FilterAppend(q, head, Filter(p, s[1..]));
      assert Filter(q, head) == if both(s[0]) then [s[0]] else [];
    }
  }

  /** Filters that agree on every element of `s` select the same elements. */
  lemma {:induction false} FilterCongruent<T>(p: T -> bool, q: T -> bool, s: seq<T>)
    requires forall i | 0 <= i < |s| :: p(s[i]) == q(s[i])
    ensures Filter(p, s) == Filter(q, s)
  {
    if s != [] {
      FilterCongruent(p, q, s[1..]);
    }
  }

  lemma {:induction false} FilterAppend<T>(p: T -> bool, a: seq<T>, b: seq<T>)
    ensures Filter(p, a + b) == Filter(p, a) + Filter(p, b)
  {
    if a == [] {
      assert a + b == b;
    } else {
      assert (a + b)[1..] == a[1..] + b;
      FilterAppend(p, a[1..], b);
    }
  }

  /** `s.filter(p).length`. */
  function Count<T>(p: T -> bool, s: seq<T>): (n: nat)
    ensures n <= |s|
  {
    |Filter(p, s)|
  }

  /** Counts add up over a concatenation. */
  lemma {:induction false} CountAppend<T>(p: T -> bool, a: seq<T>, b: seq<T>)
    ensures Count(p, a + b) == Count(p, a) + Count(p, b)
  {
    FilterAppend(p, a, b);
  }

  /** Counting by a predicate and by its negation splits the sequence. */
  lemma {:induction false} CountSplit<T>(p: T -> bool, q: T -> bool, s: seq<T>)
    requires forall x :: q(x) == !p(x)
    ensures Count(p, s) + Count(q, s) == |s|
  {
    if s != [] {
      CountSplit(p, q, s[1..]);
    }
  }

  /** Counting by three predicates that partition every element adds up to the length. */
  lemma {:induction false} CountPartition3<T>(p: T -> bool, q: T -> bool, r: T -> bool, s: seq<T>)
    requires forall x :: (p(x) || q(x) || r(x)) && !(p(x) && q(x)) && !(p(x) && r(x)) && !(q(x) && r(x))
    ensures Count(p, s) + Count(q, s) + Count(r, s) == |s|
  {
    if s != [] {
      CountPartition3(p, q, r, s[1..]);
    }
  }

  /** Counting by four predicates that partition every element adds up to the length. */
  lemma {:induction false} CountPartition4<T>(p: T -> bool, q: T -> bool, r: T -> bool, u: T -> bool, s: seq<T>)
    requires forall x :: (p(x) || q(x) || r(x) || u(x))
    requires forall x :: !(p(x) && q(x)) && !(p(x) && r(x)) && !(p(x) && u(x))
    requires forall x :: !(q(x) && r(x)) && !(q(x) && u(x)) && !(r(x) && u(x))
    ensures Count(p, s) + Count(q, s) + Count(r, s) + Count(u, s) == |s|
  {
    if s != [] {
      CountPartition4(p, q, r, u, s[1..]);
    }
  }

  /** Counting by five predicates that partition every element adds up to the length. */
  lemma {:induction false} CountPartition5<T>(p: T -> bool, q: T -> bool, r: T -> bool, u: T -> bool, v: T -> bool,
                                              s: seq<T>)
    requires forall x :: (p(x) || q(x) || r(x) || u(x) || v(x))
    requires forall x :: !(p(x) && q(x)) && !(p(x) && r(x)) && !(p(x) && u(x)) && !(p(x) && v(x))
    requires forall x :: !(q(x) && r(x)) && !(q(x) && u(x)) && !(q(x) && v(x))
    requires forall x :: !(r(x) && u(x)) && !(r(x) && v(x)) && !(u(x) && v(x))
    ensures Count(p, s) + Count(q, s) + Count(r, s) + Count(u, s) + Count(v, s) == |s|
  {
    if s != [] {
      CountPartition5(p, q, r, u, v, s[1..]);
    }
  }

  /** A stronger predicate never counts more. */
  lemma {:induction false} CountMonotone<T>(p: T -> bool, q: T -> bool, s: seq<T>)
    requires forall x :: p(x) ==> q(x)
    ensures Count(p, s) <= Count(q, s)
  {
    if s != [] {
      CountMonotone(p, q, s[1..]);
    }
  }

  /** A filter keeps each element that passes as often as it occurs, and no other. */
  lemma {:induction false} FilterMultiplicity<T>(p: T -> bool, s: seq<T>, x: T)
    ensures multiset(Filter(p, s))[x] == if p(x) then multiset(s)[x] else 0
  {
    if s != [] {
      FilterMultiplicity(p, s[1..], x);
      assert s == [s[0]] + s[1..];
    }
  }

  /** `id` strictly increases along `s`. */
  ghost predicate IncreasingBy<T>(id: T -> int, s: seq<T>) {
    forall i, j | 0 <= i < j < |s| :: id(s[i]) < id(s[j])
  }

  /** Elements of `s` with equal keys appear in increasing `id` order. */
  ghost predicate TiesBy<T>(key: T -> int, id: T -> int, s: seq<T>) {
    forall i, j | 0 <= i < j < |s| && key(s[i]) == key(s[j]) :: id(s[i]) < id(s[j])
  }

  /** A head below every element of an increasing sequence keeps it increasing. */
  lemma {:induction false} ConsIncreasing<T>(id: T -> int, h: T, s: seq<T>)
    requires IncreasingBy(id, s) && forall i | 0 <= i < |s| :: id(h) < id(s[i])
    ensures IncreasingBy(id, [h] + s)
  {
    var r := [h] + s;
    forall i, j | 0 <= i < j < |r| ensures id(r[i]) < id(r[j]) {
      assert r[j] == s[j - 1];
      if i > 0 {
        assert r[i] == s[i - 1];
      }
    }
  }

  lemma {:induction false} IncreasingTail<T>(id: T -> int, s: seq<T>)
    requires s != [] && IncreasingBy(id, s)
    ensures IncreasingBy(id, s[1..])
    ensures forall i | 0 <= i < |s[1..]| :: id(s[0]) < id(s[1..][i])
  {
    forall i, j | 0 <= i < j < |s[1..]| ensures id(s[1..][i]) < id(s[1..][j]) {
      assert s[1..][i] == s[i + 1] && s[1..][j] == s[j + 1];
    }
    forall i | 0 <= i < |s[1..]| ensures id(s[0]) < id(s[1..][i]) {
      assert s[1..][i] == s[i + 1];
    }
  }

  /** A filter keeps an increasing order. */
  lemma {:induction false} FilterIncreasing<T>(id: T -> int, p: T -> bool, s: seq<T>)
    ensures IncreasingBy(id, s) ==> IncreasingBy(id, Filter(p, s))
  {
    if s != [] && IncreasingBy(id, s) {
      var tail := s[1..];
      IncreasingTail(id, s);
      FilterIncreasing(id, p, tail);
      if p(s[0]) {
        var rest := Filter(p, tail);
        forall k | 0 <= k < |rest| ensures id(s[0]) < id(rest[k]) {
          var m :| 0 <= m < |tail| && tail[m] == rest[k];
        }
        ConsIncreasing(id, s[0], rest);
      }
    }
  }

  ghost predicate SortedBy<T>(key: T -> int, s: seq<T>) {
    forall i, j | 0 <= i < j < |s| :: key(s[i]) <= key(s[j])
  }

  /** Puts `x` in front of the first element whose key is not smaller, so that
      elements with equal keys keep their relative order. */
  function Insert<T>(key: T -> int, x: T, s: seq<T>): (r: seq<T>)
    ensures |r| == |s| + 1
  {
    if s == [] || key(x) <= key(s[0]) then [x] + s else [s[0]] + Insert(key, x, s[1..])
  }

  lemma {:induction false} InsertPermutes<T>(key: T -> int, x: T, s: seq<T>)
    ensures multiset(Insert(key, x, s)) == multiset(s) + multiset{x}
  {
    if s != [] && key(x) > key(s[0]) {
      InsertPermutes(key, x, s[1..]);
      assert s == [s[0]] + s[1..];
    }
  }

  lemma {:induction false} InsertSorted<T>(key: T -> int, x: T, s: seq<T>)
    requires SortedBy(key, s)
    ensures SortedBy(key, Insert(key, x, s))
    ensures s != [] ==> key(Insert(key, x, s)[0]) == if key(x) <= key(s[0]) then key(x) else key(s[0])
  {
    if s != [] && key(x) > key(s[0]) {
      InsertSorted(key, x, s[1..]);
      ConsSorted(key, s[0], Insert(key, x, s[1..]));
    }
  }

  /** A head no greater than the first element of a sorted sequence keeps it sorted. */
  lemma {:induction false} ConsSorted<T>(key: T -> int, h: T, s: seq<T>)
    requires SortedBy(key, s) && (s != [] ==> key(h) <= key(s[0]))
    ensures SortedBy(key, [h] + s)
  {
    var r := [h] + s;
    forall i, j | 0 <= i < j < |r| ensures key(r[i]) <= key(r[j]) {
      if i == 0 {
        assert r[j] == s[j - 1];
      } else {
        assert r[i] == s[i - 1] && r[j] == s[j - 1];
      }
    }
  }

  /** The elements whose key is `k`. */
  function KeyIs<T>(key: T -> int, k: int): T -> bool {
    (x: T) => key(x) == k
  }

  lemma {:induction false} FilterCons<T>(p: T -> bool, h: T, s: seq<T>)
    ensures Filter(p, [h] + s) == (if p(h) then [h] else []) + Filter(p, s)
  {
    assert ([h] + s)[1..] == s;
  }

  /** Inserting into a sorted sequence puts `x` ahead of every element with its key. */
  lemma {:induction false} InsertKeepsTies<T>(key: T -> int, x: T, s: seq<T>, k: int)
    requires SortedBy(key, s)
    ensures Filter(KeyIs(key, k), Insert(key, x, s))
         == (if key(x) == k then [x] else []) + Filter(KeyIs(key, k), s)
  {
    var p := KeyIs(key, k);
    if s == [] || key(x) <= key(s[0]) {
      FilterCons(p, x, s);
    } else {
      var rest := Insert(key, x, s[1..]);
      var tail := Filter(p, s[1..]);
      InsertKeepsTies(key, x, s[1..], k);
      FilterCons(p, s[0], rest);
      if p(s[0]) {
        assert Filter(p, s) == [s[0]] + tail;
        assert Filter(p, rest) == tail;
      } else {
        assert Filter(p, s) == tail;
      }
    }
  }

  /** A head that ties only with elements of larger id keeps ties in id order. */
  lemma {:induction false} ConsTies<T>(key: T -> int, id: T -> int, h: T, s: seq<T>)
    requires TiesBy(key, id, s)
    requires forall i | 0 <= i < |s| && key(h) == key(s[i]) :: id(h) < id(s[i])
    ensures TiesBy(key, id, [h] + s)
  {
    var r := [h] + s;
    forall i, j | 0 <= i < j < |r| && key(r[i]) == key(r[j]) ensures id(r[i]) < id(r[j]) {
      assert r[j] == s[j - 1];
      if i > 0 {
        assert r[i] == s[i - 1];
      }
    }
  }

  lemma {:induction false} OrderedTail<T>(key: T -> int, id: T -> int, s: seq<T>)
    requires s != [] && SortedBy(key, s) && TiesBy(key, id, s)
    ensures SortedBy(key, s[1..]) && TiesBy(key, id, s[1..])
    ensures forall i | 0 <= i < |s[1..]| && key(s[0]) == key(s[1..][i]) :: id(s[0]) < id(s[1..][i])
  {
    var tail := s[1..];
    forall i, j | 0 <= i < j < |tail| ensures key(tail[i]) <= key(tail[j]) {
      assert tail[i] == s[i + 1] && tail[j] == s[j + 1];
    }
    forall i, j | 0 <= i < j < |tail| && key(tail[i]) == key(tail[j]) ensures id(tail[i]) < id(tail[j]) {
      assert tail[i] == s[i + 1] && tail[j] == s[j + 1];
    }
    forall i | 0 <= i < |tail| && key(s[0]) == key(tail[i]) ensures id(s[0]) < id(tail[i]) {
      assert tail[i] == s[i + 1];
    }
  }

  /** Inserting an element whose id is below every other keeps ties in id order. */
  lemma {:induction false} InsertTiesBy<T>(key: T -> int, id: T -> int, x: T, s: seq<T>)
    requires SortedBy(key, s) && TiesBy(key, id, s)
    requires forall i | 0 <= i < |s| :: id(x) < id(s[i])
    ensures TiesBy(key, id, Insert(key, x, s))
  {
    if s == [] || key(x) <= key(s[0]) {
      ConsTies(key, id, x, s);
    } else {
      var tail := s[1..];
      OrderedTail(key, id, s);
      assert forall i | 0 <= i < |tail| :: id(x) < id(tail[i]) by {
        forall i | 0 <= i < |tail| ensures id(x) < id(tail[i]) {
          assert tail[i] == s[i + 1];
        }
      }
      InsertTiesBy(key, id, x, tail);
      var rest := Insert(key, x, tail);
      InsertPermutes(key, x, tail);
      forall k | 0 <= k < |rest| && key(s[0]) == key(rest[k]) ensures id(s[0]) < id(rest[k]) {
        assert rest[k] in multiset(rest);
        if rest[k] != x {
          assert rest[k] in multiset(tail);
          var m :| 0 <= m < |tail| && tail[m] == rest[k];
        }
      }
      ConsTies(key, id, s[0], rest);
    }
  }

  /** Sorting a sequence whose ids increase puts elements with equal keys in id order. */
  lemma {:induction false} SortByTiesBy<T>(key: T -> int, id: T -> int, s: seq<T>)
    ensures IncreasingBy(id, s) ==> TiesBy(key, id, SortBy(key, s))
  {
    if s != [] && IncreasingBy(id, s) {
      var tail := s[1..];
      var rest := SortBy(key, tail);
      IncreasingTail(id, s);
      SortByTiesBy(key, id, tail);
      forall i | 0 <= i < |rest| ensures id(s[0]) < id(rest[i]) {
        assert rest[i] in multiset(tail);
        var m :| 0 <= m < |tail| && tail[m] == rest[i];
      }
      InsertTiesBy(key, id, s[0], rest);
    }
  }

  /** Selecting by `p` and then sorting by `key` lists the selected elements of `s`,
      each one that `p` selects, and with ties in `id` order when `s` is in `id` order. */
  lemma {:induction false} SortedSelection<T>(key: T -> int, id: T -> int, p: T -> bool, s: seq<T>)
    ensures var r := SortBy(key, Filter(p, s));
      && (forall i | 0 <= i < |r| :: r[i] in s && p(r[i]))
      && (forall i | 0 <= i < |s| && p(s[i]) :: s[i] in r)
      && (IncreasingBy(id, s) ==> TiesBy(key, id, r))
  {
    var mine := Filter(p, s);
    var r := SortBy(key, mine);
    forall i | 0 <= i < |r| ensures r[i] in mine {
      assert r[i] in multiset(r);
    }
    forall i | 0 <= i < |s| && p(s[i]) ensures s[i] in r {
      assert s[i] in mine;
      assert s[i] in multiset(mine);
    }
    FilterIncreasing(id, p, s);
    SortByTiesBy(key, id, mine);
  }

  /** The sort is stable: the elements with any one key come out in their input order. */
  lemma {:induction false} SortByStable<T>(key: T -> int, s: seq<T>, k: int)
    ensures Filter(KeyIs(key, k), SortBy(key, s)) == Filter(KeyIs(key, k), s)
  {
    if s != [] {
      SortByStable(key, s[1..], k);
      InsertKeepsTies(key, s[0], SortBy(key, s[1..]), k);
    }
  }

  /** A stable sort of `s`, ascending by `key`: the result of `[...s].sort((a, b) => key(a) - key(b))`. */
  function SortBy<T>(key: T -> int, s: seq<T>): (r: seq<T>)
    ensures SortedBy(key, r)
    ensures multiset(r) == multiset(s)
    ensures |r| == |s|
  {
    if s == [] then []
    else
      var rest := SortBy(key, s[1..]);
      InsertSorted(key, s[0], rest);
      InsertPermutes(key, s[0], rest);
      assert s == [s[0]] + s[1..];
      Insert(key, s[0], rest)
  }
}
