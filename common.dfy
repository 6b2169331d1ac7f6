/** Sequence helpers shared by the screens: JavaScript's `filter`, `includes`
    and `sort` on arrays and strings, restated over Dafny sequences. */
module Common {

  datatype Option<+T> = None | Some(value: T) {
    function GetOr(default: T): T {
      match this
      case Some(v) => v
      case None => default
    }
  }

  /** `a` is an order-preserving sub-list of `b`. */
  predicate IsSubsequence<T(==)>(a: seq<T>, b: seq<T>)
    decreases |b|
  {
    if a == [] then true
    else if b == [] then false
    else if a[0] == b[0] then IsSubsequence(a[1..], b[1..])
    else IsSubsequence(a, b[1..])
  }

  lemma {:induction false} SubsequenceOfTail<T>(a: seq<T>, b: seq<T>, x: T)
    requires IsSubsequence(a, b)
    ensures IsSubsequence(a, [x] + b)
    decreases |b|, 1
  {
    var xb := [x] + b;
    assert xb[1..] == b;
    if a != [] && a[0] == x {
      // a[1..] is a sub-list of b because a is
      SubsequenceDropHead(a, b);
    }
  }

  lemma {:induction false} SubsequenceDropHead<T>(a: seq<T>, b: seq<T>)
    requires a != [] && IsSubsequence(a, b)
    ensures IsSubsequence(a[1..], b)
    decreases |b|, 0
  {
    if a[0] == b[0] {
      SubsequenceOfTail(a[1..], b[1..], b[0]);
      assert [b[0]] + b[1..] == b;
    } else {
      SubsequenceDropHead(a, b[1..]);
      SubsequenceOfTail(a[1..], b[1..], b[0]);
      assert [b[0]] + b[1..] == b;
    }
  }

  /** `Array.prototype.filter`: exactly the elements satisfying `p`, in
      their original order. */
  function Filter<T>(s: seq<T>, p: T -> bool): (r: seq<T>)
    ensures forall x :: x in r ==> x in s && p(x)
    ensures forall x :: x in s && p(x) ==> x in r
    ensures IsSubsequence(r, s)
  {
    if s == [] then []
    else
      var rest := Filter(s[1..], p);
      assert s == [s[0]] + s[1..];
      if p(s[0]) then
        assert ([s[0]] + rest)[1..] == rest;
        [s[0]] + rest
      else
        SubsequenceOfTail(rest, s[1..], s[0]);
        rest
  }

  lemma {:induction false} FilterAll<T>(s: seq<T>, p: T -> bool)
    requires forall x :: x in s ==> p(x)
    ensures Filter(s, p) == s
  {
    if s != [] {
      FilterAll(s[1..], p);
      assert [s[0]] + s[1..] == s;
    }
  }

  lemma {:induction false} FilterNone<T>(s: seq<T>, p: T -> bool)
    requires forall x :: x in s ==> !p(x)
    ensures Filter(s, p) == []
  {
    if s != [] {
      FilterNone(s[1..], p);
    }
  }

  lemma {:induction false} FilterLength<T>(s: seq<T>, p: T -> bool)
    ensures |Filter(s, p)| <= |s|
    ensures |Filter(s, p)| == |s| <==> forall x :: x in s ==> p(x)
  {
    if s != [] {
      FilterLength(s[1..], p);
      if !p(s[0]) {
        assert s[0] in s;
      } else if forall x :: x in s[1..] ==> p(x) {
        assert forall x :: x in s ==> x == s[0] || x in s[1..];
      } else {
        var y :| y in s[1..] && !p(y);
        assert y in s;
      }
    }
  }

  /** Filtering a list without repeats gives a list without repeats. */
  lemma {:induction false} FilterDistinct<T>(s: seq<T>, p: T -> bool)
    requires Distinct(s)
    ensures Distinct(Filter(s, p))
  {
    if s != [] {
      var rest := Filter(s[1..], p);
      assert Distinct(s[1..]) by {
        forall i, j | 0 <= i < j < |s[1..]| ensures s[1..][i] != s[1..][j] {
          assert s[1..][i] == s[i + 1] && s[1..][j] == s[j + 1];
        }
      }
      FilterDistinct(s[1..], p);
      if p(s[0]) {
        forall j | 0 <= j < |s[1..]| ensures s[1..][j] != s[0] {
          assert s[1..][j] == s[j + 1];
        }
        var r := [s[0]] + rest;
        forall i, j | 0 <= i < j < |r| ensures r[i] != r[j] {
          assert r[j] == rest[j - 1];
          if i > 0 {
            assert r[i] == rest[i - 1];
          } else {
            assert rest[j - 1] in s[1..];
          }
        }
      }
    }
  }

  /** `s.includes(t)` on strings: `t` occurs in `s` at some offset. */
  predicate Contains(s: string, t: string)
    decreases |s|
  {
    t <= s || (s != [] && Contains(s[1..], t))
  }

  /** `t` occurs in `s` starting at offset `i`. */
  predicate OccursAt(s: string, t: string, i: nat) {
    i + |t| <= |s| && s[i..i + |t|] == t
  }

  lemma {:induction false} ContainsWitness(s: string, t: string, i: nat)
    requires OccursAt(s, t, i)
    ensures Contains(s, t)
    decreases i
  {
    if i > 0 {
      assert s[1..][i - 1..i - 1 + |t|] == t;
      ContainsWitness(s[1..], t, i - 1);
    } else {
      assert t <= s;
    }
  }

  /** The converse of ContainsWitness: an occurrence has an offset. */
  lemma {:induction false} ContainsHasWitness(s: string, t: string)
    requires Contains(s, t)
    ensures exists i: nat :: OccursAt(s, t, i)
    decreases |s|
  {
    if t <= s {
      assert OccursAt(s, t, 0);
    } else {
      ContainsHasWitness(s[1..], t);
      var i: nat :| OccursAt(s[1..], t, i);
      assert s[i + 1..i + 1 + |t|] == s[1..][i..i + |t|];
      assert OccursAt(s, t, i + 1);
    }
  }

  /** Number of occurrences of `x` in `xs`. */
  function Count<T(==)>(xs: seq<T>, x: T): (n: nat)
    ensures n <= |xs|
    ensures n > 0 <==> x in xs
  {
    if xs == [] then 0 else (if xs[0] == x then 1 else 0) + Count(xs[1..], x)
  }

  lemma {:induction false} CountAppend<T>(xs: seq<T>, y: T, x: T)
    ensures Count(xs + [y], x) == Count(xs, x) + (if y == x then 1 else 0)
  {
    if xs != [] {
      assert (xs + [y])[1..] == xs[1..] + [y];
      CountAppend(xs[1..], y, x);
    }
  }

  predicate Distinct<T(==)>(s: seq<T>) {
    forall i, j :: 0 <= i < j < |s| ==> s[i] != s[j]
  }

  /** The distinct elements of `s` in order of first occurrence: the key
      order of a JavaScript `Map` or object filled from `s`. */
  function FirstOccurrences<T(==)>(s: seq<T>): (r: seq<T>)
    ensures forall x :: x in r ==> x in s
    ensures forall x :: x in s ==> x in r
    ensures Distinct(r)
  {
    if s == [] then []
    else
      var init := FirstOccurrences(s[..|s| - 1]);
      assert s == s[..|s| - 1] + [s[|s| - 1]];
      if s[|s| - 1] in s[..|s| - 1] then init else init + [s[|s| - 1]]
  }

  /** Filtering keeps every occurrence of an element the filter accepts. */
  lemma {:induction false} CountFilterKept<T>(s: seq<T>, p: T -> bool, x: T)
    requires p(x)
    ensures Count(Filter(s, p), x) == Count(s, x)
  {
    if s != [] {
      CountFilterKept(s[1..], p, x);
      if p(s[0]) {
        assert Filter(s, p) == [s[0]] + Filter(s[1..], p);
        assert ([s[0]] + Filter(s[1..], p))[1..] == Filter(s[1..], p);
      }
    }
  }

  /** Sum over the keys of the occurrence counts of each key in `xs`. */
  function SumCounts<T(==)>(keys: seq<T>, xs: seq<T>): nat {
    if keys == [] then 0 else Count(xs, keys[0]) + SumCounts(keys[1..], xs)
  }

  /** Keys whose counts agree in two lists have equal count sums. */
  lemma {:induction false} SumCountsSame<T>(keys: seq<T>, xs: seq<T>, ys: seq<T>)
    requires forall k :: k in keys ==> Count(xs, k) == Count(ys, k)
    ensures SumCounts(keys, xs) == SumCounts(keys, ys)
  {
    if keys != [] {
      SumCountsSame(keys[1..], xs, ys);
    }
  }

  lemma {:induction false} SumCountsCons<T>(keys: seq<T>, x: T, xs: seq<T>)
    requires Distinct(keys)
    ensures SumCounts(keys, [x] + xs) == SumCounts(keys, xs) + (if x in keys then 1 else 0)
  {
    if keys != [] {
      assert ([x] + xs)[1..] == xs;
      SumCountsCons(keys[1..], x, xs);
      assert x in keys <==> x == keys[0] || x in keys[1..];
    }
  }

  /** Counting each distinct key once accounts for every element of `xs`:
      the per-key counters of a tally sum to the number of tallied rows. */
  lemma {:induction false} SumCountsCovers<T>(keys: seq<T>, xs: seq<T>)
    requires Distinct(keys)
    requires forall x :: x in xs ==> x in keys
    ensures SumCounts(keys, xs) == |xs|
  {
    if xs == [] {
      SumCountsOfEmpty(keys, xs);
    } else {
      assert xs == [xs[0]] + xs[1..];
      SumCountsCovers(keys, xs[1..]);
      SumCountsCons(keys, xs[0], xs[1..]);
    }
  }

  lemma {:induction false} SumCountsOfEmpty<T>(keys: seq<T>, xs: seq<T>)
    requires xs == []
    ensures SumCounts(keys, xs) == 0
  {
    if keys != [] {
      SumCountsOfEmpty(keys[1..], xs);
    }
  }

  /** `SumOf(s, f)`: the sum of `f` over the elements of `s`. */
  function SumOf<T>(s: seq<T>, f: T -> int): int {
    if s == [] then 0 else f(s[0]) + SumOf(s[1..], f)
  }

  predicate SortedDesc<T>(s: seq<T>, key: T -> int) {
    forall i, j :: 0 <= i < j < |s| ==> key(s[i]) >= key(s[j])
  }

  /** Inserts `x` after the leading elements whose key exceeds `key(x)`,
      so `x` lands before the elements of equal key. */
  function Insert<T>(x: T, s: seq<T>, key: T -> int): (r: seq<T>)
    ensures |r| == |s| + 1
    ensures multiset(r) == multiset(s) + multiset{x}
  {
    if s == [] then [x]
    else if key(s[0]) > key(x) then
      assert s == [s[0]] + s[1..];
      [s[0]] + Insert(x, s[1..], key)
    else
      [x] + s
  }

  lemma {:induction false} InsertBounded<T>(x: T, s: seq<T>, key: T -> int, b: int)
    requires key(x) <= b
    requires forall i :: 0 <= i < |s| ==> key(s[i]) <= b
    ensures forall i :: 0 <= i < |Insert(x, s, key)| ==> key(Insert(x, s, key)[i]) <= b
  {
    if s != [] && key(s[0]) > key(x) {
      InsertBounded(x, s[1..], key, b);
    }
  }

  lemma {:induction false} InsertSorted<T>(x: T, s: seq<T>, key: T -> int)
    requires SortedDesc(s, key)
    ensures SortedDesc(Insert(x, s, key), key)
  {
    if s == [] {
    } else if key(s[0]) > key(x) {
      InsertSorted(x, s[1..], key);
      InsertBounded(x, s[1..], key, key(s[0]));
      ConsSorted(s[0], Insert(x, s[1..], key), key);
    } else {
      ConsSorted(x, s, key);
    }
  }

  /** A head no smaller than any element of a sorted tail keeps it sorted. */
  lemma ConsSorted<T>(x: T, s: seq<T>, key: T -> int)
    requires SortedDesc(s, key)
    requires forall i :: 0 <= i < |s| ==> key(s[i]) <= key(x)
    ensures SortedDesc([x] + s, key)
  {
    var r := [x] + s;
    forall i, j | 0 <= i < j < |r| ensures key(r[i]) >= key(r[j]) {
      assert r[j] == s[j - 1];
      if i > 0 {
        assert r[i] == s[i - 1];
      }
    }
  }

  /** The comparator `(a, b) => key(b) - key(a)` of a stable
      `Array.prototype.sort`: non-increasing by `key`. Each element is
      inserted in front of the later elements of equal key, which keeps
      ties in their original order. */
  function SortDesc<T>(s: seq<T>, key: T -> int): (r: seq<T>)
    ensures |r| == |s|
    ensures multiset(r) == multiset(s)
    ensures SortedDesc(r, key)
  {
    if s == [] then []
    else
      assert s == [s[0]] + s[1..];
      InsertSorted(s[0], SortDesc(s[1..], key), key);
      Insert(s[0], SortDesc(s[1..], key), key)
  }

  /** Sorting only reorders, so a sum over the list is unchanged. */
  lemma {:induction false} SortDescSum<T>(s: seq<T>, key: T -> int, f: T -> int)
    ensures SumOf(SortDesc(s, key), f) == SumOf(s, f)
  {
    if s != [] {
      SortDescSum(s[1..], key, f);
      InsertSumBy(s[0], SortDesc(s[1..], key), key, f);
    }
  }

  lemma {:induction false} InsertSumBy<T>(x: T, s: seq<T>, key: T -> int, f: T -> int)
    ensures SumOf(Insert(x, s, key), f) == SumOf(s, f) + f(x)
  {
    if s != [] && key(s[0]) > key(x) {
      InsertSumBy(x, s[1..], key, f);
      var r := Insert(x, s, key);
      assert r[1..] == Insert(x, s[1..], key);
    } else if s != [] {
      assert ([x] + s)[1..] == s;
    }
  }

  /** A list has no repeated element exactly when no element occurs twice
      in its multiset. */
  lemma {:induction false} DistinctMultiset<T>(s: seq<T>)
    ensures Distinct(s) <==> forall x :: multiset(s)[x] <= 1
  {
    if s != [] {
      var rest := s[1..];
      assert s == [s[0]] + rest;
      DistinctMultiset(rest);
      if Distinct(s) {
        assert Distinct(rest) by {
          forall i, j | 0 <= i < j < |rest| ensures rest[i] != rest[j] {
            assert s[i + 1] == rest[i] && s[j + 1] == rest[j];
          }
        }
        forall j | 0 <= j < |rest| ensures rest[j] != s[0] {
          assert s[j + 1] == rest[j];
        }
      } else {
        var i, j :| 0 <= i < j < |s| && s[i] == s[j];
        if i == 0 {
          assert s[0] in rest by { assert rest[j - 1] == s[j]; }
          assert multiset(s)[s[0]] == multiset(rest)[s[0]] + 1;
        } else {
          assert rest[i - 1] == rest[j - 1];
          assert !Distinct(rest);
          var x :| multiset(rest)[x] > 1;
          assert multiset(s) == multiset{s[0]} + multiset(rest);
          assert multiset(s)[x] > 1;
        }
      }
    }
  }

  /** Reordering a list without repeats keeps it without repeats. */
  lemma PermutationKeepsDistinct<T>(a: seq<T>, b: seq<T>)
    requires multiset(a) == multiset(b)
    requires Distinct(a)
    ensures Distinct(b)
  {
    DistinctMultiset(a);
    DistinctMultiset(b);
  }

  /** Two reorderings of each other hold the same elements. */
  lemma SamePermutationMembers<T>(a: seq<T>, b: seq<T>)
    requires multiset(a) == multiset(b)
    ensures forall x :: x in a ==> x in b
    ensures forall x :: x in b ==> x in a
  {
    forall x | x in a ensures x in b {
      assert x in multiset(a);
    }
    forall x | x in b ensures x in a {
      assert x in multiset(b);
    }
  }
}
