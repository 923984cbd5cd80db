/** Sequence operations the handlers share: `Array.prototype.filter`, the
    insertion-ordered de-duplication of `[...new Set(xs)]`, and the facts about
    them the handlers' contracts are proved from. */
module Seqs {

  /** `s.filter(p)`: the elements satisfying `p`, in their original order. */
  function Filter<T(!new)>(s: seq<T>, p: T -> bool): (r: seq<T>)
    ensures |r| <= |s|
    ensures forall x :: x in r <==> x in s && p(x)
    ensures forall k :: 0 <= k < |r| ==> p(r[k])
  {
    if |s| == 0 then []
    else if p(s[0]) then [s[0]] + Filter(s[1..], p)
    else Filter(s[1..], p)
  }

  /** One step of the filter: the first element, if kept, then the filtered rest. */
  lemma FilterCons<T(!new)>(s: seq<T>, p: T -> bool)
    requires |s| > 0
    ensures Filter(s, p) == (if p(s[0]) then [s[0]] else []) + Filter(s[1..], p)
  {
  }

  /** Filtering a concatenation filters each part. */
  lemma {:induction false} FilterAppend<T(!new)>(a: seq<T>, b: seq<T>, p: T -> bool)
    ensures Filter(a + b, p) == Filter(a, p) + Filter(b, p)
  {
    if |a| > 0 {
      assert (a + b)[1..] == a[1..] + b;
      FilterAppend(a[1..], b, p);
    } else {
      assert a + b == b;
    }
  }

  /** Filtering a sequence extended by one element. */
  lemma FilterSnoc<T(!new)>(s: seq<T>, x: T, p: T -> bool)
    ensures Filter(s + [x], p) == Filter(s, p) + (if p(x) then [x] else [])
  {
    FilterAppend(s, [x], p);
    FilterCons([x], p);
    assert [x][1..] == [];
  }

  /** Filtering keeps everything exactly when every element satisfies the predicate. */
  lemma {:induction false} FilterAll<T(!new)>(s: seq<T>, p: T -> bool)
    ensures Filter(s, p) == s <==> forall k :: 0 <= k < |s| ==> p(s[k])
  {
    if |s| > 0 {
      FilterAll(s[1..], p);
      assert s == [s[0]] + s[1..];
      if !p(s[0]) {
        assert |Filter(s, p)| < |s|;
      }
    }
  }

  /** Nothing is kept when no element satisfies the predicate. */
  lemma {:induction false} FilterNone<T(!new)>(s: seq<T>, p: T -> bool)
    requires forall k :: 0 <= k < |s| ==> !p(s[k])
    ensures Filter(s, p) == []
  {
    if |s| > 0 {
      FilterNone(s[1..], p);
    }
  }

  /** The positions of `s` holding an element that satisfies `p`. */
  ghost function Positions<T>(s: seq<T>, p: T -> bool): set<int> {
    set i | 0 <= i < |s| && p(s[i])
  }

  /** The number of elements satisfying `p` (`countDocuments` with a query):
      the number of positions holding such an element. */
  function CountWhere<T(!new)>(s: seq<T>, p: T -> bool): (n: nat)
    ensures n <= |s|
    ensures n == |Positions(s, p)|
  {
    FilterCountsPositions(s, p);
    |Filter(s, p)|
  }

  /** The positions of a sequence extended by one element. */
  lemma PositionsSnoc<T>(s: seq<T>, x: T, p: T -> bool)
    ensures Positions(s + [x], p) == Positions(s, p) + (if p(x) then {|s|} else {})
    ensures |s| !in Positions(s, p)
  {
    var t := s + [x];
    forall i | 0 <= i < |s|
      ensures t[i] == s[i]
    {
    }
    assert t[|s|] == x;
  }

  /** The filter keeps one element per position whose element satisfies `p`. */
  lemma {:induction false} FilterCountsPositions<T(!new)>(s: seq<T>, p: T -> bool)
    ensures |Filter(s, p)| == |Positions(s, p)|
    decreases |s|
  {
    if |s| == 0 {
      assert Positions(s, p) == {};
    } else {
      var n := |s| - 1;
      var init := s[..n];
      FilterCountsPositions(init, p);
      assert s == init + [s[n]];
      FilterSnoc(init, s[n], p);
      PositionsSnoc(init, s[n], p);
    }
  }

  /** Filtering by a stronger predicate after a weaker one is filtering by the stronger one. */
  lemma {:induction false} FilterNarrower<T(!new)>(s: seq<T>, p: T -> bool, q: T -> bool)
    requires forall k :: 0 <= k < |s| && q(s[k]) ==> p(s[k])
    ensures Filter(Filter(s, p), q) == Filter(s, q)
  {
    if |s| > 0 {
      var t := s[1..];
      FilterNarrower(t, p, q);
      if p(s[0]) {
        var f := [s[0]] + Filter(t, p);
        assert f[0] == s[0] && f[1..] == Filter(t, p);
      }
    }
  }

  /** A stronger predicate counts no more elements than a weaker one. */
  lemma CountNarrower<T(!new)>(s: seq<T>, p: T -> bool, q: T -> bool)
    requires forall k :: 0 <= k < |s| && q(s[k]) ==> p(s[k])
    ensures CountWhere(s, q) <= CountWhere(s, p)
  {
    FilterNarrower(s, p, q);
  }

  /** Adding one element in front of one part of a split adds it to the whole. */
  lemma MultisetCons<T>(x: T, a: seq<T>, b: seq<T>, t: seq<T>)
    requires multiset(a) + multiset(b) == multiset(t)
    ensures multiset([x] + a) + multiset(b) == multiset([x] + t)
    ensures multiset(b) + multiset([x] + a) == multiset([x] + t)
  {
    assert multiset([x] + a) == multiset{x} + multiset(a);
    assert multiset([x] + t) == multiset{x} + multiset(t);
  }

  /** A first element the predicate accepts is kept in front. */
  lemma FilterKeepsHead<T(!new)>(s: seq<T>, p: T -> bool)
    requires |s| > 0 && p(s[0])
    ensures Filter(s, p) == [s[0]] + Filter(s[1..], p)
  {
  }

  /** A first element the predicate rejects is dropped. */
  lemma FilterDropsHead<T(!new)>(s: seq<T>, p: T -> bool)
    requires |s| > 0 && !p(s[0])
    ensures Filter(s, p) == Filter(s[1..], p)
  {
  }

  /** One step of the partition: the first element goes to exactly one side. */
  lemma FilterPartitionStep<T(!new)>(s: seq<T>, p: T -> bool, q: T -> bool)
    requires |s| > 0 && q(s[0]) == !p(s[0])
    requires multiset(Filter(s[1..], p)) + multiset(Filter(s[1..], q)) == multiset(s[1..])
    ensures multiset(Filter(s, p)) + multiset(Filter(s, q)) == multiset(s)
  {
    var t := s[1..];
    assert s == [s[0]] + t;
    if p(s[0]) {
      FilterKeepsHead(s, p);
      FilterDropsHead(s, q);
      MultisetCons(s[0], Filter(t, p), Filter(t, q), t);
    } else {
      FilterDropsHead(s, p);
      FilterKeepsHead(s, q);
      MultisetCons(s[0], Filter(t, q), Filter(t, p), t);
    }
  }

  /** Filtering by a predicate and by its negation splits the elements: the two
      results together are a permutation of the input. */
  lemma {:induction false} FilterPartition<T(!new)>(s: seq<T>, p: T -> bool, q: T -> bool)
    requires forall k :: 0 <= k < |s| ==> q(s[k]) == !p(s[k])
    ensures multiset(Filter(s, p)) + multiset(Filter(s, q)) == multiset(s)
  {
    if |s| > 0 {
      var t := s[1..];
      assert forall k :: 0 <= k < |t| ==> q(t[k]) == !p(t[k]) by {
        forall k | 0 <= k < |t|
          ensures q(t[k]) == !p(t[k])
        {
          assert t[k] == s[k + 1];
        }
      }
      FilterPartition(t, p, q);
      FilterPartitionStep(s, p, q);
    }
  }

  /** The filter keeps every occurrence of a value it accepts. */
  lemma {:induction false} FilterKeepsCounts<T(!new)>(s: seq<T>, p: T -> bool)
    ensures forall x :: p(x) ==> multiset(Filter(s, p))[x] == multiset(s)[x]
  {
    if |s| > 0 {
      FilterKeepsCounts(s[1..], p);
      FilterCons(s, p);
      assert s == [s[0]] + s[1..];
      assert multiset(s) == multiset{s[0]} + multiset(s[1..]);
    }
  }

  /** The set of values of `s` satisfying `p`. */
  ghost function KeptSet<T(!new)>(s: seq<T>, p: T -> bool): set<T> {
    set x | x in s && p(x)
  }

  /** For a duplicate-free sequence, the filter's length is the number of distinct values kept. */
  lemma {:induction false} FilterCardinality<T(!new)>(s: seq<T>, p: T -> bool)
    requires NoDups(s)
    ensures |Filter(s, p)| == |KeptSet(s, p)|
  {
    if |s| == 0 {
      assert KeptSet(s, p) == {};
    } else {
      var t := s[1..];
      assert NoDups(t) by {
        forall i, j | 0 <= i < j < |t|
          ensures t[i] != t[j]
        {
          assert t[i] == s[i + 1] && t[j] == s[j + 1];
        }
      }
      FilterCardinality(t, p);
      FilterCons(s, p);
      assert s[0] !in t by {
        forall i | 0 <= i < |t|
          ensures t[i] != s[0]
        {
          assert t[i] == s[i + 1];
        }
      }
      assert forall x :: x in s <==> x == s[0] || x in t by {
        assert s == [s[0]] + t;
      }
      if p(s[0]) {
        assert KeptSet(s, p) == KeptSet(t, p) + {s[0]};
      } else {
        assert KeptSet(s, p) == KeptSet(t, p);
      }
    }
  }

  /** `a` can be obtained from `b` by deleting elements: its elements appear in `b` in the same order. */
  ghost predicate IsSubsequence<T>(a: seq<T>, b: seq<T>)
    decreases |b|
  {
    |a| == 0 || (|b| > 0 && if a[0] == b[0] then IsSubsequence(a[1..], b[1..]) else IsSubsequence(a, b[1..]))
  }

  /** A filter is an order-preserving subsequence of its input. */
  lemma {:induction false} FilterIsSubsequence<T(!new)>(s: seq<T>, p: T -> bool)
    ensures IsSubsequence(Filter(s, p), s)
  {
    if |s| > 0 {
      FilterIsSubsequence(s[1..], p);
      var r := Filter(s, p);
      if p(s[0]) {
        assert r[0] == s[0] && r[1..] == Filter(s[1..], p);
      } else if |r| > 0 {
        assert p(r[0]);
        assert r[0] != s[0];
      }
    }
  }

  /** No value occurs twice. */
  predicate NoDups<T(==)>(s: seq<T>) {
    forall i, j :: 0 <= i < j < |s| ==> s[i] != s[j]
  }

  /** Extending both sides by the same value keeps a subsequence one, with
      or without the value kept. */
  lemma {:induction false} SubsequenceSnoc<T>(a: seq<T>, b: seq<T>, x: T)
    requires IsSubsequence(a, b)
    ensures IsSubsequence(a + [x], b + [x])
    ensures IsSubsequence(a, b + [x])
    decreases |b|
  {
    if |b| == 0 {
      assert a + [x] == [x] && b + [x] == [x];
      assert [x][1..] == [];
    } else if |a| > 0 && a[0] == b[0] {
      SubsequenceSnoc(a[1..], b[1..], x);
      assert (a + [x])[1..] == a[1..] + [x];
      assert (b + [x])[1..] == b[1..] + [x];
    } else {
      SubsequenceSnoc(a, b[1..], x);
      assert (b + [x])[1..] == b[1..] + [x];
      if |a| == 0 {
        assert a + [x] == [x];
        assert [x][1..] == [];
      } else {
        assert (a + [x])[0] == a[0];
      }
    }
  }

  /** `[...new Set(s)]`: each value at its first occurrence, in that order.
      A JavaScript `Set` iterates in insertion order and ignores re-insertion. */
  function Dedup<T(==,!new)>(s: seq<T>): (r: seq<T>)
    ensures forall x :: x in r <==> x in s
    ensures NoDups(r)
    ensures IsSubsequence(r, s)
    ensures |r| <= |s|
    decreases |s|
  {
    if |s| == 0 then []
    else
      var r := Dedup(s[..|s| - 1]);
      var x := s[|s| - 1];
      assert s == s[..|s| - 1] + [x];
      assert forall y :: y in s <==> y in s[..|s| - 1] || y == x;
      SubsequenceSnoc(r, s[..|s| - 1], x);
      if x in r then r else r + [x]
  }

  /** The position of the first occurrence of `x` in `s`. */
  function IndexOf<T(==)>(s: seq<T>, x: T): (k: nat)
    requires x in s
    ensures k < |s| && s[k] == x && x !in s[..k]
  {
    if s[0] == x then 0
    else
      assert x in s[1..];
      var k := IndexOf(s[1..], x);
      assert s[..k + 1] == [s[0]] + s[1..][..k];
      k + 1
  }

  /** A position holding `x` with no earlier `x` is the first occurrence. */
  lemma {:induction false} IndexOfUnique<T>(s: seq<T>, x: T, k: nat)
    requires k < |s| && s[k] == x && x !in s[..k]
    ensures IndexOf(s, x) == k
    decreases k
  {
    if k > 0 {
      assert s[..k][0] == s[0];
      assert s[1..][..k - 1] == s[..k][1..];
      IndexOfUnique(s[1..], x, k - 1);
    }
  }

  /** Appending a value moves no first occurrence of a value already present,
      and a new value first occurs at the end. */
  lemma IndexOfSnoc<T>(s: seq<T>, x: T, y: T)
    requires y in s || y == x
    ensures y in s ==> IndexOf(s + [x], y) == IndexOf(s, y)
    ensures y !in s ==> IndexOf(s + [x], y) == |s|
  {
    var t := s + [x];
    if y in s {
      var m := IndexOf(s, y);
      assert t[..m] == s[..m];
      IndexOfUnique(t, y, m);
    } else {
      assert t[..|s|] == s;
      IndexOfUnique(t, y, |s|);
    }
  }

  /** The de-duplication lists the values in the order of their first
      occurrences: with the element set and the absence of duplicates, this
      determines it completely. */
  lemma {:induction false} DedupFirstOrder<T(!new)>(s: seq<T>)
    ensures forall i, j :: 0 <= i < j < |Dedup(s)| ==> IndexOf(s, Dedup(s)[i]) < IndexOf(s, Dedup(s)[j])
    decreases |s|
  {
    if |s| > 0 {
      var s' := s[..|s| - 1];
      var x := s[|s| - 1];
      assert s == s' + [x];
      var r' := Dedup(s');
      DedupFirstOrder(s');
      var r := Dedup(s);
      forall i, j | 0 <= i < j < |r|
        ensures IndexOf(s, r[i]) < IndexOf(s, r[j])
      {
        assert r[i] in s';
        IndexOfSnoc(s', x, r[i]);
        IndexOfSnoc(s', x, r[j]);
        if j == |r'| {
          assert r[j] == x && x !in s';
        } else {
          assert r[i] == r'[i] && r[j] == r'[j];
        }
      }
    }
  }

  /** Appending one value extends the de-duplication by it, unless already present. */
  lemma DedupSnoc<T(!new)>(s: seq<T>, x: T)
    ensures Dedup(s + [x]) == if x in s then Dedup(s) else Dedup(s) + [x]
  {
    assert (s + [x])[..|s + [x]| - 1] == s;
  }

  /** The de-duplication of a prefix is a prefix of the de-duplication. */
  lemma {:induction false} DedupPrefix<T(!new)>(a: seq<T>, b: seq<T>)
    ensures Dedup(a) <= Dedup(a + b)
    decreases |b|
  {
    if |b| > 0 {
      var b' := b[..|b| - 1];
      DedupPrefix(a, b');
      assert a + b == (a + b') + [b[|b| - 1]];
      DedupSnoc(a + b', b[|b| - 1]);
    } else {
      assert a + b == a;
    }
  }

  /** A duplicate-free sequence is its own de-duplication. */
  lemma {:induction false} DedupNoDups<T(!new)>(s: seq<T>)
    requires NoDups(s)
    ensures Dedup(s) == s
    decreases |s|
  {
    if |s| > 0 {
      var s' := s[..|s| - 1];
      assert NoDups(s');
      DedupNoDups(s');
      assert s == s' + [s[|s| - 1]];
      DedupSnoc(s', s[|s| - 1]);
    }
  }

  /** Appending only values already present in a duplicate-free sequence adds nothing. */
  lemma {:induction false} DedupAbsorbs<T(!new)>(c: seq<T>, b: seq<T>)
    requires NoDups(c)
    requires forall x :: x in b ==> x in c
    ensures Dedup(c + b) == c
    decreases |b|
  {
    if |b| == 0 {
      assert c + b == c;
      DedupNoDups(c);
    } else {
      var b' := b[..|b| - 1];
      assert forall x :: x in b' ==> x in b;
      DedupAbsorbs(c, b');
      assert c + b == (c + b') + [b[|b| - 1]];
      DedupSnoc(c + b', b[|b| - 1]);
    }
  }

  /** De-duplication is idempotent. */
  lemma DedupIdempotent<T(!new)>(s: seq<T>)
    ensures Dedup(Dedup(s)) == Dedup(s)
  {
    DedupNoDups(Dedup(s));
  }
}
