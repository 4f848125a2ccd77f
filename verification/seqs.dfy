/** Sequence utilities: order-preserving filtering, subsequences and
    duplicate-freedom, with the lemmas the card engine needs about them. */
module Seqs {

  /** Keeps the elements of `xs` that satisfy `p`, in their original order
      (`Array.prototype.filter`). */
  function Filter<T(==,!new)>(p: T -> bool, xs: seq<T>): (r: seq<T>)
    ensures |r| <= |xs|
    ensures forall x :: x in r <==> x in xs && p(x)
    ensures forall i :: 0 <= i < |r| ==> p(r[i])
    decreases |xs|
  {
    if xs == [] then []
    else (if p(xs[0]) then [xs[0]] else []) + Filter(p, xs[1..])
  }

  /** `a` can be obtained from `b` by deleting elements. */
  predicate IsSubseq<T(==)>(a: seq<T>, b: seq<T>)
    decreases |b|
  {
    a == [] || (b != [] && ((a[0] == b[0] && IsSubseq(a[1..], b[1..])) || IsSubseq(a, b[1..])))
  }

  /** No element occurs twice. */
  predicate NoDup<T(==)>(xs: seq<T>)
  {
    forall i, j :: 0 <= i < j < |xs| ==> xs[i] != xs[j]
  }

  lemma {:induction false} SubseqLength<T>(a: seq<T>, b: seq<T>)
    requires IsSubseq(a, b)
    ensures |a| <= |b|
    decreases |b|
  {
    if a != [] {
      if a[0] == b[0] && IsSubseq(a[1..], b[1..]) {
        SubseqLength(a[1..], b[1..]);
      } else {
        SubseqLength(a, b[1..]);
      }
    }
  }

  /** Filtering only deletes elements, never reorders or adds them. */
  lemma {:induction false} FilterIsSubseq<T(!new)>(p: T -> bool, xs: seq<T>)
    ensures IsSubseq(Filter(p, xs), xs)
    decreases |xs|
  {
    if xs != [] {
      FilterIsSubseq(p, xs[1..]);
      var r := Filter(p, xs);
      if p(xs[0]) {
        assert r[0] == xs[0] && r[1..] == Filter(p, xs[1..]);
      } else {
        assert r == Filter(p, xs[1..]);
      }
    }
  }

  lemma {:induction false} SubseqRefl<T>(xs: seq<T>)
    ensures IsSubseq(xs, xs)
    decreases |xs|
  {
    if xs != [] {
      SubseqRefl(xs[1..]);
    }
  }

  /** Deleting from a sequence obtained by deleting is deleting. */
  lemma {:induction false} SubseqTrans<T>(a: seq<T>, b: seq<T>, c: seq<T>)
    requires IsSubseq(a, b) && IsSubseq(b, c)
    ensures IsSubseq(a, c)
    decreases |c|
  {
    if a != [] {
      if b[0] == c[0] && IsSubseq(b[1..], c[1..]) {
        if a[0] == b[0] && IsSubseq(a[1..], b[1..]) {
          SubseqTrans(a[1..], b[1..], c[1..]);
        } else {
          SubseqTrans(a, b[1..], c[1..]);
        }
      } else {
        SubseqTrans(a, b, c[1..]);
      }
    }
  }

  /** Prepending an element keeps a subsequence a subsequence. */
  lemma SubseqCons<T>(a: seq<T>, h: T, b: seq<T>)
    requires IsSubseq(a, b)
    ensures IsSubseq(a, [h] + b)
  {
    assert ([h] + b)[1..] == b;
  }

  lemma FilterUnfold<T(!new)>(p: T -> bool, xs: seq<T>)
    requires xs != []
    ensures Filter(p, xs) == (if p(xs[0]) then [xs[0]] + Filter(p, xs[1..]) else Filter(p, xs[1..]))
  {
  }

  /** Filtering preserves the subsequence relation. */
  lemma {:induction false} FilterMono<T(!new)>(p: T -> bool, a: seq<T>, b: seq<T>)
    requires IsSubseq(a, b)
    ensures IsSubseq(Filter(p, a), Filter(p, b))
    decreases |b|
  {
    if a == [] {
      assert Filter(p, a) == [];
    } else {
      FilterUnfold(p, b);
      FilterUnfold(p, a);
      if a[0] == b[0] && IsSubseq(a[1..], b[1..]) {
        FilterMono(p, a[1..], b[1..]);
        if p(a[0]) {
          var fa, fb := Filter(p, a), Filter(p, b);
          assert fa[0] == fb[0] && fa[1..] == Filter(p, a[1..]) && fb[1..] == Filter(p, b[1..]);
        }
      } else {
        FilterMono(p, a, b[1..]);
        if p(b[0]) {
          SubseqCons(Filter(p, a), b[0], Filter(p, b[1..]));
        }
      }
    }
  }

  /** A stronger filter keeps a subsequence of what a weaker filter keeps. */
  lemma {:induction false} FilterStrongerIsSubseq<T(!new)>(p: T -> bool, q: T -> bool, xs: seq<T>)
    requires forall x :: p(x) ==> q(x)
    ensures IsSubseq(Filter(p, xs), Filter(q, xs))
    decreases |xs|
  {
    if xs != [] {
      FilterStrongerIsSubseq(p, q, xs[1..]);
      var a, b := Filter(p, xs), Filter(q, xs);
      if p(xs[0]) {
        assert a[0] == b[0] && a[1..] == Filter(p, xs[1..]) && b[1..] == Filter(q, xs[1..]);
      } else if q(xs[0]) {
        assert a == Filter(p, xs[1..]) && b[1..] == Filter(q, xs[1..]);
      } else {
        assert a == Filter(p, xs[1..]) && b == Filter(q, xs[1..]);
      }
    }
  }

  /** Filtering twice is filtering once by the conjunction. */
  lemma {:induction false} FilterFilter<T(!new)>(p: T -> bool, q: T -> bool, pq: T -> bool, xs: seq<T>)
    requires forall x :: pq(x) == (p(x) && q(x))
    ensures Filter(q, Filter(p, xs)) == Filter(pq, xs)
    decreases |xs|
  {
    if xs != [] {
      FilterFilter(p, q, pq, xs[1..]);
      FilterConcat(q, if p(xs[0]) then [xs[0]] else [], Filter(p, xs[1..]));
      assert Filter(q, [xs[0]]) == (if q(xs[0]) then [xs[0]] else []) by {
        assert [xs[0]][1..] == [];
      }
    }
  }

  /** Filtering distributes over concatenation. */
  lemma {:induction false} FilterConcat<T(!new)>(p: T -> bool, xs: seq<T>, ys: seq<T>)
    ensures Filter(p, xs + ys) == Filter(p, xs) + Filter(p, ys)
    decreases |xs|
  {
    if xs == [] {
      assert xs + ys == ys;
    } else {
      assert (xs + ys)[1..] == xs[1..] + ys;
      FilterConcat(p, xs[1..], ys);
    }
  }

  /** A filter that every element passes changes nothing. */
  lemma {:induction false} FilterAll<T(!new)>(p: T -> bool, xs: seq<T>)
    requires forall i :: 0 <= i < |xs| ==> p(xs[i])
    ensures Filter(p, xs) == xs
    decreases |xs|
  {
    if xs != [] {
      FilterAll(p, xs[1..]);
    }
  }

  /** Filtering a duplicate-free sequence leaves it duplicate-free. */
  lemma {:induction false} FilterNoDup<T(!new)>(p: T -> bool, xs: seq<T>)
    requires NoDup(xs)
    ensures NoDup(Filter(p, xs))
    decreases |xs|
  {
    if xs != [] {
      assert NoDup(xs[1..]) by {
        forall i, j | 0 <= i < j < |xs[1..]| ensures xs[1..][i] != xs[1..][j] {
          assert xs[1..][i] == xs[i + 1] && xs[1..][j] == xs[j + 1];
        }
      }
      FilterNoDup(p, xs[1..]);
      var rest := Filter(p, xs[1..]);
      assert xs[0] !in xs[1..] by {
        forall k | 0 <= k < |xs[1..]| ensures xs[1..][k] != xs[0] {
          assert xs[1..][k] == xs[k + 1];
        }
      }
      assert xs[0] !in rest;
      if p(xs[0]) {
        var r := [xs[0]] + rest;
        forall i, j | 0 <= i < j < |r| ensures r[i] != r[j] {
          if i == 0 {
            assert r[j] == rest[j - 1];
          } else {
            assert r[i] == rest[i - 1] && r[j] == rest[j - 1];
          }
        }
      }
    }
  }

  /** The tail of a duplicate-free sequence is duplicate-free and does not
      contain the head. */
  lemma NoDupTail<T>(xs: seq<T>)
    requires NoDup(xs) && xs != []
    ensures NoDup(xs[1..]) && xs[0] !in xs[1..]
  {
    forall i, j | 0 <= i < j < |xs[1..]| ensures xs[1..][i] != xs[1..][j] {
      assert xs[1..][i] == xs[i + 1] && xs[1..][j] == xs[j + 1];
    }
    forall k | 0 <= k < |xs[1..]| ensures xs[1..][k] != xs[0] {
      assert xs[1..][k] == xs[k + 1];
    }
  }

  /** Concatenating two duplicate-free sequences with no common element. */
  lemma NoDupConcat<T>(xs: seq<T>, ys: seq<T>)
    requires NoDup(xs) && NoDup(ys)
    requires forall x :: x in xs ==> x !in ys
    ensures NoDup(xs + ys)
  {
    var r := xs + ys;
    forall i, j | 0 <= i < j < |r| ensures r[i] != r[j] {
      if j < |xs| {
        assert r[i] == xs[i] && r[j] == xs[j];
      } else if i >= |xs| {
        assert r[i] == ys[i - |xs|] && r[j] == ys[j - |xs|];
      } else {
        assert r[i] == xs[i] && r[j] == ys[j - |xs|];
        assert xs[i] in xs;
      }
    }
  }

  /** Every element comes before every later one under `lt`. */
  predicate Sorted<T>(lt: (T, T) -> bool, xs: seq<T>)
  {
    forall i, j :: 0 <= i < j < |xs| ==> lt(xs[i], xs[j])
  }

  /** Filtering keeps a sorted sequence sorted. */
  lemma {:induction false} FilterSorted<T(!new)>(p: T -> bool, lt: (T, T) -> bool, xs: seq<T>)
    requires Sorted(lt, xs)
    ensures Sorted(lt, Filter(p, xs))
    decreases |xs|
  {
    if xs != [] {
      FilterSorted(p, lt, xs[1..]);
      var rest := Filter(p, xs[1..]);
      if p(xs[0]) {
        var r := [xs[0]] + rest;
        forall i, j | 0 <= i < j < |r| ensures lt(r[i], r[j]) {
          assert r[j] == rest[j - 1];
          if i == 0 {
            var m :| 0 <= m < |xs[1..]| && xs[1..][m] == rest[j - 1];
            assert xs[m + 1] == r[j];
          } else {
            assert r[i] == rest[i - 1];
          }
        }
      }
    }
  }

  /** Two sorted sequences, every element of the first before every element
      of the second, concatenate to a sorted sequence. */
  lemma SortedConcat<T>(lt: (T, T) -> bool, xs: seq<T>, ys: seq<T>)
    requires Sorted(lt, xs) && Sorted(lt, ys)
    requires forall i, j :: 0 <= i < |xs| && 0 <= j < |ys| ==> lt(xs[i], ys[j])
    ensures Sorted(lt, xs + ys)
  {
    var r := xs + ys;
    forall i, j | 0 <= i < j < |r| ensures lt(r[i], r[j]) {
      if j < |xs| {
        assert r[i] == xs[i] && r[j] == xs[j];
      } else if i >= |xs| {
        assert r[i] == ys[i - |xs|] && r[j] == ys[j - |xs|];
      } else {
        assert r[i] == xs[i] && r[j] == ys[j - |xs|];
      }
    }
  }
}
