/**
 Order-preserving selection over sequences: the `Array.prototype.filter`,
 `.filter(..).length` and `Array.prototype.find` idioms that every screen of the
 dashboard derives its lists and header counts with.
 */
module Seqs {

  datatype Option<+T> = None | Some(value: T)

  /** The elements of `s` satisfying `p`, in their original order. */
  function Filter<T(!new)>(s: seq<T>, p: T -> bool): (r: seq<T>)
    ensures |r| <= |s|
    ensures forall x :: x in r <==> x in s && p(x)
    decreases |s|
  {
    if |s| == 0 then []
    else (if p(s[0]) then [s[0]] else []) + Filter(s[1..], p)
  }

  /** Reference count: how many positions of `s` hold an element satisfying `p`. */
  function CountWhere<T>(s: seq<T>, p: T -> bool): (n: nat)
    ensures n <= |s|
    ensures n == 0 <==> forall i :: 0 <= i < |s| ==> !p(s[i])
    decreases |s|
  {
    if |s| == 0 then 0
    else (if p(s[0]) then 1 else 0) + CountWhere(s[1..], p)
  }

  /** `a` can be obtained from `b` by deleting elements (order is kept). */
  ghost predicate IsSubseq<T>(a: seq<T>, b: seq<T>)
    decreases |b|
  {
    if |a| == 0 then true
    else if |b| == 0 then false
    else (a[0] == b[0] && IsSubseq(a[1..], b[1..])) || IsSubseq(a, b[1..])
  }

  /** Pairwise distinct keys, e.g. the `id` field of a record collection. */
  ghost predicate KeysDistinct<T, K>(s: seq<T>, key: T -> K)
  {
    forall i, j :: 0 <= i < j < |s| ==> key(s[i]) != key(s[j])
  }

  /** Index of the first element satisfying `p`, if any. */
  function FindFirst<T>(s: seq<T>, p: T -> bool): (r: Option<nat>)
    ensures r.Some? ==> r.value < |s| && p(s[r.value])
    ensures r.Some? ==> forall j :: 0 <= j < r.value ==> !p(s[j])
    ensures r.None? <==> forall j :: 0 <= j < |s| ==> !p(s[j])
    decreases |s|
  {
    if |s| == 0 then None
    else if p(s[0]) then Some(0)
    else match FindFirst(s[1..], p)
      case None => None
      case Some(k) => Some(k + 1)
  }

  lemma {:induction false} FilterIsSubseq<T(!new)>(s: seq<T>, p: T -> bool)
    ensures IsSubseq(Filter(s, p), s)
    decreases |s|
  {
    if |s| > 0 {
      FilterIsSubseq(s[1..], p);
      var r := Filter(s, p);
      if p(s[0]) {
        assert r[0] == s[0] && r[1..] == Filter(s[1..], p);
      } else {
        assert r == Filter(s[1..], p);
        SubseqDropHead(r, s);
      }
    }
  }

  /** Dropping the first element of the longer sequence keeps a subsequence relation. */
  lemma {:induction false} SubseqDropHead<T(!new)>(a: seq<T>, b: seq<T>)
    requires |b| > 0 && IsSubseq(a, b[1..])
    ensures IsSubseq(a, b)
  {
  }

  lemma {:induction false} FilterLength<T(!new)>(s: seq<T>, p: T -> bool)
    ensures |Filter(s, p)| == CountWhere(s, p)
    decreases |s|
  {
    if |s| > 0 {
      FilterLength(s[1..], p);
    }
  }

  /** A subsequence made of `p`-elements cannot be longer than the number of `p`-elements. */
  lemma {:induction false} SubseqCountBound<T(!new)>(a: seq<T>, b: seq<T>, p: T -> bool)
    requires IsSubseq(a, b)
    requires forall x :: x in a ==> p(x)
    ensures |a| <= CountWhere(b, p)
    decreases |b|
  {
    if |a| > 0 {
      assert |b| > 0;
      if a[0] == b[0] && IsSubseq(a[1..], b[1..]) {
        assert a[0] in a;
        assert forall x :: x in a[1..] ==> x in a;
        SubseqCountBound(a[1..], b[1..], p);
      } else {
        SubseqCountBound(a, b[1..], p);
      }
    }
  }

  /**
   Characterisation of Filter: a sequence is the filtered view of `s` exactly when it
   is a subsequence of `s`, holds only `p`-elements, and is as long as the number of
   `p`-elements of `s`.
   */
  lemma {:induction false} FilterCharacterisation<T(!new)>(s: seq<T>, p: T -> bool, r: seq<T>)
    ensures r == Filter(s, p) <==>
      (IsSubseq(r, s) && (forall x :: x in r ==> p(x)) && |r| == CountWhere(s, p))
  {
    if r == Filter(s, p) {
      FilterIsSubseq(s, p);
      FilterLength(s, p);
    }
    if IsSubseq(r, s) && (forall x :: x in r ==> p(x)) && |r| == CountWhere(s, p) {
      FilterUnique(s, p, r);
    }
  }

  lemma {:induction false} FilterUnique<T(!new)>(s: seq<T>, p: T -> bool, r: seq<T>)
    requires IsSubseq(r, s)
    requires forall x :: x in r ==> p(x)
    requires |r| == CountWhere(s, p)
    ensures r == Filter(s, p)
    decreases |s|
  {
    FilterLength(s, p);
    if |r| > 0 {
      assert r[0] in r;
      if p(s[0]) {
        SubseqKeepsHead(s, p, r);
        AllPassTail(r, p);
        FilterUnique(s[1..], p, r[1..]);
        assert r == [s[0]] + r[1..];
      } else {
        FilterUnique(s[1..], p, r);
      }
    }
  }

  /** A full-length subsequence of `p`-elements must take the head of `s` when the head passes `p`. */
  lemma SubseqKeepsHead<T(!new)>(s: seq<T>, p: T -> bool, r: seq<T>)
    requires IsSubseq(r, s) && |r| > 0 && |s| > 0 && p(s[0])
    requires forall x :: x in r ==> p(x)
    requires |r| == CountWhere(s, p)
    ensures r[0] == s[0] && IsSubseq(r[1..], s[1..])
  {
    if !(r[0] == s[0] && IsSubseq(r[1..], s[1..])) {
      SubseqCountBound(r, s[1..], p);
    }
  }

  lemma AllPassTail<T>(r: seq<T>, p: T -> bool)
    requires |r| > 0 && forall x :: x in r ==> p(x)
    ensures forall x :: x in r[1..] ==> p(x)
  {
    assert forall x :: x in r[1..] ==> x in r;
  }

  /** Filtering with a predicate every element satisfies is the identity. */
  lemma {:induction false} FilterAllPass<T(!new)>(s: seq<T>, p: T -> bool)
    requires forall x :: x in s ==> p(x)
    ensures Filter(s, p) == s
    decreases |s|
  {
    if |s| > 0 {
      assert s[0] in s;
      assert forall x :: x in s[1..] ==> x in s;
      FilterAllPass(s[1..], p);
      assert s == [s[0]] + s[1..];
    }
  }

  /** Building a filtered suffix right to left: an element passing `p` is prepended ... */
  lemma FilterFromKeep<T(!new)>(s: seq<T>, k: nat, p: T -> bool, r: seq<T>)
    requires k < |s| && p(s[k]) && Filter(s[k + 1..], p) == r
    ensures Filter(s[k..], p) == [s[k]] + r
  {
    assert s[k..][1..] == s[k + 1..];
  }

  /** ... and an element failing `p` is skipped. */
  lemma FilterFromDrop<T(!new)>(s: seq<T>, k: nat, p: T -> bool, r: seq<T>)
    requires k < |s| && !p(s[k]) && Filter(s[k + 1..], p) == r
    ensures Filter(s[k..], p) == r
  {
    assert s[k..][1..] == s[k + 1..];
  }

  /** Filter only looks at `p` on the elements of `s`. */
  lemma {:induction false} FilterCongruent<T(!new)>(s: seq<T>, p: T -> bool, q: T -> bool)
    requires forall x :: x in s ==> p(x) == q(x)
    ensures Filter(s, p) == Filter(s, q)
    decreases |s|
  {
    if |s| > 0 {
      assert s[0] in s;
      assert forall x :: x in s[1..] ==> x in s;
      FilterCongruent(s[1..], p, q);
    }
  }

  /** Two predicates that never hold together count at most `|s|` elements between them. */
  lemma {:induction false} CountDisjoint<T(!new)>(s: seq<T>, p: T -> bool, q: T -> bool)
    requires forall x :: x in s ==> !(p(x) && q(x))
    ensures CountWhere(s, p) + CountWhere(s, q) <= |s|
    decreases |s|
  {
    if |s| > 0 {
      assert s[0] in s;
      assert forall x :: x in s[1..] ==> x in s;
      CountDisjoint(s[1..], p, q);
    }
  }

  /** Counting is monotone in the predicate. */
  lemma {:induction false} CountMonotone<T(!new)>(s: seq<T>, p: T -> bool, q: T -> bool)
    requires forall x :: x in s && p(x) ==> q(x)
    ensures CountWhere(s, p) <= CountWhere(s, q)
    decreases |s|
  {
    if |s| > 0 {
      assert s[0] in s;
      assert forall x :: x in s[1..] ==> x in s;
      CountMonotone(s[1..], p, q);
    }
  }

  /** A predicate and its negation split `s` between them. */
  lemma {:induction false} CountComplement<T(!new)>(s: seq<T>, p: T -> bool, q: T -> bool)
    requires forall x :: x in s ==> q(x) == !p(x)
    ensures CountWhere(s, p) + CountWhere(s, q) == |s|
    decreases |s|
  {
    if |s| > 0 {
      assert s[0] in s;
      assert forall x :: x in s[1..] ==> x in s;
      CountComplement(s[1..], p, q);
    }
  }

  /** A filtered view of a collection with distinct keys still has distinct keys. */
  lemma {:induction false} FilterKeepsKeysDistinct<T(!new), K>(s: seq<T>, p: T -> bool, key: T -> K)
    requires KeysDistinct(s, key)
    ensures KeysDistinct(Filter(s, p), key)
    decreases |s|
  {
    if |s| > 0 {
      var t := Filter(s[1..], p);
      assert KeysDistinct(s[1..], key) by {
        forall i, j | 0 <= i < j < |s[1..]|
          ensures key(s[1..][i]) != key(s[1..][j])
        {
          assert s[1..][i] == s[i + 1] && s[1..][j] == s[j + 1];
        }
      }
      FilterKeepsKeysDistinct(s[1..], p, key);
      if p(s[0]) {
        var r := [s[0]] + t;
        assert r == Filter(s, p);
        forall i, j | 0 <= i < j < |r|
          ensures key(r[i]) != key(r[j])
        {
          if i == 0 {
            assert r[j] == t[j - 1] && t[j - 1] in t;
            assert r[j] in s[1..];
            var k :| 0 <= k < |s[1..]| && s[1..][k] == r[j];
            assert s[k + 1] == r[j];
          } else {
            assert r[i] == t[i - 1] && r[j] == t[j - 1];
          }
        }
      }
    }
  }
}
