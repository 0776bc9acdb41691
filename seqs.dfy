/** Order-preserving filtering and the subsequence relation, shared by the row views. */
module Seqs {

  /** The elements of `s` that satisfy `p`, in their original order. */
  function Filter<T(!new)>(s: seq<T>, p: T -> bool): (r: seq<T>)
    ensures |r| <= |s|
    ensures forall x :: x in r <==> x in s && p(x)
  {
    if s == [] then []
    else
      var init := s[..|s| - 1];
      assert s == init + [s[|s| - 1]];
      Filter(init, p) + (if p(s[|s| - 1]) then [s[|s| - 1]] else [])
  }

  /** Filtering distributes over concatenation: it never reorders and never moves elements across a split. */
  lemma {:induction false} FilterAppend<T(!new)>(a: seq<T>, b: seq<T>, p: T -> bool)
    ensures Filter(a + b, p) == Filter(a, p) + Filter(b, p)
  {
    if b == [] {
      assert a + b == a;
    } else {
      var init := b[..|b| - 1];
      assert (a + b)[..|a + b| - 1] == a + init;
      assert (a + b)[|a + b| - 1] == b[|b| - 1];
      FilterAppend(a, init, p);
    }
  }

  /** `idx` lists, in strictly increasing order, positions of `b` holding the elements of `a`. */
  ghost predicate IsEmbedding<T>(idx: seq<nat>, a: seq<T>, b: seq<T>)
  {
    && |idx| == |a|
    && (forall k :: 0 <= k < |idx| ==> idx[k] < |b| && a[k] == b[idx[k]])
    && (forall k, l :: 0 <= k < l < |idx| ==> idx[k] < idx[l])
  }

  /** `a` is obtained from `b` by deleting elements. */
  ghost predicate IsSubseq<T>(a: seq<T>, b: seq<T>)
  {
    exists idx :: IsEmbedding(idx, a, b)
  }

  /** The empty sequence is a subsequence of everything. */
  lemma EmptySubseq<T>(b: seq<T>)
    ensures IsSubseq([], b)
  {
    assert IsEmbedding([], [], b);
  }

  /** Appending one element to both sides keeps a subsequence a subsequence. */
  lemma SubseqSnoc<T>(a: seq<T>, b: seq<T>, x: T)
    requires IsSubseq(a, b)
    ensures IsSubseq(a + [x], b + [x])
  {
    var idx: seq<nat> :| IsEmbedding(idx, a, b);
    var ext: seq<nat> := idx + [|b|];
    forall k | 0 <= k < |ext|
      ensures ext[k] < |b + [x]| && (a + [x])[k] == (b + [x])[ext[k]]
    {
      if k < |idx| {
        assert ext[k] == idx[k];
      }
    }
    assert IsEmbedding(ext, a + [x], b + [x]);
  }

  /** A subsequence of a subsequence is a subsequence. */
  lemma SubseqTrans<T>(a: seq<T>, b: seq<T>, c: seq<T>)
    requires IsSubseq(a, b) && IsSubseq(b, c)
    ensures IsSubseq(a, c)
  {
    var i1: seq<nat> :| IsEmbedding(i1, a, b);
    var i2: seq<nat> :| IsEmbedding(i2, b, c);
    var comp: seq<nat> := seq(|i1|, k requires 0 <= k < |i1| => i2[i1[k]]);
    assert IsEmbedding(comp, a, c);
  }

  /** Filtering only deletes elements. */
  lemma {:induction false} FilterIsSubseq<T(!new)>(s: seq<T>, p: T -> bool)
    ensures IsSubseq(Filter(s, p), s)
  {
    if s == [] {
      EmptySubseq(s);
    } else {
      var init, last := s[..|s| - 1], s[|s| - 1];
      assert s == init + [last];
      FilterIsSubseq(init, p);
      if p(last) {
        SubseqSnoc(Filter(init, p), init, last);
      } else {
        var idx: seq<nat> :| IsEmbedding(idx, Filter(init, p), init);
        assert IsEmbedding(idx, Filter(s, p), s);
      }
    }
  }

  /** Filtering a one-element sequence. */
  lemma FilterSingleton<T(!new)>(x: T, p: T -> bool)
    ensures Filter([x], p) == if p(x) then [x] else []
  {
    assert [x][..0] == [];
  }
}
