/** Order-preserving filtering of sequences, shared by the category views,
    the check-box selection and the batch summary. */
module Sequences {

  /** `idx` lists, in strictly increasing order, positions of `full` whose
      elements, read in that order, are exactly `sub`. */
  ghost predicate Embeds<T>(sub: seq<T>, full: seq<T>, idx: seq<nat>) {
    && |idx| == |sub|
    && (forall k :: 0 <= k < |idx| ==> idx[k] < |full| && sub[k] == full[idx[k]])
    && (forall k, l :: 0 <= k < l < |idx| ==> idx[k] < idx[l])
  }

  /** Appending the element at a later position extends an embedding. */
  lemma EmbedsSnoc<T>(sub: seq<T>, full: seq<T>, idx: seq<nat>, j: nat)
    requires Embeds(sub, full, idx)
    requires j < |full|
    requires forall k :: 0 <= k < |idx| ==> idx[k] < j
    ensures Embeds(sub + [full[j]], full, idx + [j])
  {
  }

  /** Python's `[x for x in s if p(x)]`. */
  function Filter<T>(s: seq<T>, p: T -> bool): (r: seq<T>)
    ensures |r| <= |s|
    ensures forall i :: 0 <= i < |r| ==> p(r[i]) && r[i] in s
    ensures forall i :: 0 <= i < |s| && p(s[i]) ==> s[i] in r
    decreases |s|
  {
    if s == [] then []
    else (if p(s[0]) then [s[0]] else []) + Filter(s[1..], p)
  }

  /** One step of `Filter`: the head is kept exactly when it satisfies `p`. */
  lemma FilterStep<T>(s: seq<T>, p: T -> bool)
    requires s != []
    ensures Filter(s, p) == Keep(s[0], p) + Filter(s[1..], p)
  {
  }

  /** `[x]` when `x` satisfies `p`, else nothing. */
  function Keep<T>(x: T, p: T -> bool): seq<T> {
    if p(x) then [x] else []
  }

  /** `Filter` unrolled over a four-element sequence. */
  lemma FilterOfFour<T>(s: seq<T>, p: T -> bool)
    requires |s| == 4
    ensures Filter(s, p) == Keep(s[0], p) + (Keep(s[1], p) + (Keep(s[2], p) + Keep(s[3], p)))
  {
    var s1, s2, s3 := s[1..], s[2..], s[3..];
    assert s1[1..] == s2 && s2[1..] == s3 && s3[1..] == [];
    FilterStep(s3, p);
    assert Filter(s3, p) == Keep(s[3], p);
    FilterStep(s2, p);
    FilterStep(s1, p);
    FilterStep(s, p);
  }

  /** Shifting every position of an embedding into `full` by one gives an
      embedding into `[x] + full`. */
  lemma EmbedsShift<T>(sub: seq<T>, x: T, full: seq<T>, idx: seq<nat>) returns (shifted: seq<nat>)
    requires Embeds(sub, full, idx)
    ensures Embeds(sub, [x] + full, shifted)
    ensures |shifted| == |idx|
    ensures forall k :: 0 <= k < |idx| ==> shifted[k] == idx[k] + 1
  {
    shifted := seq(|idx|, k requires 0 <= k < |idx| => idx[k] + 1);
  }

  /** An embedding whose positions all lie after the first element extends
      by that element at position 0. */
  lemma EmbedsCons<T>(sub: seq<T>, x: T, full: seq<T>, idx: seq<nat>)
    requires Embeds(sub, [x] + full, idx)
    requires forall k :: 0 <= k < |idx| ==> idx[k] > 0
    ensures Embeds([x] + sub, [x] + full, [0] + idx)
  {
  }

  /** Every position moved one to the right. */
  function Shift(idx: seq<nat>): (r: seq<nat>)
    ensures |r| == |idx|
    ensures forall k :: 0 <= k < |idx| ==> r[k] == idx[k] + 1
  {
    seq(|idx|, k requires 0 <= k < |idx| => idx[k] + 1)
  }

  /** The positions `Filter` keeps. */
  function FilterPositions<T>(s: seq<T>, p: T -> bool): (r: seq<nat>)
    decreases |s|
  {
    if s == [] then []
    else (if p(s[0]) then [0] else []) + Shift(FilterPositions(s[1..], p))
  }

  lemma {:induction false} FilterPositionsExact<T>(s: seq<T>, p: T -> bool)
    ensures forall i :: 0 <= i < |s| ==> (p(s[i]) <==> i in FilterPositions(s, p))
    decreases |s|
  {
    if s != [] {
      FilterPositionsExact(s[1..], p);
      var tail := FilterPositions(s[1..], p);
      var shifted := Shift(tail);
      assert 0 !in shifted;
      forall i | 0 < i < |s|
        ensures p(s[i]) <==> i in FilterPositions(s, p)
      {
        assert s[i] == s[1..][i - 1];
        if i in shifted {
          var k :| 0 <= k < |shifted| && shifted[k] == i;
          assert tail[k] == i - 1;
        }
        if i - 1 in tail {
          var k :| 0 <= k < |tail| && tail[k] == i - 1;
          assert shifted[k] == i;
        }
      }
    }
  }

  lemma {:induction false} FilterPositionsEmbed<T>(s: seq<T>, p: T -> bool)
    ensures Embeds(Filter(s, p), s, FilterPositions(s, p))
    decreases |s|
  {
    if s != [] {
      FilterPositionsEmbed(s[1..], p);
      assert [s[0]] + s[1..] == s;
      var tail := FilterPositions(s[1..], p);
      var shifted := EmbedsShift(Filter(s[1..], p), s[0], s[1..], tail);
      assert shifted == Shift(tail);
      if p(s[0]) {
        EmbedsCons(Filter(s[1..], p), s[0], s[1..], shifted);
      }
    }
  }

  /** Filtering keeps the elements in their original order, and the positions
      it keeps are exactly those whose element satisfies `p`. */
  lemma FilterEmbeds<T>(s: seq<T>, p: T -> bool) returns (idx: seq<nat>)
    ensures Embeds(Filter(s, p), s, idx)
    ensures forall i :: 0 <= i < |s| ==> (p(s[i]) <==> i in idx)
  {
    idx := FilterPositions(s, p);
    FilterPositionsEmbed(s, p);
    FilterPositionsExact(s, p);
  }

  /** Embeddings compose: positions of `b` in `c`, looked up at the
      positions of `a` in `b`. */
  lemma EmbedsCompose<T>(a: seq<T>, b: seq<T>, c: seq<T>, ab: seq<nat>, bc: seq<nat>) returns (ac: seq<nat>)
    requires Embeds(a, b, ab) && Embeds(b, c, bc)
    ensures Embeds(a, c, ac)
    ensures |ac| == |ab| && forall k :: 0 <= k < |ab| ==> ac[k] == bc[ab[k]]
  {
    ac := seq(|ab|, k requires 0 <= k < |ab| => bc[ab[k]]);
  }

  /** Filtering twice keeps, in order, exactly the positions that pass both
      filters. */
  lemma FilterTwiceEmbeds<T>(s: seq<T>, p: T -> bool, q: T -> bool) returns (idx: seq<nat>)
    ensures Embeds(Filter(Filter(s, p), q), s, idx)
    ensures forall i :: 0 <= i < |s| ==> (p(s[i]) && q(s[i]) <==> i in idx)
  {
    var once := Filter(s, p);
    var outer := FilterEmbeds(s, p);
    var inner := FilterEmbeds(once, q);
    idx := EmbedsCompose(Filter(once, q), once, s, inner, outer);
    forall i | 0 <= i < |s|
      ensures p(s[i]) && q(s[i]) <==> i in idx
    {
      if p(s[i]) && q(s[i]) {
        var j :| 0 <= j < |outer| && outer[j] == i;
        assert once[j] == s[i];
        var k :| 0 <= k < |inner| && inner[k] == j;
        assert idx[k] == i;
      }
      if i in idx {
        var k :| 0 <= k < |idx| && idx[k] == i;
        assert Filter(once, q)[k] == s[i];
        assert once[inner[k]] == s[i];
        assert inner[k] in inner;
        assert outer[inner[k]] in outer;
      }
    }
  }
}
