/**
 * `Array.prototype.filter` on sequences, with the facts both components use:
 * what it keeps, that it keeps order, and how two filters relate.
 */
module Sequences {

  /** `s.filter(keep)`: the elements of `s` for which `keep` holds, in their
      original order. An element is kept exactly when `keep` holds of it. */
  function FilterSeq<T>(s: seq<T>, keep: T -> bool): (r: seq<T>)
    ensures |r| <= |s|
    ensures forall i :: 0 <= i < |r| ==> r[i] in s && keep(r[i])
    ensures forall i :: 0 <= i < |s| && keep(s[i]) ==> s[i] in r
  {
    if s == [] then []
    else if keep(s[0]) then [s[0]] + FilterSeq(s[1..], keep)
    else FilterSeq(s[1..], keep)
  }

  /** Two predicates that agree on every element filter alike. */
  lemma {:induction false} FilterSeqAgree<T>(s: seq<T>, keep1: T -> bool, keep2: T -> bool)
    requires forall i :: 0 <= i < |s| ==> keep1(s[i]) == keep2(s[i])
    ensures FilterSeq(s, keep1) == FilterSeq(s, keep2)
  {
    if s != [] {
      FilterSeqAgree(s[1..], keep1, keep2);
    }
  }

  /** A predicate that holds of every element keeps the whole sequence. */
  lemma {:induction false} FilterSeqAll<T>(s: seq<T>, keep: T -> bool)
    requires forall i :: 0 <= i < |s| ==> keep(s[i])
    ensures FilterSeq(s, keep) == s
  {
    if s != [] {
      FilterSeqAll(s[1..], keep);
    }
  }

  /** A predicate that holds of no element keeps nothing. */
  lemma {:induction false} FilterSeqNone<T>(s: seq<T>, keep: T -> bool)
    requires forall i :: 0 <= i < |s| ==> !keep(s[i])
    ensures FilterSeq(s, keep) == []
  {
    if s != [] {
      FilterSeqNone(s[1..], keep);
    }
  }

  /** When `drop` holds exactly where `keep` does not, every element is counted
      by one of the two filters and none by both. */
  lemma {:induction false} FilterSeqComplement<T>(s: seq<T>, keep: T -> bool, drop: T -> bool)
    requires forall i :: 0 <= i < |s| ==> drop(s[i]) == !keep(s[i])
    ensures |FilterSeq(s, keep)| + |FilterSeq(s, drop)| == |s|
  {
    if s != [] {
      FilterSeqComplement(s[1..], keep, drop);
    }
  }

  /** `idx` picks out `a` from `b`: strictly increasing positions of `b` whose
      elements, in order, are those of `a`. */
  ghost predicate IsEmbedding<T>(idx: seq<nat>, a: seq<T>, b: seq<T>)
  {
    && |idx| == |a|
    && (forall k :: 0 <= k < |idx| ==> idx[k] < |b| && a[k] == b[idx[k]])
    && (forall k, l :: 0 <= k < l < |idx| ==> idx[k] < idx[l])
  }

  /** Shifts every position of an embedding by one, for an embedding into the
      tail of a sequence. */
  function Shift(idx: seq<nat>): (r: seq<nat>)
    ensures |r| == |idx| && forall k :: 0 <= k < |idx| ==> r[k] == idx[k] + 1
  {
    seq(|idx|, k requires 0 <= k < |idx| => idx[k] + 1)
  }

  /** `idx` holds exactly the positions of `s` whose element passes `keep`. */
  ghost predicate Selects<T>(idx: seq<nat>, s: seq<T>, keep: T -> bool)
  {
    forall i :: 0 <= i < |s| ==> (i in idx <==> keep(s[i]))
  }

  /** A position is in the shifted embedding exactly when the position before
      it is in the original; position 0 never is. */
  lemma ShiftMembers(idx: seq<nat>)
    ensures forall i :: i in Shift(idx) <==> 1 <= i && i - 1 in idx
  {
    var shifted := Shift(idx);
    forall i ensures i in shifted <==> 1 <= i && i - 1 in idx {
      if i in shifted {
        var k :| 0 <= k < |shifted| && shifted[k] == i;
        assert idx[k] == i - 1;
      }
      if 1 <= i && i - 1 in idx {
        var k :| 0 <= k < |idx| && idx[k] == i - 1;
        assert shifted[k] == i;
      }
    }
  }

  /** An embedding of `a` into `b` extends to one of `[x] + a` into `[x] + b`
      that picks position 0. */
  lemma EmbedKeep<T>(x: T, a: seq<T>, b: seq<T>, idx: seq<nat>)
    requires IsEmbedding(idx, a, b)
    ensures IsEmbedding([0] + Shift(idx), [x] + a, [x] + b)
  {
  }

  /** The positions chosen in the tail, shifted, plus position 0 are the
      chosen positions of a sequence whose head passes. */
  lemma SelectsKeep<T>(s: seq<T>, keep: T -> bool, idx': seq<nat>)
    requires s != [] && keep(s[0])
    requires Selects(idx', s[1..], keep)
    ensures Selects([0] + Shift(idx'), s, keep)
  {
    ShiftMembers(idx');
    var idx := [0] + Shift(idx');
    forall i | 0 <= i < |s| ensures i in idx <==> keep(s[i]) {
      if i > 0 {
        assert s[i] == s[1..][i - 1];
      }
    }
  }

  /** One step of the filter over a head that passes. */
  lemma StepKeep<T>(s: seq<T>, keep: T -> bool, idx': seq<nat>)
    requires s != [] && keep(s[0])
    requires IsEmbedding(idx', FilterSeq(s[1..], keep), s[1..]) && Selects(idx', s[1..], keep)
    ensures IsEmbedding([0] + Shift(idx'), FilterSeq(s, keep), s) && Selects([0] + Shift(idx'), s, keep)
  {
    EmbedKeep(s[0], FilterSeq(s[1..], keep), s[1..], idx');
    assert [s[0]] + s[1..] == s;
    SelectsKeep(s, keep, idx');
  }

  /** One step of the filter over a head that does not pass. */
  lemma StepSkip<T>(s: seq<T>, keep: T -> bool, idx': seq<nat>)
    requires s != [] && !keep(s[0])
    requires IsEmbedding(idx', FilterSeq(s[1..], keep), s[1..]) && Selects(idx', s[1..], keep)
    ensures IsEmbedding(Shift(idx'), FilterSeq(s, keep), s) && Selects(Shift(idx'), s, keep)
  {
    ShiftMembers(idx');
    var idx := Shift(idx');
    forall i | 0 <= i < |s| ensures i in idx <==> keep(s[i]) {
      if i > 0 {
        assert s[i] == s[1..][i - 1];
      }
    }
  }

  /** The filter keeps an order-preserving subsequence made of exactly the
      positions whose element passes: nothing that passes is dropped, nothing
      else is kept, and order is kept. */
  lemma {:induction false} FilterSeqSelectsPositions<T>(s: seq<T>, keep: T -> bool)
    ensures exists idx: seq<nat> :: IsEmbedding(idx, FilterSeq(s, keep), s) && Selects(idx, s, keep)
  {
    if s == [] {
      var idx: seq<nat> := [];
      assert IsEmbedding(idx, FilterSeq(s, keep), s) && Selects(idx, s, keep);
    } else {
      FilterSeqSelectsPositions(s[1..], keep);
      var idx' :| IsEmbedding(idx', FilterSeq(s[1..], keep), s[1..]) && Selects(idx', s[1..], keep);
      if keep(s[0]) {
        StepKeep(s, keep, idx');
      } else {
        StepSkip(s, keep, idx');
      }
    }
  }
}
