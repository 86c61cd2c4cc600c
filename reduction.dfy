/** The batch reducer `reduce_points`: a greedy, order-dependent thinning of
    one batch at 0.002 distance units, the first point seen winning. */
module Reduction {
  import opened Geometry

  /** `idx` places the elements of `a`, in order, at increasing positions of `b`. */
  predicate Embeds<T(==)>(idx: seq<int>, a: seq<T>, b: seq<T>) {
    && |idx| == |a|
    && (forall k :: 0 <= k < |idx| ==> 0 <= idx[k] < |b| && a[k] == b[idx[k]])
    && (forall k, l :: 0 <= k < l < |idx| ==> idx[k] < idx[l])
  }

  /** `a` is `b` with some elements dropped and the rest in their order. */
  ghost predicate IsSubsequence<T>(a: seq<T>, b: seq<T>) {
    exists idx :: Embeds(idx, a, b)
  }

  /** What `reduce_points` returns for `ps`, defined on the prefix seen so far:
      the last point is kept iff it is valid and no kept point is strictly
      closer than the local threshold. */
  function Reduce(ps: seq<LabeledPoint>): seq<LabeledPoint>
  {
    if ps == [] then []
    else
      var kept := Reduce(ps[..|ps| - 1]);
      var p := ps[|ps| - 1];
      if IsValidPoint(p.pos) && !NearAny(p.pos, kept, LocalSq) then kept + [p] else kept
  }

  /** Every returned point is valid and every pair is at least 0.002 apart. */
  lemma {:induction false} ReduceValidSeparated(ps: seq<LabeledPoint>)
    ensures AllValid(Reduce(ps)) && Separated(Reduce(ps), LocalSq)
  {
    if ps != [] {
      var kept := Reduce(ps[..|ps| - 1]);
      ReduceValidSeparated(ps[..|ps| - 1]);
      var p := ps[|ps| - 1];
      if IsValidPoint(p.pos) && !NearAny(p.pos, kept, LocalSq) {
        AppendFarKeepsSeparated(kept, p, LocalSq);
      }
    }
  }

  /** The result is an order-preserving subsequence of the input. */
  lemma {:induction false} ReduceSubsequence(ps: seq<LabeledPoint>)
    ensures IsSubsequence(Reduce(ps), ps)
  {
    if ps == [] {
      assert Embeds([], Reduce(ps), ps);
    } else {
      var init := ps[..|ps| - 1];
      ReduceSubsequence(init);
      var idx :| Embeds(idx, Reduce(init), init);
      if Reduce(ps) == Reduce(init) {
        assert Embeds(idx, Reduce(ps), ps);
      } else {
        assert Embeds(idx + [|ps| - 1], Reduce(ps), ps);
      }
    }
  }

  /** At most one point is kept per input point. */
  lemma {:induction false} ReduceShorter(ps: seq<LabeledPoint>)
    ensures |Reduce(ps)| <= |ps|
  {
    if ps != [] {
      ReduceShorter(ps[..|ps| - 1]);
    }
  }

  /** Reducing a prefix of the batch gives a prefix of the result: a kept
      point is never removed or replaced by a later one. */
  lemma {:induction false} ReducePrefix(ps: seq<LabeledPoint>, j: int)
    requires 0 <= j <= |ps|
    ensures Reduce(ps[..j]) <= Reduce(ps)
    decreases |ps|
  {
    if j < |ps| {
      var init := ps[..|ps| - 1];
      assert init[..j] == ps[..j];
      ReducePrefix(init, j);
    } else {
      assert ps[..j] == ps;
    }
  }

  /** First seen wins: the i-th input is appended iff it is valid and no point
      kept from the earlier inputs is strictly within 0.002, and what has been
      kept up to it stays at the front of the final result. */
  lemma ReduceKeepsIff(ps: seq<LabeledPoint>, i: int)
    requires 0 <= i < |ps|
    ensures Reduce(ps[..i + 1]) == Reduce(ps[..i]) + [ps[i]]
            <==> IsValidPoint(ps[i].pos) && !NearAny(ps[i].pos, Reduce(ps[..i]), LocalSq)
    ensures Reduce(ps[..i + 1]) <= Reduce(ps)
  {
    assert ps[..i + 1][..i] == ps[..i];
    ReducePrefix(ps, i + 1);
  }

  /** Every valid input point is kept or lies strictly within 0.002 of a kept
      point: the reducer only drops what is already represented. */
  lemma {:induction false} ReduceCovers(ps: seq<LabeledPoint>, i: int)
    requires 0 <= i < |ps| && IsValidPoint(ps[i].pos)
    ensures NearAny(ps[i].pos, Reduce(ps), LocalSq)
  {
    var init := ps[..|ps| - 1];
    ReducePrefix(ps, |ps| - 1);
    if i < |ps| - 1 {
      ReduceCovers(init, i);
      NearAnyExtends(ps[i].pos, Reduce(init), Reduce(ps), LocalSq);
    } else if NearAny(ps[i].pos, Reduce(init), LocalSq) {
      NearAnyExtends(ps[i].pos, Reduce(init), Reduce(ps), LocalSq);
    } else {
      MemberIsNear(Reduce(ps), |Reduce(ps)| - 1, ps[i].pos, LocalSq);
    }
  }

  /** A batch of invalid points (in particular an empty one) reduces to nothing. */
  lemma {:induction false} ReduceAllInvalid(ps: seq<LabeledPoint>)
    requires forall k :: 0 <= k < |ps| ==> !IsValidPoint(ps[k].pos)
    ensures Reduce(ps) == []
  {
    if ps != [] {
      ReduceAllInvalid(ps[..|ps| - 1]);
    }
  }

  function At(x: real, y: real, z: real, labelId: Label): LabeledPoint {
    LabeledPoint(Vec(Finite(x), Finite(y), Finite(z)), labelId)
  }

  /** A point 0.001 from an earlier one collapses into it; a far one is kept. */
  lemma ReduceScenario()
    ensures Reduce([At(0.0, 0.0, 0.0, 1), At(0.0, 0.0, 0.001, 1), At(5.0, 5.0, 5.0, 2)])
         == [At(0.0, 0.0, 0.0, 1), At(5.0, 5.0, 5.0, 2)]
  {
    var a, b, c := At(0.0, 0.0, 0.0, 1), At(0.0, 0.0, 0.001, 1), At(5.0, 5.0, 5.0, 2);
    var ps := [a, b, c];
    assert ps[..1] == [a] && ps[..2] == [a, b] && [a, b][..1] == [a] && [a][..0] == [];
    assert Reduce([a]) == [a];
    assert DistSq(b.pos, a.pos) < LocalSq;
    assert Reduce([a, b]) == [a];
    assert DistSq(c.pos, a.pos) >= LocalSq;
  }
}
