/**
  Rank-wise correction of ranked predictions (toppred/predictions.py).

  Given a truth vector of N labels and an N x K matrix of candidate labels
  (column j holds each sample's (j+1)-th most likely label), `TopPredictions`
  produces, for every rank 0 <= k < K, the vector that results from counting a
  sample as correctly predicted whenever its true label is among its first
  k+1 candidates.
*/
module Predictions {
  import opened Wrappers

  /**
    An input after `numpy.asarray`: the checks of the source only look at its
    number of dimensions and its shape.
  */
  datatype ArrayLike<L> =
    | Scalar                                   // 0-D: a single value, or None
    | Vector(items: seq<L>)                    // 1-D
    | Matrix(rows: seq<seq<L>>, width: nat)    // 2-D: |rows| rows of `width` entries
    | Tensor(shape: seq<nat>)                  // three or more dimensions (contents not modelled)
  {
    /** numpy arrays are rectangular, and a Tensor has at least three dimensions. */
    predicate Valid() {
      match this
      case Matrix(rows, width) => forall i :: 0 <= i < |rows| ==> |rows[i]| == width
      case Tensor(shape) => |shape| >= 3
      case _ => true
    }

    /** The `shape` attribute of the array. */
    function Shape(): (s: seq<nat>)
      ensures Valid() ==> (|s| == 1 <==> Vector?) && (|s| == 2 <==> Matrix?)
    {
      match this
      case Scalar => []
      case Vector(items) => [|items|]
      case Matrix(rows, width) => [|rows|, width]
      case Tensor(shape) => shape
    }

    /** The `ndim` attribute of the array. */
    function NDim(): nat {
      |Shape()|
    }
  }

  /** The ValueError / IndexError raised before anything is yielded. */
  datatype ShapeError =
    | TruthNotOneD(truthShape: seq<nat>)              // y_true.ndim != 1
    | CandidatesNotTwoD(candidateShape: seq<nat>)     // y_pred.ndim != 2
    | SampleCountMismatch(truthSamples: nat, candidateSamples: nat)
    | NoCandidateColumn                               // y_pred[:, 0] on an (N, 0) array

  /** N samples, each with exactly `width` candidate labels. */
  predicate WellShaped<L>(truth: seq<L>, candidates: seq<seq<L>>, width: nat) {
    |truth| == |candidates| && forall i :: 0 <= i < |candidates| ==> |candidates[i]| == width
  }

  /**
    The checks that precede the rank loop, in the order the source makes them.
    On success it returns the truth vector, the candidate rows and K.
  */
  function CheckShapes<L>(yTrue: ArrayLike<L>, yPred: ArrayLike<L>): (r: Result<(seq<L>, seq<seq<L>>, nat), ShapeError>)
    requires yTrue.Valid() && yPred.Valid()
    ensures yTrue.NDim() != 1 ==> r == Failure(TruthNotOneD(yTrue.Shape()))
    ensures yTrue.NDim() == 1 && yPred.NDim() != 2 ==> r == Failure(CandidatesNotTwoD(yPred.Shape()))
    ensures yTrue.NDim() == 1 && yPred.NDim() == 2 && yTrue.Shape()[0] != yPred.Shape()[0] ==>
              r == Failure(SampleCountMismatch(yTrue.Shape()[0], yPred.Shape()[0]))
    ensures yTrue.NDim() == 1 && yPred.NDim() == 2 && yTrue.Shape()[0] == yPred.Shape()[0] && yPred.Shape()[1] == 0 ==>
              r == Failure(NoCandidateColumn)
    ensures r.Success? <==>
              yTrue.NDim() == 1 && yPred.NDim() == 2 && yTrue.Shape()[0] == yPred.Shape()[0] && yPred.Shape()[1] > 0
    ensures r.Success? ==>
              yTrue == Vector(r.value.0) && yPred == Matrix(r.value.1, r.value.2) &&
              WellShaped(r.value.0, r.value.1, r.value.2) && r.value.2 > 0
  {
    match (yTrue, yPred)
    case (Vector(truth), Matrix(rows, width)) =>
      if |truth| != |rows| then Failure(SampleCountMismatch(|truth|, |rows|))
      else if width == 0 then Failure(NoCandidateColumn)
      else Success((truth, rows, width))
    case (Vector(_), _) => Failure(CandidatesNotTwoD(yPred.Shape()))
    case _ => Failure(TruthNotOneD(yTrue.Shape()))
  }

  /** Column j of the candidate matrix, `y_pred[:, j]`. */
  function Column<L>(candidates: seq<seq<L>>, j: nat): (c: seq<L>)
    requires forall i :: 0 <= i < |candidates| ==> j < |candidates[i]|
    ensures |c| == |candidates|
    ensures forall i :: 0 <= i < |c| ==> c[i] == candidates[i][j]
  {
    seq(|candidates|, i requires 0 <= i < |candidates| => candidates[i][j])
  }

  /**
    The masked update `result[correct] = y_pred[correct, k]` applied to `prev`:
    rows whose rank-k candidate equals the truth take that candidate.
  */
  function MaskedUpdate<L(==)>(truth: seq<L>, candidates: seq<seq<L>>, prev: seq<L>, k: nat): (r: seq<L>)
    requires |truth| == |candidates| == |prev|
    requires forall i :: 0 <= i < |candidates| ==> k < |candidates[i]|
    ensures |r| == |prev|
    ensures forall i :: 0 <= i < |r| ==> r[i] == if candidates[i][k] == truth[i] then truth[i] else prev[i]
  {
    seq(|prev|, i requires 0 <= i < |prev| => if candidates[i][k] == truth[i] then candidates[i][k] else prev[i])
  }

  /**
    The vector yielded at rank k: the buffer starts as column 0 and receives one
    masked update per rank 0, 1, ..., k.
  */
  function EffectivePred<L(==)>(truth: seq<L>, candidates: seq<seq<L>>, width: nat, k: nat): (r: seq<L>)
    requires WellShaped(truth, candidates, width) && k < width
    ensures |r| == |candidates|
  {
    if k == 0 then MaskedUpdate(truth, candidates, Column(candidates, 0), 0)
    else MaskedUpdate(truth, candidates, EffectivePred(truth, candidates, width, k - 1), k)
  }

  /** Sample i's true label is among its first k+1 candidates. */
  predicate HitWithin<L(==)>(truth: seq<L>, candidates: seq<seq<L>>, i: nat, k: nat): (hit: bool)
    requires i < |truth| == |candidates| && k < |candidates[i]|
    ensures hit <==> truth[i] in candidates[i][..k + 1]
  {
    exists j :: 0 <= j <= k && candidates[i][j] == truth[i]
  }

  /** Closed form of the rank-k vector: the truth when it was hit within k+1 candidates, else the first guess. */
  lemma {:induction false} EffectivePredAt<L>(truth: seq<L>, candidates: seq<seq<L>>, width: nat, k: nat, i: nat)
    requires WellShaped(truth, candidates, width) && k < width && i < |candidates|
    ensures EffectivePred(truth, candidates, width, k)[i] ==
            if HitWithin(truth, candidates, i, k) then truth[i] else candidates[i][0]
  {
    if k == 0 {
      if candidates[i][0] == truth[i] {
        assert HitWithin(truth, candidates, i, 0);
      }
    } else {
      EffectivePredAt(truth, candidates, width, k - 1, i);
      if HitWithin(truth, candidates, i, k) && !HitWithin(truth, candidates, i, k - 1) {
        var j :| 0 <= j <= k && candidates[i][j] == truth[i];
        assert j == k;
      }
      if candidates[i][k] == truth[i] {
        assert HitWithin(truth, candidates, i, k);
      }
    }
  }

  /** A sample is correct at rank k exactly when its truth is among its first k+1 candidates. */
  lemma CorrectIffHitWithin<L>(truth: seq<L>, candidates: seq<seq<L>>, width: nat, k: nat, i: nat)
    requires WellShaped(truth, candidates, width) && k < width && i < |candidates|
    ensures EffectivePred(truth, candidates, width, k)[i] == truth[i] <==> HitWithin(truth, candidates, i, k)
    ensures !HitWithin(truth, candidates, i, k) ==> EffectivePred(truth, candidates, width, k)[i] == candidates[i][0]
  {
    EffectivePredAt(truth, candidates, width, k, i);
    if candidates[i][0] == truth[i] {
      assert HitWithin(truth, candidates, i, k);
    }
  }

  /** Rank 0 yields column 0 unchanged: its masked update only rewrites entries that already hold y_pred[i][0]. */
  lemma RankZeroIsFirstColumn<L>(truth: seq<L>, candidates: seq<seq<L>>, width: nat)
    requires WellShaped(truth, candidates, width) && 0 < width
    ensures EffectivePred(truth, candidates, width, 0) == Column(candidates, 0)
  {
  }

  /**
    Monotonic correctness: once a sample is correct it stays correct at every
    larger rank, with the same label.
  */
  lemma MonotoneCorrectness<L>(truth: seq<L>, candidates: seq<seq<L>>, width: nat, k1: nat, k2: nat, i: nat)
    requires WellShaped(truth, candidates, width) && k1 <= k2 < width && i < |candidates|
    requires EffectivePred(truth, candidates, width, k1)[i] == truth[i]
    ensures EffectivePred(truth, candidates, width, k2)[i] == truth[i]
    ensures EffectivePred(truth, candidates, width, k2)[i] == EffectivePred(truth, candidates, width, k1)[i]
  {
    CorrectIffHitWithin(truth, candidates, width, k1, i);
    var j :| 0 <= j <= k1 && candidates[i][j] == truth[i];
    assert HitWithin(truth, candidates, i, k2);
    CorrectIffHitWithin(truth, candidates, width, k2, i);
  }

  /**
    The rank loop (toppred/predictions.py:52-64): a buffer initialised with
    column 0 receives the masked update of each rank in turn, and its contents
    are recorded after each update.
  */
  method RankScan<L(==)>(truth: seq<L>, candidates: seq<seq<L>>, width: nat) returns (out: seq<(nat, seq<L>)>)
    requires WellShaped(truth, candidates, width) && 0 < width
    ensures |out| == width
    ensures forall k :: 0 <= k < width ==> out[k].0 == k && out[k].1 == EffectivePred(truth, candidates, width, k)
  {
    var n := |candidates|;
    var result := new L[n](i requires 0 <= i < n => candidates[i][0]);
    out := [];
    for top := 0 to width
      invariant |out| == top
      invariant forall k :: 0 <= k < top ==> out[k].0 == k && out[k].1 == EffectivePred(truth, candidates, width, k)
      invariant result[..] == if top == 0 then Column(candidates, 0) else EffectivePred(truth, candidates, width, top - 1)
    {
      MaskRank(result, truth, candidates, width, top);
      ghost var current := EffectivePred(truth, candidates, width, top);
      assert result[..] == current;
      out := out + [(top, result[..])];
    }
  }

  /** `correct = y_pred[:, top] == y_true; result[correct] = y_pred[correct, top]` (toppred/predictions.py:58-61), one sample at a time. */
  method MaskRank<L(==)>(result: array<L>, truth: seq<L>, candidates: seq<seq<L>>, width: nat, top: nat)
    requires WellShaped(truth, candidates, width) && top < width && result.Length == |candidates|
    modifies result
    ensures result[..] == MaskedUpdate(truth, candidates, old(result[..]), top)
  {
    ghost var prev := result[..];
    for i := 0 to result.Length
      invariant forall j :: 0 <= j < i ==> result[j] == MaskedUpdate(truth, candidates, prev, top)[j]
      invariant forall j :: i <= j < result.Length ==> result[j] == prev[j]
    {
      if candidates[i][top] == truth[i] {
        result[i] := candidates[i][top];
      }
    }
    assert result[..] == MaskedUpdate(truth, candidates, prev, top);
  }

  /**
    `top_predictions`: every shape error is reported before anything is
    produced; otherwise one (rank, vector) pair per rank, in rank order.
  */
  method TopPredictions<L(==)>(yTrue: ArrayLike<L>, yPred: ArrayLike<L>) returns (r: Result<seq<(nat, seq<L>)>, ShapeError>)
    requires yTrue.Valid() && yPred.Valid()
    ensures yTrue.NDim() != 1 ==> r == Failure(TruthNotOneD(yTrue.Shape()))
    ensures yTrue.NDim() == 1 && yPred.NDim() != 2 ==> r == Failure(CandidatesNotTwoD(yPred.Shape()))
    ensures yTrue.NDim() == 1 && yPred.NDim() == 2 && yTrue.Shape()[0] != yPred.Shape()[0] ==>
              r == Failure(SampleCountMismatch(yTrue.Shape()[0], yPred.Shape()[0]))
    ensures yTrue.NDim() == 1 && yPred.NDim() == 2 && yTrue.Shape()[0] == yPred.Shape()[0] && yPred.Shape()[1] == 0 ==>
              r == Failure(NoCandidateColumn)
    ensures r.Success? <==>
              yTrue.NDim() == 1 && yPred.NDim() == 2 && yTrue.Shape()[0] == yPred.Shape()[0] && yPred.Shape()[1] > 0
    ensures r.Success? ==>
              yTrue.Vector? && yPred.Matrix? && |r.value| == yPred.width &&
              forall k :: 0 <= k < |r.value| ==>
                r.value[k].0 == k && |r.value[k].1| == |yTrue.items| &&
                r.value[k].1 == EffectivePred(yTrue.items, yPred.rows, yPred.width, k)
    ensures r.Success? ==>
              forall k, i :: 0 <= k < |r.value| && 0 <= i < |yTrue.items| ==>
                r.value[k].1[i] ==
                  if HitWithin(yTrue.items, yPred.rows, i, k) then yTrue.items[i] else yPred.rows[i][0]
  {
    var checked := CheckShapes(yTrue, yPred);
    if checked.Failure? {
      return Failure(checked.error);
    }
    var (truth, candidates, width) := checked.value;
    var out := RankScan(truth, candidates, width);
    forall k, i | 0 <= k < width && 0 <= i < |truth|
      ensures out[k].1[i] == if HitWithin(truth, candidates, i, k) then truth[i] else candidates[i][0]
    {
      EffectivePredAt(truth, candidates, width, k, i);
    }
    r := Success(out);
  }
}
