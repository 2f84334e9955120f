/** The scenarios of tests/test_predictions.py, stated over the model. */
module PredictionScenarios {
  import opened Wrappers
  import opened Predictions

  function TestTruth(): seq<int> { [1, 2, 3, 4, 5, 4, 3, 2, 1] }

  function TestCandidates(): (c: seq<seq<int>>)
    ensures WellShaped(TestTruth(), c, 3)
  {
    seq(9, _ => [1, 2, 3])
  }

  /** tests/test_predictions.py:26-38: the three vectors yielded for nine rows of [1, 2, 3]. */
  lemma ThreeRankScenario()
    ensures EffectivePred(TestTruth(), TestCandidates(), 3, 0) == [1, 1, 1, 1, 1, 1, 1, 1, 1]
    ensures EffectivePred(TestTruth(), TestCandidates(), 3, 1) == [1, 2, 1, 1, 1, 1, 1, 2, 1]
    ensures EffectivePred(TestTruth(), TestCandidates(), 3, 2) == [1, 2, 3, 1, 1, 1, 3, 2, 1]
  {
    var t, c := TestTruth(), TestCandidates();
    var p0 := EffectivePred(t, c, 3, 0);
    var p1 := EffectivePred(t, c, 3, 1);
    var p2 := EffectivePred(t, c, 3, 2);
    assert p0 == Column(c, 0);
    assert p0 == [1, 1, 1, 1, 1, 1, 1, 1, 1];
    assert p1 == MaskedUpdate(t, c, p0, 1);
    assert p1 == [1, 2, 1, 1, 1, 1, 1, 2, 1];
    assert p2 == MaskedUpdate(t, c, p1, 2);
  }

  /** tests/test_predictions.py:61-86: y_true swapped with y_pred, None, equal to y_pred, or a 10 x 6 array. */
  lemma TruthShapeScenarios()
    ensures CheckShapes(Matrix(TestCandidates(), 3), Vector(TestTruth())) == Failure(TruthNotOneD([9, 3]))
    ensures CheckShapes(Scalar, Matrix(TestCandidates(), 3)) == Failure(TruthNotOneD([]))
    ensures CheckShapes(Matrix(TestCandidates(), 3), Matrix(TestCandidates(), 3)) == Failure(TruthNotOneD([9, 3]))
    ensures CheckShapes(Matrix(seq(10, _ => seq(6, _ => 0)), 6), Matrix(TestCandidates(), 3)) == Failure(TruthNotOneD([10, 6]))
  {
  }

  /** tests/test_predictions.py:110-135: y_pred None, equal to y_true, or a vector of 10 zeros. */
  lemma CandidateShapeScenarios()
    ensures CheckShapes(Vector(TestTruth()), Scalar) == Failure(CandidatesNotTwoD([]))
    ensures CheckShapes(Vector(TestTruth()), Vector(TestTruth())) == Failure(CandidatesNotTwoD([9]))
    ensures CheckShapes(Vector(TestTruth()), Vector(seq(10, _ => 0))) == Failure(CandidatesNotTwoD([10]))
  {
  }

  /** tests/test_predictions.py:159-168: one sample dropped from either input. */
  lemma SampleCountScenarios()
    ensures CheckShapes(Vector(TestTruth()[1..]), Matrix(TestCandidates(), 3)) == Failure(SampleCountMismatch(8, 9))
    ensures CheckShapes(Vector(TestTruth()), Matrix(TestCandidates()[1..], 3)) == Failure(SampleCountMismatch(9, 8))
  {
  }
}
