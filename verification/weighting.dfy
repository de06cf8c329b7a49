/** The `$project` stage that turns a group's buckets into one weighted score:
    the sum of 0.5, 0.3 and 0.2 times the exam, quiz and homework means. An
    empty bucket's `$avg` is null, `$multiply` keeps it null, and `$sum` over
    an expression list skips non-numeric operands, so an empty bucket adds
    nothing and the remaining weights are NOT rescaled. */
module Weighting {
  import opened Options
  import opened Means
  import opened Classifier

  const ExamWeight: real := 0.5
  const QuizWeight: real := 0.3
  const HomeworkWeight: real := 0.2

  /** One `$multiply` operand of the `$sum`: zero when the mean is null. */
  function Term(m: Option<real>, w: real): real {
    match m
    case Some(v) => v * w
    case None => 0.0
  }

  function WeightedAvg(b: Buckets): real {
    Term(Mean(b.exam), ExamWeight) + Term(Mean(b.quiz), QuizWeight) + Term(Mean(b.homework), HomeworkWeight)
  }

  /** The total weight of the buckets that hold at least one score. */
  function PresentWeight(b: Buckets): (w: real)
    ensures 0.0 <= w <= 1.0
    ensures w == 1.0 <==> |b.exam| > 0 && |b.quiz| > 0 && |b.homework| > 0
    ensures w == 0.0 <==> |b.exam| == 0 && |b.quiz| == 0 && |b.homework| == 0
  {
    (if |b.exam| > 0 then ExamWeight else 0.0)
    + (if |b.quiz| > 0 then QuizWeight else 0.0)
    + (if |b.homework| > 0 then HomeworkWeight else 0.0)
  }

  predicate AllIn(xs: seq<real>, lo: real, hi: real) {
    forall i :: 0 <= i < |xs| ==> lo <= xs[i] <= hi
  }

  lemma TermBounds(xs: seq<real>, w: real, lo: real, hi: real)
    requires w >= 0.0
    requires AllIn(xs, lo, hi)
    ensures |xs| > 0 ==> w * lo <= Term(Mean(xs), w) <= w * hi
    ensures |xs| == 0 ==> Term(Mean(xs), w) == 0.0
  {
    if |xs| > 0 {
      AverageBounds(xs, lo, hi);
      var a := Average(xs);
      assert Term(Mean(xs), w) == a * w == w * a;
      assert w * lo <= w * a <= w * hi by {
        assert w * (a - lo) >= 0.0;
        assert w * (hi - a) >= 0.0;
      }
    }
  }

  /** With every score in [lo, hi], the weighted score lies between lo and hi
      scaled by the weight of the non-empty buckets; empty buckets count as 0. */
  lemma WeightedAvgBounds(b: Buckets, lo: real, hi: real)
    requires AllIn(b.exam, lo, hi) && AllIn(b.quiz, lo, hi) && AllIn(b.homework, lo, hi)
    ensures PresentWeight(b) * lo <= WeightedAvg(b) <= PresentWeight(b) * hi
  {
    TermBounds(b.exam, ExamWeight, lo, hi);
    TermBounds(b.quiz, QuizWeight, lo, hi);
    TermBounds(b.homework, HomeworkWeight, lo, hi);
    var e := if |b.exam| > 0 then ExamWeight else 0.0;
    var q := if |b.quiz| > 0 then QuizWeight else 0.0;
    var h := if |b.homework| > 0 then HomeworkWeight else 0.0;
    assert PresentWeight(b) * lo == e * lo + q * lo + h * lo;
    assert PresentWeight(b) * hi == e * hi + q * hi + h * hi;
  }

  /** When all three buckets hold scores, the weights sum to one and the
      weighted score lies in the range of the scores. */
  lemma WeightedAvgInRange(b: Buckets, lo: real, hi: real)
    requires |b.exam| > 0 && |b.quiz| > 0 && |b.homework| > 0
    requires AllIn(b.exam, lo, hi) && AllIn(b.quiz, lo, hi) && AllIn(b.homework, lo, hi)
    ensures lo <= WeightedAvg(b) <= hi
  {
    WeightedAvgBounds(b, lo, hi);
  }

  /** With all three buckets present, the weighted score is 0.5, 0.3 and 0.2
      times the exam, quiz and homework means. */
  lemma WeightedAvgFull(b: Buckets)
    requires |b.exam| > 0 && |b.quiz| > 0 && |b.homework| > 0
    ensures WeightedAvg(b) == 0.5 * Average(b.exam) + 0.3 * Average(b.quiz) + 0.2 * Average(b.homework)
  {
  }

  /** An empty bucket adds nothing and leaves the other weights as they are:
      a group with only an exam score of 100 gets 50, not 100. */
  lemma EmptyBucketsContributeNothing()
    ensures WeightedAvg(Buckets([100.0], [], [])) == 50.0
    ensures WeightedAvg(Buckets([], [], [])) == 0.0
  {
  }

  /** Exam [80, 90], quiz [70], homework [100] give 42.5 + 21 + 20 = 83.5. */
  lemma WeightedAvgExample()
    ensures WeightedAvg(Buckets([80.0, 90.0], [70.0], [100.0])) == 83.5
  {
  }
}
