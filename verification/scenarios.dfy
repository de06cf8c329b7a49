/** Worked cases of the statistics routes: the threshold boundary, a learner
    with two classes, and a two-learner population. */
module Scenarios {
  import opened Options
  import opened Records
  import opened Classifier
  import opened Means
  import opened Weighting
  import opened Grouping
  import opened Pipeline

  /** One exam, one quiz and one homework entry, all scoring `x`. */
  function Entries(x: real): seq<ScoreEntry> {
    [ScoreEntry(ExamName, x), ScoreEntry(QuizName, x), ScoreEntry(HomeworkName, x)]
  }

  /** Equal scores in all three buckets give that score back. */
  lemma UniformEntries(x: real)
    ensures WeightedAvg(Partition(Entries(x))) == x
  {
    var e0, e1, e2 := ScoreEntry(ExamName, x), ScoreEntry(QuizName, x), ScoreEntry(HomeworkName, x);
    assert Classify(e0.kind) == Exam && Classify(e1.kind) == Quiz && Classify(e2.kind) == Homework;
    assert [e0][..0] == [];
    assert Partition([e0]) == Buckets([x], [], []);
    assert [e0, e1][..1] == [e0];
    assert Partition([e0, e1]) == Buckets([x], [x], []);
    assert Entries(x)[..2] == [e0, e1];
    assert Partition(Entries(x)) == Buckets([x], [x], [x]);
    AverageSingleton(x);
    assert WeightedAvg(Buckets([x], [x], [x])) == 0.5 * x + 0.3 * x + 0.2 * x;
  }

  /** A learner whose average is exactly 70 is not counted above 70, and with
      nobody above 70 the `above70` field is missing and `percentageAbove70`
      is null. */
  lemma ThresholdBoundary()
    ensures Facet([LearnerAverage(1, 70.0)]) == StatsResult(Some(1), None, Null)
  {
  }

  lemma AverageOfPair(x: real, y: real)
    ensures Average([x, y]) == (x + y) / 2.0
  {
    assert [x, y][..1] == [x] && [x][..0] == [];
    assert Sum([x, y]) == Sum([x]) + y == Sum([]) + x + y;
  }

  /** The learners of two weighted scores. */
  lemma LearnerIdsOfPair(cs: seq<ClassScore>)
    requires |cs| == 2
    ensures LearnerIds(cs) == {cs[0].learnerId, cs[1].learnerId}
  {
    assert cs[0] in cs && cs[1] in cs;
    forall c | c in cs ensures c == cs[0] || c == cs[1] {
    }
  }

  /** A learner with weighted scores 90 and 50 in two classes averages 70 and
      is not counted above 70. */
  lemma TwoClasses(cs: seq<ClassScore>)
    requires cs == [ClassScore(1, 1, 90.0), ClassScore(1, 2, 50.0)]
    ensures LearnerAverages(cs) == [LearnerAverage(1, 70.0)]
    ensures Facet(LearnerAverages(cs)).above70 == None
  {
    ClassAveragesOfPair(cs[0], cs[1], 1);
    assert ClassAveragesOf(cs, 1) == [90.0, 50.0];
    AverageOfPair(90.0, 50.0);
    LearnerIdsOfPair(cs);
    LearnerAveragesKeys(cs);
    LearnerAveragesValues(cs);
    var las := LearnerAverages(cs);
    assert |las| == 1;
    assert las[0] in las;
    assert las[0].learnerId in AverageIds(las);
    assert las == [LearnerAverage(1, 70.0)];
    assert las[..0] == [];
  }

  lemma PopulationKeys(records: seq<GradeRecord>)
    requires records == [GradeRecord(1, 10, Entries(100.0)), GradeRecord(2, 10, Entries(50.0))]
    ensures ScoredKeys(records) == {(1, 10), (2, 10)}
    ensures EntriesOf(records, (1, 10)) == Entries(100.0)
    ensures EntriesOf(records, (2, 10)) == Entries(50.0)
  {
    assert records[0] in records && records[1] in records;
    forall r | r in records ensures KeyOf(r) == (1, 10) || KeyOf(r) == (2, 10) {
    }
    var a, b := records[0], records[1];
    assert records[..1] == [a] && [a][..0] == [];
    forall k ensures EntriesOf(records, k) == (if KeyOf(a) == k then a.scores else []) + (if KeyOf(b) == k then b.scores else []) {
      assert EntriesOf([a], k) == EntriesOf([], k) + (if KeyOf(a) == k then a.scores else []);
    }
  }

  /** Two keyed scores with distinct keys, each in the set of two keys and
      each carrying its key's score, are the two given scores. */
  lemma TwoKeyed(cs: seq<ClassScore>, c0: ClassScore, c1: ClassScore)
    requires ClassKey(c0) != ClassKey(c1)
    requires |cs| == 2 && ClassKey(cs[0]) != ClassKey(cs[1])
    requires ClassKey(cs[0]) == ClassKey(c0) || ClassKey(cs[0]) == ClassKey(c1)
    requires ClassKey(cs[1]) == ClassKey(c0) || ClassKey(cs[1]) == ClassKey(c1)
    requires ClassKey(cs[0]) == ClassKey(c0) ==> cs[0].weightedAvg == c0.weightedAvg
    requires ClassKey(cs[0]) == ClassKey(c1) ==> cs[0].weightedAvg == c1.weightedAvg
    requires ClassKey(cs[1]) == ClassKey(c0) ==> cs[1].weightedAvg == c0.weightedAvg
    requires ClassKey(cs[1]) == ClassKey(c1) ==> cs[1].weightedAvg == c1.weightedAvg
    ensures cs == [c0, c1] || cs == [c1, c0]
  {
  }

  lemma KeysOfTwo(cs: seq<ClassScore>, k0: Key, k1: Key)
    requires |cs| == 2
    requires ClassKeys(cs) == {k0, k1}
    ensures ClassKey(cs[0]) == k0 || ClassKey(cs[0]) == k1
    ensures ClassKey(cs[1]) == k0 || ClassKey(cs[1]) == k1
  {
    assert cs[0] in cs && cs[1] in cs;
    assert ClassKey(cs[0]) in ClassKeys(cs);
    assert ClassKey(cs[1]) in ClassKeys(cs);
  }

  lemma TwoClassKeys(records: seq<GradeRecord>, k0: Key, k1: Key)
    requires k0 != k1
    requires ScoredKeys(records) == {k0, k1}
    ensures |ClassScores(records)| == 2
    ensures ClassKey(ClassScores(records)[0]) == k0 || ClassKey(ClassScores(records)[0]) == k1
    ensures ClassKey(ClassScores(records)[1]) == k0 || ClassKey(ClassScores(records)[1]) == k1
  {
    ClassScoresKeys(records);
    assert |{k0, k1}| == 2;
    KeysOfTwo(ClassScores(records), k0, k1);
  }

  lemma TwoClassWeights(records: seq<GradeRecord>, c0: ClassScore, c1: ClassScore)
    requires ScoredKeys(records) == {ClassKey(c0), ClassKey(c1)}
    requires WeightedAvg(Partition(EntriesOf(records, ClassKey(c0)))) == c0.weightedAvg
    requires WeightedAvg(Partition(EntriesOf(records, ClassKey(c1)))) == c1.weightedAvg
    requires |ClassScores(records)| == 2
    ensures ClassKey(ClassScores(records)[0]) == ClassKey(c0) ==> ClassScores(records)[0].weightedAvg == c0.weightedAvg
    ensures ClassKey(ClassScores(records)[0]) == ClassKey(c1) ==> ClassScores(records)[0].weightedAvg == c1.weightedAvg
    ensures ClassKey(ClassScores(records)[1]) == ClassKey(c0) ==> ClassScores(records)[1].weightedAvg == c0.weightedAvg
    ensures ClassKey(ClassScores(records)[1]) == ClassKey(c1) ==> ClassScores(records)[1].weightedAvg == c1.weightedAvg
  {
    ClassScoresWeights(records);
  }

  /** Two scored keys give two class scores, in one order or the other. */
  lemma TwoClassScores(records: seq<GradeRecord>, c0: ClassScore, c1: ClassScore)
    requires ClassKey(c0) != ClassKey(c1)
    requires ScoredKeys(records) == {ClassKey(c0), ClassKey(c1)}
    requires WeightedAvg(Partition(EntriesOf(records, ClassKey(c0)))) == c0.weightedAvg
    requires WeightedAvg(Partition(EntriesOf(records, ClassKey(c1)))) == c1.weightedAvg
    ensures ClassScores(records) == [c0, c1] || ClassScores(records) == [c1, c0]
  {
    TwoClassKeys(records, ClassKey(c0), ClassKey(c1));
    TwoClassWeights(records, c0, c1);
    TwoKeyed(ClassScores(records), c0, c1);
  }

  lemma ClassAveragesOfPair(c0: ClassScore, c1: ClassScore, l: int)
    ensures ClassAveragesOf([c0, c1], l)
            == (if c0.learnerId == l then [c0.weightedAvg] else []) + (if c1.learnerId == l then [c1.weightedAvg] else [])
  {
    assert [c0, c1][..1] == [c0] && [c0][..0] == [];
    assert ClassAveragesOf([c0], l) == ClassAveragesOf([], l) + (if c0.learnerId == l then [c0.weightedAvg] else []);
  }

  lemma TwoAveraged(las: seq<LearnerAverage>, a0: LearnerAverage, a1: LearnerAverage)
    requires a0.learnerId != a1.learnerId
    requires |las| == 2 && las[0].learnerId != las[1].learnerId
    requires las[0].learnerId == a0.learnerId || las[0].learnerId == a1.learnerId
    requires las[1].learnerId == a0.learnerId || las[1].learnerId == a1.learnerId
    requires las[0].learnerId == a0.learnerId ==> las[0].avgScore == a0.avgScore
    requires las[0].learnerId == a1.learnerId ==> las[0].avgScore == a1.avgScore
    requires las[1].learnerId == a0.learnerId ==> las[1].avgScore == a0.avgScore
    requires las[1].learnerId == a1.learnerId ==> las[1].avgScore == a1.avgScore
    ensures las == [a0, a1] || las == [a1, a0]
  {
  }

  /** Averages keyed by two distinct learners with one weighted score each
      are those scores. */
  lemma PairAverages(cs: seq<ClassScore>, las: seq<LearnerAverage>, c0: ClassScore, c1: ClassScore)
    requires c0.learnerId != c1.learnerId
    requires cs == [c0, c1]
    requires |las| == 2 && las[0].learnerId != las[1].learnerId
    requires AverageIds(las) == {c0.learnerId, c1.learnerId}
    requires forall i :: 0 <= i < |las| ==>
               |ClassAveragesOf(cs, las[i].learnerId)| > 0 &&
               las[i].avgScore == Average(ClassAveragesOf(cs, las[i].learnerId))
    ensures var a0, a1 := LearnerAverage(c0.learnerId, c0.weightedAvg), LearnerAverage(c1.learnerId, c1.weightedAvg);
            las == [a0, a1] || las == [a1, a0]
  {
    ClassAveragesOfPair(c0, c1, c0.learnerId);
    ClassAveragesOfPair(c0, c1, c1.learnerId);
    AverageSingleton(c0.weightedAvg);
    AverageSingleton(c1.weightedAvg);
    assert las[0] in las && las[1] in las;
    assert las[0].learnerId in AverageIds(las) && las[1].learnerId in AverageIds(las);
    TwoAveraged(las, LearnerAverage(c0.learnerId, c0.weightedAvg), LearnerAverage(c1.learnerId, c1.weightedAvg));
  }

  /** Two learners with one class each keep their class score as average. */
  lemma TwoLearnerAverages(cs: seq<ClassScore>, c0: ClassScore, c1: ClassScore)
    requires c0.learnerId != c1.learnerId
    requires cs == [c0, c1]
    ensures var a0, a1 := LearnerAverage(c0.learnerId, c0.weightedAvg), LearnerAverage(c1.learnerId, c1.weightedAvg);
            LearnerAverages(cs) == [a0, a1] || LearnerAverages(cs) == [a1, a0]
  {
    LearnerIdsOfPair(cs);
    LearnerAveragesKeys(cs);
    LearnerAveragesValues(cs);
    assert |{c0.learnerId, c1.learnerId}| == 2;
    PairAverages(cs, LearnerAverages(cs), c0, c1);
  }

  /** Learners averaging 100 and 50 give two learners, one above 70, 50%. */
  lemma TwoLearners(records: seq<GradeRecord>)
    requires records == [GradeRecord(1, 10, Entries(100.0)), GradeRecord(2, 10, Entries(50.0))]
    ensures PopulationStats(records) == StatsResult(Some(2), Some(1), Number(50.0))
  {
    PopulationKeys(records);
    UniformEntries(100.0);
    UniformEntries(50.0);
    var c0, c1 := ClassScore(1, 10, 100.0), ClassScore(2, 10, 50.0);
    TwoClassScores(records, c0, c1);
    var cs := ClassScores(records);
    if cs == [c0, c1] {
      TwoLearnerAverages(cs, c0, c1);
    } else {
      TwoLearnerAverages(cs, c1, c0);
    }
    var las := LearnerAverages(cs);
    TwoAboveOne(las);
  }

  lemma TwoAboveOne(las: seq<LearnerAverage>)
    requires las == [LearnerAverage(1, 100.0), LearnerAverage(2, 50.0)]
             || las == [LearnerAverage(2, 50.0), LearnerAverage(1, 100.0)]
    ensures Facet(las) == StatsResult(Some(2), Some(1), Number(50.0))
  {
    assert las[..1][..0] == [];
    assert CountAbove(las[..1]) == CountAbove(las[..1][..0]) + (if las[0].avgScore > Threshold then 1 else 0);
    assert CountAbove(las) == 1;
    assert PercentOf(1, 2) == 50.0;
  }
}
