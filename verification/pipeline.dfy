/** The statistics aggregation of the `/stats` and `/stats/:id` routes:
    `$unwind` the scores, `$group` them by (learner, class) into three typed
    buckets, `$project` a weighted score per group, `$group` again by learner
    with `$avg`, and `$facet` the learner count and the count above 70. */
module Pipeline {
  import opened Options
  import opened Records
  import opened Classifier
  import opened Means
  import opened Weighting
  import opened Grouping

  // ---------------------------------------------------------------------
  // $unwind

  /** The rows `$unwind` makes of one document: one per score entry. */
  function RowsOf(r: GradeRecord): seq<(Key, ScoreEntry)> {
    Tag(KeyOf(r), r.scores)
  }

  function Tag(key: Key, es: seq<ScoreEntry>): seq<(Key, ScoreEntry)> {
    seq(|es|, i requires 0 <= i < |es| => (key, es[i]))
  }

  /** Reference definition: every score entry of the documents with key `k`,
      document by document, in order. */
  function EntriesOf(records: seq<GradeRecord>, k: Key): seq<ScoreEntry> {
    if |records| == 0 then []
    else
      var last := records[|records| - 1];
      EntriesOf(records[..|records| - 1], k) + (if KeyOf(last) == k then last.scores else [])
  }

  /** The number of score entries over all documents. */
  function TotalEntries(records: seq<GradeRecord>): nat {
    if |records| == 0 then 0
    else TotalEntries(records[..|records| - 1]) + |records[|records| - 1].scores|
  }

  /** The (learner, class) keys of the documents that have a score entry. */
  function ScoredKeys(records: seq<GradeRecord>): set<Key> {
    set r | r in records && |r.scores| > 0 :: KeyOf(r)
  }

  /** The learners of the documents that have a score entry. */
  function ScoredLearners(records: seq<GradeRecord>): set<int> {
    set r | r in records && |r.scores| > 0 :: r.learnerId
  }

  lemma {:induction false} ValuesOfTag(key: Key, es: seq<ScoreEntry>, k: Key)
    ensures ValuesOf(Tag(key, es), k) == if key == k then es else []
    decreases |es|
  {
    if |es| > 0 {
      var es' := es[..|es| - 1];
      assert Tag(key, es)[..|es| - 1] == Tag(key, es');
      ValuesOfTag(key, es', k);
    }
  }

  lemma KeySetTag(key: Key, es: seq<ScoreEntry>)
    ensures KeySet(Tag(key, es)) == if |es| > 0 then {key} else {}
  {
    if |es| > 0 {
      assert Tag(key, es)[0] in Tag(key, es);
    }
  }

  lemma KeySetAppend(a: seq<(Key, ScoreEntry)>, b: seq<(Key, ScoreEntry)>)
    ensures KeySet(a + b) == KeySet(a) + KeySet(b)
  {
    forall it | it in a + b ensures it in a || it in b {
    }
  }

  /** `$unwind`: the rows of every document, in document order. A document with
      no score entry yields no row. */
  function Unwind(records: seq<GradeRecord>): (rows: seq<(Key, ScoreEntry)>)
    ensures |rows| == TotalEntries(records)
    ensures KeySet(rows) == ScoredKeys(records)
    ensures forall k :: ValuesOf(rows, k) == EntriesOf(records, k)
    decreases |records|
  {
    if |records| == 0 then []
    else
      var prefix := records[..|records| - 1];
      var last := records[|records| - 1];
      UnwindStep(prefix, last, Unwind(prefix));
      Unwind(prefix) + RowsOf(last)
  }

  lemma UnwindStep(prefix: seq<GradeRecord>, last: GradeRecord, rows: seq<(Key, ScoreEntry)>)
    requires KeySet(rows) == ScoredKeys(prefix)
    requires forall k :: ValuesOf(rows, k) == EntriesOf(prefix, k)
    ensures KeySet(rows + RowsOf(last)) == ScoredKeys(prefix + [last])
    ensures forall k :: ValuesOf(rows + RowsOf(last), k) == EntriesOf(prefix + [last], k)
  {
    var records := prefix + [last];
    assert records[..|records| - 1] == prefix;
    KeySetAppend(rows, RowsOf(last));
    KeySetTag(KeyOf(last), last.scores);
    assert ScoredKeys(records) == ScoredKeys(prefix) + (if |last.scores| > 0 then {KeyOf(last)} else {}) by {
      forall r | r in records ensures r in prefix || r == last {
      }
    }
    forall k ensures ValuesOf(rows + RowsOf(last), k) == EntriesOf(records, k) {
      ValuesOfAppend(rows, RowsOf(last), k);
      ValuesOfTag(KeyOf(last), last.scores, k);
    }
  }

  /** An entry is among a key's entries exactly when a document with that key
      holds it. */
  lemma {:induction false} EntriesOfMembers(records: seq<GradeRecord>, k: Key, e: ScoreEntry)
    ensures e in EntriesOf(records, k) <==> exists r :: r in records && KeyOf(r) == k && e in r.scores
    decreases |records|
  {
    if |records| > 0 {
      var prefix := records[..|records| - 1];
      var last := records[|records| - 1];
      EntriesOfMembers(prefix, k, e);
      assert records == prefix + [last];
    }
  }

  // ---------------------------------------------------------------------
  // $group by (learner, class), then $project the weighted score

  /** One output document of the `$project` stage. */
  datatype ClassScore = ClassScore(learnerId: int, classId: int, weightedAvg: real)

  function ClassKey(c: ClassScore): Key {
    (c.learnerId, c.classId)
  }

  function ClassKeys(cs: seq<ClassScore>): set<Key> {
    set c | c in cs :: ClassKey(c)
  }

  function Weigh(g: Group<Key, ScoreEntry>): ClassScore {
    ClassScore(g.key.0, g.key.1, WeightedAvg(Partition(g.values)))
  }

  function WeighAll(groups: seq<Group<Key, ScoreEntry>>): seq<ClassScore> {
    seq(|groups|, i requires 0 <= i < |groups| => Weigh(groups[i]))
  }

  lemma WeighAllKeys(groups: seq<Group<Key, ScoreEntry>>)
    requires DistinctKeys(groups)
    ensures forall i, j :: 0 <= i < j < |groups| ==> ClassKey(WeighAll(groups)[i]) != ClassKey(WeighAll(groups)[j])
    ensures ClassKeys(WeighAll(groups)) == GroupKeys(groups)
    ensures |WeighAll(groups)| == |GroupKeys(groups)|
  {
    var cs := WeighAll(groups);
    DistinctKeysCount(groups);
    forall c | c in cs ensures ClassKey(c) in GroupKeys(groups) {
      var i :| 0 <= i < |cs| && cs[i] == c;
      assert groups[i] in groups;
    }
    forall g | g in groups ensures g.key in ClassKeys(cs) {
      var i :| 0 <= i < |groups| && groups[i] == g;
      assert cs[i] in cs;
    }
  }

  /** The `$project` output: one weighted score per group of the first
      `$group` stage. */
  function ClassScores(records: seq<GradeRecord>): seq<ClassScore> {
    WeighAll(GroupBy(Unwind(records)))
  }

  /** There is exactly one weighted score per (learner, class) pair that has a
      score entry, and none for a pair whose documents have no score entry. */
  lemma ClassScoresKeys(records: seq<GradeRecord>)
    ensures var cs := ClassScores(records);
            && (forall i, j :: 0 <= i < j < |cs| ==> ClassKey(cs[i]) != ClassKey(cs[j]))
            && ClassKeys(cs) == ScoredKeys(records)
            && |cs| == |ScoredKeys(records)|
  {
    WeighAllKeys(GroupBy(Unwind(records)));
  }

  /** Each pair's weighted score is computed from exactly the score entries of
      the documents with that learner and class, and there is at least one. */
  lemma ClassScoresWeights(records: seq<GradeRecord>)
    ensures var cs := ClassScores(records);
            forall i :: 0 <= i < |cs| ==>
              |EntriesOf(records, ClassKey(cs[i]))| > 0 &&
              cs[i].weightedAvg == WeightedAvg(Partition(EntriesOf(records, ClassKey(cs[i]))))
  {
  }

  /** Every score in a group's bucket comes from a document with that group's
      learner and class, from an entry of that bucket's type. */
  lemma BucketScoresFromOwnRecords(records: seq<GradeRecord>, k: Key, t: ScoreType, x: real)
    requires x in ScoresOfType(EntriesOf(records, k), t)
    ensures exists r, e :: r in records && KeyOf(r) == k && e in r.scores && Classify(e.kind) == t && e.score == x
  {
    var es := EntriesOf(records, k);
    ScoresOfTypeMembers(es, t, x);
    var i :| 0 <= i < |es| && Classify(es[i].kind) == t && es[i].score == x;
    EntriesOfMembers(records, k, es[i]);
  }

  // ---------------------------------------------------------------------
  // $group by learner with $avg

  /** One output document of the second `$group` stage. */
  datatype LearnerAverage = LearnerAverage(learnerId: int, avgScore: real)

  /** Reference definition: the weighted scores of learner `l`, in order. */
  function ClassAveragesOf(cs: seq<ClassScore>, l: int): seq<real> {
    if |cs| == 0 then []
    else
      var last := cs[|cs| - 1];
      ClassAveragesOf(cs[..|cs| - 1], l) + (if last.learnerId == l then [last.weightedAvg] else [])
  }

  function LearnerRows(cs: seq<ClassScore>): seq<(int, real)> {
    seq(|cs|, i requires 0 <= i < |cs| => (cs[i].learnerId, cs[i].weightedAvg))
  }

  lemma {:induction false} LearnerRowsValues(cs: seq<ClassScore>, l: int)
    ensures ValuesOf(LearnerRows(cs), l) == ClassAveragesOf(cs, l)
    decreases |cs|
  {
    if |cs| > 0 {
      var prefix := cs[..|cs| - 1];
      assert LearnerRows(cs)[..|cs| - 1] == LearnerRows(prefix);
      LearnerRowsValues(prefix, l);
    }
  }

  function LearnerIds(cs: seq<ClassScore>): set<int> {
    set c | c in cs :: c.learnerId
  }

  function AverageIds(las: seq<LearnerAverage>): set<int> {
    set a | a in las :: a.learnerId
  }

  function AverageAll(groups: seq<Group<int, real>>): seq<LearnerAverage>
    requires forall i :: 0 <= i < |groups| ==> |groups[i].values| > 0
  {
    seq(|groups|, i requires 0 <= i < |groups| => LearnerAverage(groups[i].key, Average(groups[i].values)))
  }

  lemma AverageAllKeys(groups: seq<Group<int, real>>)
    requires forall i :: 0 <= i < |groups| ==> |groups[i].values| > 0
    requires DistinctKeys(groups)
    ensures forall i, j :: 0 <= i < j < |groups| ==> AverageAll(groups)[i].learnerId != AverageAll(groups)[j].learnerId
    ensures AverageIds(AverageAll(groups)) == GroupKeys(groups)
    ensures |AverageAll(groups)| == |GroupKeys(groups)|
  {
    var las := AverageAll(groups);
    DistinctKeysCount(groups);
    forall a | a in las ensures a.learnerId in GroupKeys(groups) {
      var i :| 0 <= i < |las| && las[i] == a;
      assert groups[i] in groups;
    }
    forall g | g in groups ensures g.key in AverageIds(las) {
      var i :| 0 <= i < |groups| && groups[i] == g;
      assert las[i] in las;
    }
  }

  lemma LearnerRowsKeys(cs: seq<ClassScore>)
    ensures KeySet(LearnerRows(cs)) == LearnerIds(cs)
  {
    var rows := LearnerRows(cs);
    forall it | it in rows ensures it.0 in LearnerIds(cs) {
      var i :| 0 <= i < |rows| && rows[i] == it;
      assert cs[i] in cs;
    }
    forall c | c in cs ensures c.learnerId in KeySet(rows) {
      var i :| 0 <= i < |cs| && cs[i] == c;
      assert rows[i] in rows;
    }
  }

  /** The second `$group` stage: one `$avg` per learner. */
  function LearnerAverages(cs: seq<ClassScore>): seq<LearnerAverage> {
    var groups := GroupBy(LearnerRows(cs));
    AverageAll(groups)
  }

  /** There is exactly one average per distinct learner among the weighted
      scores. */
  lemma LearnerAveragesKeys(cs: seq<ClassScore>)
    ensures var las := LearnerAverages(cs);
            && (forall i, j :: 0 <= i < j < |las| ==> las[i].learnerId != las[j].learnerId)
            && AverageIds(las) == LearnerIds(cs)
            && |las| == |LearnerIds(cs)|
  {
    AverageAllKeys(GroupBy(LearnerRows(cs)));
    LearnerRowsKeys(cs);
  }

  /** Each learner's average is the mean of that learner's weighted scores
      over all of their classes. */
  lemma LearnerAveragesValues(cs: seq<ClassScore>)
    ensures var las := LearnerAverages(cs);
            forall i :: 0 <= i < |las| ==>
              |ClassAveragesOf(cs, las[i].learnerId)| > 0 &&
              las[i].avgScore == Average(ClassAveragesOf(cs, las[i].learnerId))
  {
    var rows := LearnerRows(cs);
    forall l ensures ValuesOf(rows, l) == ClassAveragesOf(cs, l) {
      LearnerRowsValues(cs, l);
    }
  }

  /** A learner's average lies between their lowest and highest weighted
      score, and equals it when the learner has a single class. */
  lemma LearnerAverageRange(cs: seq<ClassScore>, i: nat)
    requires i < |LearnerAverages(cs)|
    ensures var a := LearnerAverages(cs)[i];
            var xs := ClassAveragesOf(cs, a.learnerId);
            && |xs| > 0
            && Min(xs) <= a.avgScore <= Max(xs)
            && (|xs| == 1 ==> a.avgScore == xs[0])
  {
    LearnerAveragesValues(cs);
    var xs := ClassAveragesOf(cs, LearnerAverages(cs)[i].learnerId);
    AverageBetweenExtremes(xs);
    if |xs| == 1 {
      assert xs == [xs[0]];
      AverageSingleton(xs[0]);
    }
  }

  // ---------------------------------------------------------------------
  // $facet and the final $project

  const Threshold: real := 70.0

  /** A field the final `$project` always writes: `$divide` with a missing
      operand yields null, and `$multiply` keeps it null. */
  datatype Nullable = Null | Number(value: real)

  /** The output document. `totalLearners` and `above70` are `None` when
      `$arrayElemAt` on an empty facet array leaves the field out of the
      document; `percentageAbove70` is always in the document, and is
      `Null` when either count is missing. */
  datatype StatsResult = StatsResult(totalLearners: Option<nat>, above70: Option<nat>, percentageAbove70: Nullable)

  /** `$count` emits no document for an empty input, so an empty count is a
      missing value, never zero. */
  function CountStage(n: nat): (c: Option<nat>)
    ensures c.None? <==> n == 0
    ensures c.Some? ==> c.value == n
  {
    if n == 0 then None else Some(n)
  }

  /** The positions of the averages the `above70` facet's `$match` keeps:
      those strictly above the threshold. */
  function AboveIndices(las: seq<LearnerAverage>): set<int> {
    set i | 0 <= i < |las| && las[i].avgScore > Threshold
  }

  /** The `$match` and `$count` of the `above70` facet: the number of
      averages strictly above the threshold. */
  function CountAbove(las: seq<LearnerAverage>): (n: nat)
    ensures n == |AboveIndices(las)|
    ensures n <= |las|
    ensures n == 0 <==> forall i :: 0 <= i < |las| ==> las[i].avgScore <= Threshold
    ensures n == |las| <==> forall i :: 0 <= i < |las| ==> las[i].avgScore > Threshold
  {
    if |las| == 0 then 0
    else
      var last := |las| - 1;
      var prefix := las[..last];
      assert forall i :: 0 <= i < |prefix| ==> prefix[i] == las[i];
      assert AboveIndices(las) == AboveIndices(prefix) + (if las[last].avgScore > Threshold then {last} else {});
      assert last !in AboveIndices(prefix);
      CountAbove(prefix) + (if las[last].avgScore > Threshold then 1 else 0)
  }

  function Facet(las: seq<LearnerAverage>): (s: StatsResult)
    ensures s.totalLearners.None? <==> |las| == 0
    ensures s.totalLearners.Some? ==> s.totalLearners.value == |las|
    ensures s.above70.None? <==> forall i :: 0 <= i < |las| ==> las[i].avgScore <= Threshold
    ensures s.above70.Some? ==> s.above70.value == CountAbove(las) && s.totalLearners.Some?
                                && s.above70.value <= s.totalLearners.value
    ensures s.percentageAbove70.Number? <==> s.above70.Some?
    ensures s.percentageAbove70.Number? ==>
              && s.above70.Some? && s.totalLearners.Some?
              && s.above70.value <= s.totalLearners.value
              && s.percentageAbove70.value == PercentOf(s.above70.value, s.totalLearners.value)
  {
    var total := CountStage(|las|);
    var above := CountStage(CountAbove(las));
    var pct := if above.Some? && total.Some?
               then Number(PercentOf(above.value, total.value))
               else Null;
    assert above.Some? ==> total.Some? && above.value <= total.value;
    StatsResult(total, above, pct)
  }

  /** `above / total * 100` for a non-empty population. */
  function PercentOf(above: nat, total: nat): (p: real)
    requires 0 < total && above <= total
    ensures 0.0 <= p <= 100.0
    ensures 0 < above ==> 0.0 < p
    ensures p * (total as real) == (above as real) * 100.0
  {
    var q := (above as real) / (total as real);
    assert q * (total as real) == above as real;
    assert q <= 1.0 by {
      if q > 1.0 {
        assert q * (total as real) > 1.0 * (total as real);
      }
    }
    q * 100.0
  }

  /** When present, the percentage is `above70 / totalLearners * 100`, which
      lies in (0, 100]. */
  lemma PercentageInRange(las: seq<LearnerAverage>)
    ensures var s := Facet(las);
            s.percentageAbove70.Number? ==>
              && 0.0 < s.percentageAbove70.value <= 100.0
              && s.percentageAbove70.value * (s.totalLearners.value as real) == (s.above70.value as real) * 100.0
  {
  }

  // ---------------------------------------------------------------------
  // The two routes

  /** `/stats`: the pipeline over the whole collection. */
  function PopulationStats(records: seq<GradeRecord>): StatsResult {
    Facet(LearnerAverages(ClassScores(records)))
  }

  /** The documents of `records` whose `class_id` is `classId`, in
      collection order. */
  function Matching(records: seq<GradeRecord>, classId: int): (rs: seq<GradeRecord>)
    ensures |rs| <= |records|
  {
    if |records| == 0 then []
    else
      var last := records[|records| - 1];
      Matching(records[..|records| - 1], classId) + (if last.classId == classId then [last] else [])
  }

  /** Every copy of a document of the class is kept, and none of any other:
      equal documents are distinct documents of the collection. */
  lemma {:induction false} MatchingCounts(records: seq<GradeRecord>, classId: int, r: GradeRecord)
    ensures multiset(Matching(records, classId))[r] == if r.classId == classId then multiset(records)[r] else 0
    decreases |records|
  {
    if |records| > 0 {
      var prefix, last := records[..|records| - 1], records[|records| - 1];
      assert records == prefix + [last];
      MatchingCounts(prefix, classId, r);
    }
  }

  lemma MatchingSnoc(records: seq<GradeRecord>, r: GradeRecord, classId: int)
    ensures Matching(records + [r], classId) == Matching(records, classId) + (if r.classId == classId then [r] else [])
  {
    assert (records + [r])[..|records|] == records;
  }

  /** Filtering a concatenation is the concatenation of the filtered parts,
      so the kept documents stay in collection order. */
  lemma {:induction false} MatchingAppend(a: seq<GradeRecord>, b: seq<GradeRecord>, classId: int)
    ensures Matching(a + b, classId) == Matching(a, classId) + Matching(b, classId)
    decreases |b|
  {
    if |b| == 0 {
      assert a + b == a;
    } else {
      var b', last := b[..|b| - 1], b[|b| - 1];
      assert a + b == (a + b') + [last] by {
        assert b == b' + [last];
      }
      MatchingSnoc(a + b', last, classId);
      MatchingSnoc(b', last, classId);
      MatchingAppend(a, b', classId);
    }
  }

  /** The `$match` stage of `/stats/:id`: the documents of one class, every
      copy kept, in collection order. */
  function FilterClass(records: seq<GradeRecord>, classId: int): (rs: seq<GradeRecord>)
    ensures forall r :: r in rs <==> r in records && r.classId == classId
    ensures forall r :: multiset(rs)[r] == if r.classId == classId then multiset(records)[r] else 0
    ensures |rs| <= |records|
  {
    assert forall r :: multiset(Matching(records, classId))[r] == if r.classId == classId then multiset(records)[r] else 0 by {
      forall r {
        MatchingCounts(records, classId, r);
      }
    }
    Matching(records, classId)
  }

  /** Filtering a concatenation is the concatenation of the filtered parts. */
  lemma FilterClassAppend(a: seq<GradeRecord>, b: seq<GradeRecord>, classId: int)
    ensures FilterClass(a + b, classId) == FilterClass(a, classId) + FilterClass(b, classId)
  {
    MatchingAppend(a, b, classId);
  }



  /** `/stats/:id`: the same pipeline behind a `class_id` filter. */
  function ClassStats(records: seq<GradeRecord>, classId: int): StatsResult {
    PopulationStats(FilterClass(records, classId))
  }

  // ---------------------------------------------------------------------
  // Properties of the two routes

  lemma LearnersOfKeys(cs: seq<ClassScore>, records: seq<GradeRecord>)
    requires ClassKeys(cs) == ScoredKeys(records)
    ensures LearnerIds(cs) == ScoredLearners(records)
  {
    forall c | c in cs ensures c.learnerId in ScoredLearners(records) {
      assert ClassKey(c) in ScoredKeys(records);
      var r :| r in records && |r.scores| > 0 && KeyOf(r) == ClassKey(c);
    }
    forall r | r in records && |r.scores| > 0 ensures r.learnerId in LearnerIds(cs) {
      assert KeyOf(r) in ScoredKeys(records);
      assert KeyOf(r) in ClassKeys(cs);
      var c :| c in cs && ClassKey(c) == KeyOf(r);
    }
  }

  lemma ClassScoreLearners(records: seq<GradeRecord>)
    ensures LearnerIds(ClassScores(records)) == ScoredLearners(records)
  {
    ClassScoresKeys(records);
    LearnersOfKeys(ClassScores(records), records);
  }

  /** `totalLearners` is the number of distinct learners that have a score
      entry, and is missing (never zero) when there are none. */
  lemma PopulationLearnerCount(records: seq<GradeRecord>)
    ensures PopulationStats(records).totalLearners == CountStage(|ScoredLearners(records)|)
    ensures PopulationStats(records).totalLearners != Some(0)
  {
    ClassScoreLearners(records);
    LearnerAveragesKeys(ClassScores(records));
  }

  /** Whether learner `l` has a weighted score and the mean of their weighted
      scores is strictly above the threshold. */
  predicate AverageAbove(cs: seq<ClassScore>, l: int) {
    var xs := ClassAveragesOf(cs, l);
    |xs| > 0 && Average(xs) > Threshold
  }

  /** The learners whose averages the `above70` facet's `$match` keeps. */
  function AboveIds(las: seq<LearnerAverage>): set<int> {
    set i | 0 <= i < |las| && las[i].avgScore > Threshold :: las[i].learnerId
  }

  lemma AboveIdsSnoc(las: seq<LearnerAverage>)
    requires |las| > 0
    ensures var last := las[|las| - 1];
            AboveIds(las) == AboveIds(las[..|las| - 1]) + (if last.avgScore > Threshold then {last.learnerId} else {})
  {
    var last := |las| - 1;
    var prefix := las[..last];
    var added: set<int> := if las[last].avgScore > Threshold then {las[last].learnerId} else {};
    forall l | l in AboveIds(las) ensures l in AboveIds(prefix) + added {
      var i :| 0 <= i < |las| && las[i].avgScore > Threshold && las[i].learnerId == l;
      if i < last {
        assert prefix[i] == las[i];
      }
    }
    forall l | l in AboveIds(prefix) ensures l in AboveIds(las) {
      var i :| 0 <= i < |prefix| && prefix[i].avgScore > Threshold && prefix[i].learnerId == l;
      assert las[i] == prefix[i];
    }
    if las[last].avgScore > Threshold {
      assert las[last].learnerId in AboveIds(las);
    }
  }

  /** With distinct learner ids, every kept average is a different learner,
      so `$count` counts learners. */
  lemma {:induction false} AboveIdsCount(las: seq<LearnerAverage>)
    requires forall i, j :: 0 <= i < j < |las| ==> las[i].learnerId != las[j].learnerId
    ensures |AboveIds(las)| == CountAbove(las)
    decreases |las|
  {
    if |las| > 0 {
      var prefix := las[..|las| - 1];
      AboveIdsCount(prefix);
      AboveIdsSnoc(las);
      assert las[|las| - 1].learnerId !in AboveIds(prefix);
    }
  }

  /** The learners kept by the `above70` facet are those whose weighted
      scores average strictly above the threshold. */
  lemma AboveIdsLearners(cs: seq<ClassScore>, las: seq<LearnerAverage>)
    requires AverageIds(las) == LearnerIds(cs)
    requires forall i :: 0 <= i < |las| ==>
               |ClassAveragesOf(cs, las[i].learnerId)| > 0 &&
               las[i].avgScore == Average(ClassAveragesOf(cs, las[i].learnerId))
    ensures AboveIds(las) == set l | l in LearnerIds(cs) && AverageAbove(cs, l)
  {
    var above := set l | l in LearnerIds(cs) && AverageAbove(cs, l);
    forall l | l in AboveIds(las) ensures l in above {
      var i :| 0 <= i < |las| && las[i].avgScore > Threshold && las[i].learnerId == l;
      assert las[i] in las;
    }
    forall l | l in above ensures l in AboveIds(las) {
      assert l in AverageIds(las);
      var a :| a in las && a.learnerId == l;
      var i :| 0 <= i < |las| && las[i] == a;
    }
  }

  /** The `above70` count over the learner averages is the number of distinct
      learners whose weighted scores average strictly above 70. */
  lemma CountAboveLearners(cs: seq<ClassScore>, las: seq<LearnerAverage>)
    requires las == LearnerAverages(cs)
    ensures CountAbove(las) == |set l | l in LearnerIds(cs) && AverageAbove(cs, l)|
  {
    LearnerAveragesKeys(cs);
    LearnerAveragesValues(cs);
    AboveIdsLearners(cs, las);
    AboveIdsCount(las);
  }

  /** `above70` counts the distinct learners that have a score entry and whose
      weighted scores average strictly above 70. It is missing whenever there
      is no such learner, even when there are learners, and
      `percentageAbove70` is then null. */
  lemma PopulationAboveCount(records: seq<GradeRecord>)
    ensures var cs := ClassScores(records);
            && PopulationStats(records).above70
               == CountStage(|set l | l in ScoredLearners(records) && AverageAbove(cs, l)|)
            && (PopulationStats(records).percentageAbove70.Null? <==> PopulationStats(records).above70.None?)
  {
    var cs := ClassScores(records);
    ClassScoreLearners(records);
    CountAboveLearners(cs, LearnerAverages(cs));
  }

  /** Every group the class-scoped pipeline forms belongs to that class, and
      its learner count is the number of learners with a score entry in it. */
  lemma ClassScopedGroups(records: seq<GradeRecord>, classId: int)
    ensures forall c :: c in ClassScores(FilterClass(records, classId)) ==> c.classId == classId
    ensures ClassStats(records, classId).totalLearners
            == CountStage(|set r | r in records && r.classId == classId && |r.scores| > 0 :: r.learnerId|)
  {
    var rs := FilterClass(records, classId);
    var cs := ClassScores(rs);
    ClassScoresKeys(rs);
    forall c | c in cs ensures c.classId == classId {
      assert ClassKey(c) in ScoredKeys(rs);
    }
    PopulationLearnerCount(rs);
    assert ScoredLearners(rs) == set r | r in records && r.classId == classId && |r.scores| > 0 :: r.learnerId;
  }

  /** A class none of whose documents has a score entry yields a document,
      not "Not found": both counts are missing and `percentageAbove70` is
      null. */
  lemma EmptyClassScope(records: seq<GradeRecord>, classId: int)
    requires forall r :: r in records && r.classId == classId ==> |r.scores| == 0
    ensures ClassStats(records, classId) == StatsResult(None, None, Null)
  {
    var rs := FilterClass(records, classId);
    assert ScoredKeys(rs) == {};
    ClassScoresKeys(rs);
    assert |ClassScores(rs)| == 0;
  }
}
