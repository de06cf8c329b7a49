/** The three `$push`/`$cond` accumulators of the first `$group` stage: the
    scores of one group are split into exam, quiz and homework buckets, and
    entries of any other type are dropped (`$$REMOVE`). */
module Classifier {
  import opened Records

  datatype Buckets = Buckets(exam: seq<real>, quiz: seq<real>, homework: seq<real>)

  /** Reference definition: the scores of the entries of type `t`, in order. */
  function ScoresOfType(entries: seq<ScoreEntry>, t: ScoreType): seq<real> {
    if |entries| == 0 then []
    else
      var last := entries[|entries| - 1];
      ScoresOfType(entries[..|entries| - 1], t) + (if Classify(last.kind) == t then [last.score] else [])
  }

  /** The number of entries whose type is none of the three literals. */
  function Unrecognised(entries: seq<ScoreEntry>): nat {
    if |entries| == 0 then 0
    else Unrecognised(entries[..|entries| - 1]) + (if Recognised(entries[|entries| - 1]) then 0 else 1)
  }

  /** Pushes one entry's score onto the bucket its type selects. */
  function Push(b: Buckets, e: ScoreEntry): Buckets {
    match Classify(e.kind)
    case Exam => b.(exam := b.exam + [e.score])
    case Quiz => b.(quiz := b.quiz + [e.score])
    case Homework => b.(homework := b.homework + [e.score])
    case Other(_) => b
  }

  /** The buckets the accumulators build from `entries`, one entry at a time. */
  function Partition(entries: seq<ScoreEntry>): (b: Buckets)
    ensures b.exam == ScoresOfType(entries, Exam)
    ensures b.quiz == ScoresOfType(entries, Quiz)
    ensures b.homework == ScoresOfType(entries, Homework)
    ensures |b.exam| + |b.quiz| + |b.homework| + Unrecognised(entries) == |entries|
  {
    if |entries| == 0 then Buckets([], [], [])
    else Push(Partition(entries[..|entries| - 1]), entries[|entries| - 1])
  }

  /** The buckets never hold more scores than there were entries, and they hold
      exactly as many if and only if every entry has a recognised type. */
  lemma {:induction false} PartitionSize(entries: seq<ScoreEntry>)
    ensures |Partition(entries).exam| + |Partition(entries).quiz| + |Partition(entries).homework| <= |entries|
    ensures |Partition(entries).exam| + |Partition(entries).quiz| + |Partition(entries).homework| == |entries|
            <==> forall i :: 0 <= i < |entries| ==> Recognised(entries[i])
  {
    UnrecognisedZero(entries);
  }

  lemma {:induction false} UnrecognisedZero(entries: seq<ScoreEntry>)
    ensures Unrecognised(entries) == 0 <==> forall i :: 0 <= i < |entries| ==> Recognised(entries[i])
    decreases |entries|
  {
    if |entries| > 0 {
      var prefix := entries[..|entries| - 1];
      UnrecognisedZero(prefix);
      assert forall i :: 0 <= i < |prefix| ==> prefix[i] == entries[i];
    }
  }

  /** A score lands in a bucket only if some entry of that bucket's type carries
      it, and every such entry's score is in that bucket. */
  lemma {:induction false} ScoresOfTypeMembers(entries: seq<ScoreEntry>, t: ScoreType, x: real)
    ensures x in ScoresOfType(entries, t) <==> exists i :: 0 <= i < |entries| && Classify(entries[i].kind) == t && entries[i].score == x
    decreases |entries|
  {
    if |entries| > 0 {
      var prefix := entries[..|entries| - 1];
      ScoresOfTypeMembers(prefix, t, x);
      assert forall i :: 0 <= i < |prefix| ==> prefix[i] == entries[i];
      if x in ScoresOfType(entries, t) && x !in ScoresOfType(prefix, t) {
        assert Classify(entries[|entries| - 1].kind) == t && entries[|entries| - 1].score == x;
      }
    }
  }

  /** No score is in two buckets on account of the same entry: an entry's type
      selects at most one bucket, and an unrecognised type selects none. */
  lemma PushSelectsOneBucket(b: Buckets, e: ScoreEntry)
    ensures |Push(b, e).exam| + |Push(b, e).quiz| + |Push(b, e).homework|
            == |b.exam| + |b.quiz| + |b.homework| + (if Recognised(e) then 1 else 0)
    ensures e.kind == ExamName <==> Push(b, e).exam == b.exam + [e.score]
    ensures e.kind == QuizName <==> Push(b, e).quiz == b.quiz + [e.score]
    ensures e.kind == HomeworkName <==> Push(b, e).homework == b.homework + [e.score]
  {
  }
}
