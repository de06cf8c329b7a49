/** Grade documents as the statistics pipeline reads them: one document per
    (learner, class) enrollment, holding a list of typed scores. */
module Records {

  /** One element of a document's `scores` array. `kind` is the `type` field,
      an open string; `score` is the numeric `score` field. */
  datatype ScoreEntry = ScoreEntry(kind: string, score: real)

  /** A document of the `grades` collection. */
  datatype GradeRecord = GradeRecord(learnerId: int, classId: int, scores: seq<ScoreEntry>)

  /** The grouping key of the first `$group` stage: (learner_id, class_id). */
  type Key = (int, int)

  function KeyOf(r: GradeRecord): Key {
    (r.learnerId, r.classId)
  }

  /** The three score types the pipeline recognises, and everything else. */
  datatype ScoreType = Exam | Quiz | Homework | Other(name: string)

  const ExamName: string := "exam"
  const QuizName: string := "quiz"
  const HomeworkName: string := "homework"

  /** The `type` string a score type stands for. */
  function Name(t: ScoreType): string {
    match t
    case Exam => ExamName
    case Quiz => QuizName
    case Homework => HomeworkName
    case Other(s) => s
  }

  /** Reads a `type` string the way the pipeline's `$eq` tests do: exact,
      case-sensitive equality with one of the three literals. */
  function Classify(kind: string): (t: ScoreType)
    ensures Name(t) == kind
    ensures t.Other? <==> kind != ExamName && kind != QuizName && kind != HomeworkName
  {
    if kind == ExamName then Exam
    else if kind == QuizName then Quiz
    else if kind == HomeworkName then Homework
    else Other(kind)
  }

  /** Classification inverts `Name` on every type except an `Other` that
      spells one of the recognised literals. */
  lemma ClassifyName(t: ScoreType)
    requires t.Other? ==> t.name != ExamName && t.name != QuizName && t.name != HomeworkName
    ensures Classify(Name(t)) == t
  {
  }

  predicate Recognised(e: ScoreEntry) {
    !Classify(e.kind).Other?
  }
}
