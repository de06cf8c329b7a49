/** The backward-compatible rename of the create-grade route: a request body
    that carries `student_id` is stored with that value under `learner_id`. */
module Documents {

  /** A JSON value of a request body, as far as JavaScript truthiness can
      tell values apart. Objects and arrays are `Composite`. */
  datatype Value = Null | Bool(b: bool) | Num(n: real) | Str(s: string) | Composite

  type Document = map<string, Value>

  const StudentId: string := "student_id"
  const LearnerId: string := "learner_id"

  /** JavaScript truthiness. `false`, `0`, `""` and `null` are falsy; a key
      that is absent reads as `undefined`, which is falsy too. */
  predicate Truthy(v: Value) {
    match v
    case Null => false
    case Bool(b) => b
    case Num(n) => n != 0.0
    case Str(s) => s != ""
    case Composite => true
  }

  /** The document with `student_id` moved to `learner_id`. */
  function Moved(doc: Document): Document
    requires StudentId in doc
  {
    (doc - {StudentId})[LearnerId := doc[StudentId]]
  }

  /** The rename as the route performs it: guarded by the truthiness of
      `student_id`. */
  function RenameStudentId(doc: Document): (out: Document)
    ensures StudentId in doc && Truthy(doc[StudentId]) ==>
              && LearnerId in out && out[LearnerId] == doc[StudentId]
              && StudentId !in out
              && out.Keys == doc.Keys - {StudentId} + {LearnerId}
              && (forall k :: k in doc && k != StudentId && k != LearnerId ==> out[k] == doc[k])
    ensures !(StudentId in doc && Truthy(doc[StudentId])) ==> out == doc
  {
    if StudentId in doc && Truthy(doc[StudentId]) then Moved(doc) else doc
  }

  /** Renaming twice renames once: the output never has a truthy `student_id`
      unless the input kept it. */
  lemma RenameIdempotent(doc: Document)
    ensures RenameStudentId(RenameStudentId(doc)) == RenameStudentId(doc)
  {
  }

  /** A body with `student_id` 0, a valid learner id, is stored unchanged:
      it keeps `student_id` and gets no `learner_id`. */
  lemma ZeroStudentIdNotRenamed()
    ensures var doc := map[StudentId := Num(0.0)];
            && RenameStudentId(doc) == doc
            && StudentId in RenameStudentId(doc)
            && LearnerId !in RenameStudentId(doc)
  {
  }

  /** The rename guarded by presence (`student_id != null`) instead of
      truthiness. */
  function RenameStudentIdPresent(doc: Document): (out: Document)
    ensures StudentId in doc && doc[StudentId] != Null ==>
              && LearnerId in out && out[LearnerId] == doc[StudentId]
              && StudentId !in out
              && out.Keys == doc.Keys - {StudentId} + {LearnerId}
              && (forall k :: k in doc && k != StudentId && k != LearnerId ==> out[k] == doc[k])
    ensures !(StudentId in doc && doc[StudentId] != Null) ==> out == doc
  {
    if StudentId in doc && doc[StudentId] != Null then Moved(doc) else doc
  }

  /** With the presence guard every non-negative learner id is renamed, 0
      included; the truthiness guard misses exactly 0. */
  lemma RenameEveryLearnerId(doc: Document, id: int)
    requires id >= 0
    requires StudentId in doc && doc[StudentId] == Num(id as real)
    ensures LearnerId in RenameStudentIdPresent(doc) && RenameStudentIdPresent(doc)[LearnerId] == Num(id as real)
    ensures StudentId !in RenameStudentIdPresent(doc)
    ensures StudentId !in RenameStudentId(doc) <==> id != 0
  {
  }

  /** The two guards agree on every truthy `student_id`. */
  lemma RenamesAgreeWhenTruthy(doc: Document)
    requires StudentId in doc && Truthy(doc[StudentId])
    ensures RenameStudentIdPresent(doc) == RenameStudentId(doc)
  {
  }
}
