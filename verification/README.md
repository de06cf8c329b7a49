# Grade statistics pipelines

A Dafny model of the two statistics routes of the grades service and of the
`student_id` compatibility rename on insert.

`GET /grades/stats` runs an aggregation over every grade document, and
`GET /grades/stats/:id` runs the same aggregation over one class. Each
pipeline does the following:

1. `$unwind` gives one row per score entry. A document with an empty
   `scores` array yields no rows.
2. `$group` groups the rows by the (learner, class) pair and collects
   exam, quiz and homework score lists. The type must equal the literal
   exactly, and entries of any other type are dropped.
3. `$project` computes a weighted average for each pair:
   exam 0.5, quiz 0.3 and homework 0.2.
4. A second `$group` averages those weighted averages per learner.
5. `$facet` and `$project` count the learners and the learners whose
   average is strictly above 70, and compute the percentage.

The model is written in terms of immutable values:

* A grade document is `Records.GradeRecord`. Its score entries are
  `Records.ScoreEntry`.
* Each stage is a pure function. The `$group` stage is a generic
  first-appearance group-by, `Grouping.GroupBy`.
* The two routes are `Pipeline.PopulationStats` and
  `Pipeline.ClassStats`.
* The result document is `Pipeline.StatsResult`. `totalLearners` and
  `above70` are each an `Option`: `None` means the field is left out of the
  document. `percentageAbove70` is always in the document, and it is either
  `Null` or a `Number`.

Three edge cases of the aggregation code determine what the routes return:

* **Empty bucket.** A learner–class pair with no scores of some type does
  not make its weighted average NaN. `$avg` of an empty array is null,
  `$multiply` of null is null, and `$sum` over an expression list skips
  nulls, so the missing type contributes 0. The other weights are not
  renormalised. `Weighting.Term` models this.
* **No learners.** An empty input still yields a result, because
  `$facet` always emits exactly one document. So the "Not found" branch
  is unreachable. In that document, `$arrayElemAt` on the empty count
  arrays leaves `totalLearners` and `above70` out. `$divide` with a
  missing operand gives null, and `$multiply` keeps it null. So the route
  returns `{ percentageAbove70: null }`, which is
  `StatsResult(None, None, Null)`.
* **No learner above 70.** When no learner is above 70, `above70` is
  left out rather than set to 0, because `$count` on an empty input emits
  no document. `percentageAbove70` is then null.

## Model

| member | source | states |
|---|---|---|
| Records.Classify | routes/grades.mjs:179-205 | A score type is exam, quiz or homework exactly when its string equals that literal. Any other string is kept as `Other` with its name, so `Name` inverts the classification. |
| Records.ClassifyName | routes/grades.mjs:179-205 | Classifying a type's name gives that type back. For `Other`, this holds when its name is none of the three literals. |
| Classifier.Partition | routes/grades.mjs:177-206 | Each bucket is exactly the scores of the entries of that type, in entry order. The three bucket sizes plus the unrecognised entries add up to the number of entries. |
| Classifier.PartitionSize | routes/grades.mjs:179-205 | Together the buckets hold at most as many scores as there are entries. They hold exactly as many if and only if every entry's type is recognised. |
| Classifier.ScoresOfTypeMembers | routes/grades.mjs:179-205 | A value is in a type's bucket if and only if some entry of that type carries that score. |
| Classifier.PushSelectsOneBucket | routes/grades.mjs:179-205 | Adding one entry grows at most one bucket: its type's bucket, or none when the type is unrecognised. |
| Means.Mean | routes/grades.mjs:214-216 | `$avg` is null for an empty list. Otherwise it is the value whose product with the list length is the sum. |
| Means.AverageBounds | routes/grades.mjs:214-216 | When every value lies in [lo, hi], so does the average. |
| Means.AverageBetweenExtremes | routes/grades.mjs:224 | The average of a non-empty list lies between the list's minimum and its maximum. |
| Weighting.Term | routes/grades.mjs:214-216 | One `$multiply` term of the `$sum`: null when the bucket is empty, so `$sum` skips it. Its behaviour is stated by Weighting.TermBounds, Weighting.EmptyBucketsContributeNothing and Weighting.WeightedAvgFull. |
| Weighting.TermBounds | routes/grades.mjs:214-216 | A present term with every score in [lo, hi] lies between weight·lo and weight·hi. An absent term is 0. |
| Weighting.WeightedAvg | routes/grades.mjs:212-218 | The `$project` weighted average of one learner–class group. Its behaviour is stated by Weighting.WeightedAvgFull (the formula), Weighting.WeightedAvgBounds, Weighting.WeightedAvgInRange and Weighting.EmptyBucketsContributeNothing. |
| Weighting.PresentWeight | routes/grades.mjs:212-218 | The total weight of the non-empty buckets lies in [0, 1]. It is 1 if and only if all three buckets are non-empty, and 0 if and only if all are empty. |
| Weighting.WeightedAvgBounds | routes/grades.mjs:212-218 | When all scores lie in [lo, hi], the weighted average lies between the present weight times lo and the present weight times hi. |
| Weighting.WeightedAvgInRange | routes/grades.mjs:212-218 | When all three buckets are non-empty and every score lies in [lo, hi], the weighted average lies in [lo, hi]. |
| Weighting.WeightedAvgFull | routes/grades.mjs:212-218 | When all three buckets are non-empty, the weighted average is 0.5·mean(exam) + 0.3·mean(quiz) + 0.2·mean(homework). |
| Weighting.EmptyBucketsContributeNothing | routes/grades.mjs:213-217 | An empty bucket adds 0 and the weights are not renormalised. A single exam score of 100 gives 50, and three empty buckets give 0. |
| Weighting.WeightedAvgExample | routes/grades.mjs:212-218 | Exams 80 and 90, quiz 70 and homework 100 give 0.5·85 + 0.3·70 + 0.2·100 = 83.5. |
| Grouping.GroupBy | routes/grades.mjs:177-178 | The group keys are distinct and are exactly the keys that occur in the input. Each group's values are the values carried by that key in input order, and no group is empty. |
| Grouping.DistinctKeysCount | routes/grades.mjs:222-223 | With distinct keys, the number of groups equals the number of distinct keys. |
| Pipeline.Unwind | routes/grades.mjs:174 | There is one row per score entry. The keys of the rows are exactly the pairs of the documents that have at least one score. The rows of each pair are exactly the entries of that pair's documents, in order. |
| Pipeline.EntriesOfMembers | routes/grades.mjs:174-178 | An entry belongs to a pair's unwound rows if and only if some document of that pair holds it. |
| Pipeline.ClassScores | routes/grades.mjs:174-219 | `$unwind`, the first `$group` and `$project` composed. Its behaviour is stated by Pipeline.ClassScoresKeys, Pipeline.ClassScoresWeights and Pipeline.BucketScoresFromOwnRecords. |
| Pipeline.ClassScoresKeys | routes/grades.mjs:177-219 | There is exactly one weighted score per distinct learner–class pair that has a score entry, and no other weighted scores. |
| Pipeline.ClassScoresWeights | routes/grades.mjs:177-219 | Each pair's weighted average is computed from the buckets of exactly that pair's entries, and those entries are non-empty. |
| Pipeline.BucketScoresFromOwnRecords | routes/grades.mjs:177-206 | Every score in a pair's bucket comes from an entry of that type in a document of that same learner and class. |
| Pipeline.LearnerAverages | routes/grades.mjs:222-225 | The second `$group` with `$avg`. Its behaviour is stated by Pipeline.LearnerAveragesKeys, Pipeline.LearnerAveragesValues and Pipeline.LearnerAverageRange. |
| Pipeline.LearnerAveragesKeys | routes/grades.mjs:222-225 | There is exactly one average per learner who has a weighted score, with distinct learner ids. |
| Pipeline.LearnerAveragesValues | routes/grades.mjs:222-225 | Each learner's average is the mean of that learner's weighted class averages, and there is at least one of them. |
| Pipeline.LearnerAverageRange | routes/grades.mjs:222-225 | A learner's average lies between the minimum and the maximum of their class averages. With one class, it equals that class's average. |
| Pipeline.CountStage | routes/grades.mjs:229-239 | `$count` followed by `$arrayElemAt` gives a value that is absent if and only if the count is 0. Otherwise it is the count. |
| Pipeline.CountAbove | routes/grades.mjs:230-233 | The count is the number of positions whose average is strictly above 70, which is at most the number of learners. It is 0 if and only if no average exceeds 70, and it equals the number of learners if and only if every average exceeds 70. |
| Pipeline.AboveIdsCount | routes/grades.mjs:230-233 | When learner ids are distinct, the count equals the number of distinct learners among the averages strictly above 70. |
| Pipeline.AboveIdsLearners | routes/grades.mjs:222-233 | The learners the `$match` keeps are exactly the learners whose weighted class averages have a mean strictly above 70. |
| Pipeline.CountAboveLearners | routes/grades.mjs:222-233 | Over the second `$group`'s output, the `above70` count is the number of distinct learners whose weighted class averages have a mean strictly above 70. |
| Pipeline.Facet | routes/grades.mjs:228-246 | totalLearners is left out if and only if there are no learners. above70 is left out if and only if no average is strictly above 70, and otherwise it is that count, at most totalLearners. The percentage is a number if and only if above70 is present, and null otherwise. As a number, it equals above70 / totalLearners · 100. |
| Pipeline.PercentOf | routes/grades.mjs:240-245 | The percentage lies in [0, 100] and is positive when the count is positive. Multiplied by the total, it gives 100 times the count. |
| Pipeline.PercentageInRange | routes/grades.mjs:240-245 | A numeric percentage in a stats result lies in (0, 100], and times totalLearners it equals 100 · above70. |
| Pipeline.FilterClass | routes/grades.mjs:262-264 | A document is kept if and only if it is in the input and its class id equals the requested one. Every copy of such a document is kept, so its multiplicity is unchanged, and documents of other classes have multiplicity 0. |
| Pipeline.MatchingCounts | routes/grades.mjs:262-264 | The `$match` keeps each document of the class exactly as many times as it occurs, and no document of another class. |
| Pipeline.MatchingAppend | routes/grades.mjs:262-264 | Matching a concatenation gives the concatenation of the matched parts, so collection order is kept. |
| Pipeline.FilterClassAppend | routes/grades.mjs:262-264 | Filtering a concatenation gives the concatenation of the filtered parts. Together with the one-document case, this fixes the order of the kept documents. |
| Pipeline.PopulationLearnerCount | routes/grades.mjs:170-255 | totalLearners counts the distinct learners with at least one score entry. It is absent when there are none, and never 0. |
| Pipeline.PopulationAboveCount | routes/grades.mjs:170-255 | above70 is `$count` of the distinct learners with a score entry whose weighted class averages have a mean strictly above 70. It is left out when there are none, and then percentageAbove70 is null. |
| Pipeline.ClassScopedGroups | routes/grades.mjs:257-347 | In the class route every weighted score belongs to the requested class. totalLearners counts the learners with a scored document in that class. |
| Pipeline.PopulationStats | routes/grades.mjs:170-255 | The `/stats` pipeline. Its behaviour is stated by Pipeline.PopulationLearnerCount, Pipeline.PopulationAboveCount, Pipeline.PercentageInRange and Scenarios.TwoLearners. |
| Pipeline.ClassStats | routes/grades.mjs:257-347 | The `/stats/:id` pipeline: `/stats` behind the class `$match`. Its behaviour is stated by Pipeline.ClassScopedGroups and Pipeline.EmptyClassScope. |
| Pipeline.EmptyClassScope | routes/grades.mjs:257-347 | A class with no scored documents gives one document, not "Not found". Both counts are left out, and percentageAbove70 is null: `{ percentageAbove70: null }`. |
| Scenarios.UniformEntries | routes/grades.mjs:177-218 | One exam, one quiz and one homework entry, all scoring x, give a weighted average of x. |
| Scenarios.ThresholdBoundary | routes/grades.mjs:231 | A single learner averaging exactly 70 is counted in totalLearners but not in above70. above70 is left out and the percentage is null. |
| Scenarios.TwoClasses | routes/grades.mjs:222-233 | One learner with weighted class averages of 90 and 50 averages 70, which is not above 70. |
| Scenarios.TwoLearners | routes/grades.mjs:170-255 | Two learners in one class, scoring 100 and 50 everywhere, give totalLearners 2, above70 1 and percentageAbove70 50. |
| Documents.RenameStudentId | routes/grades.mjs:47-50 | When student_id is truthy, its value moves to learner_id and student_id is removed, with every other field unchanged. Otherwise the document is unchanged. |
| Documents.RenameIdempotent | routes/grades.mjs:47-50 | Applying the rename twice gives the same document as applying it once. |
| Documents.ZeroStudentIdNotRenamed | routes/grades.mjs:47-50 | A body with `student_id: 0` is stored unchanged: it has no learner_id, and student_id stays. |
| Documents.RenameStudentIdPresent | routes/grades.mjs:47-50 | Corrected rename: any non-null student_id moves to learner_id and every other field is unchanged. |
| Documents.RenameEveryLearnerId | routes/grades.mjs:47-50 | For every id the collection's learner_id schema admits (lines 29-33: an integer ≥ 0), the corrected rename moves it. The rename as written removes student_id only when the id is not 0. |
| Documents.RenamesAgreeWhenTruthy | routes/grades.mjs:47-50 | On every document whose student_id is truthy, the corrected rename and the rename as written give the same document. |

## Left out

- The Express routing and the CRUD handlers other than the rename (create, read, update and delete of grade entries) are left out. They only move documents between HTTP and the database.
- The index creation and the `$jsonSchema` validator (lines 7-40) are left out. They sit in a function that is never called, and with `validationAction: "warn"` they would not reject anything. The validator's `learner_id` range only frames `Documents.RenameEveryLearnerId`.
- The HTTP status mapping is left out. Since `$facet` always emits one document, the "Not found" branches never fire. The route result is the `StatsResult` itself.
- Scores and averages are exact reals, not IEEE-754 doubles, so rounding, NaN and infinities are not modelled.
- Score values are always numbers in the model. It does not model the `$avg` rule that skips non-numeric values, `$push` skipping a missing `scores.score`, or a `type` that is missing or not a string.
- Learner and class ids are always integers, so `null` or missing group keys are not modelled. Neither is `Number(req.params.id)` giving NaN or a fraction in the class route, because the class id is an `int`.
- A non-array `scores` field, which `$unwind` treats as a single element, is not modelled. Neither is a missing `scores` field, which `$unwind` treats like an empty array. `scores` is a sequence in the model.
- `$group` output order is unspecified in MongoDB. The model emits groups in first-appearance order. The counts and the percentage do not depend on the order, but no lemma states that independence.
- Asynchronous execution, the database connection and concurrent writes are left out.

## Findings

| source | as written | input that shows it | evidently intended | confidence | as-written member | corrected member |
|---|---|---|---|---|---|---|
| routes/grades.mjs:47-50 | The rename is guarded by the truthiness of `student_id`. A numeric id of 0 is falsy, so the document keeps `student_id` and gets no `learner_id`. | a POST body `{ "student_id": 0, "class_id": 1 }` | Rename whenever `student_id` is present. The collection's schema admits `learner_id` 0. | medium, not executed | Documents.RenameStudentId, Documents.ZeroStudentIdNotRenamed | Documents.RenameStudentIdPresent, Documents.RenameEveryLearnerId |
