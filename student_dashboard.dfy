/** The student's dashboard: the quizzes loaded from the database, the
    student's results, the split of quizzes into available and completed,
    and what happens when an attempt is handed in. The database calls
    themselves are outside the model; their outcome is a parameter. */
module Dashboard {
  import opened Wrappers
  import opened QuizTypes

  // ---------------------------------------------------------------------------
  // Loading quizzes

  /** A question row as the database returns it. */
  datatype QuestionRow = QuestionRow(
    id: string,
    questionType: QuestionType,
    question: string,
    options: Option<seq<string>>,
    correctAnswer: string,
    points: int)

  /** A quiz row with its joined question rows; `description` is nullable
      and the join may be missing. */
  datatype QuizRow = QuizRow(
    id: string,
    title: string,
    description: Option<string>,
    category: string,
    difficulty: Difficulty,
    timeLimit: int,
    questions: Option<seq<QuestionRow>>,
    createdAt: Timestamp)

  function FromQuestionRow(r: QuestionRow): (q: Question)
    ensures q.id == r.id && q.kind == r.questionType && q.text == r.question
    ensures q.options == r.options && q.correctAnswer == r.correctAnswer && q.points == r.points
  {
    Question(r.id, r.questionType, r.question, r.options, r.correctAnswer, r.points)
  }

  /** The row-to-quiz conversion: a null or empty description becomes `''`,
      a missing join becomes no questions, and the question rows are
      converted one by one in order. */
  function FromRow(row: QuizRow): (quiz: Quiz)
    ensures quiz.id == row.id && quiz.title == row.title && quiz.category == row.category
    ensures quiz.difficulty == row.difficulty && quiz.timeLimit == row.timeLimit
    ensures quiz.createdAt == row.createdAt
    ensures row.description.None? ==> quiz.description == ""
    ensures row.description.Some? ==> quiz.description == row.description.value
    ensures row.questions.None? ==> quiz.questions == []
    ensures row.questions.Some? ==> |quiz.questions| == |row.questions.value|
    ensures row.questions.Some? ==> forall k :: 0 <= k < |quiz.questions| ==>
      quiz.questions[k] == FromQuestionRow(row.questions.value[k])
  {
    Quiz(row.id, row.title, row.description.GetOr(""), row.category, row.difficulty, row.timeLimit,
         if row.questions.Some?
         then seq(|row.questions.value|, k requires 0 <= k < |row.questions.value| => FromQuestionRow(row.questions.value[k]))
         else [],
         row.createdAt)
  }

  // ---------------------------------------------------------------------------
  // Available and completed quizzes

  /** `new Set(results.map(r => r.quizId))` */
  function CompletedIds(results: seq<QuizResult>): (ids: set<string>)
    ensures forall id :: id in ids <==> exists k :: 0 <= k < |results| && results[k].quizId == id
  {
    set k | 0 <= k < |results| :: results[k].quizId
  }

  /** `quizzes.filter(quiz => !completedQuizIds.has(quiz.id))` */
  function Available(quizzes: seq<Quiz>, ids: set<string>): (r: seq<Quiz>)
    ensures forall k :: 0 <= k < |r| ==> r[k] in quizzes && r[k].id !in ids
  {
    if quizzes == [] then []
    else (if quizzes[0].id !in ids then [quizzes[0]] else []) + Available(quizzes[1..], ids)
  }

  /** `quizzes.filter(quiz => completedQuizIds.has(quiz.id))` */
  function Completed(quizzes: seq<Quiz>, ids: set<string>): (r: seq<Quiz>)
    ensures forall k :: 0 <= k < |r| ==> r[k] in quizzes && r[k].id in ids
  {
    if quizzes == [] then []
    else (if quizzes[0].id in ids then [quizzes[0]] else []) + Completed(quizzes[1..], ids)
  }

  /** `all` is an order-keeping merge of `a` and `c`, every element of `a`
      outside `ids` and every element of `c` inside it. */
  predicate Interleaves(all: seq<Quiz>, a: seq<Quiz>, c: seq<Quiz>, ids: set<string>)
    decreases |all|
  {
    if all == [] then a == [] && c == []
    else if all[0].id in ids then c != [] && c[0] == all[0] && Interleaves(all[1..], a, c[1..], ids)
    else a != [] && a[0] == all[0] && Interleaves(all[1..], a[1..], c, ids)
  }

  /** Every quiz lands in exactly one of the two lists, and both lists keep
      the order of the loaded quizzes. */
  lemma {:induction false} SplitInterleaves(quizzes: seq<Quiz>, ids: set<string>)
    ensures Interleaves(quizzes, Available(quizzes, ids), Completed(quizzes, ids), ids)
    ensures |Available(quizzes, ids)| + |Completed(quizzes, ids)| == |quizzes|
    decreases |quizzes|
  {
    if quizzes != [] {
      SplitInterleaves(quizzes[1..], ids);
      if quizzes[0].id in ids {
        assert Completed(quizzes, ids)[1..] == Completed(quizzes[1..], ids);
        assert Available(quizzes, ids) == Available(quizzes[1..], ids);
      } else {
        assert Available(quizzes, ids)[1..] == Available(quizzes[1..], ids);
        assert Completed(quizzes, ids) == Completed(quizzes[1..], ids);
      }
    }
  }

  /** A loaded quiz is listed as completed exactly when some result names
      it, and as available exactly when none does. */
  lemma {:induction false} CompletedMembership(quizzes: seq<Quiz>, results: seq<QuizResult>, q: Quiz)
    requires q in quizzes
    ensures q in Completed(quizzes, CompletedIds(results)) <==> exists k :: 0 <= k < |results| && results[k].quizId == q.id
    ensures q in Available(quizzes, CompletedIds(results)) <==> !exists k :: 0 <= k < |results| && results[k].quizId == q.id
    decreases |quizzes|
  {
    var ids := CompletedIds(results);
    if quizzes[0] != q {
      CompletedMembership(quizzes[1..], results, q);
    }
  }

  // ---------------------------------------------------------------------------
  // Looking up a result

  /** The position of the first result for `quizId`, or `|results|` when
      there is none. */
  function FirstFor(results: seq<QuizResult>, quizId: string): (i: nat)
    ensures i <= |results|
    ensures forall j :: 0 <= j < i ==> results[j].quizId != quizId
    ensures i < |results| ==> results[i].quizId == quizId
    decreases |results|
  {
    if results == [] || results[0].quizId == quizId then 0
    else 1 + FirstFor(results[1..], quizId)
  }

  /** `results.find(r => r.quizId === quizId)`: the first matching result,
      or none when no result names the quiz. */
  function FindResult(results: seq<QuizResult>, quizId: string): (r: Option<QuizResult>)
    ensures r.None? <==> forall k :: 0 <= k < |results| ==> results[k].quizId != quizId
    ensures r.Some? ==> (exists k :: 0 <= k < |results| && results[k] == r.value)
    ensures r.Some? ==> r.value.quizId == quizId
    ensures r.Some? ==> r.value == results[FirstFor(results, quizId)]
  {
    var i := FirstFor(results, quizId);
    if i < |results| then Some(results[i]) else None
  }

  /** Every completed quiz has a result to show. */
  lemma CompletedHasResult(quizzes: seq<Quiz>, results: seq<QuizResult>, q: Quiz)
    requires q in Completed(quizzes, CompletedIds(results))
    ensures FindResult(results, q.id).Some?
  {
  }

  /** Appending a result changes the one found only for a quiz that had none:
      a later attempt at a quiz is never the one shown. */
  lemma FindAfterAppend(results: seq<QuizResult>, r: QuizResult, quizId: string)
    ensures FindResult(results + [r], quizId) ==
      if FindResult(results, quizId).Some? then FindResult(results, quizId)
      else if r.quizId == quizId then Some(r) else None
    decreases |results|
  {
    if FirstFor(results, quizId) < |results| {
      FirstForAppend(results, r, quizId);
    } else {
      var all := results + [r];
      var i := FirstFor(all, quizId);
      assert forall k :: 0 <= k < |results| ==> all[k] == results[k];
      assert i >= |results|;
      if r.quizId == quizId {
        assert all[|results|] == r;
        assert i == |results|;
      }
    }
  }

  lemma {:induction false} FirstForAppend(results: seq<QuizResult>, r: QuizResult, quizId: string)
    requires FirstFor(results, quizId) < |results|
    ensures FirstFor(results + [r], quizId) == FirstFor(results, quizId)
    decreases |results|
  {
    if results[0].quizId != quizId {
      assert (results + [r])[1..] == results[1..] + [r];
      FirstForAppend(results[1..], r, quizId);
    }
  }

  // ---------------------------------------------------------------------------
  // Badges and buttons

  /** `getDifficultyColor`, which switches on the difficulty's text. */
  function DifficultyColor(difficulty: string): string {
    if difficulty == "Easy" then "bg-green-100 text-green-800 border-green-200"
    else if difficulty == "Medium" then "bg-yellow-100 text-yellow-800 border-yellow-200"
    else if difficulty == "Hard" then "bg-red-100 text-red-800 border-red-200"
    else "bg-gray-100 text-gray-800 border-gray-200"
  }

  /** The three difficulties get three different styles, none of them the
      grey one every other text gets. */
  lemma DifficultyColorsDistinct(d: Difficulty, e: Difficulty, other: string)
    requires other != "Easy" && other != "Medium" && other != "Hard"
    ensures DifficultyColor(DifficultyTag(d)) == DifficultyColor(DifficultyTag(e)) <==> d == e
    ensures DifficultyColor(DifficultyTag(d)) != DifficultyColor(other)
    ensures DifficultyColor(other) == "bg-gray-100 text-gray-800 border-gray-200"
  {
  }

  datatype StartControl = StartControl(disabled: bool, caption: string)

  /** A quiz card's start button: disabled exactly for a quiz without
      questions, and labelled to say so; an attempt therefore always opens on
      a question that exists. */
  function StartButton(quiz: Quiz): (b: StartControl)
    ensures b.disabled <==> |quiz.questions| == 0
    ensures !b.disabled ==> 0 < |quiz.questions| && b.caption == "Start Quiz"
    ensures b.disabled ==> b.caption == "No Questions Available"
  {
    if |quiz.questions| == 0 then StartControl(true, "No Questions Available")
    else StartControl(false, "Start Quiz")
  }

  // ---------------------------------------------------------------------------
  // The dashboard's state

  datatype View = ListView | TakingView | ResultsView

  /** How saving an attempt went: no signed-in user, a database error, or
      stored. */
  datatype SaveOutcome = NotSignedIn | SaveFailed | Saved

  class StudentDashboard {
    var quizzes: seq<Quiz>
    var results: seq<QuizResult>
    var view: View
    var selected: Option<Quiz>
    var currentResult: Option<QuizResult>

    constructor()
      ensures quizzes == [] && results == [] && view == ListView
      ensures selected == None && currentResult == None
    {
      quizzes, results, view := [], [], ListView;
      selected, currentResult := None, None;
    }

    /** The quiz fetch once the query has answered: on an error the list is
        kept; otherwise it becomes the converted rows in the order they came,
        or no quizzes when the query returned no data. */
    method LoadQuizzes(data: Option<seq<QuizRow>>, failed: bool)
      modifies this
      ensures failed ==> quizzes == old(quizzes)
      ensures !failed ==> |quizzes| == |data.GetOr([])|
      ensures !failed ==> forall k :: 0 <= k < |quizzes| ==> quizzes[k] == FromRow(data.GetOr([])[k])
      ensures results == old(results) && view == old(view)
      ensures selected == old(selected) && currentResult == old(currentResult)
    {
      if failed {
        return;
      }
      var rows := data.GetOr([]);
      quizzes := seq(|rows|, k requires 0 <= k < |rows| => FromRow(rows[k]));
    }

    /** `handleStartQuiz` */
    method StartQuiz(quiz: Quiz)
      modifies this
      ensures selected == Some(quiz) && view == TakingView
      ensures quizzes == old(quizzes) && results == old(results) && currentResult == old(currentResult)
    {
      selected := Some(quiz);
      view := TakingView;
    }

    /** `handleQuizComplete` once the insert has answered: without a user or
        on an error nothing changes; otherwise the result is appended at the
        end and shown. */
    method QuizComplete(result: QuizResult, outcome: SaveOutcome)
      modifies this
      ensures outcome != Saved ==>
        results == old(results) && view == old(view) && currentResult == old(currentResult)
      ensures outcome == Saved ==>
        results == old(results) + [result] && view == ResultsView && currentResult == Some(result)
      ensures quizzes == old(quizzes) && selected == old(selected)
    {
      if outcome != Saved {
        return;
      }
      results := results + [result];
      currentResult := Some(result);
      view := ResultsView;
    }

    /** The back button returns to the list and forgets the selection. */
    method BackToList()
      modifies this
      ensures view == ListView && selected == None && currentResult == None
      ensures quizzes == old(quizzes) && results == old(results)
    {
      view := ListView;
      selected := None;
      currentResult := None;
    }
  }

  /** After a saved attempt the quiz it belongs to is listed as completed. */
  lemma SavedQuizCompleted(quizzes: seq<Quiz>, results: seq<QuizResult>, r: QuizResult, q: Quiz)
    requires q in quizzes && q.id == r.quizId
    ensures q in Completed(quizzes, CompletedIds(results + [r]))
    ensures q !in Available(quizzes, CompletedIds(results + [r]))
  {
    assert (results + [r])[|results|].quizId == q.id;
    CompletedMembership(quizzes, results + [r], q);
  }
}
