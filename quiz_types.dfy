/** The record shapes every component exchanges: a question, a quiz holding an
    ordered list of questions, and the result of one attempt. The string
    unions of the original interfaces become datatypes, with their tags kept
    for the places where the components handle them as text. */
module QuizTypes {
  import opened Wrappers

  /** The three kinds of question. */
  datatype QuestionType = MultipleChoice | TrueFalse | ShortAnswer

  datatype Difficulty = Easy | Medium | Hard

  /** Milliseconds since the epoch; only ever stored and passed on. */
  type Timestamp = int

  /** One question. `text` is the interface's `question` field; `options` is
      the only optional field. */
  datatype Question = Question(
    id: string,
    kind: QuestionType,
    text: string,
    options: Option<seq<string>>,
    correctAnswer: string,
    points: int)

  datatype Quiz = Quiz(
    id: string,
    title: string,
    description: string,
    category: string,
    difficulty: Difficulty,
    timeLimit: int,
    questions: seq<Question>,
    createdAt: Timestamp)

  /** `answers` maps a question id to the raw text the student gave. */
  datatype QuizResult = QuizResult(
    id: string,
    quizId: string,
    studentName: string,
    score: int,
    totalPoints: int,
    completedAt: Timestamp,
    answers: map<string, string>)

  /** A question under construction: every field may still be missing. The
      question editor and the bulk-import parser both accumulate one. */
  datatype Draft = Draft(
    kind: Option<QuestionType>,
    text: Option<string>,
    options: Option<seq<string>>,
    answer: Option<string>,
    points: Option<int>)

  /** A string field that JavaScript treats as true: present and not `''`. */
  predicate Truthy(s: Option<string>) {
    s.Some? && s.value != ""
  }

  /** `points || 10`: a missing or zero value becomes 10, any other value
      (negative ones included) is kept. */
  function PointsOrDefault(p: Option<int>): (r: int)
    ensures r != 0
    ensures p.Some? && p.value != 0 ==> r == p.value
    ensures p.None? || p.value == 0 ==> r == 10
  {
    if p.Some? && p.value != 0 then p.value else 10
  }

  /** The tag text of each question kind. */
  function KindTag(k: QuestionType): string {
    match k
    case MultipleChoice => "multiple-choice"
    case TrueFalse => "true-false"
    case ShortAnswer => "short-answer"
  }

  /** The tag text of each difficulty. */
  function DifficultyTag(d: Difficulty): string {
    match d
    case Easy => "Easy"
    case Medium => "Medium"
    case Hard => "Hard"
  }

  /** Reading a tag back: the tag union holds exactly the three kinds. */
  function KindFromTag(tag: string): (k: Option<QuestionType>)
    ensures k.Some? ==> KindTag(k.value) == tag
  {
    if tag == "multiple-choice" then Some(MultipleChoice)
    else if tag == "true-false" then Some(TrueFalse)
    else if tag == "short-answer" then Some(ShortAnswer)
    else None
  }

  /** Every kind is read back from its own tag, so different kinds have
      different tags. */
  lemma KindTagRoundTrip(k: QuestionType)
    ensures KindFromTag(KindTag(k)) == Some(k)
  {
  }
}
