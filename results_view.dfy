/** The results page of one attempt: the score band, the number of correct
    answers, and a card per question with its verdict, its options marked
    against the correct and the given answer, and the answer given. It only
    reads the result and the quiz. */
module Review {
  import opened Wrappers
  import opened Text
  import opened QuizTypes
  import Taking

  // ---------------------------------------------------------------------------
  // Score bands

  /** `getScoreColor` of an integer percentage. */
  function ScoreColor(percentage: int): string {
    if percentage >= 80 then "text-green-600"
    else if percentage >= 60 then "text-yellow-600"
    else "text-red-600"
  }

  datatype Badge = Badge(text: string, style: string)

  /** `getScoreBadge` of an integer percentage. */
  function ScoreBadge(percentage: int): Badge {
    if percentage >= 80 then Badge("Excellent!", "bg-green-100 text-green-800 border-green-200")
    else if percentage >= 60 then Badge("Good Job!", "bg-yellow-100 text-yellow-800 border-yellow-200")
    else Badge("Keep Practicing!", "bg-red-100 text-red-800 border-red-200")
  }

  /** The three colours split the percentages into three disjoint bands that
      cover every value, and the badge names the same band as the colour. */
  lemma ScoreBands(percentage: int)
    ensures ScoreColor(percentage) == "text-green-600" <==> percentage >= 80
    ensures ScoreColor(percentage) == "text-yellow-600" <==> 60 <= percentage < 80
    ensures ScoreColor(percentage) == "text-red-600" <==> percentage < 60
    ensures ScoreBadge(percentage).text == "Excellent!" <==> ScoreColor(percentage) == "text-green-600"
    ensures ScoreBadge(percentage).text == "Good Job!" <==> ScoreColor(percentage) == "text-yellow-600"
    ensures ScoreBadge(percentage).text == "Keep Practicing!" <==> ScoreColor(percentage) == "text-red-600"
  {
  }

  /** A higher percentage never lands in a lower band. */
  lemma ScoreColorMonotone(p: int, q: int)
    requires p <= q
    ensures ScoreColor(p) == "text-green-600" ==> ScoreColor(q) == "text-green-600"
    ensures ScoreColor(q) == "text-red-600" ==> ScoreColor(p) == "text-red-600"
  {
  }

  // ---------------------------------------------------------------------------
  // Correctness as the review page judges it

  /** `answers[q.id]?.toLowerCase() === q.correctAnswer.toLowerCase()`: a
      missing answer is never correct, but unlike the scorer an empty answer
      is compared like any other. */
  predicate ReviewCorrect(answers: map<string, string>, q: Question) {
    q.id in answers && Lower(answers[q.id]) == Lower(q.correctAnswer)
  }

  lemma LowerEmpty(s: string)
    ensures Lower(s) == "" <==> s == ""
  {
  }

  /** The page and the scorer agree on every question, except one whose
      correct answer is empty and whose recorded answer is empty: the page
      calls it correct and the scorer gives it nothing. */
  lemma ReviewAgreesWithScoring(answers: map<string, string>, q: Question)
    ensures ReviewCorrect(answers, q) <==>
      Taking.IsCorrect(answers, q) || (q.id in answers && answers[q.id] == "" && q.correctAnswer == "")
  {
    if q.id in answers {
      LowerEmpty(answers[q.id]);
      LowerEmpty(q.correctAnswer);
    }
  }

  /** The "Correct Answers" figure: how many questions the page judges
      correct. */
  function CorrectCount(qs: seq<Question>, answers: map<string, string>): (n: nat)
    ensures n <= |qs|
  {
    if qs == [] then 0
    else CorrectCount(qs[..|qs| - 1], answers) + (if ReviewCorrect(answers, qs[|qs| - 1]) then 1 else 0)
  }

  /** When no correct answer is empty, the figure counts exactly the
      questions the score was earned on. */
  lemma {:induction false} CorrectCountMatchesScoring(qs: seq<Question>, answers: map<string, string>)
    requires forall k :: 0 <= k < |qs| ==> qs[k].correctAnswer != ""
    ensures CorrectCount(qs, answers) == |Taking.CorrectOnes(qs, answers)|
  {
    if qs != [] {
      var init := qs[..|qs| - 1];
      assert forall k :: 0 <= k < |init| ==> init[k] == qs[k];
      CorrectCountMatchesScoring(init, answers);
      ReviewAgreesWithScoring(answers, qs[|qs| - 1]);
    }
  }

  // ---------------------------------------------------------------------------
  // One question's card

  datatype Tone = Green | Red | Gray

  /** One option as shown: its highlight and whether it carries the check
      mark or the cross mark. */
  datatype OptionView = OptionView(text: string, tone: Tone, check: bool, cross: bool)

  /** An option of a multiple-choice question. The correct option is green
      and checked; the option the student picked is red when the question
      was judged wrong, and crossed whenever it differs from the correct
      answer. Option comparisons are case-sensitive. */
  function ViewOption(option: string, q: Question, userAnswer: Option<string>, isCorrect: bool): OptionView {
    var picked := userAnswer == Some(option);
    OptionView(option,
      if option == q.correctAnswer then Green else if picked && !isCorrect then Red else Gray,
      option == q.correctAnswer,
      picked && option != q.correctAnswer)
  }

  /** No option carries both marks; green means exactly "checked"; a red
      option is crossed; and a crossed option that is not red belongs to a
      question judged correct, which happens when the picked option differs
      from the correct answer only in letter case. */
  lemma OptionMarks(option: string, q: Question, userAnswer: Option<string>, isCorrect: bool)
    ensures var v := ViewOption(option, q, userAnswer, isCorrect);
      && !(v.check && v.cross)
      && (v.tone == Green <==> v.check)
      && (v.tone == Red ==> v.cross)
      && (v.cross && v.tone != Red ==> isCorrect)
      && (v.tone == Red <==> userAnswer == Some(option) && !isCorrect && option != q.correctAnswer)
  {
  }

  /** An option the student picked that equals the correct answer only up to
      letter case: the question is judged correct, yet the option is crossed
      and not highlighted. */
  lemma CrossOnCorrectQuestion(answers: map<string, string>, q: Question, option: string)
    requires q.id in answers && answers[q.id] == option
    requires Lower(option) == Lower(q.correctAnswer) && option != q.correctAnswer
    ensures ReviewCorrect(answers, q)
    ensures var v := ViewOption(option, q, Lookup(answers, q.id), ReviewCorrect(answers, q));
      v.cross && !v.check && v.tone == Gray
  {
  }

  /** What the card shows in the "Your Answer" slot, and its colour. */
  function ShownAnswer(userAnswer: Option<string>): (s: string)
    ensures s != ""
    ensures Truthy(userAnswer) ==> s == userAnswer.value
    ensures !Truthy(userAnswer) ==> s == "No answer provided"
  {
    if Truthy(userAnswer) then userAnswer.value else "No answer provided"
  }

  function AnswerTone(userAnswer: Option<string>, isCorrect: bool): (t: Tone)
    ensures t == Gray <==> !Truthy(userAnswer)
    ensures t == Green <==> Truthy(userAnswer) && isCorrect
  {
    if Truthy(userAnswer) then (if isCorrect then Green else Red) else Gray
  }

  function Lookup(answers: map<string, string>, id: string): (r: Option<string>)
    ensures r.Some? <==> id in answers
    ensures r.Some? ==> r.value == answers[id]
  {
    if id in answers then Some(answers[id]) else None
  }

  /** One question's card. */
  datatype Card = Card(correct: bool, verdict: string, options: seq<OptionView>, answer: string, answerTone: Tone)

  /** The card of question `q`: options are listed only for a
      multiple-choice question that has them. */
  function ReviewCard(answers: map<string, string>, q: Question): (c: Card)
    ensures c.correct == ReviewCorrect(answers, q)
    ensures c.verdict == "Correct" <==> c.correct
    ensures c.options != [] ==> q.kind == MultipleChoice && q.options.Some?
    ensures q.kind == MultipleChoice && q.options.Some? ==> |c.options| == |q.options.value|
    ensures q.kind == MultipleChoice && q.options.Some? ==>
      forall k :: 0 <= k < |c.options| ==> c.options[k] == ViewOption(q.options.value[k], q, Lookup(answers, q.id), c.correct)
    ensures c.answer == ShownAnswer(Lookup(answers, q.id))
    ensures c.answerTone == AnswerTone(Lookup(answers, q.id), c.correct)
  {
    var userAnswer := Lookup(answers, q.id);
    var isCorrect := ReviewCorrect(answers, q);
    Card(isCorrect, if isCorrect then "Correct" else "Incorrect",
      if q.kind == MultipleChoice && q.options.Some?
      then seq(|q.options.value|, k requires 0 <= k < |q.options.value| => ViewOption(q.options.value[k], q, userAnswer, isCorrect))
      else [],
      ShownAnswer(userAnswer), AnswerTone(userAnswer, isCorrect))
  }

  /** The cards of all questions, in quiz order. */
  function ReviewCards(qs: seq<Question>, answers: map<string, string>): (cs: seq<Card>)
    ensures |cs| == |qs|
    ensures forall k :: 0 <= k < |qs| ==> cs[k] == ReviewCard(answers, qs[k])
  {
    seq(|qs|, k requires 0 <= k < |qs| => ReviewCard(answers, qs[k]))
  }

  /** Number of cards whose badge reads "Correct". */
  function CorrectBadges(cs: seq<Card>): nat {
    if cs == [] then 0
    else CorrectBadges(cs[..|cs| - 1]) + (if cs[|cs| - 1].verdict == "Correct" then 1 else 0)
  }

  /** The "Correct" badges on the cards are as many as the figure at the top
      of the page. */
  lemma {:induction false} BadgesMatchCount(qs: seq<Question>, answers: map<string, string>)
    ensures CorrectBadges(ReviewCards(qs, answers)) == CorrectCount(qs, answers)
  {
    if qs != [] {
      var init := qs[..|qs| - 1];
      BadgesMatchCount(init, answers);
      var cs := ReviewCards(qs, answers);
      assert cs[..|cs| - 1] == ReviewCards(init, answers);
    }
  }
}
