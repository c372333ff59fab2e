/** One attempt at a quiz: the student moves between questions, records
    answers keyed by question id, a one-second timer counts down, and
    submitting scores the answers. Scoring compares answers with the correct
    ones ignoring case; a missing or empty answer never scores. */
module Taking {
  import opened Wrappers
  import opened Text
  import opened QuizTypes

  // ---------------------------------------------------------------------------
  // Scoring

  /** The student's answer to `q` is present, not empty, and equal to the
      correct answer once both are lower-cased. */
  predicate IsCorrect(answers: map<string, string>, q: Question) {
    q.id in answers && answers[q.id] != "" && Lower(answers[q.id]) == Lower(q.correctAnswer)
  }

  /** `questions.reduce((acc, q) => acc + q.points, 0)`, folded from the left. */
  function TotalPoints(qs: seq<Question>): int {
    if qs == [] then 0 else TotalPoints(qs[..|qs| - 1]) + qs[|qs| - 1].points
  }

  /** The score the submit loop accumulates over the first `|qs|` questions. */
  function Score(qs: seq<Question>, answers: map<string, string>): int {
    if qs == [] then 0
    else Score(qs[..|qs| - 1], answers) + (if IsCorrect(answers, qs[|qs| - 1]) then qs[|qs| - 1].points else 0)
  }

  /** The questions answered correctly, in quiz order. */
  function CorrectOnes(qs: seq<Question>, answers: map<string, string>): (r: seq<Question>)
    ensures |r| <= |qs|
    ensures forall k :: 0 <= k < |r| ==> IsCorrect(answers, r[k])
    ensures forall k :: 0 <= k < |qs| && IsCorrect(answers, qs[k]) ==> qs[k] in r
  {
    if qs == [] then []
    else CorrectOnes(qs[..|qs| - 1], answers) + (if IsCorrect(answers, qs[|qs| - 1]) then [qs[|qs| - 1]] else [])
  }

  /** The filter keeps each correctly answered question as often as it
      occurs in the quiz, and nothing else. */
  lemma {:induction false} CorrectOnesCounts(qs: seq<Question>, answers: map<string, string>)
    ensures forall x :: multiset(CorrectOnes(qs, answers))[x] == if IsCorrect(answers, x) then multiset(qs)[x] else 0
  {
    if qs != [] {
      var init := qs[..|qs| - 1];
      CorrectOnesCounts(init, answers);
      assert qs == init + [qs[|qs| - 1]];
    }
  }

  lemma TotalPointsAppend(qs: seq<Question>, q: Question)
    ensures TotalPoints(qs + [q]) == TotalPoints(qs) + q.points
  {
    assert (qs + [q])[..|qs|] == qs;
  }

  /** The score is the total of the points of the questions answered
      correctly. */
  lemma {:induction false} ScoreIsPointsOfCorrect(qs: seq<Question>, answers: map<string, string>)
    ensures Score(qs, answers) == TotalPoints(CorrectOnes(qs, answers))
  {
    if qs != [] {
      var init := qs[..|qs| - 1];
      var last := qs[|qs| - 1];
      ScoreIsPointsOfCorrect(init, answers);
      if IsCorrect(answers, last) {
        TotalPointsAppend(CorrectOnes(init, answers), last);
      } else {
        assert Score(qs, answers) == Score(init, answers);
        assert CorrectOnes(qs, answers) == CorrectOnes(init, answers) + [];
        assert CorrectOnes(init, answers) + [] == CorrectOnes(init, answers);
      }
    }
  }

  predicate NonNegativePoints(qs: seq<Question>) {
    forall k :: 0 <= k < |qs| ==> qs[k].points >= 0
  }

  /** With no negative points, the score lies between zero and the total. */
  lemma {:induction false} ScoreBounds(qs: seq<Question>, answers: map<string, string>)
    requires NonNegativePoints(qs)
    ensures 0 <= Score(qs, answers) <= TotalPoints(qs)
  {
    if qs != [] {
      ScoreBounds(qs[..|qs| - 1], answers);
    }
  }

  /** With positive points everywhere, the full total is scored exactly when
      every question is answered correctly. */
  lemma {:induction false} FullScore(qs: seq<Question>, answers: map<string, string>)
    requires forall k :: 0 <= k < |qs| ==> qs[k].points > 0
    ensures Score(qs, answers) == TotalPoints(qs) <==> forall k :: 0 <= k < |qs| ==> IsCorrect(answers, qs[k])
  {
    if qs != [] {
      var init := qs[..|qs| - 1];
      PositiveInit(qs, init);
      FullScore(init, answers);
      ScoreBounds(init, answers);
      AllCorrectSplit(qs, init, answers);
    }
  }

  lemma PositiveInit(qs: seq<Question>, init: seq<Question>)
    requires qs != [] && init == qs[..|qs| - 1]
    requires forall k :: 0 <= k < |qs| ==> qs[k].points > 0
    ensures forall k :: 0 <= k < |init| ==> init[k].points > 0
    ensures NonNegativePoints(init)
  {
    assert forall k :: 0 <= k < |init| ==> init[k] == qs[k];
  }

  /** All questions are correct exactly when all but the last are and the
      last is. */
  lemma AllCorrectSplit(qs: seq<Question>, init: seq<Question>, answers: map<string, string>)
    requires qs != [] && init == qs[..|qs| - 1]
    ensures (forall k :: 0 <= k < |qs| ==> IsCorrect(answers, qs[k]))
        <==> (forall k :: 0 <= k < |init| ==> IsCorrect(answers, init[k])) && IsCorrect(answers, qs[|qs| - 1])
  {
    assert forall k :: 0 <= k < |init| ==> init[k] == qs[k];
  }

  /** Before any answer is recorded the score is zero. */
  lemma {:induction false} NoAnswersNoScore(qs: seq<Question>)
    ensures Score(qs, map[]) == 0
  {
    if qs != [] {
      NoAnswersNoScore(qs[..|qs| - 1]);
    }
  }

  // ---------------------------------------------------------------------------
  // Progress

  /** `isAnswered`: an answer is recorded and is not `''`. */
  predicate IsAnswered(answers: map<string, string>, id: string) {
    id in answers && answers[id] != ""
  }

  /** `questions.filter(q => isAnswered(q.id)).length` */
  function AnsweredCount(qs: seq<Question>, answers: map<string, string>): (n: nat)
    ensures n <= |qs|
    ensures n == |qs| <==> forall k :: 0 <= k < |qs| ==> IsAnswered(answers, qs[k].id)
  {
    if qs == [] then 0
    else AnsweredCount(qs[..|qs| - 1], answers) + (if IsAnswered(answers, qs[|qs| - 1].id) then 1 else 0)
  }

  /** A correct answer is an answered one, so the correct answers never
      outnumber the answered questions. */
  lemma {:induction false} CorrectAreAnswered(qs: seq<Question>, answers: map<string, string>)
    ensures |CorrectOnes(qs, answers)| <= AnsweredCount(qs, answers)
  {
    if qs != [] {
      CorrectAreAnswered(qs[..|qs| - 1], answers);
    }
  }

  // ---------------------------------------------------------------------------
  // The clock

  /** JavaScript's `%` for a positive divisor: the remainder takes the sign
      of the dividend. */
  function JsRem(a: int, b: int): (r: int)
    requires b > 0
    ensures a >= 0 ==> 0 <= r < b
    ensures a < 0 ==> -b < r <= 0
    ensures a >= 0 ==> r == a % b
  {
    if a >= 0 then a % b else -((-a) % b)
  }

  /** Negating the dividend negates the remainder, which with the
      non-negative case fixes the value for every dividend. */
  lemma JsRemOdd(a: int, b: int)
    requires b > 0
    ensures JsRem(-a, b) == -JsRem(a, b)
  {
  }

  /** `formatTime`: whole minutes (rounded down), a colon, and the seconds
      padded to two digits. */
  function FormatTime(seconds: int): string {
    IntToString(seconds / 60) + ":" + PadStart2(IntToString(JsRem(seconds, 60)))
  }

  /** Reading a `m:ss` display back into seconds. */
  function ReadClock(display: string): Option<int> {
    ReadFields(Split(display, ':'))
  }

  /** Minutes and seconds fields, each read with `parseInt`. */
  function ReadFields(parts: seq<string>): Option<int> {
    if |parts| != 2 then None
    else
      var minutes, secs := ParseInt(parts[0]), ParseInt(parts[1]);
      if minutes.Some? && secs.Some? then Some(minutes.value * 60 + secs.value) else None
  }

  lemma NoColonInDecimal(n: nat)
    ensures ':' !in NatToDecimal(n)
  {
    var d := NatToDecimal(n);
    assert forall i :: 0 <= i < |d| ==> d[i] != ':';
  }

  /** The two-digit seconds field reads back as the seconds. */
  lemma SecondsField(sec: nat)
    requires sec < 60
    ensures var f := PadStart2(IntToString(sec));
      |f| == 2 && ':' !in f && ParseInt(f) == Some(sec)
  {
    NoColonInDecimal(sec);
    if sec < 10 {
      SingleDigitField(sec);
    } else {
      assert |NatToDecimal(sec)| == 2;
      ParseIntRoundTrip(sec);
    }
  }

  lemma SingleDigitField(sec: nat)
    requires sec < 10
    ensures var f := PadStart2(IntToString(sec));
      |f| == 2 && ParseInt(f) == Some(sec)
  {
    var f := PadStart2(NatToDecimal(sec));
    assert f == ['0', DigitChar(sec)];
    ZeroDigitParse(f, sec);
  }

  /** A zero followed by one digit reads as that digit. */
  lemma ZeroDigitParse(f: string, sec: nat)
    requires sec < 10 && f == ['0', DigitChar(sec)]
    ensures ParseInt(f) == Some(sec)
  {
    assert AllDigitsIn(f, 10);
    MagnitudeOfDecimal(f);
    assert f[..1] == ['0'] && f[..1][..0] == [];
    assert NumeralValue(f[..1], 10) == 0;
    assert NumeralValue(f, 10) == sec;
    assert TrimStart(f) == f;
  }

  /** The display splits at its one colon into the minutes and the padded
      seconds. */
  lemma ClockFields(seconds: nat)
    ensures Split(FormatTime(seconds), ':') ==
      [IntToString(seconds / 60), PadStart2(IntToString(seconds % 60))]
  {
    FormatTimeShape(seconds);
    NoColonInDecimal(seconds / 60);
    PaddedNoColon(seconds % 60);
    SplitTwo(IntToString(seconds / 60), PadStart2(IntToString(seconds % 60)));
  }

  lemma FormatTimeShape(seconds: nat)
    ensures FormatTime(seconds) == IntToString(seconds / 60) + [':'] + PadStart2(IntToString(seconds % 60))
  {
  }

  lemma PaddedNoColon(n: nat)
    ensures ':' !in PadStart2(IntToString(n))
  {
    var d := NatToDecimal(n);
    var f := PadStart2(d);
    NoColonInDecimal(n);
    forall i | 0 <= i < |f|
      ensures f[i] != ':'
    {
      if i >= |f| - |d| {
        assert f[i] == f[|f| - |d|..][i - (|f| - |d|)];
      }
    }
  }

  lemma SplitTwo(a: string, b: string)
    requires ':' !in a && ':' !in b
    ensures Split(a + [':'] + b, ':') == [a, b]
  {
    SplitAtSeparator(a, ':', b);
    SplitNoSeparator(b, ':');
  }

  /** For a non-negative count of seconds the display has one colon and a
      two-digit seconds field that reads as a number below 60. */
  lemma FormatTimeFields(seconds: nat)
    ensures var parts := Split(FormatTime(seconds), ':');
      |parts| == 2 && |parts[1]| == 2 && ParseInt(parts[1]) == Some(seconds % 60) && seconds % 60 < 60
  {
    ClockFields(seconds);
    SecondsField(seconds % 60);
  }

  /** For a non-negative count of seconds the display reads back as the same
      count. */
  lemma FormatTimeRoundTrip(seconds: nat)
    ensures ReadClock(FormatTime(seconds)) == Some(seconds)
  {
    ClockFields(seconds);
    ClockValues(seconds);
  }

  lemma ClockValues(seconds: nat)
    ensures ReadFields([IntToString(seconds / 60), PadStart2(IntToString(seconds % 60))]) == Some(seconds)
  {
    var m, r := seconds / 60, seconds % 60;
    FieldsParse(m, r);
    ReadTwoFields(IntToString(m), PadStart2(IntToString(r)), m, r, seconds);
  }

  /** Each field, written as the display writes it, parses as its value. */
  lemma FieldsParse(m: nat, r: nat)
    requires r < 60
    ensures ParseInt(IntToString(m)) == Some(m)
    ensures ParseInt(PadStart2(IntToString(r))) == Some(r)
  {
    SecondsField(r);
    ParseIntRoundTrip(m);
  }

  lemma ReadTwoFields(a: string, b: string, m: int, s: int, total: int)
    requires ParseInt(a) == Some(m) && ParseInt(b) == Some(s) && total == m * 60 + s
    ensures ReadFields([a, b]) == Some(total)
  {
    var parts := [a, b];
    assert parts[0] == a && parts[1] == b;
  }

  /** The value the timer holds one second later. */
  function TickValue(t: int): int {
    if t <= 1 then 0 else t - 1
  }

  /** The tick that finds `t` seconds left submits the quiz. */
  predicate Fires(t: int) {
    t <= 1
  }

  /** The timer after `n` ticks from `t`. */
  function AfterTicks(t: int, n: nat): int
    decreases n
  {
    if n == 0 then t else AfterTicks(TickValue(t), n - 1)
  }

  /** From `t >= 0` the timer counts down by one per tick and stays at zero. */
  lemma {:induction false} Countdown(t: int, n: nat)
    requires t >= 0
    ensures AfterTicks(t, n) == if n < t then t - n else 0
  {
    if n > 0 {
      Countdown(TickValue(t), n - 1);
    }
  }

  /** From `t >= 1` seconds the first submitting tick is tick number `t`:
      ticks 1 to `t - 1` do not submit, and every tick from then on does. */
  lemma SubmitsAfterLimit(t: int, n: nat)
    requires t >= 1
    ensures Fires(AfterTicks(t, n)) <==> n + 1 >= t
  {
    Countdown(t, n);
  }

  /** `user?.email || 'Anonymous'` */
  function StudentName(email: Option<string>): (name: string)
    ensures name != ""
    ensures Truthy(email) ==> name == email.value
  {
    if Truthy(email) then email.value else "Anonymous"
  }

  // ---------------------------------------------------------------------------
  // The session

  class QuizSession {
    const quiz: Quiz
    var index: int
    var answers: map<string, string>
    var timeRemaining: int
    var started: bool

    /** The question index is zero or names a question. */
    predicate Valid()
      reads this
    {
      0 <= index && (index == 0 || index < |quiz.questions|)
    }

    /** A fresh session: first question, no answers, the whole time limit in
        seconds, not yet started. A negative limit is kept as it is. */
    constructor(quiz: Quiz)
      ensures Valid()
      ensures this.quiz == quiz && index == 0 && answers == map[]
      ensures timeRemaining == quiz.timeLimit * 60 && !started
    {
      this.quiz := quiz;
      index := 0;
      answers := map[];
      timeRemaining := quiz.timeLimit * 60;
      started := false;
    }

    /** The start button. */
    method Start()
      modifies this
      ensures started
      ensures index == old(index) && answers == old(answers) && timeRemaining == old(timeRemaining)
    {
      started := true;
    }

    /** `handleAnswerChange`: records `value` for the question on screen and
        changes nothing else. */
    method AnswerChange(value: string)
      requires Valid() && index < |quiz.questions|
      modifies this
      ensures Valid()
      ensures answers == old(answers)[quiz.questions[index].id := value]
      ensures forall id :: id in old(answers) && id != quiz.questions[index].id ==> id in answers && answers[id] == old(answers)[id]
      ensures value != "" ==> IsAnswered(answers, quiz.questions[index].id)
      ensures index == old(index) && timeRemaining == old(timeRemaining) && started == old(started)
    {
      answers := answers[quiz.questions[index].id := value];
    }

    /** `handleNext`: moves on unless the last question is on screen. */
    method Next()
      requires Valid()
      modifies this
      ensures Valid()
      ensures old(index) < |quiz.questions| - 1 ==> index == old(index) + 1
      ensures old(index) >= |quiz.questions| - 1 ==> index == old(index)
      ensures answers == old(answers) && timeRemaining == old(timeRemaining) && started == old(started)
    {
      if index < |quiz.questions| - 1 {
        index := index + 1;
      }
    }

    /** `handlePrevious`: moves back unless the first question is on screen. */
    method Previous()
      requires Valid()
      modifies this
      ensures Valid()
      ensures old(index) > 0 ==> index == old(index) - 1
      ensures old(index) == 0 ==> index == 0
      ensures answers == old(answers) && timeRemaining == old(timeRemaining) && started == old(started)
    {
      if index > 0 {
        index := index - 1;
      }
    }

    /** One second of the running timer. With one second or less left it
        asks for a submit and sets the timer to zero; the submit is not
        guarded, so every later tick asks again. */
    method Tick() returns (submit: bool)
      requires started
      modifies this
      ensures submit <==> Fires(old(timeRemaining))
      ensures timeRemaining == TickValue(old(timeRemaining))
      ensures timeRemaining >= 0
      ensures old(timeRemaining) >= 0 ==> timeRemaining <= old(timeRemaining)
      ensures index == old(index) && answers == old(answers) && started == old(started)
    {
      if timeRemaining <= 1 {
        submit := true;
        timeRemaining := 0;
      } else {
        submit := false;
        timeRemaining := timeRemaining - 1;
      }
    }

    /** `handleSubmit`: the result handed on, with the score accumulated over
        the questions in order and the total of all points. `id` and `now`
        are clock readings, `email` the signed-in user's address. */
    method Submit(id: string, email: Option<string>, now: Timestamp) returns (result: QuizResult)
      ensures result.score == Score(quiz.questions, answers)
      ensures result.totalPoints == TotalPoints(quiz.questions)
      ensures result == QuizResult(id, quiz.id, StudentName(email), result.score, result.totalPoints, now, answers)
    {
      var qs := quiz.questions;
      var totalScore := 0;
      var totalPoints := TotalPoints(qs);
      for i := 0 to |qs|
        invariant totalScore == Score(qs[..i], answers)
      {
        assert qs[..i + 1][..i] == qs[..i];
        var question := qs[i];
        if question.id in answers && answers[question.id] != ""
           && Lower(answers[question.id]) == Lower(question.correctAnswer) {
          totalScore := totalScore + question.points;
        }
      }
      assert qs[..|qs|] == qs;
      result := QuizResult(id, quiz.id, StudentName(email), totalScore, totalPoints, now, answers);
    }
  }
}
