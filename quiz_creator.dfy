/** The quiz editor: a draft question the author fills in, the list of
    questions built so far, the bulk-import box, and the guard on saving. The
    list operations are pure functions over copies; the editor itself is a
    class whose methods replace its fields, as the component's state setters
    do. */
module Creator {
  import opened Wrappers
  import opened Text
  import opened QuizTypes
  import opened BulkImport

  /** Four empty option slots: what a fresh multiple-choice draft offers. */
  const BlankOptions: seq<string> := ["", "", "", ""]

  /** The draft the editor starts with and returns to after each addition. */
  const InitialDraft := Draft(Some(MultipleChoice), Some(""), Some(BlankOptions), Some(""), Some(10))

  /** The question `addQuestion` builds from a draft. Only a multiple-choice
      question keeps its options; points default to 10 when missing or zero. */
  function NewQuestion(d: Draft, id: string): (q: Question)
    requires d.kind.Some? && Truthy(d.text) && Truthy(d.answer)
    ensures q.id == id && q.kind == d.kind.value
    ensures q.text == d.text.value && q.correctAnswer == d.answer.value
    ensures q.text != "" && q.correctAnswer != "" && q.points != 0
    ensures q.points == PointsOrDefault(d.points)
    ensures q.kind == MultipleChoice ==> q.options == d.options
    ensures q.options.Some? ==> q.kind == MultipleChoice
  {
    Question(id, d.kind.value, d.text.value,
             if d.kind.value == MultipleChoice then d.options else None,
             d.answer.value, PointsOrDefault(d.points))
  }

  /** The editor and the bulk importer build the same question from a
      multiple-choice draft; they differ only for the other kinds, whose
      options the importer keeps and the editor drops. */
  lemma NewQuestionAgreesWithImport(d: Draft, id: string)
    requires d.kind.Some? && Truthy(d.text) && Truthy(d.answer)
    ensures d.kind == Some(MultipleChoice) ==> NewQuestion(d, id) == Commit(d, id)
    ensures d.kind != Some(MultipleChoice) ==>
      NewQuestion(d, id) == Commit(d, id).(options := None)
  {
  }

  /** The "Add Question" button's guard: text and answer are filled in, and a
      multiple-choice draft has at least two options that are not blank. */
  predicate CanAddQuestion(d: Draft) {
    && Truthy(d.text) && Truthy(d.answer)
    && (d.kind != Some(MultipleChoice) || (d.options.Some? && |NonBlank(d.options.value)| >= 2))
  }

  /** Number of options that are not blank. */
  function FilledCount(options: seq<string>): (n: nat)
    ensures n <= |options|
    ensures n == 0 <==> forall k :: 0 <= k < |options| ==> Trim(options[k]) == ""
  {
    if options == [] then 0
    else (if Trim(options[0]) != "" then 1 else 0) + FilledCount(options[1..])
  }

  /** The filter the button's guard applies keeps exactly the options that are
      not blank. */
  lemma {:induction false} NonBlankCount(options: seq<string>)
    ensures |NonBlank(options)| == FilledCount(options)
  {
    if options != [] {
      NonBlankCount(options[1..]);
    }
  }

  /** A question the button lets through: `addQuestion` accepts it, and a
      multiple-choice one carries at least two non-blank options. */
  lemma CanAddQuestionYields(d: Draft, id: string)
    requires d.kind.Some? && CanAddQuestion(d)
    ensures var q := NewQuestion(d, id);
      q.kind == MultipleChoice ==> q.options.Some? && FilledCount(q.options.value) >= 2
  {
    if d.kind == Some(MultipleChoice) {
      NonBlankCount(d.options.value);
    }
  }

  /** `list.filter((_, i) => i !== index)`: every element but the one at
      `index`, in order; an index outside the list removes nothing. */
  function RemoveAt<T>(list: seq<T>, index: int): (r: seq<T>)
    ensures 0 <= index < |list| ==> r == list[..index] + list[index + 1..]
    ensures !(0 <= index < |list|) ==> r == list
    decreases |list|
  {
    if list == [] then []
    else (if index == 0 then [] else [list[0]]) + RemoveAt(list[1..], index - 1)
  }

  /** The length and the elements of what `RemoveAt` leaves. */
  lemma RemoveAtElements<T>(list: seq<T>, index: int)
    requires 0 <= index < |list|
    ensures |RemoveAt(list, index)| == |list| - 1
    ensures forall k :: 0 <= k < index ==> RemoveAt(list, index)[k] == list[k]
    ensures forall k :: index <= k < |list| - 1 ==> RemoveAt(list, index)[k] == list[k + 1]
  {
  }

  /** `handleOptionChange`: a copy of the options (four blank slots when there
      are none) with slot `index` replaced by `value`. */
  function WithOption(options: Option<seq<string>>, index: int, value: string): (r: seq<string>)
    requires 0 <= index < |options.GetOr(BlankOptions)|
    ensures |r| == |options.GetOr(BlankOptions)| && r[index] == value
    ensures forall k :: 0 <= k < |r| && k != index ==> r[k] == options.GetOr(BlankOptions)[k]
  {
    options.GetOr(BlankOptions)[index := value]
  }

  /** `parseInt(text) || fallback`: a failed parse or a zero gives the
      fallback. */
  function NumberOr(text: string, fallback: int): (n: int)
    ensures ParseInt(text).Some? && ParseInt(text).value != 0 ==> n == ParseInt(text).value
    ensures ParseInt(text).None? || ParseInt(text).value == 0 ==> n == fallback
  {
    match ParseInt(text)
    case Some(v) => if v != 0 then v else fallback
    case None => fallback
  }

  /** A number typed in, written back as text, is read as itself. */
  lemma NumberOrRoundTrip(i: int, fallback: int)
    requires i != 0
    ensures NumberOr(IntToString(i), fallback) == i
  {
    ParseIntRoundTrip(i);
  }

  datatype SaveError = MissingFields

  /** `handleSave`'s guard: title, description and category are filled in and
      there is at least one question. */
  predicate ReadyToSave(title: string, description: string, category: string, questions: seq<Question>) {
    title != "" && description != "" && category != "" && |questions| > 0
  }

  /** The editor's state. */
  class QuizCreator {
    var title: string
    var description: string
    var category: string
    var difficulty: Difficulty
    var timeLimit: int
    var questions: seq<Question>
    var current: Draft
    var bulkText: string

    /** The draft always has a kind, and it has an option list exactly when
        that kind is multiple-choice. */
    predicate Valid()
      reads this
    {
      current.kind.Some? && (current.kind.value == MultipleChoice <==> current.options.Some?)
    }

    constructor()
      ensures Valid()
      ensures title == "" && description == "" && category == ""
      ensures difficulty == Easy && timeLimit == 30
      ensures questions == [] && current == InitialDraft && bulkText == ""
    {
      title, description, category := "", "", "";
      difficulty, timeLimit := Easy, 30;
      questions, current, bulkText := [], InitialDraft, "";
    }

    /** `addQuestion`: a draft without text or answer changes nothing;
        otherwise the built question is appended and the draft is reset. */
    method AddQuestion(now: Timestamp)
      requires Valid()
      modifies this
      ensures Valid()
      ensures !(Truthy(old(current).text) && Truthy(old(current).answer)) ==>
        questions == old(questions) && current == old(current)
      ensures Truthy(old(current).text) && Truthy(old(current).answer) ==>
        questions == old(questions) + [NewQuestion(old(current), IntToString(now))] && current == InitialDraft
      ensures title == old(title) && description == old(description) && category == old(category)
      ensures difficulty == old(difficulty) && timeLimit == old(timeLimit) && bulkText == old(bulkText)
    {
      if !(Truthy(current.text) && Truthy(current.answer)) {
        return;
      }
      questions := questions + [NewQuestion(current, IntToString(now))];
      current := InitialDraft;
    }

    /** `removeQuestion` */
    method RemoveQuestion(index: int)
      modifies this
      ensures questions == RemoveAt(old(questions), index)
      ensures current == old(current) && bulkText == old(bulkText)
      ensures title == old(title) && description == old(description) && category == old(category)
      ensures difficulty == old(difficulty) && timeLimit == old(timeLimit)
    {
      questions := RemoveAt(questions, index);
    }

    /** `handleOptionChange`, reached from the option inputs, which are shown
        for a multiple-choice draft, one per slot. */
    method OptionChange(index: int, value: string)
      requires Valid() && current.kind == Some(MultipleChoice)
      requires 0 <= index < |current.options.value|
      modifies this
      ensures Valid()
      ensures current == old(current).(options := Some(WithOption(old(current).options, index, value)))
      ensures questions == old(questions) && bulkText == old(bulkText)
      ensures title == old(title) && description == old(description) && category == old(category)
      ensures difficulty == old(difficulty) && timeLimit == old(timeLimit)
    {
      current := current.(options := Some(WithOption(current.options, index, value)));
    }

    /** Choosing a kind in the type selector: a multiple-choice draft gets four
        blank options, any other kind none, and the answer is cleared. */
    method SelectKind(kind: QuestionType)
      modifies this
      ensures Valid()
      ensures current == old(current).(kind := Some(kind),
        options := if kind == MultipleChoice then Some(BlankOptions) else None, answer := Some(""))
      ensures questions == old(questions) && bulkText == old(bulkText)
      ensures title == old(title) && description == old(description) && category == old(category)
      ensures difficulty == old(difficulty) && timeLimit == old(timeLimit)
    {
      current := current.(kind := Some(kind),
        options := if kind == MultipleChoice then Some(BlankOptions) else None, answer := Some(""));
    }

    /** The question-text input. */
    method EditText(value: string)
      requires Valid()
      modifies this
      ensures Valid()
      ensures current == old(current).(text := Some(value))
      ensures questions == old(questions) && bulkText == old(bulkText)
      ensures title == old(title) && description == old(description) && category == old(category)
      ensures difficulty == old(difficulty) && timeLimit == old(timeLimit)
    {
      current := current.(text := Some(value));
    }

    /** The answer input (a choice among the options, True/False, or free
        text, depending on the kind). */
    method EditAnswer(value: string)
      requires Valid()
      modifies this
      ensures Valid()
      ensures current == old(current).(answer := Some(value))
      ensures questions == old(questions) && bulkText == old(bulkText)
      ensures title == old(title) && description == old(description) && category == old(category)
      ensures difficulty == old(difficulty) && timeLimit == old(timeLimit)
    {
      current := current.(answer := Some(value));
    }

    /** The quiz-detail inputs: title, description, category and difficulty. */
    method EditDetails(newTitle: string, newDescription: string, newCategory: string, newDifficulty: Difficulty)
      modifies this
      ensures title == newTitle && description == newDescription && category == newCategory
      ensures difficulty == newDifficulty
      ensures questions == old(questions) && current == old(current) && bulkText == old(bulkText)
      ensures timeLimit == old(timeLimit)
    {
      title, description, category, difficulty := newTitle, newDescription, newCategory, newDifficulty;
    }

    /** The bulk-import text box. */
    method EditBulkText(value: string)
      modifies this
      ensures bulkText == value
      ensures questions == old(questions) && current == old(current)
      ensures title == old(title) && description == old(description) && category == old(category)
      ensures difficulty == old(difficulty) && timeLimit == old(timeLimit)
    {
      bulkText := value;
    }

    /** The points input: `parseInt(value) || 10`. */
    method EditPoints(value: string)
      requires Valid()
      modifies this
      ensures Valid()
      ensures current == old(current).(points := Some(NumberOr(value, 10)))
      ensures current.points.value != 0
      ensures questions == old(questions) && bulkText == old(bulkText)
      ensures title == old(title) && description == old(description) && category == old(category)
      ensures difficulty == old(difficulty) && timeLimit == old(timeLimit)
    {
      current := current.(points := Some(NumberOr(value, 10)));
    }

    /** The time-limit input: `parseInt(value) || 30`; a negative number is
        kept. */
    method EditTimeLimit(value: string)
      modifies this
      ensures timeLimit == NumberOr(value, 30) && timeLimit != 0
      ensures questions == old(questions) && current == old(current) && bulkText == old(bulkText)
      ensures title == old(title) && description == old(description) && category == old(category)
      ensures difficulty == old(difficulty)
    {
      timeLimit := NumberOr(value, 30);
    }

    /** `parseBulkImport`: blank text is refused before parsing; otherwise the
        lines are parsed, an import that commits nothing is refused, and a
        successful one appends its questions after the existing ones and
        clears the box. A refusal changes nothing. */
    method ImportBulk(stamp: string) returns (r: Result<seq<Question>, ImportError>)
      modifies this
      ensures r == ParseBulk(old(bulkText), stamp)
      ensures r.Failure? ==> questions == old(questions) && bulkText == old(bulkText)
      ensures r.Success? ==> questions == old(questions) + r.value && bulkText == ""
      ensures current == old(current)
      ensures title == old(title) && description == old(description) && category == old(category)
      ensures difficulty == old(difficulty) && timeLimit == old(timeLimit)
    {
      r := Import(bulkText, stamp);
      if r.Success? {
        questions := questions + r.value;
        bulkText := "";
      }
    }

    /** `handleSave`: the quiz handed on when the guard passes, stamped with
        the clock reading `now`. */
    method Save(now: Timestamp) returns (r: Result<Quiz, SaveError>)
      ensures r.Failure? <==> !ReadyToSave(title, description, category, questions)
      ensures r.Success? ==> r.value == Quiz(IntToString(now), title, description, category,
                                             difficulty, timeLimit, questions, now)
    {
      if !ReadyToSave(title, description, category, questions) {
        return Failure(MissingFields);
      }
      r := Success(Quiz(IntToString(now), title, description, category, difficulty, timeLimit, questions, now));
    }
  }
}
