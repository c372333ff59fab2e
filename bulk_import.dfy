/** The bulk question-import parser of the quiz editor.

    Pasted text is trimmed, split on `\n`, blank lines are dropped, and each
    remaining line is trimmed and dispatched on a case-sensitive prefix:
    `Q:`/`Question:` starts a question, `A)` to `D)` add an option,
    `Answer:`/`Correct:` set the answer, `Points:` the points and `Type:` the
    kind; any other line is ignored. A pending question is committed when the
    next one starts and at the end of the input, but only when it has both
    question text and an answer.

    `Step`, `RunFrom` and `Flush` are the specification; `ParseQuestions` is
    the loop that runs it, proved equal to it. */
module BulkImport {
  import opened Wrappers
  import opened Text
  import opened QuizTypes

  /** Why an import is refused. */
  datatype ImportError =
    | EmptyInput        // the text is blank
    | NoValidQuestions  // no question was committed

  /** The parser's state: the questions committed so far and the one pending. */
  datatype ParseState = ParseState(imported: seq<Question>, current: Draft)

  /** The accumulator before the first line: `{}`. */
  const NoDraft := Draft(None, None, None, None, None)

  const Start := ParseState([], NoDraft)

  /** The id of the `n`-th question committed by one import; `stamp` is the
      clock reading taken for that import. */
  function BulkId(stamp: string, n: nat): string {
    "bulk_" + stamp + "_" + NatToDecimal(n)
  }

  /** Within one import, different positions get different ids. */
  lemma BulkIdInjective(stamp: string, m: nat, n: nat)
    requires BulkId(stamp, m) == BulkId(stamp, n)
    ensures m == n
  {
    var p := "bulk_" + stamp + "_";
    assert BulkId(stamp, m)[|p|..] == NatToDecimal(m);
    assert BulkId(stamp, n)[|p|..] == NatToDecimal(n);
    DecimalInjective(m, n);
  }

  /** Turn a pending question with text and an answer into a question: a
      missing kind is multiple-choice, the options are kept whatever the kind,
      and the points fall back to 10. */
  function Commit(d: Draft, id: string): (q: Question)
    requires Truthy(d.text) && Truthy(d.answer)
    ensures q.id == id && q.text == d.text.value && q.correctAnswer == d.answer.value
    ensures q.text != "" && q.correctAnswer != "" && q.points != 0
    ensures q.points == PointsOrDefault(d.points)
    ensures q.kind == d.kind.GetOr(MultipleChoice)
    ensures q.options == d.options
  {
    Question(id, d.kind.GetOr(MultipleChoice), d.text.value, d.options,
             d.answer.value, PointsOrDefault(d.points))
  }

  /** The committed questions once the pending one has been committed, if it
      qualifies. */
  function Flush(st: ParseState, stamp: string): (r: seq<Question>)
    ensures |st.imported| <= |r| <= |st.imported| + 1 && r[..|st.imported|] == st.imported
    ensures |r| == |st.imported| + 1 <==> Truthy(st.current.text) && Truthy(st.current.answer)
    ensures |r| > |st.imported| ==> r[|st.imported|] == Commit(st.current, BulkId(stamp, |st.imported|))
  {
    if Truthy(st.current.text) && Truthy(st.current.answer)
    then st.imported + [Commit(st.current, BulkId(stamp, |st.imported|))]
    else st.imported
  }

  predicate IsHeader(line: string) {
    StartsWith(line, "Q:") || StartsWith(line, "Question:")
  }

  predicate IsOptionLine(line: string) {
    StartsWith(line, "A)") || StartsWith(line, "B)") || StartsWith(line, "C)") || StartsWith(line, "D)")
  }

  /** The question text of a header: the prefix and the white space after it
      removed. */
  function HeaderText(line: string): string
    requires IsHeader(line)
  {
    if StartsWith(line, "Q:") then TrimStart(line[2..]) else TrimStart(line[9..])
  }

  /** The answer of an `Answer:`/`Correct:` line. */
  function AnswerText(line: string): string
    requires StartsWith(line, "Answer:") || StartsWith(line, "Correct:")
  {
    if StartsWith(line, "Answer:") then TrimStart(line[7..]) else TrimStart(line[8..])
  }

  /** The kind named by the lower-cased rest of a `Type:` line, tested in
      order: true/false first, then short/text, multiple-choice otherwise. */
  function ClassifyType(spec: string): (k: QuestionType)
    ensures k == TrueFalse <==> Contains(spec, "true") || Contains(spec, "false")
    ensures k == ShortAnswer <==>
      !Contains(spec, "true") && !Contains(spec, "false") && (Contains(spec, "short") || Contains(spec, "text"))
  {
    if Contains(spec, "true") || Contains(spec, "false") then TrueFalse
    else if Contains(spec, "short") || Contains(spec, "text") then ShortAnswer
    else MultipleChoice
  }

  /** The draft a header line starts: multiple-choice, the header's text, no
      options, no answer, 10 points. */
  function HeaderDraft(text: string): Draft {
    Draft(Some(MultipleChoice), Some(text), Some([]), None, Some(10))
  }

  /** One line of input. Only a header commits, and what it commits is the
      pending question, if that qualifies; every other line edits the
      pending question at most. */
  function Step(st: ParseState, raw: string, stamp: string): (r: ParseState)
    ensures IsHeader(Trim(raw)) ==> r.imported == Flush(st, stamp)
    ensures !IsHeader(Trim(raw)) ==> r.imported == st.imported
  {
    var line := Trim(raw);
    var d := st.current;
    if IsHeader(line) then
      ParseState(Flush(st, stamp), HeaderDraft(HeaderText(line)))
    else if IsOptionLine(line) then
      ParseState(st.imported, d.(options := Some(d.options.GetOr([]) + [Trim(line[2..])])))
    else if StartsWith(line, "Answer:") || StartsWith(line, "Correct:") then
      ParseState(st.imported, d.(answer := Some(AnswerText(line))))
    else if StartsWith(line, "Points:") then
      match ParseInt(Trim(line[7..]))
      case Some(p) => ParseState(st.imported, d.(points := Some(p)))
      case None => st
    else if StartsWith(line, "Type:") then
      ParseState(st.imported, d.(kind := Some(ClassifyType(Lower(Trim(line[5..]))))))
    else st
  }

  /** A line that starts with none of the directives, after trimming, leaves
      the parser's state as it was. */
  lemma UnrecognisedLineIgnored(st: ParseState, raw: string, stamp: string)
    requires var line := Trim(raw);
      && !IsHeader(line) && !IsOptionLine(line)
      && !StartsWith(line, "Answer:") && !StartsWith(line, "Correct:")
      && !StartsWith(line, "Points:") && !StartsWith(line, "Type:")
    ensures Step(st, raw, stamp) == st
  {
  }

  /** A `Points:` line whose value does not parse leaves the state as it
      was, so the points set earlier (or 10 from the header) stay. */
  lemma UnparsablePointsIgnored(st: ParseState, raw: string, stamp: string)
    requires var line := Trim(raw);
      && !IsHeader(line) && !IsOptionLine(line)
      && !StartsWith(line, "Answer:") && !StartsWith(line, "Correct:")
      && StartsWith(line, "Points:") && ParseInt(Trim(line[7..])).None?
    ensures Step(st, raw, stamp) == st
  {
  }

  /** Directive prefixes are compared letter for letter: a lower-case `q:`
      line is not a header. */
  lemma HeaderIsCaseSensitive(rest: string)
    ensures !IsHeader("q:" + rest)
  {
    StartsWithMeaning("q:" + rest, "Q:");
    StartsWithMeaning("q:" + rest, "Question:");
    assert ("q:" + rest)[0] == 'q';
  }

  /** An answer line is neither a header nor an option line. */
  lemma AnswerLineShape(line: string)
    requires StartsWith(line, "Answer:") || StartsWith(line, "Correct:")
    ensures !IsHeader(line) && !IsOptionLine(line)
  {
    if StartsWith(line, "Answer:") {
      PrefixAt(line, "Answer:", 1);
    } else {
      PrefixAt(line, "Correct:", 1);
    }
    PrefixMismatch(line, "Q:", 1);
    PrefixMismatch(line, "Question:", 1);
    PrefixMismatch(line, "A)", 1);
    PrefixMismatch(line, "B)", 1);
    PrefixMismatch(line, "C)", 1);
    PrefixMismatch(line, "D)", 1);
  }

  /** Of two answer lines the later one wins, and neither commits anything. */
  lemma LastAnswerWins(st: ParseState, first: string, second: string, stamp: string)
    requires StartsWith(Trim(first), "Answer:") || StartsWith(Trim(first), "Correct:")
    requires StartsWith(Trim(second), "Answer:") || StartsWith(Trim(second), "Correct:")
    ensures var after := Step(Step(st, first, stamp), second, stamp);
      && after.imported == st.imported
      && after.current == st.current.(answer := Some(AnswerText(Trim(second))))
  {
    AnswerLineShape(Trim(first));
    AnswerLineShape(Trim(second));
  }

  /** Reading `lines` one after the other with `step`. */
  function Fold(step: (ParseState, string) -> ParseState, st: ParseState, lines: seq<string>): ParseState
    decreases |lines|
  {
    if lines == [] then st else Fold(step, step(st, lines[0]), lines[1..])
  }

  function StepAt(stamp: string): (ParseState, string) -> ParseState {
    (st: ParseState, line: string) => Step(st, line, stamp)
  }

  /** The state after reading `lines` from `st`. */
  function RunFrom(st: ParseState, lines: seq<string>, stamp: string): ParseState {
    Fold(StepAt(stamp), st, lines)
  }

  lemma RunFromCons(st: ParseState, lines: seq<string>, stamp: string)
    requires lines != []
    ensures RunFrom(st, lines, stamp) == RunFrom(Step(st, lines[0], stamp), lines[1..], stamp)
  {
  }

  /** The questions an import of `lines` yields. */
  function ParseLines(lines: seq<string>, stamp: string): seq<Question> {
    Flush(RunFrom(Start, lines, stamp), stamp)
  }

  /** The loop of the import handler: one pass over the lines, a mutable
      accumulator, an output list, and a final commit. */
  method ParseQuestions(lines: seq<string>, stamp: string) returns (imported: seq<Question>)
    ensures imported == ParseLines(lines, stamp)
  {
    imported := [];
    var current := NoDraft;
    for i := 0 to |lines|
      invariant RunFrom(ParseState(imported, current), lines[i..], stamp) == RunFrom(Start, lines, stamp)
    {
      assert lines[i..][1..] == lines[i + 1..];
      RunFromCons(ParseState(imported, current), lines[i..], stamp);
      var line := Trim(lines[i]);
      if IsHeader(line) {
        if Truthy(current.text) && Truthy(current.answer) {
          imported := imported + [Commit(current, BulkId(stamp, |imported|))];
        }
        current := HeaderDraft(HeaderText(line));
      } else if IsOptionLine(line) {
        var options := if current.options.Some? then current.options.value else [];
        current := current.(options := Some(options + [Trim(line[2..])]));
      } else if StartsWith(line, "Answer:") || StartsWith(line, "Correct:") {
        current := current.(answer := Some(AnswerText(line)));
      } else if StartsWith(line, "Points:") {
        var points := ParseInt(Trim(line[7..]));
        if points.Some? {
          current := current.(points := Some(points.value));
        }
      } else if StartsWith(line, "Type:") {
        current := current.(kind := Some(ClassifyType(Lower(Trim(line[5..])))));
      }
    }
    if Truthy(current.text) && Truthy(current.answer) {
      imported := imported + [Commit(current, BulkId(stamp, |imported|))];
    }
  }

  /** `text.trim().split('\n').filter(line => line.trim())` */
  function SourceLines(text: string): (r: seq<string>)
    ensures forall k :: 0 <= k < |r| ==> Trim(r[k]) != "" && '\n' !in r[k]
  {
    NonBlank(Split(Trim(text), '\n'))
  }

  function NonBlank(lines: seq<string>): (r: seq<string>)
    ensures forall k :: 0 <= k < |r| ==> Trim(r[k]) != ""
    ensures forall k :: 0 <= k < |r| ==> r[k] in lines
  {
    if lines == [] then []
    else if Trim(lines[0]) != "" then [lines[0]] + NonBlank(lines[1..])
    else NonBlank(lines[1..])
  }

  /** The outcome of an import: blank text is refused before parsing, and an
      import that commits nothing is refused after it. */
  function ParseBulk(text: string, stamp: string): (r: Result<seq<Question>, ImportError>)
    ensures r == Failure(EmptyInput) <==> IsBlank(text)
    ensures r == Failure(NoValidQuestions) ==> ParseLines(SourceLines(text), stamp) == []
    ensures ParseLines(SourceLines(text), stamp) == [] ==> r.Failure?
    ensures r.Success? ==> r.value == ParseLines(SourceLines(text), stamp) && |r.value| > 0
  {
    if Trim(text) == "" then Failure(EmptyInput)
    else
      var qs := ParseLines(SourceLines(text), stamp);
      if qs == [] then Failure(NoValidQuestions) else Success(qs)
  }

  /** The whole handler apart from its effect on the editor: the blank check,
      the parsing loop, and the check that something was committed. */
  method Import(text: string, stamp: string) returns (r: Result<seq<Question>, ImportError>)
    ensures r == ParseBulk(text, stamp)
  {
    if Trim(text) == "" {
      return Failure(EmptyInput);
    }
    var imported := ParseQuestions(SourceLines(text), stamp);
    if |imported| == 0 {
      return Failure(NoValidQuestions);
    }
    r := Success(imported);
  }
}
