/** The import format written out: the lines that describe a list of
    questions, and the proof that importing them gives the questions back. */
module BulkFormat {
  import opened Wrappers
  import opened Text
  import opened QuizTypes
  import opened BulkImport


  /** The option letters, used in turn. */
  const Letters := "ABCD"

  function OptionLines(options: seq<string>, from: nat): seq<string>
    decreases |options|
  {
    if options == [] then []
    else [[Letters[from % 4], ')', ' '] + options[0]] + OptionLines(options[1..], from + 1)
  }

  /** The lines describing one question: a header, a `Type:` line unless it
      is multiple-choice, its options, its answer and its points. */
  function Block(q: Question): seq<string> {
    ["Q: " + q.text]
    + (if q.kind == MultipleChoice then [] else ["Type: " + KindTag(q.kind)])
    + OptionLines(q.options.GetOr([]), 0)
    + ["Answer: " + q.correctAnswer, "Points: " + IntToString(q.points)]
  }

  function RenderLines(qs: seq<Question>): seq<string> {
    if qs == [] then [] else Block(qs[0]) + RenderLines(qs[1..])
  }

  /** A field that fits on one import line and survives its trimming. */
  predicate OneLine(s: string) {
    s != "" && IsTrimmed(s) && '\n' !in s
  }

  /** A question the import format can express. */
  predicate Renderable(q: Question) {
    && OneLine(q.text)
    && OneLine(q.correctAnswer)
    && q.options.Some?
    && (forall k :: 0 <= k < |q.options.value| ==> OneLine(q.options.value[k]))
    && q.points != 0
  }

  /** The draft a question's block leaves pending. */
  function DraftOf(q: Question): Draft {
    Draft(Some(q.kind), Some(q.text), q.options, Some(q.correctAnswer), Some(q.points))
  }

  lemma {:induction false} FoldAppend(step: (ParseState, string) -> ParseState, st: ParseState, a: seq<string>, b: seq<string>)
    ensures Fold(step, st, a + b) == Fold(step, Fold(step, st, a), b)
    decreases |a|
  {
    if a == [] {
      assert a + b == b;
    } else {
      assert (a + b)[0] == a[0] && (a + b)[1..] == a[1..] + b;
      FoldAppend(step, step(st, a[0]), a[1..], b);
    }
  }

  /** A directive `p` followed by one space and a one-line field: the line is
      already trimmed, starts with `p`, and the field is what follows. */
  lemma Directive(line: string, p: string, text: string)
    requires |p| > 0 && !IsSpace(p[0]) && OneLine(text)
    requires line == p + " " + text
    ensures Trim(line) == line && StartsWith(line, p)
    ensures TrimStart(line[|p|..]) == text && Trim(line[|p|..]) == text
  {
    assert line[0] == p[0] && line[|line| - 1] == text[|text| - 1];
    assert line[..|p|] == p;
    StartsWithMeaning(line, p);
    assert line[|p|..] == " " + text;
    assert (" " + text)[1..] == text;
  }

  lemma NotHeader(line: string)
    requires |line| >= 2 && line[1] != ':' && line[1] != 'u'
    ensures !IsHeader(line)
  {
  }

  lemma NotOptionLine(line: string)
    requires |line| >= 2 && line[1] != ')'
    ensures !IsOptionLine(line)
  {
  }

  // One line of each kind, first for any line with the right shape, then
  // for the line the format writes.

  lemma StepHeaderLine(st: ParseState, line: string, text: string, stamp: string)
    requires Trim(line) == line && StartsWith(line, "Q:") && TrimStart(line[2..]) == text
    ensures Step(st, line, stamp) == ParseState(Flush(st, stamp), HeaderDraft(text))
  {
  }

  lemma StepOptionLine(st: ParseState, line: string, option: string, stamp: string)
    requires Trim(line) == line && !IsHeader(line) && IsOptionLine(line) && Trim(line[2..]) == option
    ensures Step(st, line, stamp)
         == ParseState(st.imported, st.current.(options := Some(st.current.options.GetOr([]) + [option])))
  {
  }

  lemma StepAnswerLine(st: ParseState, line: string, answer: string, stamp: string)
    requires Trim(line) == line && !IsHeader(line) && !IsOptionLine(line)
    requires StartsWith(line, "Answer:") && TrimStart(line[7..]) == answer
    ensures Step(st, line, stamp) == ParseState(st.imported, st.current.(answer := Some(answer)))
  {
  }

  lemma StepPointsLine(st: ParseState, line: string, points: int, stamp: string)
    requires Trim(line) == line && !IsHeader(line) && !IsOptionLine(line)
    requires !StartsWith(line, "Answer:") && !StartsWith(line, "Correct:")
    requires StartsWith(line, "Points:") && ParseInt(Trim(line[7..])) == Some(points)
    ensures Step(st, line, stamp) == ParseState(st.imported, st.current.(points := Some(points)))
  {
  }

  lemma StepTypeLine(st: ParseState, line: string, k: QuestionType, stamp: string)
    requires Trim(line) == line && !IsHeader(line) && !IsOptionLine(line)
    requires !StartsWith(line, "Answer:") && !StartsWith(line, "Correct:") && !StartsWith(line, "Points:")
    requires StartsWith(line, "Type:") && ClassifyType(Lower(Trim(line[5..]))) == k
    ensures Step(st, line, stamp) == ParseState(st.imported, st.current.(kind := Some(k)))
  {
  }

  /** How the tag of a `Type:` line is read, for the two tags the format
      writes. */
  lemma ClassifyTrueFalse(tag: string)
    requires NoUpper(tag) && StartsWith(tag, "true")
    ensures ClassifyType(Lower(tag)) == TrueFalse
  {
    LowerNoUpper(tag);
  }

  lemma ClassifyShortAnswer(tag: string)
    requires NoUpper(tag) && 'u' !in tag && 'f' !in tag && StartsWith(tag, "short")
    ensures ClassifyType(Lower(tag)) == ShortAnswer
  {
    LowerNoUpper(tag);
    NotContainsChar(tag, "true", 'u');
    NotContainsChar(tag, "false", 'f');
  }

  /** The facts about the two tags that their classification needs. Each
      literal is examined in a lemma of its own, through a variable equal to
      it, so that callers only see the variable. */
  lemma TagShape(k: QuestionType)
    requires k != MultipleChoice
    ensures NoUpper(KindTag(k))
    ensures k == TrueFalse ==> StartsWith(KindTag(k), "true")
    ensures k == ShortAnswer ==>
      'u' !in KindTag(k) && 'f' !in KindTag(k) && StartsWith(KindTag(k), "short")
  {
    var tag := KindTag(k);
    if k == TrueFalse {
      TagNoUpper(tag);
      TrueFalsePrefix(tag);
    } else {
      TagNoUpper(tag);
      ShortAnswerPrefix(tag);
      ShortAnswerLacks(tag);
    }
  }

  lemma TagNoUpper(s: string)
    requires s == "true-false" || s == "short-answer"
    ensures NoUpper(s)
  {
    if s == "true-false" {
      assert NoUpper("true-false");
    } else {
      assert NoUpper("short-answer");
    }
  }

  lemma TrueFalsePrefix(s: string)
    requires s == "true-false"
    ensures StartsWith(s, "true")
  {
    assert StartsWith("true-false", "true");
  }

  lemma ShortAnswerPrefix(s: string)
    requires s == "short-answer"
    ensures StartsWith(s, "short")
  {
    assert StartsWith("short-answer", "short");
  }

  lemma ShortAnswerLacks(s: string)
    requires s == "short-answer"
    ensures 'u' !in s && 'f' !in s
  {
  }

  /** The lower-cased tag of a kind other than multiple-choice is classified
      as that kind. */
  lemma ClassifyTag(k: QuestionType)
    requires k != MultipleChoice
    ensures ClassifyType(Lower(KindTag(k))) == k
  {
    TagShape(k);
    if k == TrueFalse {
      ClassifyTrueFalse(KindTag(k));
    } else {
      ClassifyShortAnswer(KindTag(k));
    }
  }

  /** A rendered integer has no white space at either end. */
  lemma IntToStringOneLine(i: int)
    ensures OneLine(IntToString(i))
  {
    var digits := IntToString(i);
    var n: nat := if i < 0 then -i else i;
    var d := NatToDecimal(n);
    assert digits[|digits| - 1] == d[|d| - 1];
    assert IsDigitIn(d[|d| - 1], 10);
    if i >= 0 {
      assert IsDigitIn(digits[0], 10);
    }
  }

  lemma HeaderFacts(text: string)
    requires OneLine(text)
    ensures var line := "Q: " + text;
      Trim(line) == line && StartsWith(line, "Q:") && TrimStart(line[2..]) == text
  {
    Directive("Q: " + text, "Q:", text);
  }

  lemma TypeFacts(tag: string)
    requires OneLine(tag)
    ensures var line := "Type: " + tag;
      && Trim(line) == line && StartsWith(line, "Type:") && Trim(line[5..]) == tag
      && |line| >= 2 && line[0] == 'T' && line[1] == 'y'
  {
    Directive("Type: " + tag, "Type:", tag);
  }

  /** A line starting `Ty` matches none of the directives tested before
      `Type:`. */
  lemma TypeLineNotOther(line: string)
    requires |line| >= 2 && line[0] == 'T' && line[1] == 'y'
    ensures !IsHeader(line) && !IsOptionLine(line)
    ensures !StartsWith(line, "Answer:") && !StartsWith(line, "Correct:") && !StartsWith(line, "Points:")
  {
    NotHeader(line);
    NotOptionLine(line);
    PrefixMismatch(line, "Answer:", 0);
    PrefixMismatch(line, "Correct:", 0);
    PrefixMismatch(line, "Points:", 0);
  }

  lemma OptionFacts(letter: char, option: string)
    requires letter in Letters && OneLine(option)
    ensures var line := [letter, ')', ' '] + option;
      Trim(line) == line && !IsHeader(line) && IsOptionLine(line) && Trim(line[2..]) == option
  {
    var line := [letter, ')', ' '] + option;
    Directive(line, [letter, ')'], option);
    NotHeader(line);
  }

  lemma AnswerFacts(answer: string)
    requires OneLine(answer)
    ensures var line := "Answer: " + answer;
      && Trim(line) == line && !IsHeader(line) && !IsOptionLine(line)
      && StartsWith(line, "Answer:") && TrimStart(line[7..]) == answer
  {
    var line := "Answer: " + answer;
    Directive(line, "Answer:", answer);
    NotHeader(line);
    NotOptionLine(line);
  }

  lemma PointsFacts(points: int)
    ensures var line := "Points: " + IntToString(points);
      && Trim(line) == line && !IsHeader(line) && !IsOptionLine(line)
      && !StartsWith(line, "Answer:") && !StartsWith(line, "Correct:")
      && StartsWith(line, "Points:") && ParseInt(Trim(line[7..])) == Some(points)
  {
    var line := "Points: " + IntToString(points);
    IntToStringOneLine(points);
    Directive(line, "Points:", IntToString(points));
    NotHeader(line);
    NotOptionLine(line);
    PrefixMismatch(line, "Answer:", 0);
    PrefixMismatch(line, "Correct:", 0);
    ParseIntRoundTrip(points);
  }

  lemma StepHeader(st: ParseState, text: string, stamp: string)
    requires OneLine(text)
    ensures Step(st, "Q: " + text, stamp) == ParseState(Flush(st, stamp), HeaderDraft(text))
  {
    HeaderFacts(text);
    StepHeaderLine(st, "Q: " + text, text, stamp);
  }

  lemma StepType(st: ParseState, k: QuestionType, stamp: string)
    requires k != MultipleChoice
    ensures Step(st, "Type: " + KindTag(k), stamp)
         == ParseState(st.imported, st.current.(kind := Some(k)))
  {
    assert OneLine(KindTag(k));
    TypeFacts(KindTag(k));
    TypeLineNotOther("Type: " + KindTag(k));
    ClassifyTag(k);
    StepTypeLine(st, "Type: " + KindTag(k), k, stamp);
  }

  lemma StepOption(st: ParseState, letter: char, option: string, stamp: string)
    requires letter in Letters && OneLine(option)
    ensures Step(st, [letter, ')', ' '] + option, stamp)
         == ParseState(st.imported, st.current.(options := Some(st.current.options.GetOr([]) + [option])))
  {
    OptionFacts(letter, option);
    StepOptionLine(st, [letter, ')', ' '] + option, option, stamp);
  }

  lemma StepAnswer(st: ParseState, answer: string, stamp: string)
    requires OneLine(answer)
    ensures Step(st, "Answer: " + answer, stamp)
         == ParseState(st.imported, st.current.(answer := Some(answer)))
  {
    AnswerFacts(answer);
    StepAnswerLine(st, "Answer: " + answer, answer, stamp);
  }

  lemma StepPoints(st: ParseState, points: int, stamp: string)
    ensures Step(st, "Points: " + IntToString(points), stamp)
         == ParseState(st.imported, st.current.(points := Some(points)))
  {
    PointsFacts(points);
    StepPointsLine(st, "Points: " + IntToString(points), points, stamp);
  }

  /** A step function that reads every kind of line the format writes the
      way the parser does, one predicate per kind of line. The lemmas below
      reason about such a function only, and `StepReadsFormat` shows the
      parser's own step is one. */
  ghost predicate ReadsHeaders(f: (ParseState, string) -> ParseState, stamp: string) {
    forall s: ParseState, text: string {:trigger f(s, "Q: " + text)} :: OneLine(text) ==>
      f(s, "Q: " + text) == ParseState(Flush(s, stamp), HeaderDraft(text))
  }

  ghost predicate ReadsTypes(f: (ParseState, string) -> ParseState) {
    forall s: ParseState, k: QuestionType {:trigger f(s, "Type: " + KindTag(k))} :: k != MultipleChoice ==>
      f(s, "Type: " + KindTag(k)) == ParseState(s.imported, s.current.(kind := Some(k)))
  }

  ghost predicate ReadsOptions(f: (ParseState, string) -> ParseState) {
    forall s: ParseState, letter: char, o: string {:trigger f(s, [letter, ')', ' '] + o)} :: letter in Letters && OneLine(o) ==>
      f(s, [letter, ')', ' '] + o)
      == ParseState(s.imported, s.current.(options := Some(s.current.options.GetOr([]) + [o])))
  }

  ghost predicate ReadsAnswers(f: (ParseState, string) -> ParseState) {
    forall s: ParseState, a: string {:trigger f(s, "Answer: " + a)} :: OneLine(a) ==>
      f(s, "Answer: " + a) == ParseState(s.imported, s.current.(answer := Some(a)))
  }

  ghost predicate ReadsPoints(f: (ParseState, string) -> ParseState) {
    forall s: ParseState, p: int {:trigger f(s, "Points: " + IntToString(p))} ::
      f(s, "Points: " + IntToString(p)) == ParseState(s.imported, s.current.(points := Some(p)))
  }

  ghost predicate ReadsFormat(f: (ParseState, string) -> ParseState, stamp: string) {
    ReadsHeaders(f, stamp) && ReadsTypes(f) && ReadsOptions(f) && ReadsAnswers(f) && ReadsPoints(f)
  }

  lemma StepReadsFormat(stamp: string)
    ensures ReadsFormat(StepAt(stamp), stamp)
  {
    var f := StepAt(stamp);
    forall s: ParseState, text: string {:trigger f(s, "Q: " + text)} | OneLine(text)
      ensures f(s, "Q: " + text) == ParseState(Flush(s, stamp), HeaderDraft(text))
    {
      StepHeader(s, text, stamp);
    }
    forall s: ParseState, k: QuestionType {:trigger f(s, "Type: " + KindTag(k))} | k != MultipleChoice
      ensures f(s, "Type: " + KindTag(k)) == ParseState(s.imported, s.current.(kind := Some(k)))
    {
      StepType(s, k, stamp);
    }
    forall s: ParseState, letter: char, o: string {:trigger f(s, [letter, ')', ' '] + o)} | letter in Letters && OneLine(o)
      ensures f(s, [letter, ')', ' '] + o)
           == ParseState(s.imported, s.current.(options := Some(s.current.options.GetOr([]) + [o])))
    {
      StepOption(s, letter, o, stamp);
    }
    forall s: ParseState, a: string {:trigger f(s, "Answer: " + a)} | OneLine(a)
      ensures f(s, "Answer: " + a) == ParseState(s.imported, s.current.(answer := Some(a)))
    {
      StepAnswer(s, a, stamp);
    }
    forall s: ParseState, p: int {:trigger f(s, "Points: " + IntToString(p))}
      ensures f(s, "Points: " + IntToString(p)) == ParseState(s.imported, s.current.(points := Some(p)))
    {
      StepPoints(s, p, stamp);
    }
  }

  lemma {:induction false} RunOptions(f: (ParseState, string) -> ParseState, st: ParseState, options: seq<string>, from: nat)
    requires ReadsOptions(f)
    requires st.current.options.Some?
    requires forall k :: 0 <= k < |options| ==> OneLine(options[k])
    ensures Fold(f, st, OptionLines(options, from))
         == ParseState(st.imported, st.current.(options := Some(st.current.options.value + options)))
    decreases |options|
  {
    if options == [] {
      assert st.current.options.value + options == st.current.options.value;
    } else {
      var lines := OptionLines(options, from);
      var first := [Letters[from % 4], ')', ' '] + options[0];
      assert lines[0] == first && lines[1..] == OptionLines(options[1..], from + 1);
      var st' := ParseState(st.imported, st.current.(options := Some(st.current.options.GetOr([]) + [options[0]])));
      assert f(st, first) == st';
      assert Fold(f, st, lines) == Fold(f, st', lines[1..]);
      RunOptions(f, st', options[1..], from + 1);
      assert st.current.options.value + [options[0]] + options[1..]
          == st.current.options.value + options;
    }
  }

  /** Reading the block of a question commits what was pending and leaves the
      question itself pending. */
  lemma RunBlock(f: (ParseState, string) -> ParseState, st: ParseState, q: Question, stamp: string)
    requires ReadsFormat(f, stamp)
    requires Renderable(q)
    ensures Fold(f, st, Block(q)) == ParseState(Flush(st, stamp), DraftOf(q))
  {
    var header := ["Q: " + q.text];
    var kindLines := if q.kind == MultipleChoice then [] else ["Type: " + KindTag(q.kind)];
    var optionLines := OptionLines(q.options.value, 0);
    var tail := ["Answer: " + q.correctAnswer, "Points: " + IntToString(q.points)];
    assert Block(q) == header + kindLines + optionLines + tail;
    FoldAppend(f, st, header + kindLines + optionLines, tail);
    FoldAppend(f, st, header + kindLines, optionLines);
    FoldAppend(f, st, header, kindLines);
    var s1 := ParseState(Flush(st, stamp), HeaderDraft(q.text));
    assert f(st, "Q: " + q.text) == s1;
    assert Fold(f, st, header) == s1;
    var s2 := ParseState(Flush(st, stamp), HeaderDraft(q.text).(kind := Some(q.kind)));
    if q.kind != MultipleChoice {
      assert f(s1, "Type: " + KindTag(q.kind)) == s2;
    }
    assert Fold(f, s1, kindLines) == s2;
    RunOptions(f, s2, q.options.value, 0);
    assert [] + q.options.value == q.options.value;
    var s3 := ParseState(Flush(st, stamp), s2.current.(options := q.options));
    assert Fold(f, s2, optionLines) == s3;
    var s4 := ParseState(Flush(st, stamp), s3.current.(answer := Some(q.correctAnswer)));
    assert f(s3, "Answer: " + q.correctAnswer) == s4;
    assert tail[1..] == ["Points: " + IntToString(q.points)];
    assert Fold(f, s3, tail) == Fold(f, s4, tail[1..]);
    assert f(s4, "Points: " + IntToString(q.points)) == ParseState(Flush(st, stamp), DraftOf(q));
    assert Fold(f, s4, tail[1..]) == ParseState(Flush(st, stamp), DraftOf(q));
  }

  /** A step function that reads the block of every question the format can
      express as `RunBlock` says. */
  ghost predicate ReadsBlocks(f: (ParseState, string) -> ParseState, stamp: string) {
    forall s: ParseState, q: Question {:trigger Fold(f, s, Block(q))} :: Renderable(q) ==>
      Fold(f, s, Block(q)) == ParseState(Flush(s, stamp), DraftOf(q))
  }

  lemma BlocksRead(f: (ParseState, string) -> ParseState, stamp: string)
    requires ReadsFormat(f, stamp)
    ensures ReadsBlocks(f, stamp)
  {
    forall s: ParseState, q: Question {:trigger Fold(f, s, Block(q))} | Renderable(q)
      ensures Fold(f, s, Block(q)) == ParseState(Flush(s, stamp), DraftOf(q))
    {
      RunBlock(f, s, q, stamp);
    }
  }

  /** Committing the draft of a question, numbered where it falls, gives
      back the question. */
  lemma FlushDraftOf(imported: seq<Question>, q: Question, stamp: string)
    requires Renderable(q) && q.id == BulkId(stamp, |imported|)
    ensures Flush(ParseState(imported, DraftOf(q)), stamp) == imported + [q]
  {
  }

  /** The questions of `qs` carry the ids an import gives the questions at
      positions `n`, `n + 1`, ..., and the format can express each of them. */
  predicate NumberedFrom(qs: seq<Question>, stamp: string, n: nat)
    decreases |qs|
  {
    qs == [] || (Renderable(qs[0]) && qs[0].id == BulkId(stamp, n) && NumberedFrom(qs[1..], stamp, n + 1))
  }

  lemma {:induction false} NumberedFromAll(qs: seq<Question>, stamp: string, n: nat)
    requires forall k :: 0 <= k < |qs| ==> Renderable(qs[k]) && qs[k].id == BulkId(stamp, n + k)
    ensures NumberedFrom(qs, stamp, n)
    decreases |qs|
  {
    if qs != [] {
      NumberedFromAll(qs[1..], stamp, n + 1);
    }
  }

  lemma NumberedFromStart(qs: seq<Question>, stamp: string)
    requires forall k :: 0 <= k < |qs| ==> Renderable(qs[k]) && qs[k].id == BulkId(stamp, k)
    ensures NumberedFrom(qs, stamp, 0)
  {
    NumberedFromAll(qs, stamp, 0);
  }

  /** Reading the blocks of `qs` after a state appends `qs` to what that state
      would commit, when the ids of `qs` continue its numbering. */
  lemma {:induction false} RoundTripFrom(f: (ParseState, string) -> ParseState, st: ParseState, qs: seq<Question>, stamp: string)
    requires ReadsBlocks(f, stamp)
    requires NumberedFrom(qs, stamp, |Flush(st, stamp)|)
    ensures Flush(Fold(f, st, RenderLines(qs)), stamp) == Flush(st, stamp) + qs
    decreases |qs|
  {
    if qs == [] {
      assert Flush(st, stamp) + qs == Flush(st, stamp);
    } else {
      var st1 := ParseState(Flush(st, stamp), DraftOf(qs[0]));
      FirstBlock(f, st, qs, stamp);
      RoundTripFrom(f, st1, qs[1..], stamp);
      AppendFirst(Flush(st, stamp), qs);
    }
  }

  lemma AppendFirst<T>(a: seq<T>, s: seq<T>)
    requires s != []
    ensures a + [s[0]] + s[1..] == a + s
  {
    assert [s[0]] + s[1..] == s;
  }

  /** Reading the first block leaves its question pending and the rest of the
      blocks still to read. */
  lemma FirstBlock(f: (ParseState, string) -> ParseState, st: ParseState, qs: seq<Question>, stamp: string)
    requires ReadsBlocks(f, stamp)
    requires qs != [] && NumberedFrom(qs, stamp, |Flush(st, stamp)|)
    ensures var st1 := ParseState(Flush(st, stamp), DraftOf(qs[0]));
      && Fold(f, st, RenderLines(qs)) == Fold(f, st1, RenderLines(qs[1..]))
      && Flush(st1, stamp) == Flush(st, stamp) + [qs[0]]
      && NumberedFrom(qs[1..], stamp, |Flush(st1, stamp)|)
  {
    FoldAppend(f, st, Block(qs[0]), RenderLines(qs[1..]));
    assert Fold(f, st, Block(qs[0])) == ParseState(Flush(st, stamp), DraftOf(qs[0]));
    FlushDraftOf(Flush(st, stamp), qs[0], stamp);
  }

  /** The parser's result in terms of the fold of its step. */
  lemma ParseLinesFold(lines: seq<string>, stamp: string)
    ensures ParseLines(lines, stamp) == Flush(Fold(StepAt(stamp), Start, lines), stamp)
  {
  }

  /** Importing the lines written for questions numbered from 0 gives back
      exactly those questions, in order. */
  lemma ParseRenderLines(qs: seq<Question>, stamp: string)
    requires forall k :: 0 <= k < |qs| ==> Renderable(qs[k]) && qs[k].id == BulkId(stamp, k)
    ensures ParseLines(RenderLines(qs), stamp) == qs
  {
    NumberedFromStart(qs, stamp);
    ParseNumbered(qs, stamp);
  }

  lemma ParseNumbered(qs: seq<Question>, stamp: string)
    requires NumberedFrom(qs, stamp, 0)
    ensures ParseLines(RenderLines(qs), stamp) == qs
  {
    RoundTripFromStart(qs, stamp);
    ParseLinesFold(RenderLines(qs), stamp);
  }

  lemma RoundTripFromStart(qs: seq<Question>, stamp: string)
    requires NumberedFrom(qs, stamp, 0)
    ensures Flush(Fold(StepAt(stamp), Start, RenderLines(qs)), stamp) == qs
  {
    ParserReadsBlocks(stamp);
    RoundTripWith(StepAt(stamp), qs, stamp);
  }

  lemma RoundTripWith(f: (ParseState, string) -> ParseState, qs: seq<Question>, stamp: string)
    requires ReadsBlocks(f, stamp)
    requires NumberedFrom(qs, stamp, 0)
    ensures Flush(Fold(f, Start, RenderLines(qs)), stamp) == qs
  {
    FlushStart(stamp);
    RoundTripFrom(f, Start, qs, stamp);
    assert [] + qs == qs;
  }

  lemma FlushStart(stamp: string)
    ensures Flush(Start, stamp) == []
  {
  }

  lemma ParserReadsBlocks(stamp: string)
    ensures ReadsBlocks(StepAt(stamp), stamp)
  {
    StepReadsFormat(stamp);
    BlocksRead(StepAt(stamp), stamp);
  }

  /** A trailing header with no answer after it is dropped: it commits the
      question before it and is itself never committed. */
  lemma TrailingHeaderDropped(qs: seq<Question>, text: string, stamp: string)
    requires forall k :: 0 <= k < |qs| ==> Renderable(qs[k]) && qs[k].id == BulkId(stamp, k)
    requires OneLine(text)
    ensures ParseLines(RenderLines(qs) + ["Q: " + text], stamp) == qs
  {
    NumberedFromStart(qs, stamp);
    TrailingHeaderNumbered(qs, text, stamp);
  }

  lemma TrailingHeaderNumbered(qs: seq<Question>, text: string, stamp: string)
    requires NumberedFrom(qs, stamp, 0)
    requires OneLine(text)
    ensures ParseLines(RenderLines(qs) + ["Q: " + text], stamp) == qs
  {
    RoundTripFromStart(qs, stamp);
    ParserReadsHeaders(stamp);
    HeaderAfter(StepAt(stamp), Fold(StepAt(stamp), Start, RenderLines(qs)), RenderLines(qs), text, stamp);
    ParseLinesFold(RenderLines(qs) + ["Q: " + text], stamp);
  }

  lemma ParserReadsHeaders(stamp: string)
    ensures ReadsHeaders(StepAt(stamp), stamp)
  {
    StepReadsFormat(stamp);
  }

  lemma HeaderAfter(f: (ParseState, string) -> ParseState, st: ParseState, lines: seq<string>, text: string, stamp: string)
    requires ReadsHeaders(f, stamp) && OneLine(text) && st == Fold(f, Start, lines)
    ensures Flush(Fold(f, Start, lines + ["Q: " + text]), stamp) == Flush(st, stamp)
  {
    FoldAppend(f, Start, lines, ["Q: " + text]);
    assert f(st, "Q: " + text) == ParseState(Flush(st, stamp), HeaderDraft(text));
  }
}
