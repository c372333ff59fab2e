/** What every bulk import yields, whatever the text: well-formed questions
    with pairwise different ids, at most one per header line. */
module BulkInvariants {
  import opened Wrappers
  import opened Text
  import opened QuizTypes
  import opened BulkImport


  /** The `k`-th committed question of an import: its id is built from `k`,
      it has text and an answer, non-zero points, and an option list. */
  predicate WellFormedAt(q: Question, stamp: string, k: nat) {
    q.id == BulkId(stamp, k) && q.text != "" && q.correctAnswer != "" && q.points != 0 && q.options.Some?
  }

  /** What holds of the parser's state after any number of lines. */
  predicate Invariant(st: ParseState, stamp: string) {
    && (forall k :: 0 <= k < |st.imported| ==> WellFormedAt(st.imported[k], stamp, k))
    && (st.current.text.Some? ==> st.current.options.Some?)
  }

  lemma FlushWellFormed(st: ParseState, stamp: string)
    requires Invariant(st, stamp)
    ensures forall k :: 0 <= k < |Flush(st, stamp)| ==> WellFormedAt(Flush(st, stamp)[k], stamp, k)
  {
  }

  /** One line keeps the invariant: only a header commits, and it commits the
      pending draft with the next index. */
  lemma StepPreservesInvariant(st: ParseState, line: string, stamp: string)
    requires Invariant(st, stamp)
    ensures Invariant(Step(st, line, stamp), stamp)
  {
    FlushWellFormed(st, stamp);
  }

  lemma {:induction false} RunPreservesInvariant(st: ParseState, lines: seq<string>, stamp: string)
    requires Invariant(st, stamp)
    ensures Invariant(RunFrom(st, lines, stamp), stamp)
    decreases |lines|
  {
    if lines != [] {
      RunFromCons(st, lines, stamp);
      StepPreservesInvariant(st, lines[0], stamp);
      RunPreservesInvariant(Step(st, lines[0], stamp), lines[1..], stamp);
    }
  }

  /** Every question an import yields has text, an answer, non-zero points and
      an option list, and the `k`-th one has the id built from `k`. */
  lemma ParsedQuestionsWellFormed(lines: seq<string>, stamp: string)
    ensures forall k :: 0 <= k < |ParseLines(lines, stamp)| ==> WellFormedAt(ParseLines(lines, stamp)[k], stamp, k)
  {
    RunPreservesInvariant(Start, lines, stamp);
    FlushWellFormed(RunFrom(Start, lines, stamp), stamp);
  }

  /** The questions of one import have pairwise different ids. */
  lemma ParsedIdsDistinct(lines: seq<string>, stamp: string, i: nat, j: nat)
    requires i < j < |ParseLines(lines, stamp)|
    ensures ParseLines(lines, stamp)[i].id != ParseLines(lines, stamp)[j].id
  {
    ParsedQuestionsWellFormed(lines, stamp);
    if ParseLines(lines, stamp)[i].id == ParseLines(lines, stamp)[j].id {
      BulkIdInjective(stamp, i, j);
    }
  }

  /** Number of header lines. */
  function HeaderCount(lines: seq<string>): nat {
    if lines == [] then 0
    else (if IsHeader(Trim(lines[0])) then 1 else 0) + HeaderCount(lines[1..])
  }

  /** Questions committed plus the one pending, if any header has been seen. */
  function Pending(st: ParseState): nat {
    |st.imported| + if st.current.text.Some? then 1 else 0
  }

  /** Only a header line can add to the pending count, and by at most one. */
  lemma StepPendingBound(st: ParseState, line: string, stamp: string)
    ensures Pending(Step(st, line, stamp)) <= Pending(st) + if IsHeader(Trim(line)) then 1 else 0
  {
  }

  lemma {:induction false} RunPendingBound(st: ParseState, lines: seq<string>, stamp: string)
    ensures Pending(RunFrom(st, lines, stamp)) <= Pending(st) + HeaderCount(lines)
    decreases |lines|
  {
    if lines != [] {
      RunFromCons(st, lines, stamp);
      StepPendingBound(st, lines[0], stamp);
      RunPendingBound(Step(st, lines[0], stamp), lines[1..], stamp);
    }
  }

  /** An import yields at most one question per header line; in particular
      text without a header yields none. */
  lemma ParsedCountBound(lines: seq<string>, stamp: string)
    ensures |ParseLines(lines, stamp)| <= HeaderCount(lines)
  {
    RunPendingBound(Start, lines, stamp);
  }
}
