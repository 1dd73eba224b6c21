/** `MembershipComparison::StartComparison`: the field comparator on `:start` that decides
    conflict and partial from the statement's interval and the suggested term's interval.
    Its private predicates match DateHelpers except that "open" is only "not closed": a
    statement or term with no start counts as open here. */
module StartComparison {
  import opened Wrappers
  import opened Values
  import FC = FieldComparison
  import DH = DateHelpers

  predicate StatementOpen(w: Window) { !DH.StatementClosed(w) }
  predicate TermOpen(w: Window) { !DH.TermClosed(w) }
  predicate SuggestionOpen(w: Window) { !DH.SuggestionClosed(w) }

  /** "Open" here is DateHelpers' open, or no start at all; the two agree on every
      interval that has a start. */
  lemma OpenWithoutStart(w: Window)
    ensures StatementOpen(w) <==> DH.StatementOpen(w) || w.statementStart.None?
    ensures TermOpen(w) <==> DH.TermOpen(w) || w.termStart.None?
    ensures SuggestionOpen(w) <==> DH.SuggestionOpen(w) || w.suggestionStart.None?
  {
  }

  /** The private `suggestion_started_after_statement_and_term?`. Its guard admits a
      statement with no start, and comparing that absent start raises. */
  function SuggestionStartedAfterStatementAndTerm(w: Window): (r: Result<bool>)
    ensures r.Err? <==> w.termStart.Some? && w.suggestionStart.Some? && w.statementStart.None?
    ensures r == Ok(true) <==> DH.SuggestionStartedAfterStatementAndTerm(w)
  {
    if !(DH.TermStarted(w) && DH.SuggestionStarted(w) && StatementOpen(w)) then Ok(false)
    else if w.statementStart.None? then Err(AbsentDateCompared)
    else Ok(w.statementStart.value <= w.termStart.value && w.termStart.value < w.suggestionStart.value)
  }

  /** `conflict?`, evaluated left to right with Ruby's short-circuit `&&` and `||`. */
  function Conflict(w: Window): (r: Result<bool>)
    ensures DH.SuggestionStartedAfterStatementEnded(w) ==> r == Ok(false)
  {
    if DH.SuggestionStartedAfterStatementEnded(w) then Ok(false)
    else if DH.TermStartedDuringStatement(w) &&
            (StatementOpen(w) || TermOpen(w) || DH.TermEndedAfterStatement(w)) then Ok(true)
    else SuggestionStartedAfterStatementAndTerm(w)
  }

  /** `partial?`. A partial answer needs both starts, the statement's no later than the term's. */
  predicate Partial(w: Window)
    ensures Partial(w) ==> w.statementStart.Some? && w.termStart.Some? &&
                           w.statementStart.value <= w.termStart.value
    ensures DH.SuggestionStartedAfterStatementEnded(w) ==> !Partial(w)
  {
    !DH.SuggestionStartedAfterStatementEnded(w) &&
    (DH.TermStartedDuringStatement(w) ||
     (StatementOpen(w) && TermOpen(w) && DH.TermStartedAfterStatement(w)))
  }

  /** The inherited `exact?`: plain equality of the `:start` fields. */
  predicate Exact(st: Statement, sg: Suggestion)
    ensures Exact(st, sg) <==> st.start == sg.start
  {
    FC.Verdicts(StartKey, st, sg).exact
  }

  /** The three answers together; raises when `conflict?` does. */
  function Verdicts(st: Statement, sg: Suggestion): (r: Result<FC.Verdict>)
    ensures r.Err? <==> Conflict(WindowOf(st, sg)).Err?
    ensures r.Ok? ==> (r.value.exact == (st.start == sg.start) &&
                       Ok(r.value.conflict) == Conflict(WindowOf(st, sg)) &&
                       r.value.partial == Partial(WindowOf(st, sg)))
  {
    var w := WindowOf(st, sg);
    match Conflict(w)
    case Err(e) => Err(e)
    case Ok(c) => Ok(FC.Verdict(Exact(st, sg), c, Partial(w)))
  }

  /** The `statement_open?` disjunct of `conflict?` never contributes: a term that started
      during the statement needs the statement closed. */
  lemma StatementOpenDisjunctIsDead(w: Window)
    ensures DH.TermStartedDuringStatement(w) ==> !StatementOpen(w)
    ensures Conflict(w) == (if DH.SuggestionStartedAfterStatementEnded(w) then Ok(false)
                            else if DH.TermStartedDuringStatement(w) &&
                                    (TermOpen(w) || DH.TermEndedAfterStatement(w)) then Ok(true)
                            else SuggestionStartedAfterStatementAndTerm(w))
  {
  }

  /** `conflict?` raises exactly when the term and the suggestion have starts and the
      statement has none. */
  lemma ConflictRaises(w: Window)
    ensures Conflict(w).Err? <==> w.termStart.Some? && w.suggestionStart.Some? && w.statementStart.None?
    ensures Conflict(w).Err? ==> Conflict(w).error == AbsentDateCompared
  {
  }

  /** Where it does not raise, StartComparison is the DateHelpers rule: its weaker notion of
      "open" only matters for a statement with no start. */
  lemma AgreesWithDateHelpers(w: Window)
    ensures Partial(w) == (!DH.SuggestionStartedAfterStatementEnded(w) &&
                           (DH.TermStartedDuringStatement(w) ||
                            (DH.StatementOpen(w) && DH.TermOpen(w) && DH.TermStartedAfterStatement(w))))
    ensures Conflict(w).Ok? ==>
              Conflict(w).value == (!DH.SuggestionStartedAfterStatementEnded(w) &&
                                    ((DH.TermStartedDuringStatement(w) &&
                                      (DH.StatementOpen(w) || DH.TermOpen(w) || DH.TermEndedAfterStatement(w)))
                                     || DH.SuggestionStartedAfterStatementAndTerm(w)))
  {
  }

  /** Hard cut-off: a statement that closed before the suggestion started is neither a
      conflict nor partial. */
  lemma EndedBeforeSuggestionIsUnrelated(w: Window)
    requires w.statementStart.Some? && w.statementEnd.Some? && w.suggestionStart.Some?
    requires w.statementEnd.value < w.suggestionStart.value
    ensures Conflict(w) == Ok(false) && !Partial(w)
  {
  }

  /** Spanning terms: a closed statement with `start <= term_start < end` conflicts when the
      term is open or ends strictly after the statement (and the cut-off does not apply). */
  lemma SpanningTermsConflict(w: Window)
    requires w.statementStart.Some? && w.statementEnd.Some? && w.termStart.Some?
    requires w.statementStart.value <= w.termStart.value < w.statementEnd.value
    requires w.termEnd.None? || w.statementEnd.value < w.termEnd.value
    requires w.suggestionStart.None? || w.suggestionStart.value <= w.statementEnd.value
    ensures Conflict(w) == Ok(true) && Partial(w)
  {
  }

  /** A term ending on the statement's last day is partial, not a conflict (strict `<`). */
  lemma SameEndIsPartial(w: Window)
    requires w.statementStart.Some? && w.statementEnd.Some? && w.termStart.Some?
    requires w.statementStart.value <= w.termStart.value < w.statementEnd.value
    requires w.termEnd == w.statementEnd
    requires w.suggestionStart.None? || w.suggestionStart.value <= w.statementEnd.value
    ensures Conflict(w) == Ok(false) && Partial(w)
  {
  }

  /** Previous term still open: an open statement with
      `statement_start <= term_start < suggestion_start` is a conflict. */
  lemma PreviousTermStillOpen(w: Window)
    requires w.statementStart.Some? && w.statementEnd.None?
    requires w.termStart.Some? && w.suggestionStart.Some?
    requires w.statementStart.value <= w.termStart.value < w.suggestionStart.value
    ensures Conflict(w) == Ok(true)
  {
  }

  /** Open statement against an open term: partial iff the statement began no later than
      the term; against a closed term: never partial. Neither case can raise. */
  lemma OpenStatementPartial(w: Window)
    requires w.statementStart.Some? && w.statementEnd.None? && w.termStart.Some?
    ensures w.termEnd.None? ==> (Partial(w) <==> w.statementStart.value <= w.termStart.value)
    ensures w.termEnd.Some? ==> !Partial(w)
    ensures Conflict(w).Ok?
  {
  }

  /** A statement that began after the term began (or against a term with no start) is
      neither a conflict nor partial. */
  lemma StartedAfterTermIsUnrelated(w: Window)
    requires w.statementStart.Some?
    requires w.termStart.None? || w.termStart.value < w.statementStart.value
    ensures Conflict(w) == Ok(false) && !Partial(w)
  {
  }

  /** Every conflict and every partial answer needs a statement that began no later than
      the term. */
  lemma AnswersNeedOverlap(w: Window)
    ensures Conflict(w) == Ok(true) || Partial(w) ==>
      w.statementStart.Some? && w.termStart.Some? && w.statementStart.value <= w.termStart.value
  {
  }
}
