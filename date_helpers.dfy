/** `MembershipComparison::DateHelpers`: guarded predicates over the statement's dates,
    the suggested term's dates and the suggestion's own dates. Every guard makes sure a
    date is present before it is compared, so none of these can raise. */
module DateHelpers {
  import opened Wrappers
  import opened Values

  predicate StatementStarted(w: Window) { w.statementStart.Some? }
  predicate StatementClosed(w: Window) { StatementStarted(w) && w.statementEnd.Some? }
  predicate StatementOpen(w: Window) { w.statementStart.Some? && !StatementClosed(w) }

  predicate TermStarted(w: Window) { w.termStart.Some? }
  predicate TermClosed(w: Window) { TermStarted(w) && w.termEnd.Some? }
  predicate TermOpen(w: Window) { w.termStart.Some? && !TermClosed(w) }

  predicate SuggestionStarted(w: Window) { w.suggestionStart.Some? }
  predicate SuggestionClosed(w: Window) { SuggestionStarted(w) && w.suggestionEnd.Some? }
  predicate SuggestionOpen(w: Window) { w.suggestionStart.Some? && !SuggestionClosed(w) }

  /** The statement was closed before the suggested membership began. */
  predicate SuggestionStartedAfterStatementEnded(w: Window)
    ensures SuggestionStartedAfterStatementEnded(w) <==>
      w.statementStart.Some? && w.statementEnd.Some? && w.suggestionStart.Some? &&
      w.statementEnd.value < w.suggestionStart.value
  {
    StatementClosed(w) && SuggestionStarted(w) && w.statementEnd.value < w.suggestionStart.value
  }

  /** An open statement that began no later than the term, which began before the suggestion. */
  predicate SuggestionStartedAfterStatementAndTerm(w: Window)
    ensures SuggestionStartedAfterStatementAndTerm(w) ==> w.statementStart.Some? && w.statementEnd.None?
    ensures SuggestionStartedAfterStatementAndTerm(w) <==>
      w.termStart.Some? && w.suggestionStart.Some? && w.statementStart.Some? && w.statementEnd.None? &&
      w.statementStart.value <= w.termStart.value < w.suggestionStart.value
  {
    TermStarted(w) && SuggestionStarted(w) && StatementOpen(w) &&
    w.statementStart.value <= w.termStart.value && w.termStart.value < w.suggestionStart.value
  }

  /** The term began inside the closed statement: `start <= term_start < end`. */
  predicate TermStartedDuringStatement(w: Window)
    ensures TermStartedDuringStatement(w) <==>
      w.statementStart.Some? && w.statementEnd.Some? && w.termStart.Some? &&
      w.statementStart.value <= w.termStart.value < w.statementEnd.value
  {
    StatementClosed(w) && TermStarted(w) &&
    w.statementStart.value <= w.termStart.value && w.termStart.value < w.statementEnd.value
  }

  /** Both intervals are closed and the term ends strictly after the statement. */
  predicate TermEndedAfterStatement(w: Window)
    ensures TermEndedAfterStatement(w) <==>
      w.statementStart.Some? && w.statementEnd.Some? && w.termStart.Some? && w.termEnd.Some? &&
      w.statementEnd.value < w.termEnd.value
  {
    StatementClosed(w) && TermClosed(w) && w.statementEnd.value < w.termEnd.value
  }

  predicate TermStartedAfterStatement(w: Window)
    ensures TermStartedAfterStatement(w) <==>
      w.statementStart.Some? && w.termStart.Some? && w.statementStart.value <= w.termStart.value
  {
    StatementStarted(w) && TermStarted(w) && w.statementStart.value <= w.termStart.value
  }

  /** An open statement that began strictly before the previous term ended. */
  predicate StartedBeforeEndOfPreviousTerm(w: Window)
    ensures StartedBeforeEndOfPreviousTerm(w) <==>
      w.eopt.Some? && w.statementStart.Some? && w.statementEnd.None? &&
      w.statementStart.value < w.eopt.value
  {
    w.eopt.Some? && StatementOpen(w) && w.statementStart.value < w.eopt.value
  }

  /** A closed statement that ended on or before the end of the previous term. */
  predicate EndedBeforeEndOfPreviousTerm(w: Window)
    ensures EndedBeforeEndOfPreviousTerm(w) <==>
      w.eopt.Some? && w.statementStart.Some? && w.statementEnd.Some? &&
      w.statementEnd.value <= w.eopt.value
  {
    w.eopt.Some? && StatementClosed(w) && w.statementEnd.value <= w.eopt.value
  }

  /** `!statement_value && !statement_started?`; `hasStatementValue` is whether the including
      comparator's own field is present on the statement. */
  predicate NoTermOrStatementStart(w: Window, hasStatementValue: bool)
    ensures NoTermOrStatementStart(w, hasStatementValue) <==> !hasStatementValue && w.statementStart.None?
  {
    !hasStatementValue && !StatementStarted(w)
  }

  /** Open and closed split the started statements, terms and suggestions. */
  lemma OpenClosedPartition(w: Window)
    ensures !(StatementOpen(w) && StatementClosed(w))
    ensures (StatementOpen(w) || StatementClosed(w)) <==> w.statementStart.Some?
    ensures !(TermOpen(w) && TermClosed(w))
    ensures (TermOpen(w) || TermClosed(w)) <==> w.termStart.Some?
    ensures !(SuggestionOpen(w) && SuggestionClosed(w))
    ensures (SuggestionOpen(w) || SuggestionClosed(w)) <==> w.suggestionStart.Some?
  {
  }

  /** The start of the next term is read but used by no predicate. */
  lemma SontIsUnused(w: Window, sont: Option<Date>)
    ensures var w' := w.(sont := sont);
      SuggestionStartedAfterStatementEnded(w') == SuggestionStartedAfterStatementEnded(w) &&
      SuggestionStartedAfterStatementAndTerm(w') == SuggestionStartedAfterStatementAndTerm(w) &&
      TermStartedDuringStatement(w') == TermStartedDuringStatement(w) &&
      TermEndedAfterStatement(w') == TermEndedAfterStatement(w) &&
      TermStartedAfterStatement(w') == TermStartedAfterStatement(w) &&
      StartedBeforeEndOfPreviousTerm(w') == StartedBeforeEndOfPreviousTerm(w) &&
      EndedBeforeEndOfPreviousTerm(w') == EndedBeforeEndOfPreviousTerm(w) &&
      (forall b: bool :: NoTermOrStatementStart(w', b) == NoTermOrStatementStart(w, b))
  {
  }

  /** On well-formed dates (the previous term ends no later than this term starts), a
      statement that ended by the end of the previous term does not contain this term's start. */
  lemma EndedBeforePreviousTermMissesTermStart(w: Window)
    requires w.eopt.Some? && w.termStart.Some? ==> w.eopt.value <= w.termStart.value
    requires EndedBeforeEndOfPreviousTerm(w) && w.termStart.Some?
    ensures !TermStartedDuringStatement(w)
  {
  }
}
