/** `Wikidata::TermComparison`: the older comparator on `:term`, whose `conflict?` and
    `partial?` are always false. */
module WikidataTermComparison {
  import opened Wrappers
  import opened Values
  import W = WikidataFieldComparison

  function New(st: Statement, sg: Suggestion): (c: W.Comparison)
    ensures c.a == TermOf(st.term) && c.b == TermOf(sg.term)
  {
    W.New(Some(TermKey), st, sg).value
  }

  predicate Conflict(c: W.Comparison) { false }

  predicate Partial(c: W.Comparison) { false }

  /** A term comparator is exact iff the terms are equal, and otherwise answers nothing:
      a different term never matches. */
  lemma TermVerdicts(st: Statement, sg: Suggestion)
    ensures W.Exact(New(st, sg)) <==> st.term == sg.term
    ensures !Conflict(New(st, sg)) && !Partial(New(st, sg))
  {
  }
}
