/** `Wikidata::PartyComparison`: the older comparator on `:party`; unlike the newer one it
    has no `require_party` switch. */
module WikidataPartyComparison {
  import opened Wrappers
  import opened Values
  import W = WikidataFieldComparison

  function New(st: Statement, sg: Suggestion): (c: W.Comparison)
    ensures c.a == EntityOf(st.party) && c.b == EntityOf(sg.party)
  {
    W.New(Some(PartyKey), st, sg).value
  }

  lemma PartyVerdicts(st: Statement, sg: Suggestion)
    ensures W.Exact(New(st, sg)) <==> st.party == sg.party
    ensures W.Conflict(New(st, sg)) <==> st.party.Some? && sg.party.Some? && st.party != sg.party
    ensures st.party.None? && sg.party.Some? ==> W.Partial(New(st, sg))
  {
  }
}
