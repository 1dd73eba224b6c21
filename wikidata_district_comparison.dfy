/** `Wikidata::DistrictComparison`: the older comparator on `:district`. */
module WikidataDistrictComparison {
  import opened Wrappers
  import opened Values
  import W = WikidataFieldComparison

  function New(st: Statement, sg: Suggestion): (c: W.Comparison)
    ensures c.a == EntityOf(st.district) && c.b == EntityOf(sg.district)
  {
    W.New(Some(DistrictKey), st, sg).value
  }

  lemma DistrictVerdicts(st: Statement, sg: Suggestion)
    ensures W.Exact(New(st, sg)) <==> st.district == sg.district
    ensures W.Conflict(New(st, sg)) <==> st.district.Some? && sg.district.Some? && st.district != sg.district
    ensures W.Partial(New(st, sg)) <==> st.district.None? != sg.district.None?
  {
  }
}
