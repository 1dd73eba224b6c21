/** `MembershipComparison::DistrictComparison`: the field comparator on `:district`. */
module DistrictComparison {
  import opened Wrappers
  import opened Values
  import FC = FieldComparison

  function Conflict(st: Statement, sg: Suggestion): (m: Option<string>)
    ensures m.Some? <==> st.district.Some? && sg.district.Some? && st.district != sg.district
    ensures m.Some? ==> m.value == "district conflict"
  {
    FC.Conflict(DistrictKey, st, sg)
  }

  function Verdicts(st: Statement, sg: Suggestion): (v: FC.Verdict)
    ensures v.exact <==> st.district == sg.district
    ensures v.conflict <==> st.district.Some? && sg.district.Some? && st.district != sg.district
    ensures v.partial <==> st.district.None? != sg.district.None?
    ensures FC.ExactlyOne(v)
  {
    FC.Verdicts(DistrictKey, st, sg)
  }
}
