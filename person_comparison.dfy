/** `MembershipComparison::PersonComparison`: the field comparator on `:person`. */
module PersonComparison {
  import opened Wrappers
  import opened Values
  import FC = FieldComparison

  function Conflict(st: Statement, sg: Suggestion): (m: Option<string>)
    ensures m.Some? <==> st.person.Some? && sg.person.Some? && st.person != sg.person
    ensures m.Some? ==> m.value == "person conflict"
  {
    FC.Conflict(PersonKey, st, sg)
  }

  function Verdicts(st: Statement, sg: Suggestion): (v: FC.Verdict)
    ensures v.exact <==> st.person == sg.person
    ensures v.conflict <==> st.person.Some? && sg.person.Some? && st.person != sg.person
    ensures v.partial <==> st.person.None? != sg.person.None?
    ensures FC.ExactlyOne(v)
  {
    FC.Verdicts(PersonKey, st, sg)
  }
}
