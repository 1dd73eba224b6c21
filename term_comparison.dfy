/** `MembershipComparison::TermComparison`: the field comparator on `:term` that never
    conflicts and is never partial. */
module TermComparison {
  import opened Values
  import FC = FieldComparison

  /** Inherited `exact?` on `:term`; `conflict` is always nil and `partial?` always false. */
  function Verdicts(st: Statement, sg: Suggestion): (v: FC.Verdict)
    ensures v.exact <==> st.term == sg.term
    ensures !v.conflict && !v.partial
    ensures st.term != sg.term ==> !v.exact && !v.conflict && !v.partial
  {
    FC.Verdict(FC.Verdicts(TermKey, st, sg).exact, false, false)
  }
}
