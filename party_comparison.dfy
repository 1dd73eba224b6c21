/** `MembershipComparison::PartyComparison`: the field comparator on `:party` whose three
    predicates are switched off unless `require_party` is set. The source reads an
    `options` hash that is never defined; `requireParty` is that option made explicit. */
module PartyComparison {
  import opened Wrappers
  import opened Values
  import FC = FieldComparison

  /** The overridden `conflict`: the inherited message, only when `require_party` is set. */
  function Conflict(requireParty: bool, st: Statement, sg: Suggestion): (m: Option<string>)
    ensures m.Some? <==> requireParty && st.party.Some? && sg.party.Some? && st.party != sg.party
    ensures m.Some? ==> m.value == "party conflict"
  {
    if requireParty then FC.Conflict(PartyKey, st, sg) else None
  }

  /** The overridden `exact?`, `conflict?` and `partial?`; `partial?` calls the inherited one,
      which in turn dispatches to the overridden `exact?` and `conflict`. */
  function Verdicts(requireParty: bool, st: Statement, sg: Suggestion): (v: FC.Verdict)
    ensures !requireParty ==> v == FC.Verdict(true, false, false)
    ensures requireParty ==> v == FC.Verdicts(PartyKey, st, sg)
    ensures v.exact <==> !requireParty || st.party == sg.party
    ensures FC.ExactlyOne(v)
  {
    var exact := !requireParty || FC.Verdicts(PartyKey, st, sg).exact;
    var conflict := Conflict(requireParty, st, sg).Some?;
    FC.Verdict(exact, conflict, requireParty && !exact && !conflict)
  }

  /** The three predicates as written: each reads `options`, which neither this class nor
      `FieldComparison` defines, so the first of them to run raises NameError before any
      field is compared. */
  function VerdictsAsWritten(st: Statement, sg: Suggestion): Result<FC.Verdict> {
    Err(UndefinedName)
  }
}
