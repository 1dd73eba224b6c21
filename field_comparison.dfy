/** `MembershipComparison::FieldComparison`: compares one field of a statement with the
    same field of the suggestion. The class-level `field` becomes an explicit key. */
module FieldComparison {
  import opened Wrappers
  import opened Values

  /** The three answers a comparator gives: `exact?`, `conflict?`, `partial?`. They are kept
      as three booleans because some comparators report more than one at once. */
  datatype Verdict = Verdict(exact: bool, conflict: bool, partial: bool)

  predicate ExactlyOne(v: Verdict) {
    (v.exact && !v.conflict && !v.partial) ||
    (!v.exact && v.conflict && !v.partial) ||
    (!v.exact && !v.conflict && v.partial)
  }

  /** `self.field`: the configured key, or NotImplementedError on a class that has none. */
  function ConfiguredField(configured: Option<Key>): (r: Result<Key>)
    ensures r.Err? <==> configured.None?
    ensures r.Err? ==> r.error == NotImplemented
    ensures r.Ok? ==> Some(r.value) == configured
  {
    match configured
    case None => Err(NotImplemented)
    case Some(k) => Ok(k)
  }

  /** `conflict`: the message `"<field> conflict"` when both values are present and differ. */
  function Conflict(k: Key, st: Statement, sg: Suggestion): (m: Option<string>)
    ensures m.Some? <==> StatementValue(st, k).Some? && SuggestionValue(sg, k).Some?
                         && StatementValue(st, k) != SuggestionValue(sg, k)
    ensures m.Some? ==> m.value == KeyName(k) + " conflict"
  {
    var a, b := StatementValue(st, k), SuggestionValue(sg, k);
    if a.Some? && b.Some? && a != b then Some(KeyName(k) + " conflict") else None
  }

  /** `exact?`, `conflict?` (`conflict` is non-nil) and `partial?` (neither of the others). */
  function Verdicts(k: Key, st: Statement, sg: Suggestion): (v: Verdict)
    ensures v.exact <==> StatementValue(st, k) == SuggestionValue(sg, k)
    ensures v.conflict <==> Conflict(k, st, sg).Some?
    ensures v.partial <==> StatementValue(st, k).None? != SuggestionValue(sg, k).None?
    ensures ExactlyOne(v)
  {
    var exact := StatementValue(st, k) == SuggestionValue(sg, k);
    var conflict := Conflict(k, st, sg).Some?;
    Verdict(exact, conflict, !exact && !conflict)
  }

  /** A comparator instance of a class whose field may be unconfigured: reading `a` or `b`
      raises NotImplementedError before any predicate answers. */
  function Compare(configured: Option<Key>, st: Statement, sg: Suggestion): (r: Result<Verdict>)
    ensures configured.None? ==> r == Err(NotImplemented)
    ensures configured.Some? ==> r.Ok? && ExactlyOne(r.value)
    ensures configured.Some? ==> (r.value.exact <==> StatementValue(st, configured.value) == SuggestionValue(sg, configured.value))
  {
    match ConfiguredField(configured)
    case Err(e) => Err(e)
    case Ok(k) => Ok(Verdicts(k, st, sg))
  }

  /** Two absent values are an exact match. */
  lemma AbsentIsExact(k: Key, st: Statement, sg: Suggestion)
    requires StatementValue(st, k).None? && SuggestionValue(sg, k).None?
    ensures Verdicts(k, st, sg) == Verdict(true, false, false)
  {
  }

  /** Presence means non-nil: `{id: nil}` is present, so it conflicts with a different
      present value and is partial against an absent one. */
  lemma NilIdIsPresent(st: Statement, sg: Suggestion)
    requires st.party == Some(Entity(map["id" := None]))
    ensures sg.party.None? ==> Verdicts(PartyKey, st, sg).partial
    ensures sg.party.Some? && sg.party != st.party ==> Verdicts(PartyKey, st, sg).conflict
  {
  }
}
