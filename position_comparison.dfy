/** `MembershipComparison::PositionComparison`: admits statements recorded on the same
    position or on the suggestion's parent position, and wraps a StatementComparison.
    `StatementComparison#conflicts` and `#field_states` do not exist in the source; the
    lists and hashes they would return are taken here as inputs. */
module PositionComparison {
  import opened Wrappers
  import opened Values
  import StatementComparison

  predicate PositionMatch(st: Statement, sg: Suggestion) { st.position == sg.position }

  predicate SuperclassMatch(st: Statement, sg: Suggestion) { st.position == sg.positionParent }

  /** `statement.reject { |k| k == :position }.values.all?(&:empty?)`, field by field. */
  predicate OnlyPosition(st: Statement) {
    && (st.term.None? || IsEmpty(TermValue(st.term.value)))
    && st.start.None? && st.end.None?
    && (st.party.None? || IsEmpty(EntityValue(st.party.value)))
    && (st.district.None? || IsEmpty(EntityValue(st.district.value)))
    && (st.person.None? || IsEmpty(EntityValue(st.person.value)))
  }

  /** The field-by-field test is the Ruby one: every present non-position value is empty. */
  lemma OnlyPositionMeaning(st: Statement)
    ensures OnlyPosition(st) <==>
      forall k :: k != PositionKey && StatementValue(st, k).Some? ==> IsEmpty(StatementValue(st, k).value)
  {
    if !OnlyPosition(st) {
      if !(st.term.None? || IsEmpty(TermValue(st.term.value))) { assert StatementValue(st, TermKey) == TermOf(st.term); }
      else if st.start.Some? { assert StatementValue(st, StartKey) == DateOf(st.start); }
      else if st.end.Some? { assert StatementValue(st, EndKey) == DateOf(st.end); }
      else if !(st.party.None? || IsEmpty(EntityValue(st.party.value))) { assert StatementValue(st, PartyKey) == EntityOf(st.party); }
      else if !(st.district.None? || IsEmpty(EntityValue(st.district.value))) { assert StatementValue(st, DistrictKey) == EntityOf(st.district); }
      else { assert StatementValue(st, PersonKey) == EntityOf(st.person); }
    }
  }

  /** `bare?`: a superclass match whose statement carries nothing but its position. */
  predicate Bare(st: Statement, sg: Suggestion)
    ensures Bare(st, sg) <==> (SuperclassMatch(st, sg) &&
      forall k :: k != PositionKey && StatementValue(st, k).Some? ==> IsEmpty(StatementValue(st, k).value))
  {
    OnlyPositionMeaning(st);
    SuperclassMatch(st, sg) && OnlyPosition(st)
  }

  /** `conflicted?`: a superclass match whose inner state is `:exact` or `:partial`. */
  function Conflicted(requireParty: bool, st: Statement, sg: Suggestion): (r: Result<bool>)
    ensures r == Ok(true) <==> (SuperclassMatch(st, sg) &&
      StatementComparison.State(requireParty, st, sg) in {Ok(Some(Exact)), Ok(Some(Partial))})
    ensures r.Err? <==> SuperclassMatch(st, sg) && StatementComparison.State(requireParty, st, sg).Err?
  {
    if !SuperclassMatch(st, sg) then Ok(false)
    else match StatementComparison.State(requireParty, st, sg)
      case Err(e) => Err(e)
      case Ok(s) => Ok(s == Some(Exact) || s == Some(Partial))
  }

  /** `state`. */
  function State(requireParty: bool, st: Statement, sg: Suggestion): (r: Result<Option<State>>)
    ensures !PositionMatch(st, sg) && !SuperclassMatch(st, sg) ==> r == Ok(None)
    ensures Bare(st, sg) ==> r == Ok(Some(Ignore))
    ensures !Bare(st, sg) && Conflicted(requireParty, st, sg) == Ok(true) ==> r == Ok(Some(Conflict))
    ensures ((PositionMatch(st, sg) || SuperclassMatch(st, sg)) && !Bare(st, sg) &&
             Conflicted(requireParty, st, sg) != Ok(true)) ==> r == StatementComparison.State(requireParty, st, sg)
  {
    if !(PositionMatch(st, sg) || SuperclassMatch(st, sg)) then Ok(None)
    else if Bare(st, sg) then Ok(Some(Ignore))
    else match Conflicted(requireParty, st, sg)
      case Err(e) => Err(e)
      case Ok(c) => if c then Ok(Some(Conflict)) else StatementComparison.State(requireParty, st, sg)
  }

  /** `conflicts`; `inner` is what the wrapped comparison's `conflicts` returns. */
  function Conflicts(requireParty: bool, st: Statement, sg: Suggestion, inner: seq<string>): (r: Result<seq<string>>)
    ensures !PositionMatch(st, sg) && !SuperclassMatch(st, sg) ==> r == Ok([])
    ensures Conflicted(requireParty, st, sg) == Ok(true) && !Bare(st, sg) ==> r == Ok(["position conflict"])
    ensures ((PositionMatch(st, sg) || SuperclassMatch(st, sg)) && Conflicted(requireParty, st, sg).Ok? &&
             !(Conflicted(requireParty, st, sg).value && !Bare(st, sg))) ==> r == Ok(inner)
    ensures ((PositionMatch(st, sg) || SuperclassMatch(st, sg)) && Conflicted(requireParty, st, sg).Err?) ==>
              r == Err(Conflicted(requireParty, st, sg).error)
  {
    if !(PositionMatch(st, sg) || SuperclassMatch(st, sg)) then Ok([])
    else match Conflicted(requireParty, st, sg)
      case Err(e) => Err(e)
      case Ok(c) => if c && !Bare(st, sg) then Ok(["position conflict"]) else Ok(inner)
  }

  /** `field_states`; `inner` is what the wrapped comparison's `field_states` returns. On a
      superclass match the position entry is overwritten with this comparison's state. */
  function FieldStates(requireParty: bool, st: Statement, sg: Suggestion,
                       inner: map<Key, Option<State>>): (r: Result<map<Key, Option<State>>>)
    ensures !PositionMatch(st, sg) && !SuperclassMatch(st, sg) ==> r == Ok(map[])
    ensures PositionMatch(st, sg) && !SuperclassMatch(st, sg) ==> r == Ok(inner)
    ensures SuperclassMatch(st, sg) ==> (r.Ok? <==> State(requireParty, st, sg).Ok?)
    ensures SuperclassMatch(st, sg) && r.Err? ==> r == Err(State(requireParty, st, sg).error)
    ensures SuperclassMatch(st, sg) && r.Ok? ==>
      && State(requireParty, st, sg).Ok?
      && r.value.Keys == inner.Keys + {PositionKey}
      && r.value[PositionKey] == State(requireParty, st, sg).value
      && forall k :: k in inner && k != PositionKey ==> r.value[k] == inner[k]
  {
    if !(PositionMatch(st, sg) || SuperclassMatch(st, sg)) then Ok(map[])
    else if !SuperclassMatch(st, sg) then Ok(inner)
    else match State(requireParty, st, sg)
      case Err(e) => Err(e)
      case Ok(s) => Ok(inner[PositionKey := s])
  }

  /** `bare?` implies `superclass_match?`, and a bare statement's state is `:ignore`
      whatever the other comparisons would say. */
  lemma BareIsIgnored(requireParty: bool, st: Statement, sg: Suggestion)
    requires Bare(st, sg)
    ensures SuperclassMatch(st, sg)
    ensures forall k :: k != PositionKey && StatementValue(st, k).Some? ==> IsEmpty(StatementValue(st, k).value)
    ensures State(requireParty, st, sg) == Ok(Some(Ignore))
  {
    OnlyPositionMeaning(st);
  }

  /** A statement matched only through the parent position is `:ignore` or nil, never
      `:conflict`, and never raises: the wrapped state is nil because the positions differ. */
  lemma SuperclassOnlyNeverConflicts(requireParty: bool, st: Statement, sg: Suggestion, inner: seq<string>)
    requires SuperclassMatch(st, sg) && !PositionMatch(st, sg)
    ensures Conflicted(requireParty, st, sg) == Ok(false)
    ensures State(requireParty, st, sg) == (if Bare(st, sg) then Ok(Some(Ignore)) else Ok(None))
    ensures Conflicts(requireParty, st, sg, inner) == Ok(inner)
  {
    assert StatementComparison.State(requireParty, st, sg) == Ok(None);
  }

  /** On a superclass-only match the field states are the inner ones with the position
      entry set to `:ignore` for a bare statement and to nil otherwise; they never raise. */
  lemma SuperclassFieldStates(requireParty: bool, st: Statement, sg: Suggestion, inner: map<Key, Option<State>>)
    requires SuperclassMatch(st, sg) && !PositionMatch(st, sg)
    ensures FieldStates(requireParty, st, sg, inner) ==
              Ok(inner[PositionKey := if Bare(st, sg) then Some(Ignore) else None])
  {
    SuperclassOnlyNeverConflicts(requireParty, st, sg, []);
  }

  /** On an exact position match (and no parent match) the wrapper is transparent. */
  lemma PositionMatchDelegates(requireParty: bool, st: Statement, sg: Suggestion, inner: seq<string>)
    requires PositionMatch(st, sg) && !SuperclassMatch(st, sg)
    ensures State(requireParty, st, sg) == StatementComparison.State(requireParty, st, sg)
    ensures Conflicts(requireParty, st, sg, inner) == Ok(inner)
  {
  }

  /** `state` as written: `statement_comparison` passes `options:` to a constructor that
      declares only `statement:` and `suggestion:`, so every path that builds it raises
      ArgumentError. Only unmatched and bare statements get an answer. */
  function StateAsWritten(st: Statement, sg: Suggestion): Result<Option<State>> {
    if !(PositionMatch(st, sg) || SuperclassMatch(st, sg)) then Ok(None)
    else if Bare(st, sg) then Ok(Some(Ignore))
    else Err(UnknownKeyword)
  }

  /** As written, every matched statement that is not bare raises. */
  lemma AsWrittenRaisesUnlessBare(st: Statement, sg: Suggestion)
    requires (PositionMatch(st, sg) || SuperclassMatch(st, sg)) && !Bare(st, sg)
    ensures StateAsWritten(st, sg) == Err(UnknownKeyword)
  {
  }
}
