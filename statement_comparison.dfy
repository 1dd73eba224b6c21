/** `MembershipComparison::StatementComparison`: one statement's state against the
    suggestion, from the party, district, term and start comparators in that order. */
module StatementComparison {
  import opened Wrappers
  import opened Values
  import FC = FieldComparison
  import PartyComparison
  import DistrictComparison
  import TermComparison
  import StartComparison

  /** Ruby's `all?(&:exact?)`. */
  predicate AllExact(vs: seq<FC.Verdict>)
    ensures AllExact(vs) <==> forall i :: 0 <= i < |vs| ==> vs[i].exact
  {
    vs == [] || (vs[0].exact && AllExact(vs[1..]))
  }

  /** Ruby's `any?(&:conflict?)`. */
  predicate AnyConflict(vs: seq<FC.Verdict>)
    ensures AnyConflict(vs) <==> exists i :: 0 <= i < |vs| && vs[i].conflict
  {
    vs != [] && (vs[0].conflict || AnyConflict(vs[1..]))
  }

  /** Ruby's `any?(&:partial?)`. */
  predicate AnyPartial(vs: seq<FC.Verdict>)
    ensures AnyPartial(vs) <==> exists i :: 0 <= i < |vs| && vs[i].partial
  {
    vs != [] && (vs[0].partial || AnyPartial(vs[1..]))
  }

  /** The if/elsif chain of `state` over fully evaluated comparators: all exact, then any
      conflict, then any partial, then nil. */
  function Aggregate(vs: seq<FC.Verdict>): (r: Option<State>)
    ensures r == Some(Exact) <==> forall i :: 0 <= i < |vs| ==> vs[i].exact
    ensures r == Some(Conflict) <==>
      (exists i :: 0 <= i < |vs| && !vs[i].exact) && (exists i :: 0 <= i < |vs| && vs[i].conflict)
    ensures r == Some(Partial) <==>
      (exists i :: 0 <= i < |vs| && !vs[i].exact) && (forall i :: 0 <= i < |vs| ==> !vs[i].conflict) &&
      (exists i :: 0 <= i < |vs| && vs[i].partial)
    ensures r.None? <==>
      (exists i :: 0 <= i < |vs| && !vs[i].exact) &&
      (forall i :: 0 <= i < |vs| ==> !vs[i].conflict && !vs[i].partial)
    ensures r != Some(Ignore)
  {
    if AllExact(vs) then Some(Exact)
    else if AnyConflict(vs) then Some(Conflict)
    else if AnyPartial(vs) then Some(Partial)
    else None
  }

  /** `comparisons`: the party, district, term and start comparators, each given here by its
      three answers. Ruby's constructors only store their arguments and cannot raise; the
      model evaluates the start comparator's `conflict?` while building the list, so the list
      is an error exactly when that `conflict?` would raise. */
  function Comparisons(requireParty: bool, st: Statement, sg: Suggestion): (r: Result<seq<FC.Verdict>>)
    ensures r.Err? <==> StartComparison.Conflict(WindowOf(st, sg)).Err?
    ensures r.Ok? ==> |r.value| == 4 && r.value[0] == PartyComparison.Verdicts(requireParty, st, sg)
                      && r.value[1] == DistrictComparison.Verdicts(st, sg)
                      && r.value[2] == TermComparison.Verdicts(st, sg)
                      && Ok(r.value[3]) == StartComparison.Verdicts(st, sg)
  {
    match StartComparison.Verdicts(st, sg)
    case Err(e) => Err(e)
    case Ok(s) => Ok([PartyComparison.Verdicts(requireParty, st, sg), DistrictComparison.Verdicts(st, sg),
                      TermComparison.Verdicts(st, sg), s])
  }

  /** `state`, evaluated as Ruby does: the position gate first, then `all?(&:exact?)`,
      `any?(&:conflict?)` and `any?(&:partial?)`, each stopping at its first decisive
      comparator. The start comparator's `conflict?` is only reached, and can only raise,
      when nothing earlier decided the state. */
  function State(requireParty: bool, st: Statement, sg: Suggestion): (r: Result<Option<State>>)
    ensures st.position != sg.position ==> r == Ok(None)
    ensures r.Ok? && r.value.Some? ==> r.value.value != Ignore
    ensures r.Err? ==> r.error == AbsentDateCompared
  {
    if st.position != sg.position then Ok(None)
    else
      var p := PartyComparison.Verdicts(requireParty, st, sg);
      var d := DistrictComparison.Verdicts(st, sg);
      var t := TermComparison.Verdicts(st, sg);
      var w := WindowOf(st, sg);
      if p.exact && d.exact && t.exact && StartComparison.Exact(st, sg) then Ok(Some(Exact))
      else if p.conflict || d.conflict || t.conflict then Ok(Some(Conflict))
      else match StartComparison.Conflict(w)
        case Err(e) => Err(e)
        case Ok(c) =>
          if c then Ok(Some(Conflict))
          else if p.partial || d.partial || t.partial || StartComparison.Partial(w) then Ok(Some(Partial))
          else Ok(None)
  }

  /** `state` raises exactly when the positions agree, the four comparators are not all
      exact, neither party nor district conflicts, and the start comparator's `conflict?`
      raises. */
  lemma StateRaises(requireParty: bool, st: Statement, sg: Suggestion)
    ensures State(requireParty, st, sg).Err? <==>
      st.position == sg.position &&
      !(PartyComparison.Verdicts(requireParty, st, sg).exact && DistrictComparison.Verdicts(st, sg).exact &&
        TermComparison.Verdicts(st, sg).exact && st.start == sg.start) &&
      !PartyComparison.Verdicts(requireParty, st, sg).conflict && !DistrictComparison.Verdicts(st, sg).conflict &&
      StartComparison.Conflict(WindowOf(st, sg)).Err?
  {
  }

  /** `state` as written: past the position gate, `all?(&:exact?)` asks the party comparator
      first, and its `exact?` raises NameError (`PartyComparison.VerdictsAsWritten`). */
  function StateAsWritten(st: Statement, sg: Suggestion): Result<Option<State>> {
    if st.position != sg.position then Ok(None)
    else Err(PartyComparison.VerdictsAsWritten(st, sg).error)
  }

  /** As written, every statement on the suggested position raises. */
  lemma AsWrittenRaisesOnSamePosition(st: Statement, sg: Suggestion)
    requires st.position == sg.position
    ensures StateAsWritten(st, sg) == Err(UndefinedName)
  {
  }

  /** Whenever every comparator can answer, the lazy `state` is the aggregate of the four. */
  lemma StateIsAggregate(requireParty: bool, st: Statement, sg: Suggestion)
    requires st.position == sg.position
    requires Comparisons(requireParty, st, sg).Ok?
    ensures State(requireParty, st, sg) == Ok(Aggregate(Comparisons(requireParty, st, sg).value))
  {
    var vs := Comparisons(requireParty, st, sg).value;
    if forall i :: 0 <= i < |vs| ==> vs[i].exact {
      assert State(requireParty, st, sg) == Ok(Some(Exact));
    } else if exists i :: 0 <= i < |vs| && vs[i].conflict {
      var i :| 0 <= i < |vs| && vs[i].conflict;
      assert i == 0 || i == 1 || i == 2 || i == 3;
    } else {
      assert !vs[0].conflict && !vs[1].conflict && !vs[3].conflict;
    }
  }

  /** A party or district conflict decides `:conflict` before the start comparator is
      asked, so the state answers even where start's `conflict?` would raise. */
  lemma EarlyConflictWins(requireParty: bool, st: Statement, sg: Suggestion)
    requires st.position == sg.position
    requires !(PartyComparison.Verdicts(requireParty, st, sg).exact && DistrictComparison.Verdicts(st, sg).exact &&
               TermComparison.Verdicts(st, sg).exact && st.start == sg.start)
    requires PartyComparison.Verdicts(requireParty, st, sg).conflict || DistrictComparison.Verdicts(st, sg).conflict
    ensures State(requireParty, st, sg) == Ok(Some(Conflict))
  {
  }

  /** A district conflict masks a raising start comparator: the four answers cannot all be
      computed, yet `state` is `:conflict`. */
  lemma EarlyConflictMasksRaise(requireParty: bool)
    ensures var st := Statement(Some(Entity(map[])), None, None, None, None,
                                Some(Entity(map["id" := Some("Q1")])), None);
            var sg := Suggestion(Some(Entity(map[])), None, Some(Term(None, Some(20151203), None, None, None)),
                                 Some(20160101), None, None, Some(Entity(map["id" := Some("Q2")])), None);
            && Comparisons(requireParty, st, sg).Err?
            && State(requireParty, st, sg) == Ok(Some(Conflict))
  {
    assert Entity(map["id" := Some("Q1")]).attributes["id"] != Entity(map["id" := Some("Q2")]).attributes["id"];
  }

  /** Exact takes precedence: when all four fields are exact the state is `:exact`, even
      if a comparator also reports a conflict and even if start's `conflict?` would raise. */
  lemma ExactWins(requireParty: bool, st: Statement, sg: Suggestion)
    requires st.position == sg.position
    requires PartyComparison.Verdicts(requireParty, st, sg).exact && st.district == sg.district
    requires st.term == sg.term && st.start == sg.start
    ensures State(requireParty, st, sg) == Ok(Some(Exact))
  {
  }

  /** The start comparator can report exact and conflict together: equal starts, a closed
      statement and an open term that began inside it. */
  lemma StartExactAndConflict()
    ensures var st := Statement(None, None, Some(20110602), Some(20171112), None, None, None);
            var sg := Suggestion(None, None, Some(Term(None, Some(20151203), None, None, None)),
                                 Some(20110602), None, None, None, None);
            StartComparison.Verdicts(st, sg) == Ok(FC.Verdict(true, true, true))
  {
  }

  /** The person field and the suggestion's own end date never affect `state`. */
  lemma PersonIsIgnored(requireParty: bool, st: Statement, sg: Suggestion,
                        person1: Option<Entity>, person2: Option<Entity>, end2: Option<Date>)
    ensures State(requireParty, st.(person := person1), sg.(person := person2, end := end2)) ==
            State(requireParty, st, sg)
  {
    var st', sg' := st.(person := person1), sg.(person := person2, end := end2);
    assert WindowOf(st', sg').termStart == WindowOf(st, sg).termStart;
    assert StartComparison.Conflict(WindowOf(st', sg')) == StartComparison.Conflict(WindowOf(st, sg));
    assert StartComparison.Partial(WindowOf(st', sg')) == StartComparison.Partial(WindowOf(st, sg));
  }

  /** A different term with equal party and district and no dates is in no state. */
  lemma DifferentTermIsNil(requireParty: bool, st: Statement, sg: Suggestion)
    requires st.position == sg.position && st.party == sg.party && st.district == sg.district
    requires st.term != sg.term
    requires st.start.None? && st.end.None? && sg.start.None?
    ensures State(requireParty, st, sg) == Ok(None)
  {
  }
}
