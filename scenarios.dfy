/** The cases of spec/membership_comparison_spec.rb, restated on the model. Dates are written
    as the integer YYYYMMDD. */
module Scenarios {
  import opened Wrappers
  import opened Values
  import StatementComparison
  import MembershipComparison
  import PositionComparison

  function Ref(id: string): Entity { Entity(map["id" := Some(id)]) }

  const mp := Ref("Q15964890")
  const speaker := Ref("Q2506685")
  const liberal := Ref("Q138345")
  const conservative := Ref("Q488523")
  const pontiac := Ref("Q3397734")
  const quebec := Ref("Q3414825")
  const nilRef := Entity(map["id" := None])
  const term40 := Term(Some("Q2816734"), Some(20081118), Some(20110326), Some(20080907), Some(20110602))
  const term41 := Term(Some("Q2816776"), Some(20110602), Some(20150802), Some(20110326), Some(20151203))
  const term42 := Term(Some("Q21157957"), Some(20151203), None, Some(20150802), None)

  /** `{position: mp, term: t, party: liberal, district: pontiac}` */
  function Suggested(t: Term, start: Option<Date>): Suggestion {
    Suggestion(Some(mp), None, Some(t), start, None, Some(liberal), Some(pontiac), None)
  }

  function OnTerm(position: Entity, t: Term, party: Option<Entity>, district: Option<Entity>): Statement {
    Statement(Some(position), Some(t), None, None, party, district, None)
  }

  function Dated(start: Date, end: Option<Date>): Statement {
    Statement(Some(mp), None, Some(start), end, Some(liberal), Some(pontiac), None)
  }

  lemma DistinctRefs()
    ensures mp != speaker && liberal != conservative && pontiac != quebec
    ensures liberal != nilRef && pontiac != nilRef
    ensures term40 != term41 && term41 != term42 && term40 != term42
  {
    assert mp.attributes["id"] != speaker.attributes["id"];
    assert liberal.attributes["id"] != conservative.attributes["id"];
    assert pontiac.attributes["id"] != quebec.attributes["id"];
    assert liberal.attributes["id"] != nilRef.attributes["id"];
    assert pontiac.attributes["id"] != nilRef.attributes["id"];
  }

  /** Lines 59-71 and 87-99: another term, same party and district: no state. */
  lemma PreviousAndFollowingTerm(requireParty: bool)
    ensures StatementComparison.State(requireParty, OnTerm(mp, term41, Some(liberal), Some(pontiac)), Suggested(term42, None)) == Ok(None)
    ensures StatementComparison.State(requireParty, OnTerm(mp, term42, Some(liberal), Some(pontiac)), Suggested(term41, None)) == Ok(None)
  {
    DistinctRefs();
  }

  /** Lines 101-113: the same term, party and district: exact. */
  lemma ExactMatch(requireParty: bool)
    ensures StatementComparison.State(requireParty, OnTerm(mp, term42, Some(liberal), Some(pontiac)), Suggested(term42, None)) == Ok(Some(Exact))
  {
  }

  /** Lines 101-113 against the entry point as written: the statement the case expects as an
      exact match makes `exact_matches` raise ArgumentError, while the corrected model puts
      its id in the exact bucket. */
  lemma EntryAsWrittenRaises()
    ensures var existing := [("abc", OnTerm(mp, term42, Some(liberal), Some(pontiac)))];
      && MembershipComparison.ClassifiedAsWritten(existing, Suggested(term42, None)) == Err(UnknownKeyword)
      && MembershipComparison.Bucket(MembershipComparison.Outcomes(existing, Suggested(term42, None), false), Exact) == ["abc"]
  {
    var existing := [("abc", OnTerm(mp, term42, Some(liberal), Some(pontiac)))];
    ExactMatch(false);
    var outcomes := MembershipComparison.Outcomes(existing, Suggested(term42, None), false);
    assert outcomes[..0] == [];
  }

  /** The same statement against the party comparator as written: `state` raises NameError
      where the corrected comparator, with the entry point's empty options, answers exact. */
  lemma PartyAsWrittenRaises()
    ensures StatementComparison.StateAsWritten(OnTerm(mp, term42, Some(liberal), Some(pontiac)), Suggested(term42, None))
            == Err(UndefinedName)
    ensures StatementComparison.State(false, OnTerm(mp, term42, Some(liberal), Some(pontiac)), Suggested(term42, None))
            == Ok(Some(Exact))
  {
    ExactMatch(false);
  }

  /** The same statement through `PositionComparison` as written: `state` raises
      ArgumentError where the corrected wrapper delegates and answers exact. */
  lemma PositionAsWrittenRaises()
    ensures PositionComparison.StateAsWritten(OnTerm(mp, term42, Some(liberal), Some(pontiac)), Suggested(term42, None))
            == Err(UnknownKeyword)
    ensures PositionComparison.State(false, OnTerm(mp, term42, Some(liberal), Some(pontiac)), Suggested(term42, None))
            == Ok(Some(Exact))
  {
    ExactMatch(false);
  }

  /** Lines 147-159: a statement with only the term is partial. */
  lemma PartialMatch(requireParty: bool)
    ensures StatementComparison.State(requireParty, OnTerm(mp, term42, None, None), Suggested(term42, None)) == Ok(Some(Partial))
  {
  }

  /** Lines 161-173: a different party conflicts when the party is required; with the
      empty options hash of the entry point it is only partial (the district is missing). */
  lemma PartyConflict()
    ensures StatementComparison.State(true, OnTerm(mp, term42, Some(conservative), None), Suggested(term42, None)) == Ok(Some(Conflict))
    ensures StatementComparison.State(false, OnTerm(mp, term42, Some(conservative), None), Suggested(term42, None)) == Ok(Some(Partial))
  {
    DistinctRefs();
  }

  /** Lines 175-187: a different district conflicts. Lines 73-85 expect a statement on the
      previous term with a different district to be in no state; the code makes it a
      conflict too, since the district comparator does not look at the term. */
  lemma DistrictConflict(requireParty: bool)
    ensures StatementComparison.State(requireParty, OnTerm(mp, term42, Some(liberal), Some(quebec)), Suggested(term42, None)) == Ok(Some(Conflict))
    ensures StatementComparison.State(requireParty, OnTerm(mp, term41, Some(liberal), Some(quebec)), Suggested(term42, None)) == Ok(Some(Conflict))
  {
    DistinctRefs();
  }

  /** Lines 189-201: a different position is in no state. */
  lemma DifferentPosition(requireParty: bool)
    ensures StatementComparison.State(requireParty, OnTerm(speaker, term41, Some(liberal), Some(pontiac)), Suggested(term42, None)) == Ok(None)
  {
    DistinctRefs();
  }

  /** Lines 203-215: with the party not required, a suggested `{id: nil}` party is exact. */
  lemma WithoutSuggestedParty()
    ensures StatementComparison.State(false, OnTerm(mp, term42, Some(conservative), Some(pontiac)),
                                      Suggested(term42, None).(party := Some(nilRef))) == Ok(Some(Exact))
  {
  }

  /** Lines 43-57: a statement with only a position is partial. The one whose term, party
      and district are `{id: nil}` is a conflict in the code, because `{id: nil}` is a
      present value that differs from the suggested district. */
  lemma BaseStatements(requireParty: bool)
    ensures StatementComparison.State(requireParty, Statement(Some(mp), None, None, None, None, None, None), Suggested(term42, None)) == Ok(Some(Partial))
    ensures StatementComparison.State(requireParty,
              Statement(Some(mp), Some(Term(None, None, None, None, None)), None, None, Some(nilRef), Some(nilRef), None),
              Suggested(term42, None)) == Ok(Some(Conflict))
  {
    DistinctRefs();
  }

  /** Lines 217-249: an open statement that began at or before the open term's start is partial. */
  lemma DatedWithinAndBetweenTerms(requireParty: bool)
    ensures StatementComparison.State(requireParty, Dated(20151203, None), Suggested(term42, None)) == Ok(Some(Partial))
    ensures StatementComparison.State(requireParty, Dated(20151018, None), Suggested(term42, None)) == Ok(Some(Partial))
  {
  }

  /** Lines 251-267: a closed statement that spans the start of the open term conflicts. */
  lemma SpanningTerms(requireParty: bool)
    ensures StatementComparison.State(requireParty, Dated(20110602, Some(20171112)), Suggested(term42, None)) == Ok(Some(Conflict))
  {
  }

  /** Lines 269-284 and 305-323: statements outside the closed term are in no state. */
  lemma OutsideTerm(requireParty: bool)
    ensures StatementComparison.State(requireParty, Dated(20151203, None), Suggested(term41, None)) == Ok(None)
    ensures StatementComparison.State(requireParty, Dated(20081118, Some(20110326)), Suggested(term41, None)) == Ok(None)
    ensures StatementComparison.State(requireParty, Dated(20170103, None), Suggested(term41, None)) == Ok(None)
  {
  }

  /** Lines 346-367: a statement covering exactly the closed term is partial. */
  lemma CoveringTerm(requireParty: bool)
    ensures StatementComparison.State(requireParty, Dated(20110602, Some(20150802)), Suggested(term41, None)) == Ok(Some(Partial))
  {
  }

  /** Lines 369-386: a statement that closed before the suggestion's own start is cut off. */
  lemma ReturnsWithinTerm(requireParty: bool)
    ensures StatementComparison.State(requireParty, Dated(20151203, Some(20160403)), Suggested(term42, Some(20170103))) == Ok(None)
  {
  }

  /** Lines 388-404: an open statement from the term's start, against a later suggested
      start, is a conflict (previous term still open). */
  lemma PreviousStillOpen(requireParty: bool)
    ensures StatementComparison.State(requireParty, Dated(20151203, None), Suggested(term42, Some(20170103))) == Ok(Some(Conflict))
  {
  }

  /** Lines 33-41: with no existing statements every bucket is empty. */
  lemma NoExisting(requireParty: bool, sg: Suggestion, s: State)
    ensures MembershipComparison.Bucket(MembershipComparison.Outcomes([], sg, requireParty), s) == []
  {
  }

  /** Lines 325-344: of three statements on consecutive terms only the one on the
      suggested term is an exact match, and nothing is partial or a conflict. */
  lemma SurroundingAndIncludingTerms(requireParty: bool)
    ensures var existing := [("wds:1030-1DAA-0040", OnTerm(mp, term40, Some(liberal), Some(pontiac))),
                             ("wds:1030-1DAA-0041", OnTerm(mp, term41, Some(liberal), Some(pontiac))),
                             ("wds:1030-1DAA-0042", OnTerm(mp, term42, Some(liberal), Some(pontiac)))];
      && MembershipComparison.Bucket(MembershipComparison.Outcomes(existing, Suggested(term41, None), requireParty), Exact) == ["wds:1030-1DAA-0041"]
      && MembershipComparison.Bucket(MembershipComparison.Outcomes(existing, Suggested(term41, None), requireParty), Partial) == []
      && MembershipComparison.Bucket(MembershipComparison.Outcomes(existing, Suggested(term41, None), requireParty), Conflict) == []
  {
    DistinctRefs();
    var existing := [("wds:1030-1DAA-0040", OnTerm(mp, term40, Some(liberal), Some(pontiac))),
                     ("wds:1030-1DAA-0041", OnTerm(mp, term41, Some(liberal), Some(pontiac))),
                     ("wds:1030-1DAA-0042", OnTerm(mp, term42, Some(liberal), Some(pontiac)))];
    var sg := Suggested(term41, None);
    var outcomes := MembershipComparison.Outcomes(existing, sg, requireParty);
    assert outcomes[0] == (existing[0].0, Ok(None));
    assert outcomes[1] == (existing[1].0, Ok(Some(Exact)));
    assert outcomes[2] == (existing[2].0, Ok(None));
    forall s: State
      ensures MembershipComparison.Bucket(outcomes, s) == (if s == Exact then [existing[1].0] else [])
    {
      MembershipComparison.SoleMatch(outcomes, 1, Exact, s);
    }
  }
}
