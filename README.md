# membership-comparison, modelled in Dafny

The Ruby library `membership-comparison` reconciles one suggested membership (position,
term, party, district, person, start date) against a hash of existing statements about
the same person. Each statement id ends up in the exact, partial or conflict bucket, or in
none. This project models that classifier and proves its properties:

- the per-field comparators, as seen in `lib/membership_comparison/` (field, party, term,
  district, person and start) and the older `Wikidata::` copies in `lib/`;
- the interval predicates of `DateHelpers` and `StartComparison`;
- `StatementComparison#state`, the position gate and the all-exact / any-conflict /
  any-partial aggregation;
- the `PositionComparison` wrapper, with its parent-position and "bare" statement rules;
- the `MembershipComparison` entry point, whose loops bucket ids by state.

Modelling choices:

- A field is `Option<…>`. `None` is an absent key, and presence means non-nil. An entity
  such as `{id: 'Q1'}` is a map of attributes compared as a whole, so `{id: nil}` is
  present.
- Dates are `YYYY-MM-DD` strings, compared with `<` and `<=`. For full dates (section 5.6
  of RFC 3339) that order is chronological (section 5.1 of RFC 3339), so a date is an
  `int`.
- A Ruby exception is a `Result` error. `NotImplemented` is `self.field` read on a class
  with no field configured. `AbsentDateCompared` is `nil <= date`. `StartComparison#conflict?`
  raises the second one when the term and the suggestion have a start and the statement
  has none, because there "open" only means "not closed".
- `StatementComparison.State` keeps Ruby's evaluation order. The start comparator's
  `conflict?` is only evaluated, and can only raise, when nothing earlier decided the
  state. `StatementComparison.StateIsAggregate` proves this lazy form equal to the plain
  aggregate whenever every comparator can answer.
- The `require_party` option is an explicit `requireParty` parameter. The entry point
  builds its comparisons with an empty options hash (lib/membership_comparison.rb:53-56),
  which reads as `requireParty == false`.
- `existing` is a sequence of (id, statement) pairs, so Ruby's insertion order is kept.
  Where the properties need it, ids are required to be distinct, as hash keys are.

Where the code and its own tests or documented intent disagree, the model follows the code:

- The entry point builds `StatementComparison`s, not `PositionComparison`s
  (lib/membership_comparison.rb:45). So parent positions and bare statements are only
  handled by the standalone `PositionComparison` model.
- The RSpec case at spec/membership_comparison_spec.rb:73-85 expects no state for a
  statement on the previous term with a different district. The code makes it a conflict,
  because the district comparator ignores the term (`Scenarios.DistrictConflict`).
- The case at spec/membership_comparison_spec.rb:43-57 expects `{id: nil}` fields to be
  partial. The code treats them as present values, which gives a conflict
  (`Scenarios.BaseStatements`).
- The cases at spec/membership_comparison_spec.rb:161-173 and :203-215 need `require_party`
  on and off respectively (`Scenarios.PartyConflict`, `Scenarios.WithoutSuggestedParty`).
- `DateHelpers` is not required by any file of the library. It is modelled on its own, and
  `StartComparison.AgreesWithDateHelpers` relates the two.

## Model

| member | source | states |
|---|---|---|
| Values.StatementValue | lib/membership_comparison/field_comparison.rb:38-41 | `statement[field]` for each of the seven keys, absent when the statement has no such field |
| Values.SuggestionValue | lib/membership_comparison/field_comparison.rb:43-46 | `suggestion[field]` for each of the seven keys, absent when the suggestion has no such field |
| Values.IsEmpty | lib/membership_comparison/position_comparison.rb:49 | Ruby's `empty?` on a present value: a hash with no attributes or a term with no fields; a date string is never empty |
| Values.WindowOf | lib/membership_comparison/date_helpers.rb:89-119 | the dates the predicates read: `statement[:start]`/`[:end]`, `suggestion.dig(:term, …)` for start, end, eopt and sont (all absent without a term), and `suggestion[:start]`/`[:end]`; StartComparison's readers at lib/membership_comparison/start_comparison.rb:91-113 are the same minus eopt and sont |
| FieldComparison.ConfiguredField | lib/membership_comparison/field_comparison.rb:11-13 | reading the field raises NotImplementedError exactly when no field is configured, otherwise it yields the configured key |
| FieldComparison.Conflict | lib/membership_comparison/field_comparison.rb:24-26 | there is a message iff both values are present and differ, and the message is `"<field> conflict"` |
| FieldComparison.Verdicts | lib/membership_comparison/field_comparison.rb:20-34 | exact iff the values are equal (two absent values are equal); conflict iff `conflict` is non-nil; partial iff exactly one value is absent; exactly one of the three holds |
| FieldComparison.Compare | lib/membership_comparison/field_comparison.rb:11-46 | a comparator without a configured field raises NotImplementedError; with one, exactly one answer holds and exact is equality of the selected values |
| FieldComparison.AbsentIsExact | lib/membership_comparison/field_comparison.rb:20-34 | two absent values give exact and neither conflict nor partial |
| FieldComparison.NilIdIsPresent | lib/membership_comparison/field_comparison.rb:24-34 | `{id: nil}` is present: partial against an absent value, conflict against a different present one |
| PartyComparison.Conflict | lib/membership_comparison/party_comparison.rb:13-15 | the message `"party conflict"` appears iff `require_party` is on and the two parties are present and differ |
| PartyComparison.Verdicts | lib/membership_comparison/party_comparison.rb:7-19 | with `require_party` off the party is always exact and never conflict or partial; with it on the answers are the FieldComparison ones on `:party`; exactly one holds either way |
| TermComparison.Verdicts | lib/membership_comparison/term_comparison.rb:7-15 | exact iff the whole term values are equal; never conflict, never partial; different terms give no answer at all |
| DistrictComparison.Conflict | lib/membership_comparison/district_comparison.rb:6-8 | the message `"district conflict"` appears iff both districts are present and differ |
| DistrictComparison.Verdicts | lib/membership_comparison/district_comparison.rb:6-8 | exact iff the districts are equal (both absent included); conflict iff both present and different; partial iff exactly one is absent |
| PersonComparison.Conflict | lib/membership_comparison/person_comparison.rb:6-8 | the message `"person conflict"` appears iff both persons are present and differ |
| PersonComparison.Verdicts | lib/membership_comparison/person_comparison.rb:6-8 | exact iff the persons are equal (both absent included); conflict iff both present and different; partial iff exactly one is absent |
| DateHelpers.StatementStarted | lib/membership_comparison/date_helpers.rb:53-55 | the statement has a start |
| DateHelpers.StatementClosed | lib/membership_comparison/date_helpers.rb:57-59 | the statement has a start and an end |
| DateHelpers.StatementOpen | lib/membership_comparison/date_helpers.rb:61-63 | the statement has a start and is not closed |
| DateHelpers.TermStarted | lib/membership_comparison/date_helpers.rb:65-67 | the suggested term has a start |
| DateHelpers.TermClosed | lib/membership_comparison/date_helpers.rb:69-71 | the suggested term has a start and an end |
| DateHelpers.TermOpen | lib/membership_comparison/date_helpers.rb:73-75 | the suggested term has a start and is not closed |
| DateHelpers.SuggestionStarted | lib/membership_comparison/date_helpers.rb:77-79 | the suggestion has a start |
| DateHelpers.SuggestionClosed | lib/membership_comparison/date_helpers.rb:81-83 | the suggestion has a start and an end |
| DateHelpers.SuggestionOpen | lib/membership_comparison/date_helpers.rb:85-87 | the suggestion has a start and is not closed |
| DateHelpers.SuggestionStartedAfterStatementEnded | lib/membership_comparison/date_helpers.rb:7-11 | holds iff the statement is closed, the suggestion has a start, and the statement's end is strictly before it; StartComparison's private copy at lib/membership_comparison/start_comparison.rb:25-29 is the same rule |
| DateHelpers.SuggestionStartedAfterStatementAndTerm | lib/membership_comparison/date_helpers.rb:13-17 | holds iff the statement is open with a start and `statement_start <= term_start < suggestion_start`; it never reads an absent date |
| DateHelpers.TermStartedDuringStatement | lib/membership_comparison/date_helpers.rb:19-23 | holds iff the statement is closed and `start <= term_start < end`; StartComparison's private copy at lib/membership_comparison/start_comparison.rb:37-41 is the same rule |
| DateHelpers.TermEndedAfterStatement | lib/membership_comparison/date_helpers.rb:25-29 | holds iff both intervals are closed and `statement_end < term_end`; StartComparison's private copy at lib/membership_comparison/start_comparison.rb:43-47 is the same rule |
| DateHelpers.TermStartedAfterStatement | lib/membership_comparison/date_helpers.rb:31-35 | holds iff both starts are present and `statement_start <= term_start`; StartComparison's private copy at lib/membership_comparison/start_comparison.rb:49-53 is the same rule |
| DateHelpers.StartedBeforeEndOfPreviousTerm | lib/membership_comparison/date_helpers.rb:37-41 | false unless eopt is present and the statement is open; then the strict `statement_start < eopt` |
| DateHelpers.EndedBeforeEndOfPreviousTerm | lib/membership_comparison/date_helpers.rb:43-47 | false unless eopt is present and the statement is closed; then the inclusive `statement_end <= eopt` |
| DateHelpers.NoTermOrStatementStart | lib/membership_comparison/date_helpers.rb:49-51 | holds iff the includer's field value is absent and the statement has no start |
| DateHelpers.OpenClosedPartition | lib/membership_comparison/date_helpers.rb:53-87 | open and closed exclude each other, and together they are exactly "has a start", for statement, term and suggestion |
| DateHelpers.SontIsUnused | lib/membership_comparison/date_helpers.rb:109-111 | the start of the next term is read, but changing it changes no predicate |
| DateHelpers.EndedBeforePreviousTermMissesTermStart | lib/membership_comparison/date_helpers.rb:19-47 | when the previous term ends no later than this term starts, a statement that ended by that end does not contain this term's start |
| StartComparison.StatementOpen | lib/membership_comparison/start_comparison.rb:63-65 | the private `statement_open?` is only "not closed", so a statement with no start counts as open |
| StartComparison.TermOpen | lib/membership_comparison/start_comparison.rb:75-77 | the private `term_open?` is only "not closed", so a term with no start counts as open |
| StartComparison.SuggestionOpen | lib/membership_comparison/start_comparison.rb:87-89 | the private `suggestion_open?` is only "not closed", so a suggestion with no start counts as open |
| StartComparison.OpenWithoutStart | lib/membership_comparison/start_comparison.rb:63-89 | each private "open" holds iff the DateHelpers "open" holds or there is no start; that no-start case lets the guard at :32 through to the raise at :34 |
| StartComparison.SuggestionStartedAfterStatementAndTerm | lib/membership_comparison/start_comparison.rb:31-35 | raises iff the term and the suggestion have starts and the statement has none; true iff the DateHelpers predicate holds |
| StartComparison.Conflict | lib/membership_comparison/start_comparison.rb:9-14 | a statement that ended before the suggestion started is never a conflict |
| StartComparison.Exact | lib/membership_comparison/start_comparison.rb:7 | the inherited `exact?` is plain equality of the `:start` fields |
| StartComparison.Partial | lib/membership_comparison/start_comparison.rb:16-21 | never partial when the suggestion started after the statement ended, and never without both starts with the statement's no later than the term's |
| StartComparison.Verdicts | lib/membership_comparison/start_comparison.rb:7-21 | raises iff `conflict?` raises; otherwise exact is start equality, conflict is `conflict?` and partial is `partial?` |
| StartComparison.StatementOpenDisjunctIsDead | lib/membership_comparison/start_comparison.rb:9-41 | a term that started during the statement needs it closed, so `conflict?` is unchanged when the `statement_open?` disjunct is dropped |
| StartComparison.ConflictRaises | lib/membership_comparison/start_comparison.rb:31-35 | `conflict?` raises exactly when the term and the suggestion have starts and the statement has none |
| StartComparison.AgreesWithDateHelpers | lib/membership_comparison/start_comparison.rb:59-77 | `partial?` always equals the same rule built from the DateHelpers predicates, and `conflict?` does too whenever it does not raise |
| StartComparison.EndedBeforeSuggestionIsUnrelated | lib/membership_comparison/start_comparison.rb:9-29 | hard cut-off: a closed statement that ended before the suggestion's start is neither a conflict nor partial |
| StartComparison.SpanningTermsConflict | lib/membership_comparison/start_comparison.rb:9-47 | a closed statement with `start <= term_start < end`, whose term is open or ends later and which is not cut off, is a conflict (and partial) |
| StartComparison.SameEndIsPartial | lib/membership_comparison/start_comparison.rb:9-47 | a term ending on the statement's last day is partial and not a conflict |
| StartComparison.PreviousTermStillOpen | lib/membership_comparison/start_comparison.rb:9-35 | an open statement with `statement_start <= term_start < suggestion_start` is a conflict |
| StartComparison.OpenStatementPartial | lib/membership_comparison/start_comparison.rb:16-53 | an open statement against an open term is partial iff it began no later than the term; against a closed term it is never partial; neither case raises |
| StartComparison.StartedAfterTermIsUnrelated | lib/membership_comparison/start_comparison.rb:9-53 | a statement with a start that began after the term began, or against a term with no start, is neither a conflict nor partial |
| StartComparison.AnswersNeedOverlap | lib/membership_comparison/start_comparison.rb:9-53 | every conflict or partial answer needs both starts, with the statement's no later than the term's |
| StatementComparison.AllExact | lib/membership_comparison/statement_comparison.rb:18 | the recursive `all?(&:exact?)` holds iff every verdict is exact |
| StatementComparison.AnyConflict | lib/membership_comparison/statement_comparison.rb:20 | the recursive `any?(&:conflict?)` holds iff some verdict conflicts |
| StatementComparison.AnyPartial | lib/membership_comparison/statement_comparison.rb:22 | the recursive `any?(&:partial?)` holds iff some verdict is partial |
| StatementComparison.Aggregate | lib/membership_comparison/statement_comparison.rb:18-24 | exact iff all are exact (whatever else is reported); conflict iff not all exact and some conflicts; partial iff not all exact, none conflicts and some is partial; nil otherwise; never `:ignore` |
| StatementComparison.Comparisons | lib/membership_comparison/statement_comparison.rb:31-49 | the comparators are party, district, term and start, in that order. Ruby's constructors only store their arguments; the model evaluates start's `conflict?` while building the list, so the list is an error exactly when that call would raise |
| StatementComparison.State | lib/membership_comparison/statement_comparison.rb:15-25 | nil when the positions differ, never `:ignore`, and the only error it raises is the comparison of an absent date |
| StatementComparison.StateRaises | lib/membership_comparison/statement_comparison.rb:15-25 | `state` raises exactly when the positions agree, not all four are exact, neither party nor district conflicts and start's `conflict?` raises |
| StatementComparison.StateIsAggregate | lib/membership_comparison/statement_comparison.rb:15-33 | when every comparator can answer and the positions agree, `state` is the aggregate of the four verdicts |
| StatementComparison.ExactWins | lib/membership_comparison/statement_comparison.rb:18-21 | equal positions and four exact fields give `:exact`, with no raise, whatever a `conflict?` would say |
| StatementComparison.StartExactAndConflict | lib/membership_comparison/start_comparison.rb:7-21 | there are inputs on which the start comparator is exact, conflict and partial at once |
| StatementComparison.EarlyConflictWins | lib/membership_comparison/statement_comparison.rb:18-21 | on equal positions without four exact fields, a party or district conflict gives `:conflict` without reaching start's `conflict?`, so it never raises |
| StatementComparison.EarlyConflictMasksRaise | lib/membership_comparison/statement_comparison.rb:18-21 | there is a statement whose start `conflict?` would raise (no statement start), yet whose `state` is `:conflict` because the district conflicts first |
| StatementComparison.PersonIsIgnored | lib/membership_comparison/statement_comparison.rb:31-33 | changing either person, or the suggestion's end date, never changes `state` |
| StatementComparison.DifferentTermIsNil | lib/membership_comparison/statement_comparison.rb:18-24 | a different term with equal party and district and no dates is in no state |
| PositionComparison.PositionMatch | lib/membership_comparison/position_comparison.rb:40-42 | the statement's position equals the suggested position |
| PositionComparison.SuperclassMatch | lib/membership_comparison/position_comparison.rb:44-46 | the statement's position equals the suggested position's parent |
| PositionComparison.Bare | lib/membership_comparison/position_comparison.rb:48-50 | holds iff there is a superclass match and every present value other than the position is empty |
| PositionComparison.OnlyPosition | lib/membership_comparison/position_comparison.rb:49 | the `all?(&:empty?)` test over every non-position value, written field by field: term, party, district and person absent or empty, and no start or end |
| PositionComparison.OnlyPositionMeaning | lib/membership_comparison/position_comparison.rb:49 | the field-by-field test holds iff every present non-position value is empty |
| PositionComparison.Conflicted | lib/membership_comparison/position_comparison.rb:52-57 | true iff there is a superclass match and the inner state is `:exact` or `:partial`; raises iff there is a superclass match and the inner state raises |
| PositionComparison.State | lib/membership_comparison/position_comparison.rb:13-19 | nil without a position or parent match; `:ignore` for a bare statement (checked first); `:conflict` when conflicted; otherwise, including every case where `conflicted?` raises, the inner state unchanged, so it raises exactly when the inner state does |
| PositionComparison.Conflicts | lib/membership_comparison/position_comparison.rb:21-26 | `[]` without a match; `['position conflict']` when conflicted and not bare; the same error as `conflicted?` whenever that raises on a match; otherwise the inner list unchanged |
| PositionComparison.FieldStates | lib/membership_comparison/position_comparison.rb:28-34 | `{}` without a match; the inner hash on a plain position match; on a superclass match it raises iff this comparison's `state` raises, with the same error, and otherwise is the inner hash with `:position` set to that state and nothing else changed |
| PositionComparison.BareIsIgnored | lib/membership_comparison/position_comparison.rb:13-16 | a bare statement is a superclass match that carries nothing but its position, and its state is `:ignore` |
| PositionComparison.SuperclassOnlyNeverConflicts | lib/membership_comparison/position_comparison.rb:13-26 | a statement matched only through the parent position is `:ignore` (bare) or nil, never `:conflict`, and its conflicts are the inner list |
| PositionComparison.SuperclassFieldStates | lib/membership_comparison/position_comparison.rb:28-34 | on a superclass-only match `field_states` never raises: it is the inner hash with `:position` set to `:ignore` for a bare statement and to nil otherwise |
| PositionComparison.StateAsWritten | lib/membership_comparison/position_comparison.rb:13-19 | as written: nil without a match, `:ignore` for a bare statement, and otherwise ArgumentError from the `options:` keyword of `statement_comparison` |
| PositionComparison.AsWrittenRaisesUnlessBare | lib/membership_comparison/position_comparison.rb:59-65 | as written, every matched statement that is not bare makes `state` raise ArgumentError |
| PositionComparison.PositionMatchDelegates | lib/membership_comparison/position_comparison.rb:13-26 | on a plain position match both `state` and `conflicts` are delegated unchanged |
| MembershipComparison.Fetch | lib/membership_comparison.rb:11-21 | `classified.fetch(state, [])`: the bucket under that key, or `[]` without one |
| MembershipComparison.Comparisons | lib/membership_comparison.rb:43-51 | one comparison per existing statement, under the same id and in the same order |
| MembershipComparison.StateOf | lib/membership_comparison.rb:35 | `comparison.state`: the StatementComparison state of the comparison's statement, suggestion and options |
| MembershipComparison.Answers | lib/membership_comparison.rb:34-35 | one `state` answer per comparison, under its id and in order |
| MembershipComparison.Outcomes | lib/membership_comparison.rb:34-35 | one `state` answer per existing statement, under its id; none is `:ignore`, and distinct ids stay distinct |
| MembershipComparison.Group | lib/membership_comparison.rb:34-40 | for any `state` function: raises iff some comparison raises, and then with the error of the first one that does; otherwise each state is a key iff some id reached it and holds exactly those ids in order |
| MembershipComparison.Classified | lib/membership_comparison.rb:33-41 | raises iff some statement's state raises, and only on an absent date; otherwise a state is a key iff some id reached it, each key holds exactly those ids in order, `:ignore` is never a key, and `{}` when there is nothing to compare |
| MembershipComparison.ExactMatches | lib/membership_comparison.rb:11-13 | the ids, in order, whose state is `:exact`, and `[]` when none is; an error only where the classification raises on an absent date |
| MembershipComparison.PartialMatches | lib/membership_comparison.rb:15-17 | the ids, in order, whose state is `:partial`, and `[]` when none is; an error only where the classification raises on an absent date |
| MembershipComparison.Conflicts | lib/membership_comparison.rb:19-21 | the ids, in order, whose state is `:conflict`, and `[]` when none is; an error only where the classification raises on an absent date |
| MembershipComparison.Problems | lib/membership_comparison.rb:23-27 | exactly one entry per id of `existing` and no other keys, each holding that statement's conflicts; empty for no statements |
| MembershipComparison.ClassifiedAsWritten | lib/membership_comparison.rb:43-51 | as written: `{}` for no statements, otherwise ArgumentError from the `options:` keyword |
| MembershipComparison.NoIgnoreBucket | lib/membership_comparison.rb:33-41 | no id is ever bucketed under `:ignore` |
| MembershipComparison.BucketMembership | lib/membership_comparison.rb:34-40 | an id is in a state's bucket iff some statement under that id has that state |
| MembershipComparison.BucketsDisjoint | lib/membership_comparison.rb:33-41 | with distinct ids, no id is in two different buckets |
| MembershipComparison.NilBuckets | lib/membership_comparison.rb:35-36 | when every statement is in no state, every bucket is empty |
| MembershipComparison.SoleMatch | lib/membership_comparison.rb:34-40 | when one statement is in a state and all others are in none, that bucket holds its id alone and all others are empty |
| MembershipComparison.NilStateInNoBucket | lib/membership_comparison.rb:35-36 | an id whose state is nil is in no bucket |
| MembershipComparison.BucketKeepsOrder | lib/membership_comparison.rb:38-39 | a bucket is read off strictly increasing indexes of `existing`, which are exactly those whose state is that bucket's |
| WikidataFieldComparison.New | lib/field_comparison.rb:11-25 | construction raises NotImplementedError iff no field is configured; otherwise it captures `statement[field]` and `suggestion[field]` |
| WikidataFieldComparison.Exact | lib/field_comparison.rb:27-29 | equality of the two captured values |
| WikidataFieldComparison.Conflict | lib/field_comparison.rb:31-33 | both values present and different, and then never exact |
| WikidataFieldComparison.Partial | lib/field_comparison.rb:35-37 | neither exact nor conflict, which holds iff exactly one value is absent |
| WikidataFieldComparison.ExactlyOne | lib/field_comparison.rb:27-37 | exact, conflict and partial are mutually exclusive and exhaustive; partial iff exactly one value is absent |
| WikidataFieldComparison.CapturedValuesDecide | lib/field_comparison.rb:15-21 | the answers depend only on the values captured at construction |
| WikidataTermComparison.New | lib/term_comparison.rb:7 | the comparator captures the two `:term` values |
| WikidataTermComparison.Conflict | lib/term_comparison.rb:9-11 | the overridden `conflict?` is always false |
| WikidataTermComparison.Partial | lib/term_comparison.rb:13-15 | the overridden `partial?` is always false |
| WikidataTermComparison.TermVerdicts | lib/term_comparison.rb:9-15 | exact iff the terms are equal; `conflict?` and `partial?` are always false |
| WikidataDistrictComparison.New | lib/district_comparison.rb:7 | the comparator captures the two `:district` values |
| WikidataDistrictComparison.DistrictVerdicts | lib/field_comparison.rb:27-37 | exact iff the districts are equal; conflict iff both present and different; partial iff exactly one is absent |
| WikidataPartyComparison.New | lib/party_comparison.rb:7 | the comparator captures the two `:party` values |
| WikidataPartyComparison.PartyVerdicts | lib/field_comparison.rb:27-37 | exact iff the parties are equal; conflict iff both present and different, with no `require_party` escape; a missing party against a suggested one is partial |
| Scenarios.PreviousAndFollowingTerm | spec/membership_comparison_spec.rb:59-99 | a statement on another term with the same party and district is in no state |
| Scenarios.ExactMatch | spec/membership_comparison_spec.rb:101-113 | the same term, party and district give `:exact` |
| Scenarios.PartialMatch | spec/membership_comparison_spec.rb:147-159 | a statement with only the term is `:partial` |
| Scenarios.PartyConflict | spec/membership_comparison_spec.rb:161-173 | a different party is `:conflict` when the party is required and `:partial` with the entry point's empty options |
| Scenarios.DistrictConflict | spec/membership_comparison_spec.rb:73-187 | a different district is `:conflict`, on the same term and also on the previous one |
| Scenarios.DifferentPosition | spec/membership_comparison_spec.rb:189-201 | a statement on a different position is in no state |
| Scenarios.WithoutSuggestedParty | spec/membership_comparison_spec.rb:203-215 | with the party not required, a suggested `{id: nil}` party gives `:exact` |
| Scenarios.BaseStatements | spec/membership_comparison_spec.rb:43-57 | a position-only statement is `:partial`; one with `{id: nil}` fields is `:conflict` |
| Scenarios.DatedWithinAndBetweenTerms | spec/membership_comparison_spec.rb:217-249 | open statements that start at or before the open term's start are `:partial` |
| Scenarios.SpanningTerms | spec/membership_comparison_spec.rb:251-267 | a closed statement spanning the open term's start is `:conflict` |
| Scenarios.OutsideTerm | spec/membership_comparison_spec.rb:269-323 | statements before or after a closed term are in no state |
| Scenarios.CoveringTerm | spec/membership_comparison_spec.rb:346-367 | a statement covering exactly the closed term is `:partial` |
| Scenarios.ReturnsWithinTerm | spec/membership_comparison_spec.rb:369-386 | a statement that closed before the suggestion's start is in no state |
| Scenarios.PreviousStillOpen | spec/membership_comparison_spec.rb:388-404 | an open statement from the term's start, against a later suggested start, is `:conflict` |
| StatementComparison.StateAsWritten | lib/membership_comparison/statement_comparison.rb:15-22 | as written: nil on a different position, otherwise the NameError of the party comparator's `exact?` |
| PartyComparison.VerdictsAsWritten | lib/membership_comparison/party_comparison.rb:9-19 | as written, every party verdict raises NameError on the undefined `options` |
| StatementComparison.AsWrittenRaisesOnSamePosition | lib/membership_comparison/party_comparison.rb:9-11 | as written, every statement on the suggested position makes `state` raise NameError, because the party comparator reads an undefined `options` |
| MembershipComparison.AsWrittenAlwaysRaises | lib/membership_comparison.rb:44-49 | as written, any non-empty `existing` makes the classification raise ArgumentError on the unknown `options:` keyword |
| Scenarios.EntryAsWrittenRaises | lib/membership_comparison.rb:43-51 | the exact-match case of spec/membership_comparison_spec.rb:101-113 raises as written, and gives `["abc"]` as the exact bucket once corrected |
| Scenarios.PartyAsWrittenRaises | lib/membership_comparison/party_comparison.rb:9-19 | the same statement raises NameError in `state` as written, and is `:exact` once `require_party` is an explicit off |
| Scenarios.PositionAsWrittenRaises | lib/membership_comparison/position_comparison.rb:59-65 | the exact match of spec/membership_comparison_spec.rb:101-113 raises ArgumentError in the position comparison as written, and is `:exact` once corrected |
| Scenarios.NoExisting | spec/membership_comparison_spec.rb:33-41 | with no statements every bucket is empty |
| Scenarios.SurroundingAndIncludingTerms | spec/membership_comparison_spec.rb:325-344 | of three statements on consecutive terms only the suggested term's id is exact, and the other buckets are empty |

## Findings

| source | as written | input that shows it | evidently intended | confidence | as-written member | corrected member |
|---|---|---|---|---|---|---|
| lib/membership_comparison.rb:45-49 | `comparisons` passes `options:` to `StatementComparison.new`, whose constructor (lib/membership_comparison/statement_comparison.rb:10) declares only `statement:` and `suggestion:`, so Ruby raises ArgumentError | any `existing` with one statement, e.g. the exact match of spec/membership_comparison_spec.rb:101-113 | the options hash reaches the comparators and each statement is classified | high, not executed | MembershipComparison.ClassifiedAsWritten, MembershipComparison.AsWrittenAlwaysRaises, Scenarios.EntryAsWrittenRaises | MembershipComparison.Classified |
| lib/membership_comparison/party_comparison.rb:9-19 | `exact?`, `conflict` and `partial?` read `options`, which no class defines, so the first `exact?` in `state` raises NameError | any statement on the suggested position, e.g. the same exact match | `options` is the comparison's options hash, `require_party` off by default | high, not executed | PartyComparison.VerdictsAsWritten, StatementComparison.AsWrittenRaisesOnSamePosition, Scenarios.PartyAsWrittenRaises | PartyComparison.Verdicts |
| lib/membership_comparison/position_comparison.rb:59-65 | `statement_comparison` also passes `options:` to `StatementComparison.new`, so every matched statement that is not bare raises ArgumentError | the same exact match, compared through the position comparison | the options hash reaches the comparators, as in the first row | high, not executed | PositionComparison.StateAsWritten, PositionComparison.AsWrittenRaisesUnlessBare, Scenarios.PositionAsWrittenRaises | PositionComparison.State |

The rest of the model uses the corrected members. `requireParty` is an explicit parameter, and the entry point's empty options hash sets it to `false`.

## Left out

- membership-comparison.rb: a placeholder whose accessors always return `[]`, plus a test script. It has no logic to model.
- The test files (spec/, test/) are not modelled. They serve only as scenarios, and the Scenarios lemmas restate some of their cases.
- Reasons and rules that only the tests describe are not modelled: disambiguation conflicts, `"spanning terms"` and `"previous term still open"` messages, the eopt-based conflict (spec/membership_comparison_spec.rb:406-421), and an exact result despite differing starts (:423-440). No code produces them.
- `StatementComparison#conflicts` and `#field_states` do not exist in the source. `MembershipComparison.Problems`, `PositionComparison.Conflicts` and `PositionComparison.FieldStates` take their results as inputs, and only the keys and shape around them are proved.
- Memoisation (`@classified`, `@comparisons`, `@statement_comparison`) is replaced by recomputation. The memoised accessors, `MembershipComparison.Comparisons` and `MembershipComparison.Classified`, have their results, including the error raised, fully fixed by their contracts, so repeated calls agree. `@statement_comparison` caches the wrapped comparison object, which the model rebuilds. Its `state`, `StatementComparison.State`, has a partial contract: its result is fixed by its body, which StateIsAggregate, StateRaises and EarlyConflictWins characterise.
- Ruby metaprogramming (`attr_writer :field`, `alias_method`, `alias a/b`) is replaced by an explicit key parameter. The generated `statement_<field>` accessors are not modelled.
- Hash shape: a key holding `nil` counts the same as an absent key. `bare?` would raise on such a nil (`nil.empty?`), and the model does not capture that. A term attribute holding `nil` also counts as absent, so a `{id: nil}` term is empty for `bare?` and equal to `{}`. Keys other than the seven statement fields are not modelled.
- Date strings are not parsed or validated. A date is an integer with the same order.
- The suggestion's own end date and `suggestion_open?` / `suggestion_closed?` are modelled but used by no decision, as in the source.
- MembershipComparison.Problems: requires distinct ids, which a Ruby hash guarantees, instead of modelling a duplicate key overwriting an earlier one.
- MembershipComparison.BucketsDisjoint: requires distinct ids for the same reason.
- MembershipComparison.NilStateInNoBucket: requires distinct ids for the same reason; with a repeated id, another statement under that id could put it in a bucket.
