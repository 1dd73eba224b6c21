/** `MembershipComparison`: compares every existing statement with the suggestion and
    buckets the statement ids by state. `existing` is a Ruby hash; a sequence of
    (id, statement) pairs keeps its insertion order. */
module MembershipComparison {
  import opened Wrappers
  import opened Values
  import StatementComparison

  type Id = string

  /** The keys of a Ruby hash are distinct. */
  predicate UniqueIds<T>(entries: seq<(Id, T)>) {
    forall i, j :: 0 <= i < j < |entries| ==> entries[i].0 != entries[j].0
  }

  function IdsOf<T>(entries: seq<(Id, T)>): set<Id> {
    set k | 0 <= k < |entries| :: entries[k].0
  }

  /** A `StatementComparison` object: what it was constructed with. The source's entry
      point passes an empty options hash (lines 53-56), which reads as `requireParty == false`. */
  datatype Comparison = Comparison(statement: Statement, suggestion: Suggestion, requireParty: bool)

  function StateOf(c: Comparison): Result<Option<State>> {
    StatementComparison.State(c.requireParty, c.statement, c.suggestion)
  }

  /** What `comparison.state` gives for each existing statement, under its id and in order. */
  function Outcomes(existing: seq<(Id, Statement)>, sg: Suggestion, requireParty: bool)
    : (r: seq<(Id, Result<Option<State>>)>)
    ensures |r| == |existing|
    ensures UniqueIds(existing) ==> UniqueIds(r)
    ensures forall k :: 0 <= k < |r| ==> r[k].1 != Ok(Some(Ignore))
    ensures forall k :: 0 <= k < |r| && r[k].1.Err? ==> r[k].1.error == AbsentDateCompared
  {
    seq(|existing|, k requires 0 <= k < |existing| =>
      (existing[k].0, StatementComparison.State(requireParty, existing[k].1, sg)))
  }

  /** The ids, in order, whose outcome is the state `s`. */
  function Bucket(outcomes: seq<(Id, Result<Option<State>>)>, s: State): seq<Id> {
    if outcomes == [] then []
    else
      var n := |outcomes| - 1;
      Bucket(outcomes[..n], s) + (if outcomes[n].1 == Ok(Some(s)) then [outcomes[n].0] else [])
  }

  /** The indexes, in order, whose outcome is the state `s`. */
  function Positions(outcomes: seq<(Id, Result<Option<State>>)>, s: State): seq<nat> {
    if outcomes == [] then []
    else
      var n := |outcomes| - 1;
      Positions(outcomes[..n], s) + (if outcomes[n].1 == Ok(Some(s)) then [n] else [])
  }

  /** `hash.fetch(state, [])`. */
  function Fetch(classified: map<State, seq<Id>>, s: State): seq<Id> {
    if s in classified then classified[s] else []
  }

  /** `comparisons`: one StatementComparison per existing statement, under the same id. */
  method Comparisons(existing: seq<(Id, Statement)>, sg: Suggestion, requireParty: bool)
    returns (comparisons: seq<(Id, Comparison)>)
    ensures |comparisons| == |existing|
    ensures forall k :: 0 <= k < |existing| ==>
              comparisons[k] == (existing[k].0, Comparison(existing[k].1, sg, requireParty))
  {
    comparisons := [];
    var i := 0;
    while i < |existing|
      invariant 0 <= i <= |existing| && |comparisons| == i
      invariant forall k :: 0 <= k < i ==>
                  comparisons[k] == (existing[k].0, Comparison(existing[k].1, sg, requireParty))
    {
      comparisons := comparisons + [(existing[i].0, Comparison(existing[i].1, sg, requireParty))];
      i := i + 1;
    }
  }

  /** The answers of `state` for a list of comparisons, under their ids and in order. */
  function Answers(comparisons: seq<(Id, Comparison)>, stateOf: Comparison -> Result<Option<State>>)
    : (r: seq<(Id, Result<Option<State>>)>)
    ensures |r| == |comparisons|
  {
    seq(|comparisons|, k requires 0 <= k < |comparisons| => (comparisons[k].0, stateOf(comparisons[k].1)))
  }

  /** The loop of `classified`: each id is appended, in order, under the state its comparison
      answers; a nil answer is skipped and the first raise ends the loop. `stateOf` is
      `comparison.state`. */
  method Group(comparisons: seq<(Id, Comparison)>, stateOf: Comparison -> Result<Option<State>>)
    returns (r: Result<map<State, seq<Id>>>)
    ensures r.Err? <==> exists k :: 0 <= k < |comparisons| && Answers(comparisons, stateOf)[k].1.Err?
    ensures r.Err? ==> exists k :: 0 <= k < |comparisons| && Answers(comparisons, stateOf)[k].1 == Err(r.error) &&
                                   forall j :: 0 <= j < k ==> Answers(comparisons, stateOf)[j].1.Ok?
    ensures r.Ok? ==> forall s :: s in r.value <==> Bucket(Answers(comparisons, stateOf), s) != []
    ensures r.Ok? ==> forall s :: Fetch(r.value, s) == Bucket(Answers(comparisons, stateOf), s)
  {
    ghost var outcomes := Answers(comparisons, stateOf);
    var memo: map<State, seq<Id>> := map[];
    var i := 0;
    while i < |comparisons|
      invariant 0 <= i <= |comparisons|
      invariant forall k :: 0 <= k < i ==> outcomes[k].1.Ok?
      invariant Tracks(memo, outcomes, i)
    {
      var (id, comparison) := comparisons[i];
      var state := stateOf(comparison);
      assert outcomes[i] == (id, state);
      if state.Err? {
        return Err(state.error);
      }
      TracksStep(memo, outcomes, i);
      if state.value.Some? {
        var s := state.value.value;
        memo := memo[s := Fetch(memo, s) + [id]];
      }
      i := i + 1;
    }
    assert outcomes[..i] == outcomes;
    r := Ok(memo);
  }

  /** `classified`: a hash from each state some statement reached to the ids, in order, of
      the statements in that state. It raises as soon as one comparison raises. */
  method Classified(existing: seq<(Id, Statement)>, sg: Suggestion, requireParty: bool)
    returns (r: Result<map<State, seq<Id>>>)
    ensures r.Err? <==> exists k :: 0 <= k < |existing| && Outcomes(existing, sg, requireParty)[k].1.Err?
    ensures r.Err? ==> r.error == AbsentDateCompared
    ensures r.Ok? ==> forall s :: s in r.value <==> Bucket(Outcomes(existing, sg, requireParty), s) != []
    ensures r.Ok? ==> forall s :: Fetch(r.value, s) == Bucket(Outcomes(existing, sg, requireParty), s)
    ensures r.Ok? ==> Ignore !in r.value
    ensures existing == [] ==> r == Ok(map[])
  {
    var comparisons := Comparisons(existing, sg, requireParty);
    r := Group(comparisons, StateOf);
    ghost var outcomes := Outcomes(existing, sg, requireParty);
    assert Answers(comparisons, StateOf) == outcomes;
    NoIgnoreBucket(outcomes);
  }

  /** `exact_matches`. */
  method ExactMatches(existing: seq<(Id, Statement)>, sg: Suggestion, requireParty: bool) returns (r: Result<seq<Id>>)
    ensures r.Err? <==> exists k :: 0 <= k < |existing| && Outcomes(existing, sg, requireParty)[k].1.Err?
    ensures r.Err? ==> r.error == AbsentDateCompared
    ensures r.Ok? ==> r.value == Bucket(Outcomes(existing, sg, requireParty), Exact)
  {
    var classified := Classified(existing, sg, requireParty);
    r := if classified.Ok? then Ok(Fetch(classified.value, Exact)) else Err(classified.error);
  }

  /** `partial_matches`. */
  method PartialMatches(existing: seq<(Id, Statement)>, sg: Suggestion, requireParty: bool) returns (r: Result<seq<Id>>)
    ensures r.Err? <==> exists k :: 0 <= k < |existing| && Outcomes(existing, sg, requireParty)[k].1.Err?
    ensures r.Err? ==> r.error == AbsentDateCompared
    ensures r.Ok? ==> r.value == Bucket(Outcomes(existing, sg, requireParty), Partial)
  {
    var classified := Classified(existing, sg, requireParty);
    r := if classified.Ok? then Ok(Fetch(classified.value, Partial)) else Err(classified.error);
  }

  /** `conflicts`. */
  method Conflicts(existing: seq<(Id, Statement)>, sg: Suggestion, requireParty: bool) returns (r: Result<seq<Id>>)
    ensures r.Err? <==> exists k :: 0 <= k < |existing| && Outcomes(existing, sg, requireParty)[k].1.Err?
    ensures r.Err? ==> r.error == AbsentDateCompared
    ensures r.Ok? ==> r.value == Bucket(Outcomes(existing, sg, requireParty), Conflict)
  {
    var classified := Classified(existing, sg, requireParty);
    r := if classified.Ok? then Ok(Fetch(classified.value, Conflict)) else Err(classified.error);
  }

  /** `problems`: one entry per id of `existing`, holding that comparison's `conflicts`.
      `StatementComparison#conflicts` does not exist in the source, so `conflictsOf`
      stands for whatever it returns. */
  method Problems(existing: seq<(Id, Statement)>, sg: Suggestion, requireParty: bool,
                  conflictsOf: Comparison -> seq<string>)
    returns (problems: map<Id, seq<string>>)
    requires UniqueIds(existing)
    ensures problems.Keys == IdsOf(existing)
    ensures forall k :: 0 <= k < |existing| ==>
              problems[existing[k].0] == conflictsOf(Comparison(existing[k].1, sg, requireParty))
    ensures existing == [] ==> problems == map[]
  {
    var comparisons := Comparisons(existing, sg, requireParty);
    problems := map[];
    var i := 0;
    while i < |comparisons|
      invariant 0 <= i <= |existing|
      invariant problems.Keys == IdsOf(existing[..i])
      invariant forall k :: 0 <= k < i ==>
                  problems[existing[k].0] == conflictsOf(Comparison(existing[k].1, sg, requireParty))
    {
      var (id, comparison) := comparisons[i];
      assert IdsOf(existing[..i + 1]) == IdsOf(existing[..i]) + {id} by {
        assert forall k :: 0 <= k < i ==> existing[..i + 1][k] == existing[..i][k];
      }
      problems := problems[id := conflictsOf(comparison)];
      i := i + 1;
    }
    assert existing[..i] == existing;
  }

  /** Extending the prefix by one outcome appends its id to its own state's bucket. */
  lemma BucketStep(outcomes: seq<(Id, Result<Option<State>>)>, i: nat)
    requires i < |outcomes|
    ensures forall s :: (Bucket(outcomes[..i + 1], s) ==
                         Bucket(outcomes[..i], s) + if outcomes[i].1 == Ok(Some(s)) then [outcomes[i].0] else [])
  {
    assert outcomes[..i + 1][..i] == outcomes[..i];
  }

  /** `memo` holds, for every state, the bucket of the first `i` outcomes and no other key. */
  ghost predicate Tracks(memo: map<State, seq<Id>>, outcomes: seq<(Id, Result<Option<State>>)>, i: nat)
    requires i <= |outcomes|
  {
    forall s :: (s in memo <==> Bucket(outcomes[..i], s) != []) && Fetch(memo, s) == Bucket(outcomes[..i], s)
  }

  /** One iteration of `classified`: appending the next id under its state, when it has one,
      keeps `memo` in step with the buckets. */
  lemma TracksStep(memo: map<State, seq<Id>>, outcomes: seq<(Id, Result<Option<State>>)>, i: nat)
    requires i < |outcomes| && Tracks(memo, outcomes, i) && outcomes[i].1.Ok?
    ensures var state := outcomes[i].1.value;
      Tracks(if state.Some? then memo[state.value := Fetch(memo, state.value) + [outcomes[i].0]] else memo,
             outcomes, i + 1)
  {
    BucketStep(outcomes, i);
  }

  /** When no outcome is `:ignore`, nothing is bucketed under it. */
  lemma {:induction false} NoIgnoreBucket(outcomes: seq<(Id, Result<Option<State>>)>)
    requires forall k :: 0 <= k < |outcomes| ==> outcomes[k].1 != Ok(Some(Ignore))
    ensures Bucket(outcomes, Ignore) == []
  {
    if outcomes != [] {
      var n := |outcomes| - 1;
      assert forall k :: 0 <= k < n ==> outcomes[..n][k] == outcomes[k];
      NoIgnoreBucket(outcomes[..n]);
    }
  }

  /** An id is in the bucket for `s` iff some outcome under that id is `s`. */
  lemma {:induction false} BucketMembership(outcomes: seq<(Id, Result<Option<State>>)>, s: State, id: Id)
    ensures id in Bucket(outcomes, s) <==> exists k :: 0 <= k < |outcomes| && outcomes[k] == (id, Ok(Some(s)))
  {
    if outcomes != [] {
      var n := |outcomes| - 1;
      var front := outcomes[..n];
      BucketMembership(front, s, id);
      assert forall k :: 0 <= k < n ==> front[k] == outcomes[k];
    }
  }

  /** With distinct ids, the buckets are pairwise disjoint: an id is appended only under its
      own statement's single state. */
  lemma BucketsDisjoint(outcomes: seq<(Id, Result<Option<State>>)>, s1: State, s2: State, id: Id)
    requires UniqueIds(outcomes) && s1 != s2
    ensures !(id in Bucket(outcomes, s1) && id in Bucket(outcomes, s2))
  {
    BucketMembership(outcomes, s1, id);
    BucketMembership(outcomes, s2, id);
  }

  /** An id whose state is nil (for example a statement on a different position) is in no
      bucket. */
  lemma NilStateInNoBucket(outcomes: seq<(Id, Result<Option<State>>)>, k: nat, s: State)
    requires UniqueIds(outcomes) && k < |outcomes| && outcomes[k].1 == Ok(None)
    ensures outcomes[k].0 !in Bucket(outcomes, s)
  {
    BucketMembership(outcomes, s, outcomes[k].0);
  }

  /** Ids inside a bucket keep the order of `existing`: the bucket is read off a strictly
      increasing list of indexes, which holds exactly the indexes whose outcome is `s`. */
  lemma {:induction false} BucketKeepsOrder(outcomes: seq<(Id, Result<Option<State>>)>, s: State)
    ensures var b, p := Bucket(outcomes, s), Positions(outcomes, s);
      && |p| == |b|
      && (forall j :: 0 <= j < |p| ==> p[j] < |outcomes| && b[j] == outcomes[p[j]].0)
      && (forall j, j' :: 0 <= j < j' < |p| ==> p[j] < p[j'])
      && (forall k :: 0 <= k < |outcomes| ==> (k in p <==> outcomes[k].1 == Ok(Some(s))))
  {
    if outcomes != [] {
      var n := |outcomes| - 1;
      var front := outcomes[..n];
      BucketKeepsOrder(front, s);
      var b, p := Bucket(outcomes, s), Positions(outcomes, s);
      var b0, p0 := Bucket(front, s), Positions(front, s);
      assert forall k :: 0 <= k < n ==> front[k] == outcomes[k];
      forall j | 0 <= j < |p|
        ensures p[j] < |outcomes| && b[j] == outcomes[p[j]].0
      {
        if j < |p0| {
          assert p[j] == p0[j] && b[j] == b0[j];
        }
      }
    }
  }

  /** Statements that are all in no state leave every bucket empty. */
  lemma {:induction false} NilBuckets(outcomes: seq<(Id, Result<Option<State>>)>, s: State)
    requires forall k :: 0 <= k < |outcomes| ==> outcomes[k].1 == Ok(None)
    ensures Bucket(outcomes, s) == []
  {
    if outcomes != [] {
      var n := |outcomes| - 1;
      assert forall k :: 0 <= k < n ==> outcomes[..n][k] == outcomes[k];
      NilBuckets(outcomes[..n], s);
    }
  }

  /** When exactly one statement is in a state and every other one is in none, that state's
      bucket holds its id alone and every other bucket is empty. */
  lemma {:induction false} SoleMatch(outcomes: seq<(Id, Result<Option<State>>)>, k: nat, t: State, s: State)
    requires k < |outcomes| && outcomes[k].1 == Ok(Some(t))
    requires forall j :: 0 <= j < |outcomes| && j != k ==> outcomes[j].1 == Ok(None)
    ensures Bucket(outcomes, s) == if s == t then [outcomes[k].0] else []
  {
    var n := |outcomes| - 1;
    var front := outcomes[..n];
    assert forall j :: 0 <= j < n ==> front[j] == outcomes[j];
    if k == n {
      NilBuckets(front, s);
    } else {
      SoleMatch(front, k, t, s);
    }
  }

  /** `classified` as written: `comparisons` passes `options:` to
      `StatementComparison.new`, whose constructor declares only `statement:` and
      `suggestion:`, so the first existing statement raises ArgumentError. */
  function ClassifiedAsWritten(existing: seq<(Id, Statement)>, sg: Suggestion): Result<map<State, seq<Id>>> {
    if existing == [] then Ok(map[]) else Err(UnknownKeyword)
  }

  /** As written, every call with at least one existing statement raises, whatever the
      statement and the suggestion are. */
  lemma AsWrittenAlwaysRaises(existing: seq<(Id, Statement)>, sg: Suggestion)
    requires existing != []
    ensures ClassifiedAsWritten(existing, sg) == Err(UnknownKeyword)
  {
  }
}
