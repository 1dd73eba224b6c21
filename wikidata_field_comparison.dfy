/** `Wikidata::FieldComparison`, the older comparator: the two field values are read once,
    when the comparator is built, and the predicates only look at those captured values. */
module WikidataFieldComparison {
  import opened Wrappers
  import opened Values

  /** A built comparator: its inputs and the captured `a` (statement) and `b` (suggestion). */
  datatype Comparison = Comparison(statement: Statement, suggestion: Suggestion,
                                   a: Option<Value>, b: Option<Value>)

  /** `initialize`: reads `self.class.field`, raising NotImplementedError when no field is
      configured, and captures `statement[field]` and `suggestion[field]`. */
  function New(field: Option<Key>, st: Statement, sg: Suggestion): (r: Result<Comparison>)
    ensures r.Err? <==> field.None?
    ensures r.Err? ==> r.error == NotImplemented
    ensures r.Ok? ==> r.value.statement == st && r.value.suggestion == sg
    ensures r.Ok? ==> r.value.a == StatementValue(st, field.value) && r.value.b == SuggestionValue(sg, field.value)
  {
    match field
    case None => Err(NotImplemented)
    case Some(k) => Ok(Comparison(st, sg, StatementValue(st, k), SuggestionValue(sg, k)))
  }

  predicate Exact(c: Comparison) { c.a == c.b }

  /** `conflict?`: both captured values present and different; never together with exact. */
  predicate Conflict(c: Comparison)
    ensures Conflict(c) ==> !Exact(c)
  {
    c.a.Some? && c.b.Some? && c.a != c.b
  }

  /** `partial?`: neither exact nor conflict, which means exactly one side is absent. */
  predicate Partial(c: Comparison)
    ensures Partial(c) <==> c.a.None? != c.b.None?
  {
    !Exact(c) && !Conflict(c)
  }

  /** The three predicates are mutually exclusive and exhaustive; partial means exactly one
      side is absent. */
  lemma ExactlyOne(c: Comparison)
    ensures Exact(c) || Conflict(c) || Partial(c)
    ensures !(Exact(c) && Conflict(c)) && !(Exact(c) && Partial(c)) && !(Conflict(c) && Partial(c))
    ensures Partial(c) <==> c.a.None? != c.b.None?
  {
  }

  /** Documents the shape of the captured values: the answers read only `a` and `b`, so
      replacing the stored statement and suggestion changes none of them. */
  lemma CapturedValuesDecide(c: Comparison, st: Statement, sg: Suggestion)
    ensures var c' := c.(statement := st, suggestion := sg);
      Exact(c') == Exact(c) && Conflict(c') == Conflict(c) && Partial(c') == Partial(c)
  {
  }
}
