/** The data a membership comparison reads: statements, suggestions and their fields. */
module Values {
  import opened Wrappers

  /** A full date `YYYY-MM-DD` (section 5.6 of RFC 3339). Such strings compare
      chronologically with `<` and `<=` (section 5.1 of RFC 3339), so an int stands for one. */
  type Date = int

  /** An identity reference such as `{id: 'Q15964890'}`: a hash of attributes compared
      as a whole. `{id: nil}` is a present, non-empty value. */
  datatype Entity = Entity(attributes: map<string, Option<string>>)

  /** A term hash `{id:, start:, end:, eopt:, sont:}`; eopt is the end of the previous
      term and sont the start of the next one. */
  datatype Term = Term(id: Option<string>, start: Option<Date>, end: Option<Date>,
                       eopt: Option<Date>, sont: Option<Date>)

  /** An existing statement (a hash keyed by field symbol). */
  datatype Statement = Statement(position: Option<Entity>, term: Option<Term>,
                                 start: Option<Date>, end: Option<Date>,
                                 party: Option<Entity>, district: Option<Entity>,
                                 person: Option<Entity>)

  /** The suggested membership; it also carries the parent (superclass) position. */
  datatype Suggestion = Suggestion(position: Option<Entity>, positionParent: Option<Entity>,
                                   term: Option<Term>, start: Option<Date>, end: Option<Date>,
                                   party: Option<Entity>, district: Option<Entity>,
                                   person: Option<Entity>)

  /** The hash keys a field comparator can be configured with. */
  datatype Key = PositionKey | TermKey | StartKey | EndKey | PartyKey | DistrictKey | PersonKey

  /** The value stored under a key. */
  datatype Value = EntityValue(entity: Entity) | TermValue(term: Term) | DateValue(date: Date)

  /** The classification of one statement against the suggestion. */
  datatype State = Exact | Partial | Conflict | Ignore

  /** The key as Ruby prints the symbol, used in `"<field> conflict"`. */
  function KeyName(k: Key): string {
    match k
    case PositionKey => "position"
    case TermKey => "term"
    case StartKey => "start"
    case EndKey => "end"
    case PartyKey => "party"
    case DistrictKey => "district"
    case PersonKey => "person"
  }

  function EntityOf(e: Option<Entity>): Option<Value> {
    match e
    case None => None
    case Some(x) => Some(EntityValue(x))
  }

  function TermOf(t: Option<Term>): Option<Value> {
    match t
    case None => None
    case Some(x) => Some(TermValue(x))
  }

  function DateOf(d: Option<Date>): Option<Value> {
    match d
    case None => None
    case Some(x) => Some(DateValue(x))
  }

  /** `statement[key]`. */
  function StatementValue(st: Statement, k: Key): Option<Value> {
    match k
    case PositionKey => EntityOf(st.position)
    case TermKey => TermOf(st.term)
    case StartKey => DateOf(st.start)
    case EndKey => DateOf(st.end)
    case PartyKey => EntityOf(st.party)
    case DistrictKey => EntityOf(st.district)
    case PersonKey => EntityOf(st.person)
  }

  /** `suggestion[key]`. */
  function SuggestionValue(sg: Suggestion, k: Key): Option<Value> {
    match k
    case PositionKey => EntityOf(sg.position)
    case TermKey => TermOf(sg.term)
    case StartKey => DateOf(sg.start)
    case EndKey => DateOf(sg.end)
    case PartyKey => EntityOf(sg.party)
    case DistrictKey => EntityOf(sg.district)
    case PersonKey => EntityOf(sg.person)
  }

  /** Ruby's `value.empty?` on a present field value. A date string is never empty. */
  predicate IsEmpty(v: Value) {
    match v
    case EntityValue(e) => e.attributes == map[]
    case TermValue(t) => t.id.None? && t.start.None? && t.end.None? && t.eopt.None? && t.sont.None?
    case DateValue(_) => false
  }

  /** The dates the date predicates read: `statement[:start]`, `statement[:end]`,
      `suggestion.dig(:term, …)`, `suggestion[:start]` and `suggestion[:end]`. */
  datatype Window = Window(statementStart: Option<Date>, statementEnd: Option<Date>,
                           termStart: Option<Date>, termEnd: Option<Date>,
                           eopt: Option<Date>, sont: Option<Date>,
                           suggestionStart: Option<Date>, suggestionEnd: Option<Date>)

  function WindowOf(st: Statement, sg: Suggestion): (w: Window)
    ensures w.statementStart == st.start && w.statementEnd == st.end
    ensures w.suggestionStart == sg.start && w.suggestionEnd == sg.end
    ensures sg.term.None? ==> w.termStart.None? && w.termEnd.None? && w.eopt.None? && w.sont.None?
    ensures sg.term.Some? ==> w.termStart == sg.term.value.start && w.termEnd == sg.term.value.end
                              && w.eopt == sg.term.value.eopt && w.sont == sg.term.value.sont
  {
    match sg.term
    case None => Window(st.start, st.end, None, None, None, None, sg.start, sg.end)
    case Some(t) => Window(st.start, st.end, t.start, t.end, t.eopt, t.sont, sg.start, sg.end)
  }
}
