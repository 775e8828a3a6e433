/**
 * The `tasks` and `users` tables of the task manager, as the migration script
 * declares them: the enumerated domains of the CHECK constraints, the row
 * shapes, and how a value supplied by a request is accepted or rejected by a
 * column's constraints.
 */
module Schema {

  datatype Option<T> = None | Some(value: T)

  /** Values allowed by the CHECK constraint on `tasks.status`. */
  datatype Status = Pending | InProgress | Completed

  /** Values allowed by the CHECK constraint on `tasks.priority`. */
  datatype Priority = Low | Medium | High

  /** Declared width of `tasks.title` (VARCHAR(200)). */
  const TitleMaxLength: nat := 200

  /** Range of the INTEGER type of `tasks.id` and of its SERIAL sequence. */
  const IntegerMin: int := -0x8000_0000
  const IntegerMax: int := 0x7fff_ffff

  /** The number is a value of type INTEGER. */
  predicate FitsInteger(n: int)
  {
    IntegerMin <= n <= IntegerMax
  }

  /** A row of `tasks`. Nullable columns are `Option`s. */
  datatype Task = Task(
    id: nat,
    title: string,
    description: Option<string>,
    status: Option<Status>,
    priority: Option<Priority>,
    ownerId: int,
    createdAt: nat,
    updatedAt: nat)

  /** The columns of a `users` row that the task handlers read. */
  datatype User = User(username: string, email: string)

  function ParseStatus(text: string): Option<Status>
  {
    if text == "pending" then Some(Pending)
    else if text == "in_progress" then Some(InProgress)
    else if text == "completed" then Some(Completed)
    else None
  }

  /** The SQL text of a status; the CHECK constraint accepts exactly these. */
  function StatusName(s: Status): (text: string)
    ensures ParseStatus(text) == Some(s)
  {
    match s
    case Pending => "pending"
    case InProgress => "in_progress"
    case Completed => "completed"
  }

  function ParsePriority(text: string): Option<Priority>
  {
    if text == "low" then Some(Low)
    else if text == "medium" then Some(Medium)
    else if text == "high" then Some(High)
    else None
  }

  /** The SQL text of a priority; the CHECK constraint accepts exactly these. */
  function PriorityName(p: Priority): (text: string)
    ensures ParsePriority(text) == Some(p)
  {
    match p
    case Low => "low"
    case Medium => "medium"
    case High => "high"
  }

  /** The text names a status the CHECK constraint allows. */
  predicate IsStatusName(text: string)
  {
    exists s :: StatusName(s) == text
  }

  /** The text names a priority the CHECK constraint allows. */
  predicate IsPriorityName(text: string)
  {
    exists p :: PriorityName(p) == text
  }

  /** Parsing accepts only the names of the domain, so it inverts the naming. */
  lemma ParseInvertsName(text: string)
    ensures ParseStatus(text).Some? ==> StatusName(ParseStatus(text).value) == text
    ensures ParsePriority(text).Some? ==> PriorityName(ParsePriority(text).value) == text
  {
  }

  /**
   * A request-body or query-string field as JavaScript sees it: `None` for
   * undefined or null, otherwise a string. Only the empty string is falsy.
   */
  predicate Truthy(v: Option<string>)
  {
    v.Some? && v.value != ""
  }

  /** JavaScript's `v || fallback` on a string field. */
  function OrElse(v: Option<string>, fallback: string): (r: string)
    ensures Truthy(v) ==> Some(r) == v
    ensures !Truthy(v) ==> r == fallback
    ensures fallback != "" ==> r != ""
  {
    if Truthy(v) then v.value else fallback
  }

  /**
   * PostgreSQL's text types cannot hold U+0000. node-postgres sends every
   * parameter as text, and a text parameter holding one is refused when the
   * statement's parameters are bound, before the statement runs.
   */
  predicate NulFree(s: string)
  {
    forall i :: 0 <= i < |s| ==> s[i] != '\0'
  }

  /** A parameter that binds: NULL, or a text without U+0000. */
  predicate Decodes(v: Option<string>)
  {
    v.Some? ==> NulFree(v.value)
  }

  /**
   * Sending `v || fallback` for a fallback without U+0000 binds exactly when
   * the field itself does: a falsy field is replaced, a truthy one is sent.
   */
  lemma OrElseDecodes(v: Option<string>, fallback: string)
    requires NulFree(fallback)
    ensures NulFree(OrElse(v, fallback)) <==> Decodes(v)
  {
    if v.Some? && !Truthy(v) {
      assert v.value == "";
    }
  }

  /** Outcome of storing a value into a constrained column. */
  datatype Checked<T> = Accepted(value: T) | Violation

  /**
   * `title VARCHAR(200) NOT NULL`: NULL is refused and so is a value longer
   * than 200 characters, unless everything past the 200th character is
   * spaces, in which case the value is cut to 200 characters. '' is stored.
   */
  function TitleColumn(v: Option<string>): (r: Checked<string>)
    ensures v.None? ==> r.Violation?
    ensures v.Some? && |v.value| <= TitleMaxLength ==> r == Accepted(v.value)
    ensures r.Accepted? ==>
              && |r.value| <= TitleMaxLength
              && r.value == v.value[..|r.value|]
              && forall i :: |r.value| <= i < |v.value| ==> v.value[i] == ' '
    ensures v.Some? ==>
              (forall i :: TitleMaxLength <= i < |v.value| ==> v.value[i] == ' ') ==> r.Accepted?
    ensures r.Accepted? && TitleMaxLength < |v.value| ==> r.value == v.value[..TitleMaxLength]
  {
    match v
    case None => Violation
    case Some(text) =>
      if |text| <= TitleMaxLength then Accepted(text)
      else if Blank(text[TitleMaxLength..]) then Accepted(text[..TitleMaxLength])
      else Violation
  }

  /** Only spaces. */
  predicate Blank(s: string)
  {
    forall i :: 0 <= i < |s| ==> s[i] == ' '
  }

  /**
   * `status ... CHECK (status IN (...))` on a value written as given: NULL
   * passes the check (it is not false), any text outside the domain fails.
   */
  function StatusColumn(v: Option<string>): (r: Checked<Option<Status>>)
    ensures v.None? ==> r == Accepted(None)
    ensures v.Some? ==> (r.Accepted? <==> IsStatusName(v.value))
    ensures v.Some? && r.Accepted? ==> r.value.Some?
    ensures r.Accepted? && r.value.Some? ==> v == Some(StatusName(r.value.value))
  {
    if v.None? then Accepted(None)
    else
      match ParseStatus(v.value)
      case Some(s) => ParseInvertsName(v.value); Accepted(Some(s))
      case None => Violation
  }

  /** `priority ... CHECK (priority IN (...))`, with the same NULL rule. */
  function PriorityColumn(v: Option<string>): (r: Checked<Option<Priority>>)
    ensures v.None? ==> r == Accepted(None)
    ensures v.Some? ==> (r.Accepted? <==> IsPriorityName(v.value))
    ensures v.Some? && r.Accepted? ==> r.value.Some?
    ensures r.Accepted? && r.value.Some? ==> v == Some(PriorityName(r.value.value))
  {
    if v.None? then Accepted(None)
    else
      match ParsePriority(v.value)
      case Some(p) => ParseInvertsName(v.value); Accepted(Some(p))
      case None => Violation
  }
}
