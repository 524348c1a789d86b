/**
 * The task record and the three request models declared next to it, with
 * their defaults and length bounds. Lengths count characters, as pydantic
 * does. The request models are validated when built; the table model is not
 * (a table model skips validation), so its bounds are a predicate here.
 */
module TaskModel {
  import opened Wrappers

  const TITLE_MAX: int := 255
  const DESCRIPTION_MAX: int := 1000
  const USER_ID_MAX: int := 255

  /** A row of the `tasks` table; times are clock readings. */
  datatype Task = Task(
    id: string,
    title: string,
    description: Option<string>,
    completed: bool,
    userId: string,
    createdAt: int,
    updatedAt: int)

  predicate TitleInBounds(title: string) {
    1 <= |title| <= TITLE_MAX
  }

  predicate DescriptionInBounds(description: Option<string>) {
    description.None? || |description.value| <= DESCRIPTION_MAX
  }

  predicate UserIdInBounds(userId: string) {
    |userId| <= USER_ID_MAX
  }

  /** The declared bounds of `Task`: title 1..255, description up to 1000 when present, user id up to 255. */
  predicate InBounds(t: Task) {
    TitleInBounds(t.title) && DescriptionInBounds(t.description) && UserIdInBounds(t.userId)
  }

  /**
   * The `tasks` columns' widths: `max_length` becomes VARCHAR(255) for the
   * title and the user id and VARCHAR(1000) for the description. `min_length`
   * is not a column constraint, so an empty title fits.
   */
  predicate FitsColumns(t: Task) {
    |t.title| <= TITLE_MAX && DescriptionInBounds(t.description) && UserIdInBounds(t.userId)
  }

  /** Nothing but the space character (PostgreSQL cuts only U+0020 off an over-long value). */
  predicate AllSpaces(s: string) {
    forall i :: 0 <= i < |s| ==> s[i] == ' '
  }

  /**
   * Assigning s to a VARCHAR(n) column, as PostgreSQL's character types
   * behave: a value of at most n characters is stored as it is, a longer one
   * whose excess is all spaces is cut to n characters, and any other longer
   * one is an error (None).
   */
  function Varchar(s: string, n: nat): (r: Option<string>)
    ensures r.Some? <==> |s| <= n || AllSpaces(s[n..])
    ensures |s| <= n ==> r == Some(s)
    ensures r.Some? ==> |r.value| <= |s| && r.value == s[..|r.value|] && AllSpaces(s[|r.value|..])
    ensures r.Some? && |s| > n ==> |r.value| == n
  {
    if |s| <= n then Some(s)
    else if AllSpaces(s[n..]) then Some(s[..n])
    else None
  }

  /** A value that fits n characters followed by any run of spaces is stored as that value. */
  lemma {:induction false} SpacePaddingCut(s: string, pad: string, n: nat)
    requires |s| == n && AllSpaces(pad)
    ensures Varchar(s + pad, n) == Some(s)
  {
    assert (s + pad)[n..] == pad;
    assert (s + pad)[..n] == s;
  }

  /** A nullable VARCHAR(n) column: NULL stays NULL, a string is assigned as above. */
  function VarcharOption(d: Option<string>, n: nat): (r: Option<Option<string>>)
    ensures r.Some? <==> d.None? || Varchar(d.value, n).Some?
    ensures r.Some? ==> (r.value.Some? <==> d.Some?)
    ensures r.Some? && d.Some? ==> r.value.value == Varchar(d.value, n).value
  {
    match d
    case None => Some(None)
    case Some(s) =>
      match Varchar(s, n)
      case None => None
      case Some(v) => Some(Some(v))
  }

  /**
   * The row an INSERT of t leaves: every bounded column assigned through its
   * VARCHAR width, or None when one of them refuses its value. A stored row
   * fits its columns, and a row that already fits is stored unchanged.
   */
  function StoredRow(t: Task): (r: Option<Task>)
    ensures r.Some? <==> && Varchar(t.title, TITLE_MAX).Some?
                         && VarcharOption(t.description, DESCRIPTION_MAX).Some?
                         && Varchar(t.userId, USER_ID_MAX).Some?
    ensures r.Some? ==> && r.value.title == Varchar(t.title, TITLE_MAX).value
                        && r.value.description == VarcharOption(t.description, DESCRIPTION_MAX).value
                        && r.value.userId == Varchar(t.userId, USER_ID_MAX).value
    ensures r.Some? ==> && r.value.id == t.id && r.value.completed == t.completed
                        && r.value.createdAt == t.createdAt && r.value.updatedAt == t.updatedAt
    ensures r.Some? ==> FitsColumns(r.value)
    ensures FitsColumns(t) ==> r == Some(t)
  {
    var title := Varchar(t.title, TITLE_MAX);
    var description := VarcharOption(t.description, DESCRIPTION_MAX);
    var userId := Varchar(t.userId, USER_ID_MAX);
    if title.Some? && description.Some? && userId.Some? then
      Some(t.(title := title.value, description := description.value, userId := userId.value))
    else
      None
  }

  /**
   * A new `Task` with its defaults: the id comes from the id factory (a
   * parameter here), `completed` is false and both timestamps are `now`.
   */
  function NewTask(id: string, title: string, description: Option<string>, userId: string, now: int): (t: Task)
    ensures t.id == id && t.userId == userId && t.title == title && t.description == description
    ensures !t.completed && t.createdAt == now && t.updatedAt == now
    ensures InBounds(t) <==> TitleInBounds(title) && DescriptionInBounds(description) && UserIdInBounds(userId)
    ensures FitsColumns(t) <==> |title| <= TITLE_MAX && DescriptionInBounds(description) && UserIdInBounds(userId)
  {
    Task(id, title, description, false, userId, now, now)
  }

  /** A pydantic validation failure (HTTP 422), naming the offending field. */
  datatype ValidationError = ValidationError(field: string)

  datatype TaskCreate = TaskCreate(title: string, description: Option<string>, userId: string)

  datatype TaskUpdate = TaskUpdate(title: Option<string>, description: Option<string>, completed: Option<bool>)

  datatype TaskToggleComplete = TaskToggleComplete(completed: bool)

  /** `TaskCreate(...)`: title and user id required, every present field within its bounds. */
  function ValidateTaskCreate(title: Option<string>, description: Option<string>, userId: Option<string>)
    : (r: Result<TaskCreate, ValidationError>)
    ensures r.Ok? <==> && title.Some? && TitleInBounds(title.value)
                       && DescriptionInBounds(description)
                       && userId.Some? && UserIdInBounds(userId.value)
    ensures r.Ok? ==> r.value == TaskCreate(title.value, description, userId.value)
    ensures r.Ok? ==> InBounds(NewTask("", r.value.title, r.value.description, r.value.userId, 0))
  {
    if title.None? || !TitleInBounds(title.value) then Err(ValidationError("title"))
    else if !DescriptionInBounds(description) then Err(ValidationError("description"))
    else if userId.None? || !UserIdInBounds(userId.value) then Err(ValidationError("user_id"))
    else Ok(TaskCreate(title.value, description, userId.value))
  }

  /** `TaskUpdate(...)`: every field optional, but a title that is given must be 1..255 characters. */
  function ValidateTaskUpdate(title: Option<string>, description: Option<string>, completed: Option<bool>)
    : (r: Result<TaskUpdate, ValidationError>)
    ensures r.Ok? <==> (title.None? || TitleInBounds(title.value)) && DescriptionInBounds(description)
    ensures r.Ok? ==> r.value == TaskUpdate(title, description, completed)
  {
    if title.Some? && !TitleInBounds(title.value) then Err(ValidationError("title"))
    else if !DescriptionInBounds(description) then Err(ValidationError("description"))
    else Ok(TaskUpdate(title, description, completed))
  }

  /** `TaskToggleComplete(...)`: `completed` is required. */
  function ValidateTaskToggleComplete(completed: Option<bool>): (r: Result<TaskToggleComplete, ValidationError>)
    ensures r.Ok? <==> completed.Some?
    ensures r.Ok? ==> r.value.completed == completed.value
  {
    match completed
    case None => Err(ValidationError("completed"))
    case Some(c) => Ok(TaskToggleComplete(c))
  }
}
