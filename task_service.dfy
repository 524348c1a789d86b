/**
 * The task service over the `tasks` table. The table is a map from primary
 * key to row; every operation after create is keyed by the pair (task id,
 * owner id), and a row owned by someone else is reported exactly like a
 * missing one. Commit and refresh are the identity: the model is sequential.
 */
module TaskService {
  import opened Wrappers
  import opened Http
  import opened TaskModel

  const NOT_FOUND: HttpError := HttpError(404, "Task not found")

  /**
   * A commit the database refuses: an insert whose primary key is already
   * present, a null title (the column is NOT NULL), or a value its VARCHAR
   * column refuses (see `Varchar`). The session rolls back.
   */
  const COMMIT_FAILED: HttpError := HttpError(500, "Internal Server Error")

  type Rows = map<string, Task>

  /** Every row is stored under its own id. */
  ghost predicate Keyed(rows: Rows) {
    forall k :: k in rows ==> rows[k].id == k
  }

  /** Every stored row fits its columns: the database never holds a longer value. */
  ghost predicate Fitted(rows: Rows) {
    forall k :: k in rows ==> FitsColumns(rows[k])
  }

  /** `WHERE id = task_id AND user_id = user_id` selects a row. */
  predicate Owns(rows: Rows, taskId: string, userId: string) {
    taskId in rows && rows[taskId].userId == userId
  }

  /** `get_task_by_id_and_user_id`: the row when both ids match, 404 otherwise. */
  function Lookup(rows: Rows, taskId: string, userId: string): (r: Result<Task, HttpError>)
    ensures r.Ok? <==> Owns(rows, taskId, userId)
    ensures r.Ok? ==> r.value == rows[taskId] && r.value.userId == userId
    ensures r.Err? ==> r.error == NOT_FOUND
  {
    if taskId in rows && rows[taskId].userId == userId then Ok(rows[taskId]) else Err(NOT_FOUND)
  }

  /** An UPDATE of the title and description columns with these values is accepted. */
  predicate UpdateStorable(title: string, description: Option<string>) {
    Varchar(title, TITLE_MAX).Some? && VarcharOption(description, DESCRIPTION_MAX).Some?
  }

  /** The table after `create_task` inserted `t` under its id. */
  function Inserted(rows: Rows, t: Task): (r: Rows)
    requires t.id !in rows
    ensures r.Keys == rows.Keys + {t.id} && r[t.id] == t
    ensures forall k :: k in rows ==> r[k] == rows[k]
    ensures Keyed(rows) ==> Keyed(r)
    ensures Fitted(rows) && FitsColumns(t) ==> Fitted(r)
  {
    rows[t.id := t]
  }

  /**
   * The table after `update_task` on row `taskId`: the title, description
   * and update time change; its id, owner, completion and creation time and
   * every other row stay as they were.
   */
  function WithDetails(rows: Rows, taskId: string, title: string, description: Option<string>, now: int): (r: Rows)
    requires taskId in rows
    ensures r.Keys == rows.Keys
    ensures forall k :: k in rows && k != taskId ==> r[k] == rows[k]
    ensures r[taskId].title == title && r[taskId].description == description && r[taskId].updatedAt == now
    ensures && r[taskId].id == rows[taskId].id && r[taskId].userId == rows[taskId].userId
            && r[taskId].completed == rows[taskId].completed && r[taskId].createdAt == rows[taskId].createdAt
    ensures Keyed(rows) ==> Keyed(r)
    ensures Fitted(rows) && |title| <= TITLE_MAX && DescriptionInBounds(description) ==> Fitted(r)
  {
    rows[taskId := rows[taskId].(title := title, description := description, updatedAt := now)]
  }

  /**
   * The table after `toggle_task_completion`: the flag is set to the given
   * value (not negated) and the update time moves; nothing else changes.
   */
  function WithCompleted(rows: Rows, taskId: string, completed: bool, now: int): (r: Rows)
    requires taskId in rows
    ensures r.Keys == rows.Keys
    ensures forall k :: k in rows && k != taskId ==> r[k] == rows[k]
    ensures r[taskId].completed == completed && r[taskId].updatedAt == now
    ensures && r[taskId].id == rows[taskId].id && r[taskId].userId == rows[taskId].userId
            && r[taskId].title == rows[taskId].title && r[taskId].description == rows[taskId].description
            && r[taskId].createdAt == rows[taskId].createdAt
    ensures Keyed(rows) ==> Keyed(r)
    ensures Fitted(rows) ==> Fitted(r)
  {
    rows[taskId := rows[taskId].(completed := completed, updatedAt := now)]
  }

  /** The table after `delete_task`: exactly that row is gone. */
  function Without(rows: Rows, taskId: string): (r: Rows)
    ensures r.Keys == rows.Keys - {taskId}
    ensures forall k :: k in r ==> r[k] == rows[k]
    ensures Keyed(rows) ==> Keyed(r)
    ensures Fitted(rows) ==> Fitted(r)
  {
    rows - {taskId}
  }

  /**
   * Setting completion twice to the same value is setting it once: the
   * second call changes nothing but the update time, and with the same clock
   * reading nothing at all.
   */
  lemma SetCompletedIdempotent(rows: Rows, taskId: string, completed: bool, t1: int, t2: int)
    requires taskId in rows
    ensures WithCompleted(WithCompleted(rows, taskId, completed, t1), taskId, completed, t2)
            == WithCompleted(rows, taskId, completed, t2)
    ensures WithCompleted(WithCompleted(rows, taskId, completed, t1), taskId, completed, t1)
            == WithCompleted(rows, taskId, completed, t1)
  {
  }

  class TaskTable {
    var rows: Rows

    ghost predicate Valid()
      reads this
    {
      Keyed(rows) && Fitted(rows)
    }

    constructor()
      ensures Valid() && rows == map[]
    {
      rows := map[];
    }

    /**
     * `create_task`: a new, not completed row owned by `userId`, stored and
     * answered as the database keeps it (over-long values whose excess is all
     * spaces cut to their column's width). A taken id or a value its column
     * refuses fails on commit and changes nothing.
     */
    method CreateTask(id: string, title: string, description: Option<string>, userId: string, now: int)
      returns (r: Result<Task, HttpError>)
      requires Valid()
      modifies this
      ensures Valid()
      ensures id in old(rows) || StoredRow(NewTask(id, title, description, userId, now)).None? ==>
                r == Err(COMMIT_FAILED) && rows == old(rows)
      ensures id !in old(rows) && StoredRow(NewTask(id, title, description, userId, now)).Some? ==>
                && r == Ok(StoredRow(NewTask(id, title, description, userId, now)).value)
                && rows == Inserted(old(rows), r.value)
    {
      var stored := StoredRow(NewTask(id, title, description, userId, now));
      if id in rows || stored.None? {
        return Err(COMMIT_FAILED);
      }
      rows := rows[id := stored.value];
      r := Ok(stored.value);
    }

    /** `get_tasks_by_user_id`: every row of that owner once, in no particular order. */
    method GetTasksByUserId(userId: string) returns (tasks: seq<Task>)
      requires Valid()
      ensures forall t :: t in tasks <==> t in rows.Values && t.userId == userId
      ensures forall i, j :: 0 <= i < j < |tasks| ==> tasks[i].id != tasks[j].id
    {
      var pending := rows.Keys;
      tasks := [];
      while pending != {}
        invariant pending <= rows.Keys
        invariant forall t :: t in tasks <==> t in rows.Values && t.userId == userId && t.id !in pending
        invariant forall i, j :: 0 <= i < j < |tasks| ==> tasks[i].id != tasks[j].id
        decreases pending
      {
        var k :| k in pending;
        if rows[k].userId == userId {
          tasks := tasks + [rows[k]];
        }
        pending := pending - {k};
      }
    }

    /** `get_task_by_id_and_user_id`. */
    method GetTaskByIdAndUserId(taskId: string, userId: string) returns (r: Result<Task, HttpError>)
      ensures r == Lookup(rows, taskId, userId)
    {
      r := Lookup(rows, taskId, userId);
    }

    /**
     * `update_task`: new title and description on an owned row; 404 and no
     * change otherwise. The route passes the request's title, which may be
     * null; storing it then fails on commit, as does a title or description
     * its column refuses, and nothing changes. Otherwise the two columns take
     * the values as the database keeps them.
     */
    method UpdateTask(taskId: string, userId: string, title: Option<string>, description: Option<string>, now: int)
      returns (r: Result<Task, HttpError>)
      requires Valid()
      modifies this
      ensures Valid()
      ensures !Owns(old(rows), taskId, userId) ==> r == Err(NOT_FOUND) && rows == old(rows)
      ensures Owns(old(rows), taskId, userId) && (title.None? || !UpdateStorable(title.value, description)) ==>
                r == Err(COMMIT_FAILED) && rows == old(rows)
      ensures Owns(old(rows), taskId, userId) && title.Some? && UpdateStorable(title.value, description) ==>
                && rows == WithDetails(old(rows), taskId, Varchar(title.value, TITLE_MAX).value,
                                       VarcharOption(description, DESCRIPTION_MAX).value, now)
                && r == Ok(rows[taskId])
    {
      var found := GetTaskByIdAndUserId(taskId, userId);
      if found.Err? {
        return found;
      }
      if title.None? {
        return Err(COMMIT_FAILED);
      }
      var storedTitle := Varchar(title.value, TITLE_MAX);
      var storedDescription := VarcharOption(description, DESCRIPTION_MAX);
      if storedTitle.None? || storedDescription.None? {
        return Err(COMMIT_FAILED);
      }
      var task := found.value.(title := storedTitle.value, description := storedDescription.value, updatedAt := now);
      rows := rows[taskId := task];
      r := Ok(task);
    }

    /** `delete_task`: removes an owned row and answers true; 404 and no change otherwise. */
    method DeleteTask(taskId: string, userId: string) returns (r: Result<bool, HttpError>)
      requires Valid()
      modifies this
      ensures Valid()
      ensures !Owns(old(rows), taskId, userId) ==> r == Err(NOT_FOUND) && rows == old(rows)
      ensures Owns(old(rows), taskId, userId) ==> r == Ok(true) && rows == Without(old(rows), taskId)
    {
      var found := GetTaskByIdAndUserId(taskId, userId);
      if found.Err? {
        return Err(found.error);
      }
      rows := rows - {taskId};
      r := Ok(true);
    }

    /** `toggle_task_completion`: sets the flag of an owned row; 404 and no change otherwise. */
    method ToggleTaskCompletion(taskId: string, userId: string, completed: bool, now: int)
      returns (r: Result<Task, HttpError>)
      requires Valid()
      modifies this
      ensures Valid()
      ensures !Owns(old(rows), taskId, userId) ==> r == Err(NOT_FOUND) && rows == old(rows)
      ensures Owns(old(rows), taskId, userId) ==> && rows == WithCompleted(old(rows), taskId, completed, now)
                                                   && r == Ok(rows[taskId])
    {
      var found := GetTaskByIdAndUserId(taskId, userId);
      if found.Err? {
        return found;
      }
      var task := found.value.(completed := completed, updatedAt := now);
      rows := rows[taskId := task];
      r := Ok(task);
    }
  }
}
