/**
 * The six task routes under `/api/{user_id}/tasks`. Each resolves the bearer
 * token with `get_current_user` (401 when that fails), refuses with 403 when
 * the token's subject is not the path's user id, and only then calls one
 * service operation with the path's user id as owner.
 */
module TasksApi {
  import opened Wrappers
  import opened Http
  import opened Jwt
  import opened JwtUtils
  import opened TaskModel
  import opened TaskService

  /** What checking a token needs: the token codec and the configured secret. */
  datatype Auth = Auth(codec: Codec, secret: string)

  datatype TaskCreateRequest = TaskCreateRequest(title: string, description: Option<string>)

  datatype TaskUpdateRequest = TaskUpdateRequest(title: Option<string>, description: Option<string>)

  datatype TaskToggleCompleteRequest = TaskToggleCompleteRequest(completed: bool)

  datatype Body = OneTask(task: Task) | TaskList(tasks: seq<Task>) | NoContent | Detail(detail: string)

  datatype Response = Response(status: int, body: Body)

  function Failure(e: HttpError): Response {
    Response(e.status, Detail(e.detail))
  }

  /** The request may act for `userId`: its token checks out and names that user. */
  predicate Authorized(auth: Auth, token: string, userId: string, now: int) {
    VerifyUserIdInToken(auth.codec, auth.secret, token, userId, now)
  }

  /**
   * `Depends(get_current_user)` followed by `if current_user["user_id"] !=
   * user_id: raise HTTPException(403, forbidden)`. It lets a request through
   * exactly when `verify_user_id_in_token` holds of its token and the path's
   * user id.
   */
  function Gate(auth: Auth, token: string, userId: string, now: int, forbidden: string): (r: Result<CurrentUser, HttpError>)
    ensures r.Ok? <==> Authorized(auth, token, userId, now)
    ensures r.Ok? ==> r.value.userId == Str(userId)
    ensures r.Ok? ==> r.value == GetCurrentUser(auth.codec, auth.secret, token, now).value
    ensures r.Err? ==> r.error == HttpError(403, forbidden) || r.error.status == 401
    ensures r.Err? && r.error.status == 401 ==> GetCurrentUser(auth.codec, auth.secret, token, now).Err?
    ensures GetCurrentUser(auth.codec, auth.secret, token, now).Err? ==>
              r == Err(GetCurrentUser(auth.codec, auth.secret, token, now).error)
  {
    match GetCurrentUser(auth.codec, auth.secret, token, now)
    case Err(e) => Err(e)
    case Ok(current) =>
      if current.userId != Str(userId) then Err(HttpError(403, forbidden)) else Ok(current)
  }

  /** One request: its bearer token, the clock, the path's user id and the route. */
  datatype Call = Call(token: string, now: int, userId: string, route: Route)

  datatype Route =
    | CreateRoute(id: string, create: TaskCreateRequest)
    | ListRoute
    | GetRoute(taskId: string)
    | UpdateRoute(taskId: string, update: TaskUpdateRequest)
    | DeleteRoute(taskId: string)
    | CompleteRoute(taskId: string, completion: TaskToggleCompleteRequest)

  /** What a request does to the table. */
  function Effect(rows: Rows, auth: Auth, c: Call): Rows {
    if !Authorized(auth, c.token, c.userId, c.now) then rows
    else match c.route
      case CreateRoute(id, create) =>
        var stored := StoredRow(NewTask(id, create.title, create.description, c.userId, c.now));
        if id in rows || stored.None? then rows else Inserted(rows, stored.value)
      case ListRoute => rows
      case GetRoute(_) => rows
      case UpdateRoute(taskId, update) =>
        if Owns(rows, taskId, c.userId) && update.title.Some? && UpdateStorable(update.title.value, update.description)
        then WithDetails(rows, taskId, Varchar(update.title.value, TITLE_MAX).value,
                         VarcharOption(update.description, DESCRIPTION_MAX).value, c.now)
        else rows
      case DeleteRoute(taskId) =>
        if Owns(rows, taskId, c.userId) then Without(rows, taskId) else rows
      case CompleteRoute(taskId, completion) =>
        if Owns(rows, taskId, c.userId) then WithCompleted(rows, taskId, completion.completed, c.now) else rows
  }

  function Run(rows: Rows, auth: Auth, calls: seq<Call>): Rows
    decreases calls
  {
    if calls == [] then rows else Run(Effect(rows, auth, calls[0]), auth, calls[1..])
  }

  /**
   * Owner isolation: over any sequence of requests, a row whose owner never
   * presented a token of their own is still there, unchanged.
   */
  lemma {:induction false} RowsOfOthersUntouched(rows: Rows, auth: Auth, calls: seq<Call>, owner: string)
    requires forall i :: 0 <= i < |calls| ==> !Authorized(auth, calls[i].token, owner, calls[i].now)
    ensures forall k :: Owns(rows, k, owner) ==> k in Run(rows, auth, calls) && Run(rows, auth, calls)[k] == rows[k]
    decreases calls
  {
    if calls != [] {
      var c := calls[0];
      var next := Effect(rows, auth, c);
      forall k | Owns(rows, k, owner) ensures k in next && next[k] == rows[k] {
        if Authorized(auth, c.token, c.userId, c.now) {
          assert c.userId != owner;
        }
      }
      RowsOfOthersUntouched(next, auth, calls[1..], owner);
    }
  }

  /** POST /api/{user_id}/tasks: 201 with the new row as stored, owned by the path's user. */
  method CreateTaskRoute(table: TaskTable, auth: Auth, token: string, now: int, userId: string,
                         id: string, request: TaskCreateRequest)
    returns (response: Response)
    requires table.Valid()
    modifies table
    ensures table.Valid()
    ensures table.rows == Effect(old(table.rows), auth, Call(token, now, userId, CreateRoute(id, request)))
    ensures !Authorized(auth, token, userId, now) ==>
              response == Failure(Gate(auth, token, userId, now, "Not authorized to create tasks for this user").error)
    ensures Authorized(auth, token, userId, now)
            && (id in old(table.rows) || StoredRow(NewTask(id, request.title, request.description, userId, now)).None?) ==>
              response == Failure(COMMIT_FAILED)
    ensures Authorized(auth, token, userId, now)
            && id !in old(table.rows) && StoredRow(NewTask(id, request.title, request.description, userId, now)).Some? ==>
              response == Response(201, OneTask(StoredRow(NewTask(id, request.title, request.description, userId, now)).value))
  {
    var gate := Gate(auth, token, userId, now, "Not authorized to create tasks for this user");
    if gate.Err? {
      return Failure(gate.error);
    }
    var created := table.CreateTask(id, request.title, request.description, userId, now);
    if created.Err? {
      return Failure(created.error);
    }
    response := Response(201, OneTask(created.value));
  }

  /** GET /api/{user_id}/tasks: `{tasks: [...]}` holding exactly the path user's rows, each once. */
  method GetTasksRoute(table: TaskTable, auth: Auth, token: string, now: int, userId: string)
    returns (response: Response)
    requires table.Valid()
    ensures !Authorized(auth, token, userId, now) ==>
              response == Failure(Gate(auth, token, userId, now, "Not authorized to view tasks for this user").error)
    ensures Authorized(auth, token, userId, now) ==>
              && response.status == 200 && response.body.TaskList?
              && (forall t :: t in response.body.tasks <==> t in table.rows.Values && t.userId == userId)
              && (forall i, j :: 0 <= i < j < |response.body.tasks| ==> response.body.tasks[i].id != response.body.tasks[j].id)
  {
    var gate := Gate(auth, token, userId, now, "Not authorized to view tasks for this user");
    if gate.Err? {
      return Failure(gate.error);
    }
    var tasks := table.GetTasksByUserId(userId);
    response := Response(200, TaskList(tasks));
  }

  /** GET /api/{user_id}/tasks/{task_id}: the row if the path's user owns it, 404 otherwise. */
  method GetTaskRoute(table: TaskTable, auth: Auth, token: string, now: int, userId: string, taskId: string)
    returns (response: Response)
    ensures !Authorized(auth, token, userId, now) ==>
              response == Failure(Gate(auth, token, userId, now, "Not authorized to view tasks for this user").error)
    ensures Authorized(auth, token, userId, now) && !Owns(table.rows, taskId, userId) ==> response == Failure(NOT_FOUND)
    ensures Authorized(auth, token, userId, now) && Owns(table.rows, taskId, userId) ==>
              response == Response(200, OneTask(table.rows[taskId]))
  {
    var gate := Gate(auth, token, userId, now, "Not authorized to view tasks for this user");
    if gate.Err? {
      return Failure(gate.error);
    }
    var found := table.GetTaskByIdAndUserId(taskId, userId);
    if found.Err? {
      return Failure(found.error);
    }
    response := Response(200, OneTask(found.value));
  }

  /** PUT /api/{user_id}/tasks/{task_id}: forwards title and description only. */
  method UpdateTaskRoute(table: TaskTable, auth: Auth, token: string, now: int, userId: string,
                         taskId: string, request: TaskUpdateRequest)
    returns (response: Response)
    requires table.Valid()
    modifies table
    ensures table.Valid()
    ensures table.rows == Effect(old(table.rows), auth, Call(token, now, userId, UpdateRoute(taskId, request)))
    ensures !Authorized(auth, token, userId, now) ==>
              response == Failure(Gate(auth, token, userId, now, "Not authorized to update tasks for this user").error)
    ensures Authorized(auth, token, userId, now) && !Owns(old(table.rows), taskId, userId) ==> response == Failure(NOT_FOUND)
    ensures Authorized(auth, token, userId, now) && Owns(old(table.rows), taskId, userId) ==>
              response == if request.title.None? || !UpdateStorable(request.title.value, request.description)
                          then Failure(COMMIT_FAILED) else Response(200, OneTask(table.rows[taskId]))
  {
    var gate := Gate(auth, token, userId, now, "Not authorized to update tasks for this user");
    if gate.Err? {
      return Failure(gate.error);
    }
    var updated := table.UpdateTask(taskId, userId, request.title, request.description, now);
    if updated.Err? {
      return Failure(updated.error);
    }
    response := Response(200, OneTask(updated.value));
  }

  /** DELETE /api/{user_id}/tasks/{task_id}: 204 with no body once the row is gone. */
  method DeleteTaskRoute(table: TaskTable, auth: Auth, token: string, now: int, userId: string, taskId: string)
    returns (response: Response)
    requires table.Valid()
    modifies table
    ensures table.Valid()
    ensures table.rows == Effect(old(table.rows), auth, Call(token, now, userId, DeleteRoute(taskId)))
    ensures !Authorized(auth, token, userId, now) ==>
              response == Failure(Gate(auth, token, userId, now, "Not authorized to delete tasks for this user").error)
    ensures Authorized(auth, token, userId, now) ==>
              response == if Owns(old(table.rows), taskId, userId) then Response(204, NoContent) else Failure(NOT_FOUND)
  {
    var gate := Gate(auth, token, userId, now, "Not authorized to delete tasks for this user");
    if gate.Err? {
      return Failure(gate.error);
    }
    var deleted := table.DeleteTask(taskId, userId);
    if deleted.Err? {
      return Failure(deleted.error);
    }
    response := Response(204, NoContent);
  }

  /** PATCH /api/{user_id}/tasks/{task_id}/complete: forwards `completed` unchanged. */
  method ToggleTaskCompletionRoute(table: TaskTable, auth: Auth, token: string, now: int, userId: string,
                                   taskId: string, request: TaskToggleCompleteRequest)
    returns (response: Response)
    requires table.Valid()
    modifies table
    ensures table.Valid()
    ensures table.rows == Effect(old(table.rows), auth, Call(token, now, userId, CompleteRoute(taskId, request)))
    ensures !Authorized(auth, token, userId, now) ==>
              response == Failure(Gate(auth, token, userId, now, "Not authorized to update tasks for this user").error)
    ensures Authorized(auth, token, userId, now) ==>
              response == if Owns(old(table.rows), taskId, userId)
                          then Response(200, OneTask(table.rows[taskId])) else Failure(NOT_FOUND)
  {
    var gate := Gate(auth, token, userId, now, "Not authorized to update tasks for this user");
    if gate.Err? {
      return Failure(gate.error);
    }
    var toggled := table.ToggleTaskCompletion(taskId, userId, request.completed, now);
    if toggled.Err? {
      return Failure(toggled.error);
    }
    response := Response(200, OneTask(toggled.value));
  }
}
