/**
 * The task controller's two handlers with logic of their own: `createTask`
 * checks the request body and fills in a default image URL before handing
 * the task to the task service; `completeTask` forwards the caller's user id
 * (from the session the request gate attached) and the task id from the path.
 * The task service itself is a parameter.
 */
module TaskController {
  import opened Wrappers
  import AuthHandler

  /** A JSON body field that the code passes on as it is: absent, `null`, or a value. */
  datatype Nullable<T> = Undefined | Null | Defined(value: T)

  /**
   * `req.body` of a create-task request. For the fields the code tests
   * (`!title`, `!pointReward`, `imageUrl ?? ""`) absent and null behave
   * alike and are None; `link` is forwarded untouched, so it keeps the
   * difference.
   */
  datatype CreateTaskBody = CreateTaskBody(
    title: Option<string>,
    pointReward: Option<real>,
    imageUrl: Option<string>,
    link: Nullable<string>)

  /** What `TaskService.createTask` receives. */
  datatype TaskInput = TaskInput(title: string, pointReward: real, imageUrl: string, link: Nullable<string>)

  /** The validation step: reject, or forward this input to the service. */
  datatype Validation = Reject(message: string) | Forward(input: TaskInput)

  /** What a handler sends: `response(res, 200, x)`, `devResponse(res, x)` or `errorResponse(res, message)`. */
  datatype Response<T> = Sent(status: int, body: T) | Dev(body: T) | Error(message: string)

  const Ok: int := 200
  const InvalidRequest: string := "Invalid request"
  const CreateFailed: string := "Failed to create task"
  const CompleteFailed: string := "Failed to complete task"

  /** `!title || !pointReward || pointReward <= 0`: the guard as written. */
  predicate RejectsBody(body: CreateTaskBody)
  {
    || body.title.None? || body.title.value == ""
    || body.pointReward.None? || body.pointReward.value == 0.0
    || body.pointReward.value <= 0.0
  }

  /**
   * Validation and defaulting of `createTask`. The guard accepts exactly a
   * non-empty title with a positive reward (the `!pointReward` test adds
   * nothing to `pointReward <= 0` for numbers), and every rejection is
   * "Invalid request". An accepted body reaches the service with title,
   * reward and link as given; `imageUrl ?? ""` makes the image URL "" only
   * when it was missing, so an empty one stays empty.
   */
  function ValidateCreateTask(body: CreateTaskBody): (v: Validation)
    ensures v.Forward? <==>
      body.title.Some? && body.title.value != "" && body.pointReward.Some? && body.pointReward.value > 0.0
    ensures v.Reject? ==> v == Reject(InvalidRequest)
    ensures v.Forward? ==>
      && Some(v.input.title) == body.title
      && Some(v.input.pointReward) == body.pointReward
      && v.input.link == body.link
      && (body.imageUrl.None? ==> v.input.imageUrl == "")
      && (body.imageUrl.Some? ==> v.input.imageUrl == body.imageUrl.value)
  {
    if RejectsBody(body) then Reject(InvalidRequest)
    else
      var imageUrl := if body.imageUrl.None? then "" else body.imageUrl.value;
      Forward(TaskInput(body.title.value, body.pointReward.value, imageUrl, body.link))
  }

  /**
   * `createTask`, with the task service as a parameter (None: the service
   * threw). It answers with status 200 and the service's task, or with one of
   * the two error messages; it never uses the development response.
   */
  function CreateTask<T>(body: CreateTaskBody, create: TaskInput -> Option<T>): (r: Response<T>)
    ensures r.Sent? ==>
      r.status == Ok && ValidateCreateTask(body).Forward? && create(ValidateCreateTask(body).input) == Some(r.body)
    ensures r.Error? ==> r.message == InvalidRequest || r.message == CreateFailed
    ensures !r.Dev?
  {
    match ValidateCreateTask(body)
    case Reject(message) => Error(message)
    case Forward(input) =>
      match create(input)
      case None => Error(CreateFailed)
      case Some(task) => Sent(Ok, task)
  }

  /**
   * A rejected body never reaches the service and gets "Invalid request";
   * otherwise a created task is sent with status 200 and a service failure
   * gets "Failed to create task".
   */
  lemma CreateTaskOutcomes<T>(body: CreateTaskBody, create: TaskInput -> Option<T>, other: TaskInput -> Option<T>)
    ensures RejectsBody(body) ==>
      CreateTask(body, create) == Error(InvalidRequest) && CreateTask(body, create) == CreateTask(body, other)
    ensures !RejectsBody(body) ==>
      var input := ValidateCreateTask(body).input;
      && (create(input).Some? ==> CreateTask(body, create) == Sent(Ok, create(input).value))
      && (create(input).None? ==> CreateTask(body, create) == Error(CreateFailed))
  {
  }

  /**
   * The arguments `completeTask` hands to the service: the session's user id
   * and the path's task id, unchanged. None when there is no session, where
   * reading `req.session.userId` throws.
   */
  function CompleteTaskArgs(session: Option<AuthHandler.Session>, taskId: string): Option<(Option<string>, string)>
  {
    match session
    case None => None
    case Some(s) => Some((s.userId, taskId))
  }

  /**
   * `completeTask`, with the task service as a parameter (None: the service
   * threw). The service's result goes out through the development response;
   * a missing session or a failure gives "Failed to complete task".
   */
  function CompleteTask<R>(session: Option<AuthHandler.Session>, taskId: string,
                           complete: (Option<string>, string) -> Option<R>): (r: Response<R>)
    ensures session.None? ==> r == Error(CompleteFailed)
    ensures r.Dev? ==> session.Some? && complete(session.value.userId, taskId) == Some(r.body)
    ensures r.Error? ==> r.message == CompleteFailed
    ensures !r.Sent?
  {
    match CompleteTaskArgs(session, taskId)
    case None => Error(CompleteFailed)
    case Some(args) =>
      match complete(args.0, args.1)
      case None => Error(CompleteFailed)
      case Some(result) => Dev(result)
  }

  /**
   * Behind the gate: a request the gate accepted reaches the service with the
   * user id from the access token's `user._id` and the task id unchanged.
   */
  lemma CompleteTaskBehindGate<R>(header: Option<string>, verify: AuthHandler.Verifier, taskId: string,
                                  complete: (Option<string>, string) -> Option<R>)
    requires AuthHandler.Gate(header, verify).Accepted?
    ensures var o := AuthHandler.Gate(header, verify);
      var userId := o.decoded.user.value.id;
      && CompleteTaskArgs(Some(o.session), taskId) == Some((userId, taskId))
      && CompleteTask(Some(o.session), taskId, complete) ==
           (if complete(userId, taskId).Some? then Dev(complete(userId, taskId).value) else Error(CompleteFailed))
  {
    AuthHandler.AcceptedExactly(header, verify);
  }
}
