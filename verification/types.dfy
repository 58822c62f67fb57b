/** The records exchanged with the task API (`src/types/index.ts`). */
module Types {
  import opened Wrappers

  /** The task-list filter. `All` exists only on the client: the server never receives it. */
  datatype TaskStatus = All | Pending | Completed

  /** The status a stored task carries: `pending` or `completed`, never `all`. */
  type TaskState = s: TaskStatus | s != All witness Pending

  datatype User = User(id: int, name: string, email: string, createdAt: Option<string>)

  datatype Task = Task(
    id: int,
    title: string,
    description: Option<string>,
    status: TaskState,
    userId: int,
    createdAt: string,
    updatedAt: string)

  datatype PaginationMeta = PaginationMeta(page: int, limit: int, total: int, totalPages: int)

  datatype TasksResponse = TasksResponse(tasks: seq<Task>, pagination: PaginationMeta)

  datatype AuthResponse = AuthResponse(user: User, token: string)

  datatype LoginCredentials = LoginCredentials(email: string, password: string)

  datatype RegisterData = RegisterData(name: string, email: string, password: string)

  /** The wire spelling of a status, as in the string-literal union `TaskStatus`. */
  function StatusName(s: TaskStatus): string {
    match s
    case All => "all"
    case Pending => "pending"
    case Completed => "completed"
  }

  /** The status a wire string spells, if any. */
  function StatusFromName(name: string): (r: Option<TaskStatus>)
    ensures r.Some? ==> StatusName(r.value) == name
  {
    if name == "all" then Some(All)
    else if name == "pending" then Some(Pending)
    else if name == "completed" then Some(Completed)
    else None
  }

  /** Every status is recovered from its wire spelling, and only the three spellings name one. */
  lemma StatusNameRoundTrip(s: TaskStatus, name: string)
    ensures StatusFromName(StatusName(s)) == Some(s)
    ensures StatusFromName(name).Some? <==> name in {"all", "pending", "completed"}
  {
  }

  /** The browser's persistent store, `localStorage`: a missing key reads as null. */
  type Storage = map<string, string>

  const TokenKey: string := "token"
  const UserKey: string := "user"
}
