/**
 * The task entity shared by the two components, and the requests the
 * components send to the task store. The store itself is not part of this
 * model: a component's call to `addTask`, `updateTask` or `deleteTask` is
 * recorded as a `StoreRequest` value, and nothing is assumed about what the
 * store then does with it.
 */
module Tasks {

  datatype Option<+T> = None | Some(value: T)

  /** `Task["status"]`: the three lifecycle states. */
  datatype Status = Todo | InProgress | Done

  /** `Task["priority"]`. */
  datatype Priority = Low | Medium | High

  /** The id is opaque to both components; they only pass it back to the store. */
  type TaskId = string

  /** A task as the store hands it to the list component. */
  datatype Task = Task(
    id: TaskId,
    title: string,
    description: Option<string>,
    priority: Priority,
    status: Status)

  /** The payload of `addTask`: a task without its id. */
  datatype NewTask = NewTask(
    title: string,
    description: Option<string>,
    priority: Priority,
    status: Status)

  /** The payload of `updateTask`: every field optional, only supplied ones are meant to change. */
  datatype TaskPatch = TaskPatch(
    title: Option<string>,
    description: Option<string>,
    priority: Option<Priority>,
    status: Option<Status>)

  /** A patch that carries a status and nothing else. */
  function StatusPatch(s: Status): (p: TaskPatch)
    ensures p.status == Some(s)
    ensures p.title.None? && p.description.None? && p.priority.None?
  {
    TaskPatch(None, None, None, Some(s))
  }

  /** One call from a component into the task store. */
  datatype StoreRequest =
    | AddTask(task: NewTask)
    | UpdateTask(id: TaskId, patch: TaskPatch)
    | DeleteTask(deleteId: TaskId)
}
