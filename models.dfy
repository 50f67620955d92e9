/**
 * The task record of app/core/models.py and the payload shapes of
 * app/core/schemas.py. Timestamps are readings of an integer clock.
 */
module Models {
  import opened Wrappers

  /**
   * A task as the ORM object holds it and `TaskOut` serialises it. `title` is
   * optional here only because a PATCH can set it to null in memory; the
   * column is NOT NULL, so no stored row has `title == None`.
   */
  datatype Task = Task(
    id: int,
    title: Option<string>,
    description: Option<string>,
    status: Option<string>,
    dueDate: Option<int>,
    createdAt: int,
    updatedAt: int,
    ownerId: int)

  /** Declared widths of the `title` and `status` columns. */
  const TitleWidth: nat := 255
  const StatusWidth: nat := 50

  /** The column default of `status`, also the default of `TaskBase.status`. */
  const DefaultStatus: string := "todo"

  /** The database accepts the row: title present and within width, status within width. */
  predicate Storable(t: Task) {
    && t.title.Some?
    && |t.title.value| <= TitleWidth
    && (t.status.Some? ==> |t.status.value| <= StatusWidth)
  }

  /** The status values the listing filter admits (`^(todo|in_progress|done)$`). */
  datatype Status = Todo | InProgress | Done

  function StatusName(s: Status): string {
    match s
    case Todo => "todo"
    case InProgress => "in_progress"
    case Done => "done"
  }

  /** `TaskCreate`: `title` is required; `None` stands for a field left out or sent as null. */
  datatype TaskCreate = TaskCreate(
    title: string,
    description: Option<string>,
    status: Option<string>,
    dueDate: Option<int>)

  /** A field of a PATCH body: either not sent, or sent with a value that may be null. */
  datatype Field<T> = Unset | Sent(value: T) {
    function Or(current: T): T {
      match this
      case Unset => current
      case Sent(v) => v
    }
  }

  /** `TaskUpdate`: every field optional; which ones were sent is what `exclude_unset` keeps. */
  datatype TaskUpdate = TaskUpdate(
    title: Field<Option<string>>,
    description: Field<Option<string>>,
    status: Field<Option<string>>,
    dueDate: Field<Option<int>>)

  /** The JSON documents the handlers return and cache: one `TaskOut`, or a list of them. */
  datatype Doc = One(task: Task) | Many(tasks: seq<Task>)
}
