/**
 * The Todo document as the todo handlers build and update it. The Todo
 * schema file is not part of this model: priority and status take the
 * values the client offers, their defaults (medium, pending) are the
 * values the client starts its form with, and `createdAt` is assumed to
 * default to the creation clock as a board's does.
 */
module TodoSchema {
  import opened Common

  datatype Priority = Low | Medium | High
  datatype Status = Pending | InProgress | Completed

  datatype Todo = Todo(
    id: Id,
    boardId: Id,
    userId: UserId,
    title: string,
    description: Option<string>,
    priority: Priority,
    status: Status,
    dueDate: Option<nat>,
    createdAt: nat)

  /**
   * `new Todo({ boardId, userId, title, description, priority, dueDate })`:
   * the status is not taken from the body, so a new todo is always pending.
   */
  function NewTodo(id: Id, boardId: Id, userId: UserId, title: string, description: Option<string>,
                   priority: Option<Priority>, dueDate: Option<nat>, now: nat): (r: Todo)
    ensures r.id == id && r.boardId == boardId && r.userId == userId && r.title == title
    ensures r.description == description && r.dueDate == dueDate && r.createdAt == now
    ensures r.priority == (if priority.Some? then priority.value else Medium)
    ensures r.status == Pending
  {
    Todo(id, boardId, userId, title, description,
         match priority case Some(p) => p case None => Medium,
         Pending, dueDate, now)
  }

  /** The paths a `PUT /todos/:id` body may set; `boardId` and `userId` are among them. */
  datatype TodoPatch = TodoPatch(
    boardId: Option<Id>,
    userId: Option<UserId>,
    title: Option<string>,
    description: Option<string>,
    priority: Option<Priority>,
    status: Option<Status>,
    dueDate: Option<nat>)

  /** The document after `$set` of every path the patch names. */
  function PatchTodo(t: Todo, p: TodoPatch): (r: Todo)
    ensures r.id == t.id && r.createdAt == t.createdAt
    ensures r.boardId == (if p.boardId.Some? then p.boardId.value else t.boardId)
    ensures r.userId == (if p.userId.Some? then p.userId.value else t.userId)
    ensures r.title == (if p.title.Some? then p.title.value else t.title)
    ensures r.description == (if p.description.Some? then p.description else t.description)
    ensures r.priority == (if p.priority.Some? then p.priority.value else t.priority)
    ensures r.status == (if p.status.Some? then p.status.value else t.status)
    ensures r.dueDate == (if p.dueDate.Some? then p.dueDate else t.dueDate)
  {
    t.(boardId := if p.boardId.Some? then p.boardId.value else t.boardId,
       userId := if p.userId.Some? then p.userId.value else t.userId,
       title := if p.title.Some? then p.title.value else t.title,
       description := if p.description.Some? then p.description else t.description,
       priority := if p.priority.Some? then p.priority.value else t.priority,
       status := if p.status.Some? then p.status.value else t.status,
       dueDate := if p.dueDate.Some? then p.dueDate else t.dueDate)
  }
}
