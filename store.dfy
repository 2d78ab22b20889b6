/**
 * The Board and Todo collections and the route handlers of `/boards` and
 * `/todos` that read and write them. Each handler runs after the auth
 * middleware has passed, with `user` the `req.userId` it attached.
 */
module Store {
  import opened Common
  import opened BoardSchema
  import opened TodoSchema
  import opened Queries

  const TITLE_REQUIRED: string := "Title required"
  const MISSING_FIELDS: string := "Missing fields"
  const NOT_FOUND_ERROR: string := "Not found"
  const DELETED: string := "Deleted"

  /** The request body of `POST /boards`; only title, description and color are read from it. */
  datatype BoardBody = BoardBody(
    userId: Option<UserId>,
    title: Option<string>,
    description: Option<string>,
    color: Option<string>)

  /**
   * The request body of `POST /todos`; `boardId` is None when it is missing
   * or falsy. Only boardId, title, description, priority and dueDate are read.
   */
  datatype TodoBody = TodoBody(
    boardId: Option<Id>,
    userId: Option<UserId>,
    title: Option<string>,
    description: Option<string>,
    priority: Option<Priority>,
    status: Option<Status>,
    dueDate: Option<nat>)

  function BoardKey(b: Board): nat { b.id }
  function BoardCreated(b: Board): nat { b.createdAt }
  function TodoKey(t: Todo): nat { t.id }
  function TodoCreated(t: Todo): nat { t.createdAt }

  /** The filter `{ userId }`. */
  function OwnedBy(user: UserId): Board -> bool { (b: Board) => b.userId == user }

  /** The filter `{ _id: id, userId }` on boards. */
  function BoardFilter(id: Id, user: UserId): Board -> bool { (b: Board) => b.id == id && b.userId == user }

  /** The filter `{ _id: id, userId }` on todos. */
  function TodoFilter(id: Id, user: UserId): Todo -> bool { (t: Todo) => t.id == id && t.userId == user }

  /** The filter `{ boardId }`. */
  function OnBoard(boardId: Id): Todo -> bool { (t: Todo) => t.boardId == boardId }

  /** The complement of `OnBoard`: what `deleteMany({ boardId })` keeps. */
  function OffBoard(boardId: Id): Todo -> bool { (t: Todo) => t.boardId != boardId }

  /** What `Todo.deleteMany({ boardId })` leaves: the todos of every other board. */
  function WithoutBoard(todos: seq<Todo>, boardId: Id): (r: seq<Todo>)
    ensures forall t :: t in r <==> t in todos && t.boardId != boardId
    ensures |r| <= |todos|
  {
    Where(todos, OffBoard(boardId))
  }

  /** The todos the cascade keeps stay in creation order. */
  lemma CascadeKeepsOrder(todos: seq<Todo>, boardId: Id)
    requires Ascending(todos, TodoCreated)
    ensures Ascending(WithoutBoard(todos, boardId), TodoCreated)
  {
    WhereAscending(todos, OffBoard(boardId), TodoCreated);
  }

  /** Running the cascade again on the same board removes nothing. */
  lemma CascadeIdempotent(todos: seq<Todo>, boardId: Id)
    ensures WithoutBoard(WithoutBoard(todos, boardId), boardId) == WithoutBoard(todos, boardId)
  {
    WhereIdempotent(todos, OffBoard(boardId));
  }

  class Store {
    var boards: seq<Board>
    var todos: seq<Todo>
    var clock: nat    // Date.now
    var nextId: nat   // the next ObjectId to hand out

    /** Documents are held in insertion order, so ids and creation times ascend, and both stay below the counters. */
    ghost predicate Valid()
      reads this
    {
      Ascending(boards, BoardKey) && Ascending(boards, BoardCreated) &&
      Ascending(todos, TodoKey) && Ascending(todos, TodoCreated) &&
      (forall i :: 0 <= i < |boards| ==> boards[i].id < nextId && boards[i].createdAt < clock) &&
      (forall i :: 0 <= i < |todos| ==> todos[i].id < nextId && todos[i].createdAt < clock)
    }

    /** Every todo references a board that exists. The handlers do not keep this. */
    ghost predicate NoOrphans()
      reads this
    {
      forall t :: t in todos ==> exists b :: b in boards && b.id == t.boardId
    }

    constructor ()
      ensures Valid() && NoOrphans()
      ensures boards == [] && todos == []
    {
      boards, todos, clock, nextId := [], [], 0, 0;
    }

    // ---------------------------------------------------------------- boards

    /** GET /boards: the caller's boards, newest first. */
    method ListBoards(user: UserId) returns (r: Reply<seq<Board>>)
      requires Valid()
      ensures r.Done? && r.status == OK
      ensures forall b :: b in r.body <==> b in boards && b.userId == user
      ensures Descending(r.body, BoardCreated)
    {
      var mine := Where(boards, OwnedBy(user));
      WhereAscending(boards, OwnedBy(user), BoardCreated);
      ReverseSameElements(mine);
      ReverseDescending(mine, BoardCreated);
      r := Done(OK, Reverse(mine));
    }

    /** POST /boards: a new board owned by the caller, or 400 when the title is missing or empty. */
    method CreateBoard(user: UserId, body: BoardBody) returns (r: Reply<Board>)
      requires Valid()
      modifies this
      ensures Valid()
      ensures body.title.None? || body.title.value == "" ==>
                r == Failed(BAD_REQUEST, TITLE_REQUIRED) && unchanged(this)
      ensures body.title.Some? && body.title.value != "" ==>
                r.Done? && r.status == CREATED &&
                Some(r.body) == NewBoard(old(nextId), Some(user), body.title, body.description, body.color, old(clock)) &&
                boards == old(boards) + [r.body] && todos == old(todos) &&
                clock == old(clock) + 1 && nextId == old(nextId) + 1
    {
      if body.title.None? || body.title.value == "" {
        r := Failed(BAD_REQUEST, TITLE_REQUIRED);
        return;
      }
      var board := NewBoard(nextId, Some(user), body.title, body.description, body.color, clock).value;
      boards := boards + [board];
      nextId, clock := nextId + 1, clock + 1;
      r := Done(CREATED, board);
    }

    /** GET /boards/:id: the caller's board with that id; absent and foreign are the same 404. */
    method GetBoard(user: UserId, id: Id) returns (r: Reply<Board>)
      ensures r.Failed? <==> forall b :: b in boards ==> !(b.id == id && b.userId == user)
      ensures r.Failed? ==> r == Failed(NOT_FOUND, NOT_FOUND_ERROR)
      ensures r.Done? ==> r.status == OK && r.body in boards && r.body.id == id && r.body.userId == user
    {
      match FirstWhere(boards, BoardFilter(id, user))
      case None =>
        r := Failed(NOT_FOUND, NOT_FOUND_ERROR);
      case Some(i) =>
        r := Done(OK, boards[i]);
    }

    /** PUT /boards/:id: patch the caller's board with that id and answer with its new value. */
    method UpdateBoard(user: UserId, id: Id, patch: BoardPatch) returns (r: Reply<Board>)
      requires Valid()
      modifies this
      ensures Valid()
      ensures todos == old(todos) && clock == old(clock) && nextId == old(nextId)
      ensures |boards| == |old(boards)|
      ensures forall k :: 0 <= k < |boards| ==>
                boards[k] == if old(boards)[k].id == id && old(boards)[k].userId == user then PatchBoard(old(boards)[k], patch)
                             else old(boards)[k]
      ensures r.Failed? <==> forall b :: b in old(boards) ==> !(b.id == id && b.userId == user)
      ensures r.Failed? ==> r == Failed(NOT_FOUND, NOT_FOUND_ERROR)
      ensures r.Done? ==> (r.status == OK &&
                exists k :: 0 <= k < |boards| && old(boards)[k].id == id && old(boards)[k].userId == user && boards[k] == r.body)
    {
      match FirstWhere(boards, BoardFilter(id, user))
      case None =>
        r := Failed(NOT_FOUND, NOT_FOUND_ERROR);
      case Some(i) =>
        var updated := PatchBoard(boards[i], patch);
        AscendingKeyUnique(boards, i, BoardKey);
        ReplaceAscending(boards, i, updated, BoardKey);
        ReplaceAscending(boards, i, updated, BoardCreated);
        boards := boards[i := updated];
        r := Done(OK, updated);
    }

    /** The cascade `Todo.deleteMany({ boardId })`: removes every todo of the board and reports how many. */
    method DeleteTodosOfBoard(boardId: Id) returns (deletedCount: nat)
      requires Valid()
      modifies this
      ensures Valid()
      ensures todos == WithoutBoard(old(todos), boardId)
      ensures deletedCount == |old(todos)| - |todos|
      ensures boards == old(boards) && clock == old(clock) && nextId == old(nextId)
    {
      var kept := WithoutBoard(todos, boardId);
      WhereAscending(todos, OffBoard(boardId), TodoKey);
      WhereAscending(todos, OffBoard(boardId), TodoCreated);
      assert forall i :: 0 <= i < |kept| ==> kept[i] in todos;
      deletedCount := |todos| - |kept|;
      todos := kept;
    }

    /** DELETE /boards/:id: remove the caller's board with that id, then every todo on that board. */
    method DeleteBoard(user: UserId, id: Id) returns (r: Reply<string>)
      requires Valid()
      modifies this
      ensures Valid()
      ensures clock == old(clock) && nextId == old(nextId)
      ensures r.Failed? <==> forall b :: b in old(boards) ==> !(b.id == id && b.userId == user)
      ensures r.Failed? ==> r == Failed(NOT_FOUND, NOT_FOUND_ERROR) && boards == old(boards) && todos == old(todos)
      ensures r.Done? ==> (r == Done(OK, DELETED) &&
                |boards| == |old(boards)| - 1 &&
                (forall b :: b in boards <==> b in old(boards) && b.id != id) &&
                todos == WithoutBoard(old(todos), id))
      ensures old(NoOrphans()) ==> NoOrphans()
    {
      match FirstWhere(boards, BoardFilter(id, user))
      case None =>
        r := Failed(NOT_FOUND, NOT_FOUND_ERROR);
      case Some(i) =>
        ghost var before := boards;
        RemoveAtElements(boards, i, BoardKey);
        RemoveAtAscending(boards, i, BoardKey);
        RemoveAtAscending(boards, i, BoardCreated);
        boards := RemoveAt(boards, i);
        var _ := DeleteTodosOfBoard(id);
        r := Done(OK, DELETED);
        assert forall b :: b in boards <==> b in before && b.id != id;
    }

    // ----------------------------------------------------------------- todos

    /** GET /todos/:boardId: every todo on that board, newest first, whoever owns it. */
    method ListTodos(user: UserId, boardId: Id) returns (r: Reply<seq<Todo>>)
      requires Valid()
      ensures r.Done? && r.status == OK
      ensures forall t :: t in r.body <==> t in todos && t.boardId == boardId
      ensures Descending(r.body, TodoCreated)
    {
      var found := Where(todos, OnBoard(boardId));
      WhereAscending(todos, OnBoard(boardId), TodoCreated);
      ReverseSameElements(found);
      ReverseDescending(found, TodoCreated);
      r := Done(OK, Reverse(found));
    }

    /** POST /todos: a new todo owned by the caller, on whatever board the body names; 400 when boardId or title is missing. */
    method CreateTodo(user: UserId, body: TodoBody) returns (r: Reply<Todo>)
      requires Valid()
      modifies this
      ensures Valid()
      ensures body.boardId.None? || body.title.None? || body.title.value == "" ==>
                r == Failed(BAD_REQUEST, MISSING_FIELDS) && unchanged(this)
      ensures body.boardId.Some? && body.title.Some? && body.title.value != "" ==>
                r.Done? && r.status == CREATED &&
                r.body == NewTodo(old(nextId), body.boardId.value, user, body.title.value, body.description,
                                  body.priority, body.dueDate, old(clock)) &&
                todos == old(todos) + [r.body] && boards == old(boards) &&
                clock == old(clock) + 1 && nextId == old(nextId) + 1
    {
      if body.boardId.None? || body.title.None? || body.title.value == "" {
        r := Failed(BAD_REQUEST, MISSING_FIELDS);
        return;
      }
      var todo := NewTodo(nextId, body.boardId.value, user, body.title.value, body.description,
                          body.priority, body.dueDate, clock);
      todos := todos + [todo];
      nextId, clock := nextId + 1, clock + 1;
      r := Done(CREATED, todo);
    }

    /** PUT /todos/:id: patch the caller's todo with that id and answer with its new value. */
    method UpdateTodo(user: UserId, id: Id, patch: TodoPatch) returns (r: Reply<Todo>)
      requires Valid()
      modifies this
      ensures Valid()
      ensures boards == old(boards) && clock == old(clock) && nextId == old(nextId)
      ensures |todos| == |old(todos)|
      ensures forall k :: 0 <= k < |todos| ==>
                todos[k] == if old(todos)[k].id == id && old(todos)[k].userId == user then PatchTodo(old(todos)[k], patch)
                            else old(todos)[k]
      ensures forall k :: 0 <= k < |todos| && old(todos)[k].userId != user ==> todos[k] == old(todos)[k]
      ensures r.Failed? <==> forall t :: t in old(todos) ==> !(t.id == id && t.userId == user)
      ensures r.Failed? ==> r == Failed(NOT_FOUND, NOT_FOUND_ERROR)
      ensures r.Done? ==> (r.status == OK &&
                exists k :: 0 <= k < |todos| && old(todos)[k].id == id && old(todos)[k].userId == user && todos[k] == r.body)
    {
      match FirstWhere(todos, TodoFilter(id, user))
      case None =>
        r := Failed(NOT_FOUND, NOT_FOUND_ERROR);
      case Some(i) =>
        var updated := PatchTodo(todos[i], patch);
        AscendingKeyUnique(todos, i, TodoKey);
        ReplaceAscending(todos, i, updated, TodoKey);
        ReplaceAscending(todos, i, updated, TodoCreated);
        todos := todos[i := updated];
        r := Done(OK, updated);
    }

    /** DELETE /todos/:id: remove the caller's todo with that id. */
    method DeleteTodo(user: UserId, id: Id) returns (r: Reply<string>)
      requires Valid()
      modifies this
      ensures Valid()
      ensures boards == old(boards) && clock == old(clock) && nextId == old(nextId)
      ensures r.Failed? <==> forall t :: t in old(todos) ==> !(t.id == id && t.userId == user)
      ensures r.Failed? ==> r == Failed(NOT_FOUND, NOT_FOUND_ERROR) && todos == old(todos)
      ensures r.Done? ==> (r == Done(OK, DELETED) && |todos| == |old(todos)| - 1 &&
                forall t :: t in todos <==> t in old(todos) && t.id != id)
      ensures forall t :: t in old(todos) && t.userId != user ==> t in todos
    {
      match FirstWhere(todos, TodoFilter(id, user))
      case None =>
        r := Failed(NOT_FOUND, NOT_FOUND_ERROR);
      case Some(i) =>
        RemoveAtElements(todos, i, TodoKey);
        RemoveAtAscending(todos, i, TodoKey);
        RemoveAtAscending(todos, i, TodoCreated);
        todos := RemoveAt(todos, i);
        r := Done(OK, DELETED);
    }
  }
}
