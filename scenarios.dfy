/**
 * Request sequences against a fresh store, proved from the handlers'
 * contracts alone: the guarantees the handlers give, and the gaps they
 * leave open.
 */
module Scenarios {
  import opened Common
  import opened BoardSchema
  import opened TodoSchema
  import opened Queries
  import opened Store

  const ALICE: UserId := 1
  const BOB: UserId := 2

  /** A retried board delete answers 404, and a second run of the cascade removes nothing. */
  method RetriedBoardDelete(s: Store, user: UserId, id: Id) returns (first: Reply<string>, second: Reply<string>, recount: nat)
    requires s.Valid()
    modifies s
    ensures s.Valid()
    ensures first.Done? ==> second == Failed(NOT_FOUND, NOT_FOUND_ERROR) && recount == 0
    ensures forall t :: t in s.todos ==> t.boardId != id || first.Failed?
  {
    first := s.DeleteBoard(user, id);
    ghost var afterFirst := s.todos;
    second := s.DeleteBoard(user, id);
    recount := s.DeleteTodosOfBoard(id);
    if first.Done? {
      CascadeIdempotent(old(s.todos), id);
      assert s.todos == afterFirst;
    }
  }

  /** Bob can neither read, list nor patch Alice's board, and the failed patch leaves it as it was. */
  method CrossUser() returns (get: Reply<Board>, put: Reply<Board>, list: Reply<seq<Board>>, mine: Reply<seq<Board>>)
    ensures get == Failed(NOT_FOUND, NOT_FOUND_ERROR) && put == Failed(NOT_FOUND, NOT_FOUND_ERROR)
    ensures list == Done(OK, [])
    ensures mine.Done? && |mine.body| == 1 && mine.body[0].title == "Groceries" && mine.body[0].userId == ALICE
  {
    var s := new Store();
    var x := s.CreateBoard(ALICE, BoardBody(None, Some("Groceries"), None, None));
    var id := x.body.id;
    get := s.GetBoard(BOB, id);
    put := s.UpdateBoard(BOB, id, BoardPatch(Some(BOB), Some("Mine now"), None, None));
    assert s.boards == [x.body];
    list := s.ListBoards(BOB);
    DescendingUnique(list.body, [], BoardCreated);
    mine := s.ListBoards(ALICE);
    DescendingUnique(mine.body, [x.body], BoardCreated);
  }

  /** A fresh store holding Alice's board "Groceries" and her low-priority todo "Buy milk" on it. */
  method Groceries() returns (s: Store, board: Board, todo: Todo)
    ensures fresh(s) && s.Valid()
    ensures s.boards == [board] && board.userId == ALICE && board.title == "Groceries"
    ensures s.todos == [todo] && todo.userId == ALICE && todo.boardId == board.id
    ensures todo.title == "Buy milk" && todo.priority == Low && todo.status == Pending
  {
    s := new Store();
    var b := s.CreateBoard(ALICE, BoardBody(None, Some("Groceries"), None, None));
    board := b.body;
    var t := s.CreateTodo(ALICE, TodoBody(Some(board.id), None, Some("Buy milk"), None, Some(Low), None, None));
    todo := t.body;
  }

  /** Create a board and a todo on it, complete the todo, delete the board: its todos and the board are gone. */
  method EndToEnd() returns (done: Reply<Todo>, todosAfter: Reply<seq<Todo>>, boardAfter: Reply<Board>)
    ensures done.Done? && done.body.status == Completed && done.body.priority == Low
    ensures todosAfter == Done(OK, [])
    ensures boardAfter == Failed(NOT_FOUND, NOT_FOUND_ERROR)
  {
    var s, board, todo := Groceries();
    var id := board.id;
    done := s.UpdateTodo(ALICE, todo.id, TodoPatch(None, None, None, None, None, Some(Completed), None));
    assert s.todos == [done.body] && done.body.boardId == id;
    var deleted := s.DeleteBoard(ALICE, id);
    assert s.todos == [] && s.boards == [];
    todosAfter := s.ListTodos(ALICE, id);
    DescendingUnique(todosAfter.body, [], TodoCreated);
    boardAfter := s.GetBoard(ALICE, id);
  }

  /** The todo listing is not filtered by owner: Bob sees Alice's todo on Alice's board. */
  method ForeignTodoListing() returns (list: Reply<seq<Todo>>)
    ensures list.Done? && |list.body| == 1 && list.body[0].userId == ALICE && list.body[0].title == "Buy milk"
  {
    var s := new Store();
    var board := s.CreateBoard(ALICE, BoardBody(None, Some("Groceries"), None, None));
    var todo := s.CreateTodo(ALICE, TodoBody(Some(board.body.id), None, Some("Buy milk"), None, None, None, None));
    list := s.ListTodos(BOB, board.body.id);
    DescendingUnique(list.body, [todo.body], TodoCreated);
  }

  /** Todo creation does not check that the board exists: a todo on a board nobody created is accepted. */
  method OrphanTodo() returns (orphan: Reply<Todo>, s: Store)
    ensures orphan.Done? && orphan.status == CREATED && orphan.body.boardId == 7
    ensures s.Valid() && s.boards == [] && !s.NoOrphans()
  {
    s := new Store();
    orphan := s.CreateTodo(ALICE, TodoBody(Some(7), None, Some("Nowhere"), None, None, None, None));
    assert orphan.body in s.todos;
  }

  /**
   * Todo creation does not check who owns the board: Bob's todo on Alice's
   * board is accepted, and Alice's board delete removes it with the rest.
   */
  method ForeignTodo() returns (foreign: Reply<Todo>, afterDelete: Reply<seq<Todo>>)
    ensures foreign.Done? && foreign.status == CREATED && foreign.body.userId == BOB
    ensures afterDelete == Done(OK, [])
  {
    var s := new Store();
    var board := s.CreateBoard(ALICE, BoardBody(None, Some("Groceries"), None, None));
    var id := board.body.id;
    foreign := s.CreateTodo(BOB, TodoBody(Some(id), None, Some("Sneaky"), None, None, None, None));
    var deleted := s.DeleteBoard(ALICE, id);
    afterDelete := s.ListTodos(BOB, id);
    DescendingUnique(afterDelete.body, [], TodoCreated);
  }

  /** The update body is applied unfiltered: Alice can hand her board to Bob, after which only Bob can read it. */
  method OwnerRewrite() returns (put: Reply<Board>, alice: Reply<Board>, bob: Reply<Board>)
    ensures put.Done? && put.body.userId == BOB
    ensures alice == Failed(NOT_FOUND, NOT_FOUND_ERROR)
    ensures bob.Done? && bob.body.title == "Groceries"
  {
    var s := new Store();
    var board := s.CreateBoard(ALICE, BoardBody(Some(BOB), Some("Groceries"), None, None));
    var id := board.body.id;
    put := s.UpdateBoard(ALICE, id, BoardPatch(Some(BOB), None, None, None));
    alice := s.GetBoard(ALICE, id);
    bob := s.GetBoard(BOB, id);
  }
}
