/**
 * The Board document: `boardSchema` with its required fields and defaults,
 * and the partial update a `PUT /boards/:id` body applies to it.
 */
module BoardSchema {
  import opened Common

  /** The default of the `color` path. */
  const DEFAULT_COLOR: string := "#3B82F6"

  datatype Board = Board(
    id: Id,
    userId: UserId,              // required, references a User
    title: string,               // required at save
    description: Option<string>, // optional, may be absent
    color: string,
    createdAt: nat)              // defaults to the clock at creation

  /**
   * `new Board(fields)` followed by validation on `save()`: defaults fill the
   * paths left undefined, and a missing `userId`, or a missing or empty
   * `title` (a required string must be non-empty), fails validation.
   */
  function NewBoard(id: Id, userId: Option<UserId>, title: Option<string>,
                    description: Option<string>, color: Option<string>, now: nat): (r: Option<Board>)
    ensures r.Some? <==> userId.Some? && title.Some? && title.value != ""
    ensures r.Some? ==> r.value.id == id && r.value.userId == userId.value && r.value.title == title.value
    ensures r.Some? ==> r.value.description == description && r.value.createdAt == now
    ensures r.Some? ==> r.value.color == (if color.Some? then color.value else DEFAULT_COLOR)
  {
    if userId.None? || title.None? || title.value == "" then None
    else
      Some(Board(id, userId.value, title.value, description,
                 match color case Some(c) => c case None => DEFAULT_COLOR,
                 now))
  }

  /**
   * The schema paths a request body may set through `findOneAndUpdate`
   * (fields outside the schema are dropped in strict mode). `userId` is
   * among them: the handler does not filter the body.
   */
  datatype BoardPatch = BoardPatch(
    userId: Option<UserId>,
    title: Option<string>,
    description: Option<string>,
    color: Option<string>)

  /** The document after `$set` of every path the patch names; validators do not run on update. */
  function PatchBoard(b: Board, p: BoardPatch): (r: Board)
    ensures r.id == b.id && r.createdAt == b.createdAt
    ensures r.userId == (if p.userId.Some? then p.userId.value else b.userId)
    ensures r.title == (if p.title.Some? then p.title.value else b.title)
    ensures r.description == (if p.description.Some? then p.description else b.description)
    ensures r.color == (if p.color.Some? then p.color.value else b.color)
  {
    b.(userId := if p.userId.Some? then p.userId.value else b.userId,
       title := if p.title.Some? then p.title.value else b.title,
       description := if p.description.Some? then p.description else b.description,
       color := if p.color.Some? then p.color.value else b.color)
  }

  /** Applying the same patch twice gives the same document as applying it once. */
  lemma PatchBoardIdempotent(b: Board, p: BoardPatch)
    ensures PatchBoard(PatchBoard(b, p), p) == PatchBoard(b, p)
  {
  }
}
