/** Types shared by the middleware, the schemas and the route handlers. */
module Common {

  datatype Option<+T> = None | Some(value: T)

  /** A MongoDB ObjectId, drawn from the store's id counter. */
  type Id = nat

  /** The id of a User document: the principal that a verified token names. */
  type UserId = Id

  // HTTP status codes the handlers send.
  const OK: int := 200
  const CREATED: int := 201
  const BAD_REQUEST: int := 400
  const UNAUTHORIZED: int := 401
  const NOT_FOUND: int := 404

  /** What a handler sends: `res.status(code).json(body)` or `res.status(code).json({ error })`. */
  datatype Reply<T> = Done(status: int, body: T) | Failed(status: int, error: string)
}
