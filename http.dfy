/** The answer a route handler sends: a status code and a body. */
module Http {

  datatype Body<R> = RowBody(row: R) | RowsBody(rows: seq<R>) | ErrorBody(error: string) | NoBody

  datatype Reply<R> = Reply(status: nat, body: Body<R>)

  const OK: nat := 200
  const Created: nat := 201
  const NoContent: nat := 204
  const BadRequest: nat := 400
  const NotFound: nat := 404
  const ServerError: nat := 500
}
