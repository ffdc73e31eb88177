/** What a route handler answers: a JSON body with status 200, or an
    `{ error }` body with a client or server error status. */
module Http {

  const BadRequest := 400
  const NotFound := 404
  const ServerError := 500

  datatype Response<T> = Ok(body: T) | Error(status: int, message: string)
}
