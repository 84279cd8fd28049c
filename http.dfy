/** What every API handler shares: the request method, the status codes it
    answers with, and a reply that is either a JSON body or `{ error }`. */
module Http {

  datatype Method = GET | POST | PUT | DELETE | PATCH

  const StatusOk: nat := 200
  const StatusCreated: nat := 201
  const StatusBadRequest: nat := 400
  const StatusUnauthorized: nat := 401
  const StatusNotFound: nat := 404
  const StatusMethodNotAllowed: nat := 405
  const StatusServerError: nat := 500

  /** `res.status(s).json(body)`: `Failure` is a body of the form
      `{ error: message }`, `Success` any other body. */
  datatype Reply<T> = Success(status: nat, value: T) | Failure(status: nat, error: string)

  const MethodNotAllowedMsg: string := "Method not allowed"
  const UnauthorizedMsg: string := "Unauthorized"
  const ServerErrorMsg: string := "Server error"
}
