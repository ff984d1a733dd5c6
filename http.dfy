/** The HTTP responses the handlers produce through `c.JSON(status, value)`. */
module Http {

  const StatusOK := 200
  const StatusCreated := 201
  const StatusBadRequest := 400
  const StatusUnauthorized := 401
  const StatusNotFound := 404
  const StatusConflict := 409
  const StatusInternalServerError := 500

  /** `map[string]string{"error": …}`, `map[string]string{"message": …}`, or a model value. */
  datatype Body<+T> = ErrorJson(error: string) | MessageJson(message: string) | Payload(value: T)

  datatype Response<+T> = Response(status: int, body: Body<T>)
  {
    predicate IsClientError() { 400 <= status < 500 }
  }

  function Fail<T>(status: int, msg: string): Response<T> { Response(status, ErrorJson(msg)) }

  /** What binding a JSON request body yields: a failure, or the decoded record. */
  datatype Bind<+T> = BindFailed | Bound(body: T)
}
