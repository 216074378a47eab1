/** The two envelopes that cross the socket. */
module Message {
  import opened Json

  /** An outbound call (`SurrealMessage`): correlation id, method name, parameters. */
  datatype Request = Request(id: string, methodName: string, params: Value)

  /** A decoded inbound frame (`SurrealResponseData`): the id it answers and the raw result. */
  datatype ResponseData = ResponseData(id: string, result: Value)
}
