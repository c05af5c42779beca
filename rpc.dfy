/** What a procedure hands back to its caller: a reply object, or the error
    it throws. Input that fails its schema is refused with the list of issue
    messages (tRPC answers `BAD_REQUEST`); a handler's own `TRPCError`
    carries a code and a message. */
module Rpc {
  datatype ErrorCode = BadRequest | InternalServerError | NotFound

  datatype RpcError =
    | Rejected(issues: seq<string>)
    | Raised(code: ErrorCode, message: string)

  /** The `{ success, message }` object most mutations return. */
  datatype Reply = Reply(success: bool, message: string)
}
