/** The result codes the handlers exchange. The module that assigns them
    numbers is not part of this model, so each code is a constructor of
    its own and any two different codes are different. */
module Codes {
  datatype Code =
    | Success
    | InvalidValue
    | BadSlackApiAuthCredentials
    | BadRequestData
    | InternalServerError
    | UndefinedError
    | NonSlackRequest
    | BadSlackTimestampRequest
    | BadSlackSignature
    | OperationError
    | IntratimeConnectionError
    | IntratimeAuthError
}
