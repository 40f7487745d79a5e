/** Error codes and the exceptions the core raises (app/errors/business_exception.py,
    fastapi.HTTPException, and the PyJWT and Python built-in errors that escape). */
module Errors {

  /** `ErrorCodes`, the enumeration of business error codes. */
  datatype ErrorCode =
    | UNAUTHORIZED
    | ALREADY_EXISTS
    | MESSAGE_SAVE_ERROR
    | NOT_FOUND
    | INVALID_PAYLOAD
    | INVALID_INPUT
    | INVALID_OPERATION
    | INVALID_STATE
    | FORBIDDEN
    | CONFLICT
    | INTERNAL_SERVER_ERROR

  /** The string value each enumeration member carries. */
  function CodeValue(c: ErrorCode): (s: string)
  {
    match c
    case UNAUTHORIZED => "UNAUTHORIZED"
    case ALREADY_EXISTS => "ALREADY_EXISTS"
    case MESSAGE_SAVE_ERROR => "MESSAGE_SAVE_ERROR"
    case NOT_FOUND => "NOT_FOUND"
    case INVALID_PAYLOAD => "INVALID_PAYLOAD"
    case INVALID_INPUT => "INVALID_INPUT"
    case INVALID_OPERATION => "INVALID_OPERATION"
    case INVALID_STATE => "INVALID_STATE"
    case FORBIDDEN => "FORBIDDEN"
    case CONFLICT => "CONFLICT"
    case INTERNAL_SERVER_ERROR => "INTERNAL_SERVER_ERROR"
  }

  /** Every member's value is its own name, so no two members share a value. */
  lemma CodeValueInjective(a: ErrorCode, b: ErrorCode)
    ensures CodeValue(a) == CodeValue(b) ==> a == b
  {
  }

  /** The exceptions that leave the modelled functions. */
  datatype Exception =
    | HttpException(status: int, detail: string)
    | BusinessException(code: ErrorCode, msg: string)
    | ExpiredSignatureError
    | InvalidTokenError
    | KeyError(key: string)
    | TypeError
    | JsonDecodeError
    | AttributeError
    | ValidationError(fields: seq<string>)
}
