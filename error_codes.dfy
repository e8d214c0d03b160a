/** The application's public error-code vocabulary and its validator
    (ai.membo.constants.ErrorCodes). */
module ErrorCodes {
  import opened Base

  const BAD_REQUEST: string := "BAD_REQUEST"
  const UNAUTHORIZED: string := "UNAUTHORIZED"
  const FORBIDDEN: string := "FORBIDDEN"
  const NOT_FOUND: string := "NOT_FOUND"
  const VALIDATION: string := "VALIDATION_ERROR"
  const RATE_LIMIT: string := "RATE_LIMIT_EXCEEDED"
  const INTERNAL: string := "INTERNAL_SERVER_ERROR"
  const SERVICE_UNAVAILABLE: string := "SERVICE_UNAVAILABLE"

  /** The eight declared constants, in declaration order. */
  const DeclaredCodes: seq<string> :=
    [BAD_REQUEST, UNAUTHORIZED, FORBIDDEN, NOT_FOUND, VALIDATION, RATE_LIMIT, INTERNAL, SERVICE_UNAVAILABLE]

  /** The string-resource entry chosen for each code. */
  datatype MessageResource =
    | ErrorBadRequest | ErrorUnauthorized | ErrorForbidden | ErrorNotFound
    | ErrorValidation | ErrorRateLimit | ErrorInternal | ErrorServiceUnavailable
    | ErrorUnknown

  datatype LookupResult = Message(resource: MessageResource) | IllegalArgument

  /** The switch of isValidErrorCode: null is invalid, the eight constants
      are valid, every other string is invalid. */
  function IsValidErrorCode(code: Option<string>): (r: bool)
    ensures r <==> code.Some? && code.value in DeclaredCodes
  {
    match code
    case None => false
    case Some(c) =>
      c == BAD_REQUEST || c == UNAUTHORIZED || c == FORBIDDEN || c == NOT_FOUND
      || c == VALIDATION || c == RATE_LIMIT || c == INTERNAL || c == SERVICE_UNAVAILABLE
  }

  /** The resource switch of getLocalizedMessage; its default arm is only
      reached by strings that the guard clauses already rejected. */
  function ResourceFor(code: string): (r: MessageResource)
    ensures r == ErrorUnknown <==> code !in DeclaredCodes
  {
    if code == BAD_REQUEST then ErrorBadRequest
    else if code == UNAUTHORIZED then ErrorUnauthorized
    else if code == FORBIDDEN then ErrorForbidden
    else if code == NOT_FOUND then ErrorNotFound
    else if code == VALIDATION then ErrorValidation
    else if code == RATE_LIMIT then ErrorRateLimit
    else if code == INTERNAL then ErrorInternal
    else if code == SERVICE_UNAVAILABLE then ErrorServiceUnavailable
    else ErrorUnknown
  }

  /** getLocalizedMessage up to the resource lookup: a null context or an
      invalid code raises IllegalArgumentException before any lookup. */
  function GetLocalizedMessage(hasContext: bool, code: Option<string>): (r: LookupResult)
    ensures r.IllegalArgument? <==> !hasContext || !IsValidErrorCode(code)
    ensures r.Message? ==> r.resource != ErrorUnknown
  {
    if !hasContext then IllegalArgument
    else if !IsValidErrorCode(code) then IllegalArgument
    else Message(ResourceFor(code.value))
  }

  /** The eight constants are pairwise distinct. */
  lemma DeclaredCodesDistinct()
    ensures forall i, j :: 0 <= i < j < |DeclaredCodes| ==> DeclaredCodes[i] != DeclaredCodes[j]
  {
  }

  /** Distinct valid codes get distinct resources, so no two codes share a message. */
  lemma ResourcesDistinct(a: string, b: string)
    requires IsValidErrorCode(Some(a)) && IsValidErrorCode(Some(b)) && a != b
    ensures ResourceFor(a) != ResourceFor(b)
  {
  }
}
