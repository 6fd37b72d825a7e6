/**
 * The error middleware of `server/src/middleware/errorHandler.ts`: an error is
 * given a code (from its class, or from words in its message), a status (500
 * unless it carries one), a log level, and a JSON body that hides the message
 * and details of server errors in production.
 */
module ErrorHandler {
  import opened Common
  import opened Json
  import opened JsText

  /**
   * An `AppError`. `operationalClass` is `instanceof OperationalError`; `stack`
   * is `err.stack`; a `statusCode` of 0 counts as missing, as `||` does.
   */
  datatype AppError = AppError(
    operationalClass: bool,
    message: string,
    statusCode: Option<int>,
    isOperational: Option<bool>,
    details: Option<Json>,
    stack: Option<string>)

  datatype NodeEnv = Production | Development | OtherEnv

  datatype LogLevel = Warn | Error

  datatype ErrorBody = ErrorBody(code: string, message: string, details: Option<Json>, stack: Option<string>)

  /** The JSON sent: `success: false`, the error, the request id, and in development the stack. */
  datatype Response = Response(status: int, error: ErrorBody, requestId: Option<string>, stack: Option<string>)

  const DefaultMessage := "An unexpected error occurred"

  /** `new OperationalError(message, statusCode = 500, details)` */
  function NewOperationalError(message: string, statusCode: Option<int>, details: Option<Json>, stack: Option<string>)
    : (e: AppError)
    ensures e.operationalClass && e.isOperational == Some(true)
    ensures e.statusCode == Some(statusCode.GetOr(500))
    ensures e.message == message && e.details == details
  {
    AppError(true, message, Some(statusCode.GetOr(500)), Some(true), details, stack)
  }

  /** `s.replace(/ERROR$/, '')` */
  function StripErrorSuffix(s: string): (r: string)
    ensures |s| >= 5 && s[|s| - 5..] == "ERROR" ==> s == r + "ERROR"
    ensures !(|s| >= 5 && s[|s| - 5..] == "ERROR") ==> r == s
  {
    if |s| >= 5 && s[|s| - 5..] == "ERROR" then s[..|s| - 5] else s
  }

  /** The code of an `OperationalError`: its class name in capitals without the trailing "ERROR". */
  function OperationalCode(): (r: string)
    ensures r == "OPERATIONAL"
  {
    var upper := ToUpper("OperationalError");
    assert upper == "OPERATIONALERROR";
    StripErrorSuffix(upper)
  }

  /** The message tests of `getErrorCode`, in order: words to look for and the code they give. */
  datatype CodeRule = CodeRule(words: seq<string>, code: string)

  const CodeRules: seq<CodeRule> := [
    CodeRule(["validation"], "VALIDATION_ERROR"),
    CodeRule(["not found"], "NOT_FOUND"),
    CodeRule(["unauthorized"], "UNAUTHORIZED"),
    CodeRule(["forbidden"], "FORBIDDEN"),
    CodeRule(["duplicate"], "DUPLICATE"),
    CodeRule(["rate limit"], "RATE_LIMIT"),
    CodeRule(["timeout"], "TIMEOUT"),
    CodeRule(["network", "fetch"], "NETWORK_ERROR")
  ]

  const InternalCode := "INTERNAL_ERROR"

  predicate Fires(rule: CodeRule, msg: string) {
    exists w :: w in rule.words && Contains(msg, w)
  }

  /** The first rule from index `i` on that fires on `msg`. */
  function CodeFrom(msg: string, i: nat): (r: string)
    requires i <= |CodeRules|
    decreases |CodeRules| - i
  {
    if i == |CodeRules| then InternalCode
    else if Fires(CodeRules[i], msg) then CodeRules[i].code
    else CodeFrom(msg, i + 1)
  }

  /** `getErrorCode(error)` */
  function ErrorCode(e: AppError): string {
    if e.operationalClass then OperationalCode() else CodeFrom(ToLower(e.message), 0)
  }

  /** `err.statusCode || 500` */
  function StatusOf(e: AppError): (r: int)
    ensures e.statusCode.Some? && e.statusCode.value != 0 ==> r == e.statusCode.value
    ensures e.statusCode.None? || e.statusCode.value == 0 ==> r == 500
  {
    match e.statusCode
    case Some(s) => if s != 0 then s else 500
    case None => 500
  }

  /** `err.statusCode && err.statusCode < 500`: warning, otherwise error. */
  function LevelOf(e: AppError): (r: LogLevel)
    ensures r == Warn <==> StatusOf(e) < 500 && e.statusCode.Some? && e.statusCode.value != 0
  {
    match e.statusCode
    case Some(s) => if s != 0 && s < 500 then Warn else Error
    case None => Error
  }

  /** `formatErrorResponse(error, requestId)` without the status. */
  function Format(e: AppError, requestId: string, env: NodeEnv): ErrorBody {
    ErrorBody(
      ErrorCode(e),
      if e.message != [] then e.message else DefaultMessage,
      if e.details.Some? && Truthy(e.details.value) then e.details else None,
      if env == Development && e.stack.Some? && e.stack.value != [] then e.stack else None)
  }

  /** `errorHandler(err, req, res)`: what is logged and what is sent. */
  function Handle(err: AppError, rawRequestId: string, env: NodeEnv): (LogLevel, Response) {
    var requestId := if rawRequestId != [] then rawRequestId else "unknown";
    var status := StatusOf(err);
    var masked := status >= 500 && env == Production;
    var shownError := if masked then NewOperationalError(DefaultMessage, Some(500), None, err.stack) else err;
    var formatted := Format(shownError, requestId, env);
    var sent := if masked then formatted.(details := None) else formatted;
    var topStack := if env == Development then err.stack else None;
    (LevelOf(err), Response(status, sent, Some(requestId), topStack))
  }

  /** `notFoundHandler`: the error handed on for an unknown route. */
  function NotFound(verb: string, url: string, stack: Option<string>): AppError {
    NewOperationalError("Route " + verb + " " + url + " not found", Some(404), None, stack)
  }

  // ---------------------------------------------------------------- properties

  /** The first rule that fires decides the code: rule `k` wins iff it fires and no earlier one does. */
  lemma {:induction false} CodeFirstMatch(msg: string, i: nat, k: nat)
    requires i <= k < |CodeRules|
    requires forall j :: i <= j < k ==> !Fires(CodeRules[j], msg)
    ensures Fires(CodeRules[k], msg) ==> CodeFrom(msg, i) == CodeRules[k].code
    decreases k - i
  {
    if i < k {
      CodeFirstMatch(msg, i + 1, k);
    }
  }

  /** A message none of the rules fires on gives INTERNAL_ERROR, and only such a message does. */
  lemma {:induction false} CodeInternal(msg: string, i: nat)
    requires i <= |CodeRules|
    ensures CodeFrom(msg, i) == InternalCode <==> forall j :: i <= j < |CodeRules| ==> !Fires(CodeRules[j], msg)
    decreases |CodeRules| - i
  {
    if i < |CodeRules| {
      CodeInternal(msg, i + 1);
    }
  }

  /** Every error code is one of the nine codes, or OPERATIONAL. */
  lemma {:induction false} CodeFromTable(msg: string, i: nat)
    requires i <= |CodeRules|
    ensures CodeFrom(msg, i) == InternalCode || exists j :: i <= j < |CodeRules| && CodeFrom(msg, i) == CodeRules[j].code
    decreases |CodeRules| - i
  {
    if i < |CodeRules| {
      CodeFromTable(msg, i + 1);
    }
  }

  /** Any `OperationalError` gets the code OPERATIONAL, whatever its message. */
  lemma OperationalErrorCode(message: string, statusCode: Option<int>, details: Option<Json>, stack: Option<string>)
    ensures ErrorCode(NewOperationalError(message, statusCode, details, stack)) == "OPERATIONAL"
  {
  }

  /** A message mentioning a validation anywhere, in any case, gives VALIDATION_ERROR. */
  lemma ValidationFirst(e: AppError)
    requires !e.operationalClass && Contains(ToLower(e.message), "validation")
    ensures ErrorCode(e) == "VALIDATION_ERROR"
  {
    assert "validation" in CodeRules[0].words;
  }

  /** In production a server error hides its message and details; its status is kept. */
  lemma ProductionHidesServerErrors(err: AppError, rid: string)
    requires StatusOf(err) >= 500
    ensures var r := Handle(err, rid, Production).1;
      r.status == StatusOf(err) && r.error.code == "OPERATIONAL" &&
      r.error.message == DefaultMessage && r.error.details.None? && r.error.stack.None? && r.stack.None?
  {
  }

  /** Outside production, or below 500, the client sees the error's own code, message and details. */
  lemma OtherwiseShown(err: AppError, rid: string, env: NodeEnv)
    requires env != Production || StatusOf(err) < 500
    ensures var r := Handle(err, rid, env).1;
      r.error.code == ErrorCode(err) &&
      r.error.message == (if err.message != [] then err.message else DefaultMessage) &&
      (err.details.Some? && Truthy(err.details.value) ==> r.error.details == err.details)
  {
  }

  /** The request id is echoed, with "unknown" standing in for a missing one. */
  lemma RequestIdAlwaysSent(err: AppError, rid: string, env: NodeEnv)
    ensures var r := Handle(err, rid, env).1;
      r.requestId.Some? && r.requestId.value != [] && (rid != [] ==> r.requestId.value == rid)
  {
  }

  /** An unknown route answers 404 with its route in the message, logged as a warning, in any environment. */
  lemma NotFoundResponse(verb: string, url: string, rid: string, env: NodeEnv, stack: Option<string>)
    ensures var r := Handle(NotFound(verb, url, stack), rid, env);
      r.0 == Warn && r.1.status == 404 && r.1.error.code == "OPERATIONAL" &&
      r.1.error.message == "Route " + verb + " " + url + " not found"
  {
  }
}
