/**
 * The browser-side `compileGo(code, testCode?)`: posts the code to the compile
 * server and maps the HTTP status, the JSON body or the thrown exception to a
 * `CompileResult`. The fetch itself, the abort timer and JSON parsing are not
 * modelled: what they produce is the `FetchOutcome` input.
 */
module GoCompilerClient {
  import opened Strings
  import CompileServer

  datatype CompileResult = CompileResult(output: string, errors: seq<string>, success: bool)

  /** The parsed JSON body: `errors` is `None` when the field is absent, and
      `output` is `data.output || ''`, so an absent output reads as "". */
  datatype ResponseBody = ResponseBody(errors: Option<seq<string>>, output: string)

  /** How the `fetch` ended: with a response, or by throwing (which covers the
      abort after 20 s and a body that is not JSON). */
  datatype FetchOutcome = Responded(status: nat, body: ResponseBody) | Threw(thrown: Thrown)

  /** The JSON request body: `testCode` is sent only when it is truthy. */
  datatype RequestBody = RequestBody(code: string, testCode: Option<string>)

  const ServerErrorPrefix := "Server error: "
  const AbortMessage := "Request timed out. Make sure the Go compiler server is running."
  const FailurePrefix := "Failed to compile: "
  const FailureSuffix := ". Is the Go compiler server running?"

  function BuildRequest(code: string, testCode: string): (body: RequestBody)
    ensures body.code == code
    ensures body.testCode.Some? <==> testCode != ""
    ensures body.testCode.Some? ==> body.testCode.value == testCode
  {
    RequestBody(code, if testCode != "" then Some(testCode) else None)
  }

  /** `response.ok` */
  predicate IsOk(status: nat)
  {
    200 <= status <= 299
  }

  function FailureOf(message: string): CompileResult
  {
    CompileResult("", [message], false)
  }

  /** The value `compileGo` resolves with. */
  function ClientResult(f: FetchOutcome): (r: CompileResult)
    ensures r.success <==> r.errors == []
    ensures !r.success ==> r.output == ""
    ensures f.Responded? && !IsOk(f.status) ==>
              r == FailureOf(ServerErrorPrefix + DecimalString(f.status))
    ensures f.Responded? && IsOk(f.status) && f.body.errors.Some? && f.body.errors.value != [] ==>
              r == CompileResult("", f.body.errors.value, false)
    ensures f.Responded? && IsOk(f.status) && (f.body.errors.None? || f.body.errors.value == []) ==>
              r == CompileResult(f.body.output, [], true)
    ensures f.Threw? && Contains(ThrownMessage(f.thrown), "abort") ==> r == FailureOf(AbortMessage)
    ensures f.Threw? && !Contains(ThrownMessage(f.thrown), "abort") ==>
              r == FailureOf(FailurePrefix + ThrownMessage(f.thrown) + FailureSuffix)
  {
    match f
    case Responded(status, body) =>
      if !IsOk(status) then FailureOf(ServerErrorPrefix + DecimalString(status))
      else if body.errors.Some? && |body.errors.value| > 0 then CompileResult("", body.errors.value, false)
      else CompileResult(body.output, [], true)
    case Threw(t) =>
      var message := ThrownMessage(t);
      if IndexOf(message, "abort").Some? then FailureOf(AbortMessage)
      else FailureOf(FailurePrefix + message + FailureSuffix)
  }

  /** The server error's text carries the status, which can be read back. */
  lemma ServerErrorNamesStatus(status: nat)
    requires !IsOk(status)
    ensures var e := ClientResult(Responded(status, ResponseBody(None, ""))).errors[0];
            StartsWith(e, ServerErrorPrefix)
            && AllDigits(e[|ServerErrorPrefix|..])
            && DecimalValue(e[|ServerErrorPrefix|..]) == status
  {
    var e := ClientResult(Responded(status, ResponseBody(None, ""))).errors[0];
    assert e[|ServerErrorPrefix|..] == DecimalString(status);
    DecimalRoundTrip(status);
  }

  /** What the server's JSON reply reads as on the client. */
  function BodyOf(r: CompileServer.CompileResponse): ResponseBody
  {
    ResponseBody(Some(r.errors), r.output)
  }

  /** End to end: a server response delivered with status 200 reaches the
      learner unchanged, except for a failure that carries no error line (a
      process that wrote only blank lines to stderr), which the client turns
      into an empty success. */
  lemma {:induction false} ServerResponseDelivered(outcome: CompileServer.ExecOutcome, tmpPath: string)
    ensures var s := CompileServer.ExecResponse(outcome, tmpPath);
            var c := ClientResult(Responded(200, BodyOf(s)));
            (s.success || s.errors != []) ==>
              c == CompileResult(s.output, s.errors, s.success)
    ensures var s := CompileServer.ExecResponse(outcome, tmpPath);
            var c := ClientResult(Responded(200, BodyOf(s)));
            (!s.success && s.errors == []) ==> c == CompileResult("", [], true)
  {
    var s := CompileServer.ExecResponse(outcome, tmpPath);
    assert CompileServer.WellShaped(s);
  }

  /** The empty-success corner is reachable: a failed process whose stderr is
      only a line break. */
  lemma BlankStderrReadsAsSuccess(tmpPath: string)
    ensures var s := CompileServer.ExecResponse(
              CompileServer.ExecOutcome(Some(CompileServer.ExecError(false, "exit status 1")), "", "\n"),
              tmpPath);
            !s.success && s.errors == []
            && ClientResult(Responded(200, BodyOf(s))).success
  {
    assert Split("\n", '\n') == ["", ""];
    assert IsBlank("");
    assert NonBlank(["", ""]) == NonBlank([""]) == [];
  }
}
