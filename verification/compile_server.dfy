/**
 * The compile server: `POST /api/compile` writes the submitted Go program to
 * a temporary file named after a digest of the code, runs `go run` on it,
 * tries to remove the file again, and turns the process outcome into a
 * `{output, errors, success}` response.
 *
 * The process, the file system and the digest are inputs: the
 * process outcome is an input record, the file system is the `Host` object
 * (its files and the log of commands it was asked to spawn), and the digest
 * is a function parameter.
 */
module CompileServer {
  import opened Strings

  datatype CompileResponse = CompileResponse(output: string, errors: seq<string>, success: bool)

  /** The `error` argument of the `exec` callback: whether Node killed the
      process (the 15 s timeout) and the error's message. */
  datatype ExecError = ExecError(killed: bool, message: string)

  /** Everything the `exec` callback receives. */
  datatype ExecOutcome = ExecOutcome(error: Option<ExecError>, stdout: string, stderr: string)

  const TimeoutMessage := "Execution timed out. Your code took too long to run."
  const LearnerFile := "main.go"
  const WriteFailurePrefix := "Failed to write code: "
  const NoCodeMessage := "No code provided"

  /** The shape every response of `compileGo` has: a success carries no
      errors, a failure carries no output. */
  predicate WellShaped(r: CompileResponse)
  {
    (r.success ==> r.errors == []) && (!r.success ==> r.output == "")
  }

  /** `s.slice(0, n)` */
  function Take(s: string, n: nat): (r: string)
    ensures |r| == if |s| <= n then |s| else n
    ensures r == s[..|r|]
  {
    if |s| <= n then s else s[..n]
  }

  /** `go_run_${digest(code).slice(0, 8)}.go`: the fixed prefix and
      extension around at most eight characters of the digest. */
  function TempFileName(digest: string -> string, code: string): (r: string)
    ensures |r| == 10 + if |digest(code)| <= 8 then |digest(code)| else 8
    ensures r[..7] == "go_run_" && r[|r| - 3..] == ".go"
    ensures r[7..|r| - 3] == digest(code)[..|r| - 10]
  {
    "go_run_" + Take(digest(code), 8) + ".go"
  }

  /** Two submissions get the same temporary file name exactly when the first
      eight characters of their digests agree; nothing else about the code
      enters the name. */
  lemma TempFileNameCollision(digest: string -> string, c1: string, c2: string)
    ensures TempFileName(digest, c1) == TempFileName(digest, c2)
            <==> Take(digest(c1), 8) == Take(digest(c2), 8)
  {
    var n1, n2 := TempFileName(digest, c1), TempFileName(digest, c2);
    if n1 == n2 {
      assert Take(digest(c1), 8) == n1[7..|n1| - 3];
      assert Take(digest(c2), 8) == n2[7..|n2| - 3];
    }
  }

  /** `path.join(dir, name)` for a plain file name: the directory, a single
      separator unless the directory is empty or already ends in one, then the
      name. */
  function JoinPath(dir: string, name: string): (p: string)
    ensures |p| >= |dir| + |name|
    ensures p[..|dir|] == dir && p[|p| - |name|..] == name
    ensures dir != "" ==> p[|p| - |name| - 1] == '/'
  {
    if dir == "" then name
    else if dir[|dir| - 1] == '/' then dir + name
    else dir + "/" + name
  }

  /** Where the submission is written: inside the temporary directory,
      ending in the temporary file name. */
  function TempPath(tmpDir: string, digest: string -> string, code: string): (p: string)
    ensures |p| >= |"go_run_.go"|
    ensures |p| >= |tmpDir| + |TempFileName(digest, code)|
    ensures p[..|tmpDir|] == tmpDir
    ensures p[|p| - |TempFileName(digest, code)|..] == TempFileName(digest, code)
    ensures tmpDir != "" ==> p[|p| - |TempFileName(digest, code)| - 1] == '/'
  {
    JoinPath(tmpDir, TempFileName(digest, code))
  }

  /** `line.replace(pat, rep)` with a string pattern: only the leftmost
      occurrence is replaced. */
  function ReplaceFirst(line: string, pat: string, rep: string): (r: string)
    ensures IndexOf(line, pat).None? ==> r == line
    ensures IndexOf(line, pat).Some? ==>
              var i := IndexOf(line, pat).value;
              r == line[..i] + rep + line[i + |pat|..]
              && (forall j: nat :: j < i ==> !OccursAt(line, pat, j))
  {
    match IndexOf(line, pat)
    case None => line
    case Some(i) => line[..i] + rep + line[i + |pat|..]
  }

  /** The errors of a failed run: the message split into lines, blank lines
      dropped, and in each line the first occurrence of the temporary path
      replaced by `main.go`. */
  function Diagnostics(message: string, tmpPath: string): (errors: seq<string>)
    ensures |errors| == |NonBlank(Split(message, '\n'))|
    ensures forall k :: 0 <= k < |errors| ==>
              errors[k] == ReplaceFirst(NonBlank(Split(message, '\n'))[k], tmpPath, LearnerFile)
  {
    var lines := NonBlank(Split(message, '\n'));
    seq(|lines|, k requires 0 <= k < |lines| => ReplaceFirst(lines[k], tmpPath, LearnerFile))
  }

  /** The response the `exec` callback resolves with. */
  function ExecResponse(outcome: ExecOutcome, tmpPath: string): (r: CompileResponse)
    ensures WellShaped(r)
    ensures r.success <==> outcome.error.None?
    ensures outcome.error.None? ==> r.output == outcome.stdout
    ensures outcome.error.Some? && outcome.error.value.killed ==>
              r == CompileResponse("", [TimeoutMessage], false)
    ensures outcome.error.Some? && !outcome.error.value.killed ==>
              r.errors == Diagnostics(if outcome.stderr != "" then outcome.stderr
                                      else outcome.error.value.message, tmpPath)
  {
    match outcome.error
    case Some(e) =>
      if e.killed then CompileResponse("", [TimeoutMessage], false)
      else
        var message := if outcome.stderr != "" then outcome.stderr else e.message;
        CompileResponse("", Diagnostics(message, tmpPath), false)
    case None => CompileResponse(outcome.stdout, [], true)
  }

  /** The response of the `catch` block when writing the file threw. */
  function WriteFailure(t: Thrown): (r: CompileResponse)
    ensures WellShaped(r) && !r.success
    ensures |r.errors| == 1 && StartsWith(r.errors[0], WriteFailurePrefix)
    ensures r.errors[0][|WriteFailurePrefix|..] == ThrownMessage(t)
  {
    CompileResponse("", [WriteFailurePrefix + ThrownMessage(t)], false)
  }

  /** Every diagnostic line is non-blank and holds no line break. */
  lemma {:induction false} DiagnosticLinesAreSingleLines(message: string, tmpPath: string, k: nat)
    requires k < |Diagnostics(message, tmpPath)|
    requires '\n' !in tmpPath
    ensures '\n' !in Diagnostics(message, tmpPath)[k]
    ensures !IsBlank(Diagnostics(message, tmpPath)[k])
  {
    var line := NonBlank(Split(message, '\n'))[k];
    assert line in Split(message, '\n');
    SplitPiecesLackSeparator(message, '\n');
    var d := Diagnostics(message, tmpPath)[k];
    match IndexOf(line, tmpPath)
    case None =>
    case Some(i) =>
      assert d == line[..i] + LearnerFile + line[i + |tmpPath|..];
      assert !IsSpace(d[i]);
  }

  /** Only the leftmost occurrence is rewritten: a diagnostic line that names
      the temporary file twice still shows it once. */
  lemma SecondOccurrenceSurvives(tmpPath: string)
    requires tmpPath != ""
    ensures ReplaceFirst(tmpPath + " " + tmpPath, tmpPath, LearnerFile)
            == LearnerFile + " " + tmpPath
  {
    var line := tmpPath + " " + tmpPath;
    assert OccursAt(line, tmpPath, 0);
  }

  /** The file system and process table of the machine the server runs on,
      as far as the compile endpoint touches them. */
  class Host {
    var files: map<string, string>
    var spawned: seq<string>

    constructor (files0: map<string, string>)
      ensures files == files0 && spawned == []
    {
      files := files0;
      spawned := [];
    }

    /** `writeFile(path, content)`; `failure` is what it throws, if it does. */
    method WriteFile(path: string, content: string, failure: Option<Thrown>)
      modifies this`files
      ensures files == if failure.None? then old(files)[path := content] else old(files)
    {
      if failure.None? {
        files := files[path := content];
      }
    }

    /** `exec(command, ...)`: the command is started; how it ends is the
        caller's `ExecOutcome`. */
    method Exec(command: string)
      modifies this`spawned
      ensures spawned == old(spawned) + [command]
    {
      spawned := spawned + [command];
    }

    /** `try { await unlink(path) } catch {}`: a failing unlink leaves the file
        and is swallowed. */
    method Unlink(path: string, succeeds: bool)
      modifies this`files
      ensures files == if succeeds then old(files) - {path} else old(files)
    {
      if succeeds {
        files := files - {path};
      }
    }
  }

  /** `compileGo(code)`: write, run, unlink, map the outcome. */
  method CompileGo(host: Host, tmpDir: string, digest: string -> string, code: string,
                   writeFailure: Option<Thrown>, outcome: ExecOutcome, unlinkSucceeds: bool)
    returns (r: CompileResponse)
    modifies host
    ensures var path := TempPath(tmpDir, digest, code);
      && r == (if writeFailure.Some? then WriteFailure(writeFailure.value)
               else ExecResponse(outcome, path))
      && host.spawned == old(host.spawned)
                         + (if writeFailure.None? then ["go run " + path] else [])
      && host.files == if unlinkSucceeds then old(host.files) - {path}
                       else if writeFailure.None? then old(host.files)[path := code]
                       else old(host.files)
  {
    var path := JoinPath(tmpDir, TempFileName(digest, code));
    host.WriteFile(path, code, writeFailure);
    if writeFailure.Some? {
      host.Unlink(path, unlinkSucceeds);
      r := WriteFailure(writeFailure.value);
      return;
    }
    host.Exec("go run " + path);
    host.Unlink(path, unlinkSucceeds);
    r := ExecResponse(outcome, path);
  }

  datatype ReplyBody = NoCode(error: string) | Compiled(response: CompileResponse)
  datatype HttpReply = HttpReply(status: nat, body: ReplyBody)

  /** The `/api/compile` handler: `code` absent (`None`) or empty is refused
      with 400 before anything is written or run. */
  method HandleCompile(host: Host, tmpDir: string, digest: string -> string, code: Option<string>,
                       writeFailure: Option<Thrown>, outcome: ExecOutcome, unlinkSucceeds: bool)
    returns (reply: HttpReply)
    modifies host
    ensures code.None? || code.value == "" ==>
              reply == HttpReply(400, NoCode(NoCodeMessage))
              && host.files == old(host.files) && host.spawned == old(host.spawned)
    ensures code.Some? && code.value != "" ==>
              && reply.status == 200
              && reply.body == Compiled(if writeFailure.Some? then WriteFailure(writeFailure.value)
                                        else ExecResponse(outcome, TempPath(tmpDir, digest, code.value)))
    ensures code.Some? && code.value != "" && unlinkSucceeds ==>
              TempPath(tmpDir, digest, code.value) !in host.files
  {
    if code.None? || code.value == "" {
      return HttpReply(400, NoCode(NoCodeMessage));
    }
    var r := CompileGo(host, tmpDir, digest, code.value, writeFailure, outcome, unlinkSucceeds);
    reply := HttpReply(200, Compiled(r));
  }
}
