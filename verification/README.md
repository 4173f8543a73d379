# letsgogo core, modelled in Dafny

letsgogo is a web app for learning Go. A lesson page shows markdown content
and code challenges. The learner edits Go code in a playground. A small
compile server runs the code with `go run` and sends back the output or the
compiler's diagnostics. The playground turns the diagnostics into editor
markers and checks the program's output against the challenge. Progress is
kept in the browser: completed challenges and their points, completed
lessons and sub-lessons, and how far each lesson was scrolled. Accounts are
local too: a credentials map from e-mail to password and user id.

The model has one Dafny module per source file, plus a module of shared
string functions:

- `Strings` (strings.dfy) covers the JavaScript string operations the code
  relies on: `trim` with the ECMAScript white-space set, `split`, `join`,
  `indexOf`, `includes`, `startsWith`, and decimal digits.
- `CompileServer` (compile_server.dfy) models `compileGo` and the
  `/api/compile` route. The file system and the `go run` process are a
  `Host` class whose methods are the server's own steps. The class has
  fields for the files on disk and the commands it has spawned.
- `GoCompilerClient` (go_compiler.dfy) models the browser's `compileGo`:
  the request body and the mapping from HTTP and network outcomes to a
  compile result.
- `Playground` (code_playground.dfy) models error parsing, output
  validation, and the playground's state:
  - error parsing matches the pattern `:(\d+):(\d+):\s*(.+)` by hand, as the
    leftmost match;
  - output validation covers Go test runs, expected output, and a
    validation pattern;
  - the playground state is a class with `runCode`, `resetCode` and
    `nextHint`.
- `Challenges` (challenges.dfy) models the challenge catalogue helpers:
  challenges per lesson, points per module, and the total.
- `Progress` (progress.dfy) models the progress store as a class whose
  methods are the context's operations. That includes completing a
  sub-lesson, which completes the parent lesson once the sub-lesson's whole
  group is done. It also models the module score and the module's maximum
  points.
- `Content` (content.dfy) models `extractExcerpt` stage by stage. The
  stages are line selection, removal of fenced and inline code spans,
  removal of markup characters, whitespace collapsing, trimming, and
  truncation with an ellipsis.
- `Auth` (auth.dfy) models local sign-up, sign-in and sign-out.
- `LessonView` (lesson_view.dfy) models the lesson page:
  - route resolution;
  - previous and next lesson;
  - sub-lesson locking;
  - the scroll handler, auto-completion and the mark-complete toggle, all
    acting on the progress store.

## Model

| member | source | states |
|---|---|---|
| Strings.Trim | src/components/CodePlayground.tsx:123 | the trimmed string has no white space at either end, and it is empty exactly when the input is all white space |
| Strings.TrimIsInfix | src/components/CodePlayground.tsx:123 | trimming removes only a leading and a trailing white-space run: the result is a slice of the input with only white space outside it |
| Strings.TrimUnpadded | src/lib/content.ts:159 | trimming a string that has no white space at its ends leaves it unchanged |
| Strings.TrimOfUnpadded | src/lib/content.ts:162 | trimming a string that does not start with white space keeps a prefix of it |
| Strings.IndexOf | server/compile.ts:53 | the search finds the leftmost occurrence at or after the start position, and `None` means there is none |
| Strings.IndexOfContains | src/lib/goCompiler.ts:51 | `includes` holds exactly when `indexOf` finds an occurrence |
| Strings.Split | server/compile.ts:51 | a split always yields at least one piece, even for the empty string |
| Strings.SplitPiecesLackSeparator | server/compile.ts:51 | no piece of a split contains the separator |
| Strings.SplitConcat | src/components/CodePlayground.tsx:123 | splitting `a + sep + b` gives the pieces of `a` followed by the pieces of `b` |
| Strings.JoinSplit | server/compile.ts:51 | joining the pieces of a split with the same separator gives back the input |
| Strings.NonBlank | server/compile.ts:52 | every kept line is a non-blank input line, and every non-blank input line is kept |
| Strings.NonBlankConcat | server/compile.ts:52 | the filter keeps the order of the lines: filtering `a + b` gives the kept lines of `a` followed by those of `b` |
| Strings.DecimalString | src/lib/goCompiler.ts:28 | a number's decimal rendering is a non-empty digit string with no leading zero other than for 0 |
| Strings.DecimalRoundTrip | src/components/CodePlayground.tsx:102-103 | `parseInt` of a number's decimal rendering gives back the number |
| CompileServer.Take | server/compile.ts:24 | the first `n` characters, or the whole string when it is shorter |
| CompileServer.TempFileName | server/compile.ts:24 | the name is `go_run_`, then the first eight characters of the digest (all of it when shorter), then `.go` |
| CompileServer.JoinPath | server/compile.ts:25 | the path is the directory, one `/` unless the directory is empty or ends in one, then the name |
| CompileServer.TempPath | server/compile.ts:24-25 | the temporary path starts with the temporary directory and ends with `/` and the temporary file name |
| CompileServer.TempFileNameCollision | server/compile.ts:24-25 | two programs get the same temporary file exactly when their digests agree in the first 8 hex digits |
| CompileServer.ReplaceFirst | server/compile.ts:53 | only the first occurrence of the pattern is replaced; a string without it is returned unchanged |
| CompileServer.Diagnostics | server/compile.ts:49-53 | the error list holds the non-blank lines of stderr, or of the error message when stderr is empty, each with its first temp-path occurrence renamed `main.go` |
| CompileServer.DiagnosticLinesAreSingleLines | server/compile.ts:50-53 | every diagnostic is a single non-blank line |
| CompileServer.SecondOccurrenceSurvives | server/compile.ts:53 | a line naming the temporary path twice keeps the second occurrence |
| CompileServer.ExecResponse | server/compile.ts:39-67 | a killed process gives the timeout message; any other error gives the diagnostics and failure; success gives stdout and no errors |
| CompileServer.WriteFailure | server/compile.ts:71-81 | a failed write reports one error that starts with the write-failure prefix and carries the message |
| CompileServer.Host.WriteFile | server/compile.ts:28 | a successful write stores the code at the path; a failed one changes nothing |
| CompileServer.Host.Exec | server/compile.ts:31-33 | the command is recorded as spawned, and nothing else changes |
| CompileServer.Host.Unlink | server/compile.ts:35-37 | a successful unlink removes the file; a failed one is swallowed and changes nothing |
| CompileServer.CompileGo | server/compile.ts:23-82 | the response is the write failure or the exec response; `go run` on the temporary path is spawned only after a successful write; afterwards the temporary path is absent when the unlink succeeds, holds the code when the write succeeded and the unlink failed, and is untouched when the write failed |
| CompileServer.HandleCompile | server/compile.ts:84-94 | missing or empty code gets status 400 and "No code provided" without touching the disk; other code gets status 200 and the compile response |
| GoCompilerClient.BuildRequest | src/lib/goCompiler.ts:19 | the request carries the code, and a `testCode` field exactly when the test code is non-empty |
| GoCompilerClient.ClientResult | src/lib/goCompiler.ts:25-63 | a non-OK status, an abort or a network failure gives failure with one message; error lines in the body are passed on as failure; otherwise the body's output with success; failure always comes with empty output |
| GoCompilerClient.ServerErrorNamesStatus | src/lib/goCompiler.ts:25-31 | a non-OK response gives the message "Server error: " followed by the status in decimal |
| GoCompilerClient.ServerResponseDelivered | src/lib/goCompiler.ts:33-47 | a server response that succeeded or carries error lines reaches the playground unchanged; a failure without error lines reads as success with empty output |
| GoCompilerClient.BlankStderrReadsAsSuccess | src/lib/goCompiler.ts:35-47 | a failed run whose stderr is a lone newline yields no error lines, and the playground reads it as success |
| Playground.SpaceRunCovers | src/components/CodePlayground.tsx:99 | `\s*` covers only white space and stops at the first other character or at the end |
| Playground.LineRunCovers | src/components/CodePlayground.tsx:99 | `.+` covers no line terminator and stops at one or at the end |
| Playground.DigitRunCovers | src/components/CodePlayground.tsx:99 | `\d+` covers only digits and stops at the first non-digit or at the end |
| Playground.CaptureStartIsLast | src/components/CodePlayground.tsx:99 | after backtracking, the capture starts at the last position `.` matches, and there is none exactly when every position holds a line terminator |
| Playground.Capture | src/components/CodePlayground.tsx:99 | the message group is a non-empty span of the string after the start |
| Playground.CaptureShape | src/components/CodePlayground.tsx:99 | only white space comes before the captured message; it starts right after the spaces when a character `.` matches follows them; it holds no line terminator and ends at one or at the end of the text |
| Playground.CaptureFails | src/components/CodePlayground.tsx:99 | `\s*(.+)` fails exactly when only line terminators are left |
| Playground.ClosingColon | src/components/CodePlayground.tsx:99 | the closing colon of a number comes after a non-empty run of digits |
| Playground.MatchAtShape | src/components/CodePlayground.tsx:99 | a match at a position is a colon, a digit run, a colon, a digit run and a colon, followed by a non-empty message |
| Playground.FirstMatch | src/components/CodePlayground.tsx:99 | the match found is the leftmost position where the pattern matches |
| Playground.ErrorOfMatch | src/components/CodePlayground.tsx:101-105 | the message taken from a match is never empty |
| Playground.ParseError | src/components/CodePlayground.tsx:99-112 | a string without a match becomes line 1, column 1 with the whole string as the message; otherwise the leftmost match gives the error, with a non-empty message |
| Playground.ParseErrors | src/components/CodePlayground.tsx:95-116 | one parsed error per input string, in order, each the parse of that string |
| Playground.DiagnosticRoundTrip | src/components/CodePlayground.tsx:99-105 | a `file:line:col: message` diagnostic parses back to its line, column and message |
| Playground.TrimAllConcat | src/components/CodePlayground.tsx:123 | trimming every line distributes over concatenation of line lists |
| Playground.TrimmedLinesConcat | src/components/CodePlayground.tsx:123 | the trimmed lines of `a + "\n" + b` are those of `a` followed by those of `b` |
| Playground.ValidateOutput | src/components/CodePlayground.tsx:118-134 | a test challenge is judged only by its PASS and FAIL lines; otherwise a matching expected output succeeds, and failing that a compiled pattern's verdict on the trimmed output is the answer while an invalid pattern throws; with only an expected output the answer is whether it matches; with nothing given it is false |
| Playground.IsChallengeMode | src/components/CodePlayground.tsx:93 | outside challenge mode no output is ever validated as solved |
| Playground.TestRunPassedOneLine | src/components/CodePlayground.tsx:121-125 | the single line "PASS" is a passing test run |
| Playground.PrintedPassSolvesTestChallenge | src/components/CodePlayground.tsx:119-125 | a test challenge is solved by any program that prints a PASS line and no FAIL line |
| Playground.PlaygroundState.constructor | src/components/CodePlayground.tsx:59-66 | the playground starts with the initial code, no output, no errors, and the first hint hidden |
| Playground.PlaygroundState.RunCode | src/components/CodePlayground.tsx:136-161 | server errors are parsed one by one and shown without output; otherwise the output is shown, and in challenge mode a validating output marks the challenge solved and calls the success callback once; an invalid pattern shows one failure error |
| Playground.PlaygroundState.ResetCode | src/components/CodePlayground.tsx:173-179 | the code returns to the initial code, and output, errors and the solved flag are cleared |
| Playground.PlaygroundState.NextHint | src/components/CodePlayground.tsx:181-186 | the hint index advances and the hint shows only when a later hint exists; otherwise nothing changes; an index in range stays in range |
| Challenges.Select | src/lib/challenges.ts:2195-2196 | the filter keeps each challenge whose lesson is listed, as often as the catalogue has it, and nothing else |
| Challenges.SelectConcat | src/lib/challenges.ts:2195-2196 | the filter keeps catalogue order: it distributes over concatenation |
| Challenges.ForLesson | src/lib/challenges.ts:2174-2176 | a challenge is returned exactly when it is in the catalogue and belongs to the lesson |
| Challenges.PointsConcat | src/lib/challenges.ts:2197 | the points of two lists add up |
| Challenges.ModuleSlugs | src/lib/challenges.ts:2180-2194 | a module missing from the table has no lessons |
| Challenges.SelectPointsBounded | src/lib/challenges.ts:2195-2200 | with non-negative points, a selection is worth between 0 and the whole catalogue |
| Challenges.ModulePoints | src/lib/challenges.ts:2179-2198 | a module missing from the table is worth 0 points; with non-negative points a module is worth between 0 and `TOTAL_POINTS` |
| Challenges.PositivePoints | src/lib/challenges.ts:2200 | with positive points, a list is worth at least one point per challenge |
| Challenges.TotalPoints | src/lib/challenges.ts:2200 | a well-formed catalogue's total is at least the number of challenges |
| Challenges.SelectExtraSlug | src/lib/challenges.ts:2179-2197 | listing one more lesson adds exactly that lesson's challenge points |
| Progress.Merge | src/lib/progress.tsx:224 | a field given in the patch overrides the current value; a missing field keeps it |
| Progress.Without | src/lib/progress.tsx:103 | the id is gone, every other element stays, and the list does not grow |
| Progress.WithoutKeepsNoDuplicates | src/lib/progress.tsx:103 | removing an id from a duplicate-free list leaves it duplicate-free |
| Progress.Adjoin | src/lib/progress.tsx:92-93 | the id is present afterwards, membership gains exactly the id, and a duplicate-free list stays duplicate-free |
| Progress.MapSumRemove | src/lib/progress.tsx:286 | removing an entry lowers the sum of the scores by its value |
| Progress.MapSumAdd | src/lib/progress.tsx:286 | adding a new entry raises the sum of the scores by its value |
| Progress.MapSumNonNegative | src/lib/progress.tsx:286 | non-negative scores sum to a non-negative total |
| Progress.NoDuplicatesCount | src/lib/progress.tsx:92-93 | in a duplicate-free list an entry occurs once or not at all |
| Progress.FindPoints | src/lib/progress.tsx:255-256 | an id missing from the catalogue is worth 0; the value is the points of the first challenge with that id |
| Progress.ModuleIds | src/lib/progress.tsx:235-253 | a module missing from the table has no challenge ids |
| Progress.EarnedAtMostAvailable | src/lib/progress.tsx:234-284 | with non-negative points, the earned score lies between 0 and the maximum, and equals it when every listed challenge is complete |
| Progress.EarnedNothing | src/lib/progress.tsx:234-258 | with nothing completed, no points are earned |
| Progress.FirstGroup | src/lib/progress.tsx:194-199 | the index found is the first group that contains the sub-lesson |
| Progress.GroupDoneMeans | src/lib/progress.tsx:193-199 | the parent counts as complete exactly when the first group holding the sub-lesson is fully complete |
| Progress.ParentComplete | src/lib/progress.tsx:193-199 | the loop with `break` computes whether the first group holding the sub-lesson is fully complete |
| Progress.LessonsAfterSubLesson | src/lib/progress.tsx:145-208 | the parent is added once, and it is in the result exactly when it already was or it is given and the first group listing the sub-lesson is complete |
| Progress.ProgressStore.constructor | src/lib/progress.tsx:52-56 | the store starts empty |
| Progress.ProgressStore.CompleteChallenge | src/lib/progress.tsx:91-99 | a new challenge is appended and scored, raising the score by its points; a completed one changes nothing; the store invariant is kept |
| Progress.ProgressStore.UncompleteChallenge | src/lib/progress.tsx:101-110 | the challenge and its score entry are removed, lowering the score by the recorded value; an absent one changes nothing; the store invariant is kept |
| Progress.ProgressStore.CompleteLesson | src/lib/progress.tsx:112-118 | the lesson is added once, and nothing else changes |
| Progress.ProgressStore.UncompleteLesson | src/lib/progress.tsx:120-126 | the lesson is removed, and nothing else changes |
| Progress.ProgressStore.UncompleteSubLesson | src/lib/progress.tsx:128-134 | the sub-lesson is removed, and nothing else changes |
| Progress.ProgressStore.ResetAllProgress | src/lib/progress.tsx:136-143 | every list and map is empty and the score is 0 |
| Progress.ProgressStore.Score | src/lib/progress.tsx:286 | the empty store scores 0, and non-negative scores give a non-negative total |
| Progress.ProgressStore.IsChallengeCompleted | src/lib/progress.tsx:210-212 | in a valid store, a challenge is completed exactly when it has a recorded score |
| Progress.ProgressStore.IsLessonCompleted | src/lib/progress.tsx:214-216 | in a valid store, a lesson is completed exactly when it is recorded once |
| Progress.ProgressStore.IsSubLessonCompleted | src/lib/progress.tsx:218-220 | in a valid store, a sub-lesson is completed exactly when it is recorded once |
| Progress.ProgressStore.CompleteSubLesson | src/lib/progress.tsx:145-208 | the sub-lesson is added once; the completed lessons become `LessonsAfterSubLesson` of the old ones: the parent is added exactly when it is given, not yet complete, and the sub-lesson's first group is now fully complete |
| Progress.ProgressStore.GetLessonProgress | src/lib/progress.tsx:230-232 | a lesson with no stored progress reads as the default |
| Progress.ProgressStore.UpdateLessonProgress | src/lib/progress.tsx:222-228 | the lesson's progress becomes the current one merged with the patch; other lessons keep theirs |
| Progress.ProgressStore.GetModuleScore | src/lib/progress.tsx:234-258 | an unknown module or an empty store scores 0; with non-negative points the score lies between 0 and the module's maximum, which it reaches when every listed challenge is complete |
| Progress.ProgressStore.GetModuleMaxPoints | src/lib/progress.tsx:260-284 | an unknown module has a maximum of 0, and with non-negative points the maximum is never negative |
| Content.Qualifying | src/lib/content.ts:151-152 | the filter keeps exactly the lines with non-blank text that do not start with `#` |
| Content.QualifyingConcat | src/lib/content.ts:151-152 | the filter keeps line order: it distributes over concatenation |
| Content.ExcerptLines | src/lib/content.ts:151-153 | at most three lines are kept, the first qualifying ones |
| Content.StripFences | src/lib/content.ts:155 | the text is never longer than the input |
| Content.StripFencesKeepsPlainText | src/lib/content.ts:155 | text without backticks passes through the fence removal unchanged |
| Content.FencedSpanRemoved | src/lib/content.ts:155 | a fenced block is removed entirely whenever the fence after its body is the first fence, so a body may hold single backticks (a Go raw string) |
| Content.UnmatchedFenceKept | src/lib/content.ts:155 | a lone or doubled backtick with no backtick after it is not a fence and stays |
| Content.StripInline | src/lib/content.ts:156 | the text is never longer than the input |
| Content.StripInlineKeepsPlainText | src/lib/content.ts:156 | text without backticks passes through the inline-code removal unchanged |
| Content.UnmatchedInlineKept | src/lib/content.ts:156 | a lone backtick, or two adjacent backticks (an empty body), with no backtick after them is not an inline span and stays |
| Content.UnmatchedBackticksKept | src/lib/content.ts:155-156 | text whose only backticks are one unmatched backtick or pair passes through both code removals unchanged |
| Content.InlineSpanRemoved | src/lib/content.ts:156 | an inline code span with a non-empty body is removed entirely |
| Content.RemoveMarkup | src/lib/content.ts:157 | no markup character `# * _ ~ [ ]` is left, and every other character of the input still occurs |
| Content.RemoveMarkupConcat | src/lib/content.ts:157 | markup removal keeps character order: it distributes over concatenation |
| Content.RemoveMarkupKeepsPlainText | src/lib/content.ts:157 | text without markup characters is unchanged |
| Content.Collapse | src/lib/content.ts:158 | every white-space character left is a single space between non-space characters (or at an end), the result is empty exactly when the input is, starts with white space exactly when the input does, and adds no markup |
| Content.CollapseKeepsCollapsed | src/lib/content.ts:158 | text already collapsed (single plain spaces only) is unchanged |
| Content.NonSpaceConcat | src/lib/content.ts:158-159 | the characters other than white space of `a + b` are those of `a` followed by those of `b` |
| Content.NonSpaceOfBlank | src/lib/content.ts:159 | a blank text has no characters other than white space |
| Content.CollapseKeepsWords | src/lib/content.ts:158 | collapsing keeps every character other than white space, in order |
| Content.CollapseConcat | src/lib/content.ts:158 | runs are replaced independently: when the first part does not end in white space, collapsing the concatenation is collapsing each part |
| Content.CollapseRun | src/lib/content.ts:158 | a white-space run followed by the end or by a non-space character becomes exactly one space |
| Content.CollapseSeparates | src/lib/content.ts:158 | a white-space run between two pieces of text becomes exactly one space in the same place, so words are never glued together |
| Content.TrimKeepsWords | src/lib/content.ts:159 | trimming keeps every character other than white space, in order |
| Content.TrimCleans | src/lib/content.ts:159 | trimming collapsed, markup-free text leaves it clean |
| Content.Cleaned | src/lib/content.ts:151-159 | the cleaned text has no markup, no white space other than single spaces, and none at the ends; it is the trim of the collapsed, markup-free, code-free joined lines |
| Content.CleanedKeepsWords | src/lib/content.ts:151-159 | cleaning loses no word: the excerpt's characters other than white space are those of the code-free, markup-free joined lines, in order |
| Content.TrimCleanPrefix | src/lib/content.ts:162 | trimming a prefix of clean text drops at most one trailing space and keeps a prefix |
| Content.EllipsisKeepsClean | src/lib/content.ts:162 | appending the ellipsis to clean text keeps it clean |
| Content.Truncate | src/lib/content.ts:161-163 | text within the limit is kept; longer text becomes its first `maxLength` characters, trimmed, followed by "...", so at least `maxLength - 1` of its characters survive |
| Content.ExtractExcerpt | src/lib/content.ts:148-166 | empty content gives ""; the excerpt is clean and at most the limit plus 3 long; cleaned text within the limit is returned whole, and longer cleaned text becomes its first `maxLength` characters, trimmed, followed by "..." |
| Content.PlainLineIsItsOwnExcerpt | src/lib/content.ts:148-166 | a single clean line within the limit is its own excerpt |
| Auth.Authenticate | src/lib/auth.tsx:59-64 | sign-in is accepted exactly when the e-mail is registered with that password, and it yields the registered user id |
| Auth.RegisteredSignsIn | src/lib/auth.tsx:52 | after registration, the e-mail and password sign in as the new user |
| Auth.RegistrationIsLocal | src/lib/auth.tsx:52 | registration changes nothing for any other e-mail |
| Auth.OnePasswordPerEmail | src/lib/auth.tsx:62 | a registered e-mail signs in with one password only |
| Auth.AuthStore.constructor | src/lib/auth.tsx:27-37 | the stored user, if any, is the signed-in user |
| Auth.AuthStore.SignUp | src/lib/auth.tsx:39-56 | a taken e-mail fails with "User already exists" and changes nothing; otherwise the user is registered, stored and signed in |
| Auth.AuthStore.SignIn | src/lib/auth.tsx:58-74 | bad credentials fail with "Invalid credentials" and change nothing; otherwise the registered user is stored and signed in |
| Auth.AuthStore.SignOut | src/lib/auth.tsx:76-79 | no user is stored or signed in |
| Auth.SignUpThenSignIn | src/lib/auth.tsx:39-74 | a sign-up of a new e-mail succeeds, and a sign-in that follows it with the same password signs in as the new user |
| LessonView.EffectiveSlug | src/components/LessonView.tsx:420 | the sub-lesson slug when it is given and has content, otherwise the lesson slug |
| LessonView.LessonChallenges | src/components/LessonView.tsx:421 | the page shows exactly the challenges of the effective slug, and none when it is empty |
| LessonView.SlugIndex | src/components/LessonView.tsx:513 | the index found is the first position with the slug at or after the start, or -1 when there is none |
| LessonView.CurrentIndex | src/components/LessonView.tsx:513 | -1 without a module, otherwise an index into the module's lessons or -1 |
| LessonView.FindLesson | src/components/LessonView.tsx:417 | the lesson found has the slug, and `None` means no lesson does |
| LessonView.FindSubLesson | src/components/LessonView.tsx:418 | the sub-lesson found is the lesson's first one with the slug; none is found without a lesson or a slug, or when no sub-lesson has the slug |
| LessonView.PrevLesson | src/components/LessonView.tsx:514 | there is a previous lesson exactly when the index is above 0, and it is the lesson before |
| LessonView.NextLesson | src/components/LessonView.tsx:515 | there is a next lesson exactly when the index is below the last, and it is the lesson after |
| LessonView.IndexOfDistinctSlug | src/components/LessonView.tsx:513 | with distinct slugs, a lesson's slug finds that lesson's index |
| LessonView.NextAndPrevAreInverse | src/components/LessonView.tsx:513-515 | with distinct slugs, going to the next lesson and then back returns to the same lesson |
| LessonView.EndsOfTheModule | src/components/LessonView.tsx:514-515 | the first lesson has no previous one and the last has no next one |
| LessonView.UnknownSlugNextIsFirst | src/components/LessonView.tsx:513-515 | for an unknown slug, the index is -1 and "next" is the module's first lesson |
| LessonView.SubLessonClick | src/components/LessonView.tsx:687-692 | a locked sub-lesson button does nothing; an unlocked one navigates to `/module/<module>/<lesson>/<sub-lesson>`, whose path segments split back into the module, lesson and sub-lesson |
| LessonView.SplitSegment | src/components/LessonView.tsx:692 | a segment free of `/` followed by `/` splits off as one piece |
| LessonView.SplitFiveSegments | src/components/LessonView.tsx:692 | five segments free of `/`, joined by `/`, split back into them |
| LessonView.RouteSegments | src/components/LessonView.tsx:692 | the sub-lesson route splits into "", "module", the module, the lesson and the sub-lesson |
| LessonView.Max | src/components/LessonView.tsx:463 | the larger of the two values |
| LessonView.LessonPage.constructor | src/components/LessonView.tsx:409-421 | the page resolves the module, lesson, sub-lesson and challenges from the route, and starts not scrolled to the bottom |
| LessonView.LessonPage.OnScroll | src/components/LessonView.tsx:451-473 | a page that cannot scroll does nothing; otherwise scroll progress never decreases, other lessons keep theirs, and the bottom flag is set within 100 pixels of the end |
| LessonView.LessonPage.OnSlugChange | src/components/LessonView.tsx:492-495 | navigating clears the bottom flag |
| LessonView.LessonPage.AutoComplete | src/components/LessonView.tsx:475-489 | once read to the bottom with every challenge solved, the current item is complete: a sub-lesson is adjoined and its parent handled as `completeSubLesson` does, or the lesson is adjoined; otherwise nothing changes |
| LessonView.LessonPage.MarkComplete | src/components/LessonView.tsx:497-511 | the button toggles the current item: a complete sub-lesson or lesson is removed from its list, an incomplete one is adjoined (a sub-lesson with its parent handled as `completeSubLesson` does), and without a lesson or sub-lesson nothing changes; completing a lesson unlocks its sub-lessons |

## Left out

- File I/O, process spawning and the callback and Promise plumbing are left out. The `Host` class stands in for the disk and for `go run`. The write failure, the process outcome and the unlink result are parameters of `CompileGo`. The 15-second timeout shows up only as the process's `killed` flag.
- SHA-256 is a parameter: the temporary file name takes the hex digest as input.
- Concurrent requests are left out, including two requests racing on the same temporary path. Operations run one at a time.
- The Express set-up is left out: CORS, the body-size limit, `/health` and `listen`.
- `path.join` normalisation is left out. Joining is modelled as adding one `/`.
- In the client, `fetch`, `AbortController`, the 20-second timer and JSON parsing are left out. Their outcomes are inputs, as a status, a parsed body, or an exception message.
- The general `RegExp` engine used for a challenge's validation pattern is a parameter (`RegexEngine`). The diagnostic pattern is modelled by hand.
- `localStorage` and JSON persistence are left out. That includes recovery from corrupt stored data, and the playground's saved-code draft logic.
- React state batching, effects re-running and stale closures are left out. Each operation sees the state the previous one left.
- `uuid` and `Date` are parameters: the new user id and the creation time.
- `Math.round` and the scroll percentage are left out. The percentage is a parameter of `OnScroll`.
- JavaScript number precision is left out. Points and scores are unbounded integers.
- UTF-16 code units are modelled as Dafny characters. There is no Unicode-aware matching.
- The module and lesson data (`modulesData`) and the lesson markdown (`lessonContent`) are inputs.
- The challenge catalogue literal (65 entries) is a parameter. Its distinct ids and positive points are the `WellFormed` predicate, not proved of the literal entries.
- Rendering, styling, the editor component, clipboard copy, the install prompt and syntax highlighting are not part of this model.
- Progress.ProgressStore.CompleteSubLesson: a group's `parentId` is never consulted, following the code. Only the first group containing the sub-lesson decides, whichever lesson is passed as the parent.
- Progress.ProgressStore.Score: the score is a ghost sum over the scores map. It has no executable counterpart.
- Content.ExtractExcerpt: `maxLength` is a natural number. A negative limit is not modelled.
- CompileServer.ReplaceFirst: only the first occurrence of the temporary path in a line is renamed, as `String.replace` with a string pattern does.
