# Notebook grading client: a Dafny model

A student runs this client inside a Jupyter notebook, on Google Colab or in
VS Code. The client picks the cells that belong to a problem and posts them
to a grading service. If the post fails, it retries. It then shows the score
report the service sends back. Around this it finds the student's e-mail
address, keeps that address in a small store, and works out which
environment it runs in. The model covers these rules:

- **Retry loop** (`grading.dfy`, module `Grading`). The client makes at
  most `max_retries + 1` posts, with a blocking sleep before every post
  except the first. It returns at the first HTTP 200 whose body parses.
  Every other outcome takes the same retry path.
  - The network is an oracle: attempt `a` receives `transport(a)`.
  - The loop leaves a trace of events: retry notices, sleeps, attempt
    notices and posts.
  - It is proved against a closed form, `RetryRun`, over the outcome
    each attempt comes to. Lemmas about `RetryRun` give the number of
    attempts, which outcome is returned, the sleep and post counts, the
    numbering of attempts, and that the final "maximum retries reached"
    return can only happen when `max_retries < 0`.
  - `time.sleep` accepts only a delay from 0 to 9223372036 seconds, the
    largest whose nanoseconds fit a signed 64-bit integer. A negative
    delay makes it raise `ValueError`, and one beyond ±9223372036 seconds
    `OverflowError`, both before the post. The generic handler catches
    either, so every attempt after the first fails with the
    unexpected-error prefix and posts nothing.
- **Payload and client state** (`Grading`). This covers the submission
  record, the URL and notebook-path setters and getters, and
  `submit_assignment`, which passes the retry result through unchanged
  and posts the payload it builds with the default retry settings.
- **Cell selection** (`notebook.dfy`, module `Notebook`).
  - `#@title` code cells are dropped.
  - The cell list is cut before the first code cell that calls the
    problem's submit button. If there is none, it is cut before the
    first common-program cell. If there is none of those either,
    nothing is cut.
  - The module also chooses which notebook file to read.
  - Proved: membership, order (the result is a subsequence),
    idempotence, and where the cut falls.
- **E-mail validation and sources** (`email.dfy`, module `Email`).
  - The blacklist and the regular expression
    `^[a-zA-Z0-9._%+-]+@[a-zA-Z0-9.-]+\.[a-zA-Z]{2,}$`, including how
    Python's `$` also matches before one final newline.
  - The base64url padding of the ID-token payload.
  - The fixed order in which address sources are tried: saved
    address, then OAuth2, then `gcloud`.
- **Result viewer** (`results.dfy`, module `Results`).
  - Totals, with missing fields counting as 0.
  - The four-way status rule, and the CSS classes the HTML view uses.
  - The ✅ mark of the details view.
  - Each view's input guard.
  - The HTML row loop, proved to agree with the text report.
  - The lookup of the submitted problem.
- **File-backed store** (`storage.dfy`, module `Storage`). The JSON object
  in `.student_email.json` is read, modified and rewritten as a whole.
- **Environment probe** (`environment.dfy`, module `Environment`). The
  import probe's answer and the derived information record are cached in
  two fields.

`common.dfy` (module `Common`) holds the Python operations these rules rely
on:

- `str.strip()`, using the full `isspace` set;
- `''.join`;
- `in` on strings;
- `str(int)`, with its read-back;
- first-match search;
- subsequences.

Two core files appear twice in the repository:
`91_notebook_client/src/src/python/email_detector.py` and
`91_notebook_client/src/src/python/result_viewer.py`. Each is identical to
its sibling under `src/python`, so one module models both.

The retry loop, as the code has it:

- A retry is a blocking `time.sleep` inside a `for` loop; there is no
  cancellation and no timer.
- The defaults are `max_retries = 3`, `retry_delay = 10` and a request
  timeout of 30 seconds.
- When all attempts fail, the error message is the message of the last
  failure. The fixed "maximum retries reached" message appears only when
  `max_retries` is negative.
- The response uses the key `notebook_result`, and each problem the keys
  `points_earned` and `points_total`.

## Model

| member | source | states |
|---|---|---|
| Grading.GradingClient.SendToGradingSystemWithRetry | 91_notebook_client/src/python/grading_client.py:69-126 | the loop returns what the closed form `RetryRun` returns over the outcome each attempt comes to, where a `retry_delay` the sleep rejects (negative, or beyond 9223372036 seconds) makes every attempt after the first fail in its sleep without posting; its trace is the trace of exactly that many attempts: a retry notice and a sleep of `retry_delay` before every attempt but the first, then, when the sleep did not raise, an attempt notice and a post of the unchanged payload to `base_url + "/grade"` with timeout 30 |
| Grading.RetryRun | 91_notebook_client/src/python/grading_client.py:69-126 | a success is the outcome of the last attempt begun, with that outcome's body; a failure with `max_retries` ≥ 0 means all `max_retries + 1` attempts were begun, the last one failed, and the message is its message |
| Grading.SleepError | 91_notebook_client/src/python/grading_client.py:85 | the sleep raises the `ValueError` message exactly for a delay from -9223372036 to -1, and the `OverflowError` message exactly for a delay beyond ±9223372036 seconds |
| Grading.DelayIrrelevantWhenSleepReturns | 91_notebook_client/src/python/grading_client.py:83-89 | with a delay from 0 to 9223372036 seconds, the sleep never changes the run: it equals `RetryRun` over the transport's own outcomes |
| Grading.RaisingSleepFailsAfterFirst | 91_notebook_client/src/python/grading_client.py:83-124 | with a delay the sleep rejects, at least one retry and a failed first post, the loop begins all attempts and fails with the unexpected-error prefix and the sleep's error |
| Grading.AttemptsBounded | 91_notebook_client/src/python/grading_client.py:81-126 | the loop begins between 0 and `max_retries + 1` attempts, and none exactly when `max_retries < 0` |
| Grading.SuccessIsFirst | 91_notebook_client/src/python/grading_client.py:96-98 | a success is returned at the first attempt that gets status 200 with a parseable body, its body is that response's body, and nothing is posted after it |
| Grading.AllAttemptsFail | 91_notebook_client/src/python/grading_client.py:81-124 | if all `N + 1` allowed attempts fail (N ≥ 0), exactly `N + 1` posts are made and the result is a failure carrying the last failure's message |
| Grading.FailureMeansNoSuccess | 91_notebook_client/src/python/grading_client.py:97-124 | a failed result means that none of the allowed attempts succeeded |
| Grading.ExhaustedOnlyWithoutAttempts | 91_notebook_client/src/python/grading_client.py:81-126 | the result is the "maximum retries reached" failure exactly when `max_retries < 0`; for N ≥ 0 every path returns inside the loop |
| Grading.FailureMessage | 91_notebook_client/src/python/grading_client.py:96-124 | a non-200 status gives a message starting `HTTP `; a `RequestException` gives the network-error prefix; any other exception, including a 200 whose body does not parse, gives the unexpected-error prefix |
| Grading.FailureIsNotExhausted | 91_notebook_client/src/python/grading_client.py:100-126 | no failure message equals the "maximum retries reached" message |
| Grading.FirstSuccess | 91_notebook_client/src/python/grading_client.py:81-98 | the index returned is the first attempt below the bound that succeeds, and None means that no attempt below the bound succeeds |
| Grading.AttemptSelect | 91_notebook_client/src/python/grading_client.py:83-94 | one attempt consists of a retry notice and a sleep when it is not the first attempt, followed, only when the sleep did not raise, by an attempt notice numbered `a + 1` and a post |
| Grading.TraceContents | 91_notebook_client/src/python/grading_client.py:81-94 | after k attempts the retry notices are numbered 1..k-1 and there are k-1 sleeps of `retry_delay`; the attempt notices are numbered 1..n and there are n identical posts, where n = k when the sleep accepts the delay and n = 1 (for k ≥ 1) when it raises |
| Grading.TraceTries | 91_notebook_client/src/python/grading_client.py:85-87 | after k attempts the attempt notices are numbered 1..n, rising by one, with n = k when the sleep accepts the delay and n = 1 otherwise |
| Grading.TraceRetries | 91_notebook_client/src/python/grading_client.py:83-84 | after k attempts the retry notices are numbered 1..k-1 |
| Grading.TraceSleeps | 91_notebook_client/src/python/grading_client.py:83-85 | after k attempts there are k-1 sleeps, each of `retry_delay` |
| Grading.TracePosts | 91_notebook_client/src/python/grading_client.py:85-94 | after k attempts there are n posts, all of the same payload to the same URL with timeout 30, with n = k when the sleep accepts the delay and n = 1 otherwise |
| Grading.Posted | 91_notebook_client/src/python/grading_client.py:83-89 | of the first k attempts, all reach their post when the sleep accepts the delay (0 to 9223372036 seconds), and only the first does otherwise |
| Grading.SleepsBetweenPosts | 91_notebook_client/src/python/grading_client.py:83-89 | the loop sleeps one time fewer than it begins attempts; with a delay the sleep accepts it posts at every attempt, as many times as `RetryRun` over the transport says, and with one it rejects it posts once |
| Grading.GradingClient.CreateSubmissionData | 91_notebook_client/src/python/grading_client.py:36-51 | the email and cells pass through unchanged; the notebook path is the client's current one; the kernel is python3/"Python 3"; the assignment id is exactly `practice_problem_` followed by `str(problem_number)`, and the number reads back from it |
| Grading.GradingClient.SubmitAssignment | 91_notebook_client/src/python/grading_client.py:128-193 | using the default 3 retries and delay 10, success iff the retry result is a success; on success returns the body with no error, otherwise no body and the failure's message; every post carries the payload built from the arguments and goes to `base_url + "/grade"` |
| Grading.GradingClient.constructor | 91_notebook_client/src/python/grading_client.py:13-16 | the base URL is the one given, and no notebook path is set |
| Grading.GradingClient.SetGradingSystemUrl | 91_notebook_client/src/python/grading_client.py:18-21 | the URL is replaced and the notebook path is unchanged |
| Grading.GradingClient.GetGradingSystemUrl | 91_notebook_client/src/python/grading_client.py:23-25 | returns the current URL |
| Grading.GradingClient.SetNotebookPath | 91_notebook_client/src/python/grading_client.py:27-30 | the path is replaced and the URL is unchanged |
| Grading.GradingClient.GetNotebookPath | 91_notebook_client/src/python/grading_client.py:32-34 | returns the current path |
| Common.IntDecimalRoundTrip | 91_notebook_client/src/python/grading_client.py:40 | `str(n)` reads back as `n` for every integer, negative ones included |
| Common.IntToDecimal | 91_notebook_client/src/python/grading_client.py:40 | `str(n)` is never empty and starts with a minus sign exactly when n is negative |
| Notebook.FilterSubmissionCells | 91_notebook_client/src/python/notebook_reader.py:17-36 | the loop with `continue` returns exactly `Filtered(cells)` |
| Notebook.Filtered | 91_notebook_client/src/python/notebook_reader.py:17-36 | the kept cells are never more than the input |
| Notebook.FilteredIsFilterOut | 91_notebook_client/src/python/notebook_reader.py:21-34 | filtering is the generic removal of the title cells |
| Common.FilterOutMembers | 91_notebook_client/src/python/notebook_reader.py:21-34 | an element is kept by a removal iff it is in the input and not removed |
| Common.ConcatAppend | 91_notebook_client/src/python/notebook_reader.py:24-26 | `''.join` of two lists one after the other is the join of the first followed by the join of the second |
| Notebook.FilteredMembers | 91_notebook_client/src/python/notebook_reader.py:21-34 | a cell is kept iff it is in the input and is not a code cell whose joined, stripped source starts with `#@title` |
| Notebook.FilteredIsSubsequence | 91_notebook_client/src/python/notebook_reader.py:17-36 | the kept cells keep their input order: they form a subsequence of the input |
| Notebook.FilterIdempotent | 91_notebook_client/src/python/notebook_reader.py:17-36 | filtering twice gives the same result as filtering once |
| Notebook.FilterKeepsNonTitleCells | 91_notebook_client/src/python/notebook_reader.py:21-34 | when there are no title cells, nothing is removed |
| Notebook.FilteredSnoc | 91_notebook_client/src/python/notebook_reader.py:21-34 | one more cell at the end is appended to the result unless it is a title cell |
| Notebook.TitleTestIgnoresTrailingSpace | 91_notebook_client/src/python/notebook_reader.py:29 | the title test depends only on leading whitespace: a cell passes it with `strip()` exactly when it passes it with `lstrip()` |
| Common.StripStartsWith | 91_notebook_client/src/python/notebook_reader.py:29 | for a prefix that does not end in whitespace, `strip().startswith(p)` equals `lstrip().startswith(p)` |
| Common.StripTrims | 91_notebook_client/src/python/notebook_reader.py:29 | `strip()` returns a contiguous part of its input, and everything removed before and after it is whitespace |
| Common.StripEnds | 91_notebook_client/src/python/email_detector.py:93-94 | a stripped string is empty or neither starts nor ends with whitespace |
| Common.Contains | 91_notebook_client/src/python/notebook_reader.py:125 | `sub in s` holds only when `sub` is no longer than `s` |
| Notebook.FirstCodeCellContaining | 91_notebook_client/src/python/notebook_reader.py:120-127 | the index returned is the first code cell with a source containing the pattern, and None means no such cell exists |
| Notebook.FirstCodeCellUnique | 91_notebook_client/src/python/notebook_reader.py:120-127 | any index that fits the first-match description equals the search's result |
| Notebook.FindCodeCell | 91_notebook_client/src/python/notebook_reader.py:120-127 | the loop with `break` finds exactly the first matching code cell |
| Notebook.CutPoint | 91_notebook_client/src/python/notebook_reader.py:116-146 | the cut point is within the list |
| Notebook.GetNotebookCellsBeforeSubmit | 91_notebook_client/src/python/notebook_reader.py:112-149 | the two search loops, including the `for…else` fallback, return exactly `SubmissionCells` |
| Notebook.SubmissionCells | 91_notebook_client/src/python/notebook_reader.py:112-149 | never more cells are sent than the notebook has |
| Notebook.SubmissionCellsAreSubsequence | 91_notebook_client/src/python/notebook_reader.py:112-149 | the cells sent are a subsequence of the notebook's cells (an empty list gives an empty result) |
| Notebook.FilteredPrefixIsSubsequence | 91_notebook_client/src/python/notebook_reader.py:131-149 | the filtered prefix of a list is a subsequence of the whole list |
| Notebook.BeforeCut | 91_notebook_client/src/python/notebook_reader.py:116-146 | no cell before the cut calls the button; when there is no button, no cell before the cut contains the common-program marker either |
| Notebook.SubmissionCellsExcludeButton | 91_notebook_client/src/python/notebook_reader.py:116-149 | no cell sent is a title cell or calls the problem's button; when there is no button, no cell sent contains the common-program marker |
| Notebook.ButtonCut | 91_notebook_client/src/python/notebook_reader.py:117-131 | with the first button cell at index i, exactly `all_cells[:i]` is filtered, and the button cell is not sent |
| Notebook.CommonProgramCut | 91_notebook_client/src/python/notebook_reader.py:133-143 | without a button, with the first common-program cell at index i, exactly `all_cells[:i]` is filtered, and that cell is not sent |
| Notebook.NoMarkerCutsAtEnd | 91_notebook_client/src/python/notebook_reader.py:144-146 | with neither marker present, the cut point is the end of the list |
| Notebook.NoMarkerKeepsAll | 91_notebook_client/src/python/notebook_reader.py:144-149 | with neither marker present, all cells are filtered |
| Notebook.CutAtEndKeepsAll | 91_notebook_client/src/python/notebook_reader.py:146-149 | a cut at the end filters the whole list |
| Notebook.ChooseNotebookFile | 91_notebook_client/src/python/notebook_reader.py:65-77 | none exactly when there are no files; otherwise the first file whose name contains the course name, or else the first file listed |
| Email.BlacklistIsRedundant | 91_notebook_client/src/python/email_detector.py:21-29 | a string is valid iff it is nonempty and matches the pattern; the blacklist never changes the answer |
| Email.RegexAcceptsCorrect | 91_notebook_client/src/python/email_detector.py:19-29 | the executable check agrees with the pattern's meaning, including the allowance for one final newline that `$` gives |
| Email.BodyMatchesAtCorrect | 91_notebook_client/src/python/email_detector.py:19 | splitting at the first `@` and the last `.` decides the pattern body exactly |
| Email.AcceptedNotBlacklisted | 91_notebook_client/src/python/email_detector.py:18-29 | no string the pattern accepts is blacklisted |
| Email.InvalidEmailsHaveNoAt | 91_notebook_client/src/python/email_detector.py:18 | no blacklisted word contains `@` |
| Email.IsValidEmail | 91_notebook_client/src/python/email_detector.py:21-29 | a valid value is a nonempty string that contains `@` |
| Email.AsciiLower | 91_notebook_client/src/python/email_detector.py:26 | the ASCII fold of A–Z used in the blacklist test keeps the length and the positions of `@` |
| Email.ValidShape | 91_notebook_client/src/python/email_detector.py:19-29 | a valid address, after removing at most one final newline, has exactly one `@` with text before it, and a last dot followed by at least two letters |
| Email.TrailingNewlineAccepted | 91_notebook_client/src/python/email_detector.py:29 | a valid address followed by one newline is still valid |
| Email.ExampleAccepted | 91_notebook_client/src/python/email_detector.py:19-29 | `a@b.cc` is valid |
| Email.ExampleWithNewlineAccepted | 91_notebook_client/src/python/email_detector.py:29 | `a@b.cc` followed by a newline is valid |
| Email.ExampleShortTldRejected | 91_notebook_client/src/python/email_detector.py:19 | `a@b.c` is rejected, because the last label needs two letters |
| Email.Split | 91_notebook_client/src/python/email_detector.py:54 | `split('.')` returns at least one part, no part contains the separator, and joining the parts with the separator gives the token back |
| Email.SplitUnique | 91_notebook_client/src/python/email_detector.py:54 | any list of separator-free parts that joins back to the token is the split, so the second part is the text between the first and the second dot |
| Email.SplitHasSecondPart | 91_notebook_client/src/python/email_detector.py:54-55 | a token has a second part iff it contains a dot |
| Email.PaddedPayload | 91_notebook_client/src/python/email_detector.py:57-58 | the padded segment extends the original by 1 to 4 `=` characters to a multiple of 4; an already aligned segment gets four |
| Email.PaddingIsMinimalWhenNeeded | 91_notebook_client/src/python/email_detector.py:58 | for a segment that is not aligned, the padding is the least that aligns it |
| Email.OAuth2Email | 91_notebook_client/src/python/email_detector.py:31-80 | an address is returned iff there is a token with at least two dot-separated parts and the `email` claim of its padded second part is a valid string; that claim is the address returned |
| Email.GcloudEmail | 91_notebook_client/src/python/email_detector.py:82-111 | an address is returned iff the command exits with 0 and its stripped stdout is valid, and the address is that stripped stdout |
| Email.GcloudEmailHasNoNewline | 91_notebook_client/src/python/email_detector.py:93-94 | the address from `gcloud` never ends in a newline |
| Email.GetColabEmailAuto | 91_notebook_client/src/src/python/email_detector.py:113-151 | an error from the environment probe propagates and nothing is consulted; outside Colab: none, and no source consulted; otherwise a valid saved address, else a nonempty OAuth2 result, else a nonempty gcloud result, else none; the sources are consulted in that order |
| Email.DetectEmail | 91_notebook_client/src/python/email_detector.py:113-151 | the call raises exactly when the environment probe does; any address the chain returns comes from running in Colab and is valid; a valid saved address always wins |
| Results.SumsAppend | 91_notebook_client/src/python/result_viewer.py:53-54 | both totals add up over any split of the problem list |
| Results.SumEarned | 91_notebook_client/src/python/result_viewer.py:53 | the earned total of no problems is 0, and of one problem is its `points_earned` (0 when missing) |
| Results.SumTotal | 91_notebook_client/src/python/result_viewer.py:54 | the possible total of no problems is 0, and of one problem is its `points_total` (0 when missing) |
| Results.EmptyEntriesAddNothing | 91_notebook_client/src/python/result_viewer.py:53-54 | a problem with both point fields missing adds 0 to both totals |
| Results.EarnedBoundedByTotal | 91_notebook_client/src/src/python/result_viewer.py:53-54 | if no problem earns more than its total, the earned sum is at most the total sum |
| Results.AllPassIsFullMarks | 91_notebook_client/src/python/result_viewer.py:53-82 | if every problem passes, the earned total equals the possible total, and that total is positive |
| Results.Classify | 91_notebook_client/src/python/result_viewer.py:77-82 | ungradeable iff total ≤ 0; pass iff total > 0 and earned == total; partial iff total > 0, earned ≠ total and earned > 0; fail otherwise |
| Results.OverfullIsPartial | 91_notebook_client/src/src/python/result_viewer.py:77-82 | earning more than a positive total counts as partial, not as a pass |
| Results.HtmlClass | 91_notebook_client/src/python/result_viewer.py:332-346 | `status-pass` iff pass, `status-partial` iff partial, `status-fail` iff fail or ungradeable |
| Results.CheckMarkVersusStatus | 91_notebook_client/src/python/result_viewer.py:147 | a pass always gets ✅; with a positive total, ✅ means a pass or an overfull partial; 0 of 0 gets ✅ although it is ungradeable |
| Results.RowsByPosition | 91_notebook_client/src/python/result_viewer.py:71-74 | the report has one line per problem, in order; a problem without a number is numbered by its 1-based position |
| Results.ShownLog | 91_notebook_client/src/python/result_viewer.py:91 | the execution log is shown iff it is present and not blank |
| Results.TextGuard | 91_notebook_client/src/python/result_viewer.py:40-50 | the text view rejects its input iff it is null or lacks the `notebook_result` key, and it raises iff `notebook_result` is null |
| Results.TextView | 91_notebook_client/src/python/result_viewer.py:16-99 | a report is produced iff the response has a `notebook_result` that is an object, and it shows the earned and possible totals of its problems |
| Results.DisplayGradingResultHtml | 91_notebook_client/src/python/result_viewer.py:236-371 | the HTML view rejects and raises on exactly the inputs the text view does; otherwise its pieces show the same totals, one row per text line with that line's CSS class (or the no-problems notice), then the log exactly when the text view shows it |
| Results.ProblemRowHtml | 91_notebook_client/src/python/result_viewer.py:327-354 | the status and class chosen inline are those of `Classify` and `HtmlClass`, and missing fields default to the position or 0 |
| Results.HtmlRowsAssembled | 91_notebook_client/src/python/result_viewer.py:326-369 | the summary, one HTML row per text line and the log show the text report, for a nonempty row list |
| Results.HtmlNoticeAssembled | 91_notebook_client/src/python/result_viewer.py:355-369 | the summary, the no-problems notice and the log show the text report of an empty problem list |
| Results.ProblemRowsHtml | 91_notebook_client/src/python/result_viewer.py:326-354 | the row loop makes one piece per problem, in order, each the HTML form of the text line for that problem and its 1-based position |
| Results.ProblemRowsAreLines | 91_notebook_client/src/python/result_viewer.py:326-354 | the rows built by position are the HTML forms of the text report's lines |
| Results.AssembleHtml | 91_notebook_client/src/python/result_viewer.py:326-369 | the pieces put together from the problem list and the log show the text report built from them |
| Results.DetailsGuardIsStricter | 91_notebook_client/src/python/result_viewer.py:109-117 | whatever the details view accepts, the text view reports on; an empty `notebook_result` object is accepted by the text view but rejected by the details view |
| Results.DetailsAccepts | 91_notebook_client/src/python/result_viewer.py:109-117 | the details view accepts only a response whose `notebook_result` is an object |
| Results.DetailsView | 91_notebook_client/src/src/python/result_viewer.py:109-156 | no data iff the response is falsy; invalid iff the response is truthy but `notebook_result` is absent or falsy; otherwise the totals of the text view and exactly the corrected summary lines `SummaryRows` of its problems (as written, the source raises `ValueError` at a problem without a number instead; see Findings) |
| Results.SummaryRows | 91_notebook_client/src/python/result_viewer.py:142-155 | one line per problem, in order, keeping its number and showing its earned and total points; ✅ iff earned ≥ total; the 🚀 mark iff its number is the submitted one |
| Results.SummaryAsWrittenAgrees | 91_notebook_client/src/python/result_viewer.py:142-155 | the summary as written succeeds iff every problem has a number, and it then equals the intended summary |
| Results.SummaryRowsAsWritten | 91_notebook_client/src/python/result_viewer.py:143-155 | as written, the summary has one line per problem when it succeeds, and it fails only if some problem has no number |
| Results.MissingNumberBreaksSummary | 91_notebook_client/src/python/result_viewer.py:143-153 | a single problem without `problem_number` makes the summary as written fail, while the intended summary shows it |
| Results.SameTotals | 91_notebook_client/src/python/result_viewer.py:127-128 | the details view shows the same totals as the text view |
| Results.FirstNumbered | 91_notebook_client/src/python/result_viewer.py:181-185 | the index returned is the first problem whose number equals the submitted one, and None means there is no such problem |
| Results.FirstNumberedUnique | 91_notebook_client/src/python/result_viewer.py:181-185 | any index that fits the first-match description equals the lookup's result |
| Results.FindSubmittedProblem | 91_notebook_client/src/src/python/result_viewer.py:181-185 | the loop with `break` returns the first problem whose number is the submitted one, or none |
| Storage.LoadConfig | 91_notebook_client/src/src/python/storage_helper.py:63-71 | a missing or unparseable file reads as `{}`; a JSON value that is not an object is the only thing that makes dictionary operations raise |
| Storage.Lookup | 91_notebook_client/src/src/python/storage_helper.py:58-61 | a value is found iff the file holds an object with that key, and it is that key's value |
| Storage.AfterSave | 91_notebook_client/src/src/python/storage_helper.py:49-56 | with file writes assumed to succeed, saving fails only on a non-object file; after saving, loading the key gives the value and every other key is unchanged |
| Storage.AfterClearKey | 91_notebook_client/src/src/python/storage_helper.py:88-92 | with file writes assumed to succeed, popping fails only on a non-object file; afterwards the key is absent and every other key is unchanged |
| Storage.ClearAbsentKeyKeepsEntries | 91_notebook_client/src/src/python/storage_helper.py:89-92 | clearing an absent key rewrites the same entries |
| Storage.SaveThenSave | 91_notebook_client/src/src/python/storage_helper.py:49-56 | saving twice under one key equals saving the second value once |
| Storage.SaveThenClear | 91_notebook_client/src/src/python/storage_helper.py:49-92 | saving a new key and then clearing it restores the file |
| Storage.StorageManager.constructor | 91_notebook_client/src/src/python/storage_helper.py:12-14 | the store starts on the given file |
| Storage.StorageManager.SaveToStorage | 91_notebook_client/src/src/python/storage_helper.py:16-25 | returns False and leaves the file unchanged iff saving raises; otherwise the file is the saved one and loading the key gives the value |
| Storage.StorageManager.LoadFromStorage | 91_notebook_client/src/src/python/storage_helper.py:27-35 | returns the stored value, or None when the key is missing or the read raises |
| Storage.StorageManager.SaveEmailAddress | 91_notebook_client/src/src/python/storage_helper.py:73-75 | saves under the key `studentEmail` |
| Storage.StorageManager.LoadEmailAddress | 91_notebook_client/src/src/python/storage_helper.py:77-79 | loads the key `studentEmail` |
| Storage.StorageManager.ClearStorage | 91_notebook_client/src/src/python/storage_helper.py:81-100 | None or `''` removes the file; any other key is popped and the object rewritten, which creates a missing file; it raises, leaving the file unchanged, only on a non-object file; after a clear that does not raise, the key cannot be loaded |
| Storage.ClearAllForgetsEmail | 91_notebook_client/src/src/python/storage_helper.py:73-100 | a saved address loads back, and after `clear_storage('')` it is gone |
| Environment.ProbeAnswer | 91_notebook_client/src/python/environment_detector.py:15-19 | the probe answers True iff the import succeeds and False on ImportError; any other error propagates |
| Environment.InfoFor | 91_notebook_client/src/python/environment_detector.py:26-31 | the record agrees with the flag: the name is "Google Colab" iff in Colab, else "VS Code/Local"; JavaScript support equals the flag; widgets are supported |
| Environment.ConsistentIsInfoFor | 91_notebook_client/src/python/environment_detector.py:26-31 | a record that agrees with its flag is the record built from that flag |
| Environment.EnvironmentDetector.constructor | 91_notebook_client/src/python/environment_detector.py:8-10 | both caches start empty |
| Environment.EnvironmentDetector.DetectColabEnvironment | 91_notebook_client/src/python/environment_detector.py:12-20 | probes only while nothing is cached (the probe count rises by one); otherwise returns the cached flag; an error that propagates leaves the cache empty |
| Environment.EnvironmentDetector.GetEnvironmentInfo | 91_notebook_client/src/python/environment_detector.py:22-32 | builds the record once from the detected flag and then returns it unchanged, without probing again; when nothing was cached, it probes once and caches the probe's answer, or leaves the cache empty when the probe's error propagates |
| Environment.EnvironmentDetector.IsColab | 91_notebook_client/src/python/environment_detector.py:34-36 | the detected flag: the cached one, without probing, or else the probe's answer, which is cached; an error that propagates leaves the cache empty |
| Environment.EnvironmentDetector.IsVscode | 91_notebook_client/src/python/environment_detector.py:38-40 | the negation of the detected flag: of the cached one, without probing, or else of the probe's answer, which is cached; an error that propagates leaves the cache empty |
| Environment.EnvironmentDetector.SupportsJavascript | 91_notebook_client/src/python/environment_detector.py:42-44 | the detected flag, cached or probed and cached as `is_colab` does, which equals the record's JavaScript field once the record is built; an error that propagates leaves the cache empty |
| Environment.ProbeOnce | 91_notebook_client/src/python/environment_detector.py:14-44 | after one probe answers, `is_vscode` is its negation, `supports_javascript` equals it, and the record is built from it; later probes are never run |

## Left out

- Network and time are left out. `requests.post` is the oracle `transport`. A sleep is an event in the trace, not a real delay.
- Printing, widgets and rendering are left out: console lines, HTML markup, CSS, widget construction. The HTML view is modelled as the ordered list of parts it appends.
- The floating-point percentages in the result views are left out.
- Every diagnostic file read or write is left out, with the `glob` and `open` calls in the notebook reader: `save_result_to_file`, `load_result_from_file`, `save_submission_data_to_file`, `save_request_packet`. From the notebook reader, only the choice among a given list of file names is modelled.
- Colab and cloud calls are oracle parameters: `_message.blocking_request`, `output.eval_js`, `google.auth` and `gcloud`. The same goes for base64 and JSON decoding of the token payload.
- Storage: the browser `localStorage` branch is a foreign call and is not modelled. Only the file branch is.
- Grading.FailureMessage: a 200 whose body does not parse is given the generic "unexpected error" prefix. `requests` 2.27 and later raise a `RequestException` subclass there, which would give the network-error prefix. Either way, the control flow is the same.
- Grading.GradingClient.SubmitAssignment: the outer `except Exception` is left out. Nothing modelled inside it raises. The viewer's exceptions are caught and do not change the result.
- Grading.GradingClient.SendToGradingSystemWithRetry: the request headers are a constant the model does not carry.
- Email.AsciiLower: the blacklist test folds only `A`–`Z`. Python's `lower()` is Unicode: it can lengthen a string (`'İ'`) and maps the Kelvin sign to `k`. The verdict of `is_valid_email` is unaffected, because `BlacklistIsRedundant` shows the blacklist never decides it.
- Storage: file writes are assumed to succeed. The `open(..., 'w')` and `json.dump` at storage_helper.py lines 54-55 and 91-92, and `os.remove` at line 100, can raise `OSError`. `save_to_storage` would then return False (line 25), and `clear_storage` would raise; neither is modelled.
- Results: JSON values of unexpected types are not modelled, such as a `problems` that is not a list or a non-integer `problem_number`. The same goes for a truthy `notebook_result` that is not an object, and for a response body whose top level is a list, string or number: the retry loop returns such a body as a success, but the model's parsed body is null or an object.
- Grading.SleepError: the `OverflowError` text is the one CPython 3.12 and earlier give; 3.13 writes `PyTime_t` without the underscore. A `retry_delay` that is not an integer is not modelled.
- Results: the button handler of the details view is modelled only as the submitted-problem lookup and the ✅ rule. Its console output is left out.
- Notebook: a cell `source` other than a string or a list of strings is not modelled.
- Notebook: the cell lists that Colab or the notebook file would provide are a parameter. So are the file names `glob` would list.
- Environment.EnvironmentDetector.DetectColabEnvironment: the ghost probe counter stands for the import side effect.
- `91_notebook_client/src/python/submit_widget.py` is not part of this model: it is UI wiring over the modelled rules. `client_setup.py` and the `__init__.py` files are not part of it either: they are import and configuration glue.

## Findings

| source | as written | input that shows it | evidently intended | confidence | as-written member | corrected member |
|---|---|---|---|---|---|---|
| 91_notebook_client/src/python/result_viewer.py:143-153 | a missing `problem_number` defaults to the string `"?"`, which is then formatted with `02d`; that raises `ValueError` before the details button is shown | a response whose problem list holds `{"points_earned": 5, "points_total": 10}` without `problem_number` | the problem is listed with `?` as its number | high (not executed) | Results.MissingNumberBreaksSummary | Results.SummaryRows |
