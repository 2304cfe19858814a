/** The client of the grading service: the submission payload, and the
    blocking retry loop that posts it. The network is an oracle: attempt `a`
    (counting from 0) gets `transport(a)`. Waiting is an event in the trace
    the loop leaves behind, as are the console lines that number the
    attempts and the posts themselves. */
module Grading {
  import opened Common
  import Notebook
  import Results

  // ---------------------------------------------------------------------------
  // Payload

  const DefaultBaseUrl := "http://localhost:8080"
  const GradePath := "/grade"
  const AssignmentPrefix := "practice_problem_"
  const KernelName := "python3"
  const KernelDisplayName := "Python 3"
  /** The `timeout` passed to every post, in seconds. */
  const RequestTimeout := 30
  const DefaultMaxRetries := 3
  /** Seconds slept before each retry. */
  const DefaultRetryDelay := 10

  /** The dictionary built by `create_submission_data`. */
  datatype SubmissionData = SubmissionData(
    studentEmail: string,
    assignmentId: string,
    notebookPath: Option<string>,
    cells: seq<Notebook.Cell>,
    kernelName: string,
    kernelDisplayName: string)

  // ---------------------------------------------------------------------------
  // Transport outcomes and results

  /** The body of a 200 response: parsed, or a decoding error. */
  datatype Decoded = Parsed(value: Results.Response) | ParseError(detail: string)

  /** What one post does. */
  datatype Outcome =
    | Http(status: int, text: string, json: Decoded) // a response arrived
    | RequestFailure(detail: string)                 // `requests` raised a RequestException
    | OtherFailure(detail: string)                   // anything else was raised

  /** The `(success, response_data, error_message)` triple. */
  datatype SendResult = Sent(body: Results.Response) | Failed(message: string)

  const NetworkErrorPrefix := "ネットワークエラー: "
  const UnexpectedErrorPrefix := "予期しないエラー: "
  const ExhaustedMessage := "最大リトライ回数に達しました"
  /** What `time.sleep` raises (a `ValueError`) when given a negative length. */
  const NegativeSleepMessage := "sleep length must be non-negative"
  /** What `time.sleep` raises (an `OverflowError`) when the length in
      nanoseconds does not fit a signed 64-bit integer. */
  const OverflowSleepMessage := "timestamp too large to convert to C _PyTime_t"
  /** The largest whole number of seconds whose nanoseconds fit a signed
      64-bit integer: 2^63 - 1 ns is 9223372036.854775807 s. */
  const MaxSleepSeconds := 9223372036

  /** An attempt that returns at once: status 200 and a body that parses. */
  predicate Succeeds(o: Outcome) {
    o.Http? && o.status == 200 && o.json.Parsed?
  }

  /** The error message of a failed attempt. A 200 whose body does not
      parse raises inside the `try`, and lands in the generic handler. */
  function FailureMessage(o: Outcome): (m: string)
    requires !Succeeds(o)
    ensures o.Http? && o.status != 200 ==> "HTTP " <= m
    ensures o.RequestFailure? ==> NetworkErrorPrefix <= m
    ensures o.OtherFailure? || (o.Http? && o.status == 200) ==> UnexpectedErrorPrefix <= m
  {
    match o
    case Http(status, text, json) =>
      if status != 200 then "HTTP " + IntToDecimal(status) + ": " + text
      else UnexpectedErrorPrefix + json.detail
    case RequestFailure(d) => NetworkErrorPrefix + d
    case OtherFailure(d) => UnexpectedErrorPrefix + d
  }

  /** No failure message is the message of an exhausted loop. */
  lemma FailureIsNotExhausted(o: Outcome)
    requires !Succeeds(o)
    ensures FailureMessage(o) != ExhaustedMessage
  {
    var m := FailureMessage(o);
    if o.Http? && o.status != 200 {
      assert m[0] == 'H';
    } else if o.RequestFailure? {
      assert m[0] == NetworkErrorPrefix[0];
    } else {
      assert m[0] == UnexpectedErrorPrefix[0];
    }
    assert m[0] != ExhaustedMessage[0];
  }

  // ---------------------------------------------------------------------------
  // Trace

  /** What the loop does besides posting: the console lines that number
      retries and attempts, the sleeps, and the posts. */
  datatype Event =
    | RetryNotice(retry: nat, maxRetries: int, delay: int)
    | Sleep(seconds: int)
    | TryNotice(attempt: nat, attempts: int)
    | Post(url: string, data: SubmissionData, timeout: int)

  /** Whether `time.sleep(delay)` returns: the delay must be non-negative
      and small enough to convert to 64-bit nanoseconds. */
  predicate SleepReturns(delay: int) {
    0 <= delay <= MaxSleepSeconds
  }

  /** The error `time.sleep(delay)` raises when it does not return: the
      overflow is detected while converting, before the sign is tested. */
  function SleepError(delay: int): (m: string)
    requires !SleepReturns(delay)
    ensures m == NegativeSleepMessage <==> -MaxSleepSeconds <= delay < 0
    ensures m == OverflowSleepMessage <==> !(-MaxSleepSeconds <= delay <= MaxSleepSeconds)
  {
    if delay < -MaxSleepSeconds || delay > MaxSleepSeconds then OverflowSleepMessage else NegativeSleepMessage
  }

  /** Whether attempt `a` gets past its sleep: a sleep that raises does so
      before the attempt is announced and posted. */
  predicate Reaches(a: nat, delay: int) {
    a == 0 || SleepReturns(delay)
  }

  /** The events of attempt `a` (from 0). `Sleep` is the call to the sleep,
      made even when it raises. */
  function AttemptEvents(a: nat, maxRetries: int, delay: int, url: string, data: SubmissionData): seq<Event> {
    (if a > 0 then [RetryNotice(a, maxRetries, delay), Sleep(delay)] else [])
      + (if Reaches(a, delay) then [TryNotice(a + 1, maxRetries + 1), Post(url, data, RequestTimeout)] else [])
  }

  /** How many of the first `k` attempts get to their post. */
  function Posted(k: nat, delay: int): (n: nat)
    ensures n <= k
    ensures SleepReturns(delay) ==> n == k
    ensures !SleepReturns(delay) ==> n == if k == 0 then 0 else 1
  {
    if SleepReturns(delay) || k <= 1 then k else 1
  }

  /** The events of the first `k` attempts. */
  function Trace(k: nat, maxRetries: int, delay: int, url: string, data: SubmissionData): seq<Event> {
    if k == 0 then [] else Trace(k - 1, maxRetries, delay, url, data) + AttemptEvents(k - 1, maxRetries, delay, url, data)
  }

  // ---------------------------------------------------------------------------
  // The loop in closed form

  /** The first attempt below `n` that succeeds. */
  function FirstSuccess(transport: nat -> Outcome, n: nat): (r: Option<nat>)
    ensures r.Some? ==> r.value < n && Succeeds(transport(r.value))
    ensures r.Some? ==> forall j :: 0 <= j < r.value ==> !Succeeds(transport(j))
    ensures r.None? ==> forall j :: 0 <= j < n ==> !Succeeds(transport(j))
  {
    if n == 0 then None
    else
      match FirstSuccess(transport, n - 1)
      case Some(i) => Some(i)
      case None => if Succeeds(transport(n - 1)) then Some(n - 1) else None
  }

  /** What attempt `a` comes to when the loop sleeps `delay` before every
      attempt but the first: the transport's outcome, or, when the sleep
      raises, the failure the generic handler catches. */
  function Effective(transport: nat -> Outcome, delay: int): nat -> Outcome {
    (a: nat) => if Reaches(a, delay) then transport(a) else OtherFailure(SleepError(delay))
  }

  /** The result of the loop and the number of attempts it begins. */
  datatype Run = Run(result: SendResult, attempts: nat)

  /** `send_to_grading_system_with_retry` in closed form, over the outcome
      of each attempt: the first success among the `maxRetries + 1`
      attempts, else the failure of the last attempt; no attempt at all when
      `maxRetries` is negative. */
  function RetryRun(outcomes: nat -> Outcome, maxRetries: int): (run: Run)
    ensures run.result.Sent? ==> 1 <= run.attempts && Succeeds(outcomes(run.attempts - 1))
                                 && run.result.body == outcomes(run.attempts - 1).json.value
    ensures run.result.Failed? && maxRetries >= 0 ==>
              run.attempts == maxRetries + 1 && !Succeeds(outcomes(maxRetries))
              && run.result.message == FailureMessage(outcomes(maxRetries))
  {
    if maxRetries < 0 then Run(Failed(ExhaustedMessage), 0)
    else
      match FirstSuccess(outcomes, maxRetries + 1)
      case Some(k) => Run(Sent(outcomes(k).json.value), k + 1)
      case None => Run(Failed(FailureMessage(outcomes(maxRetries))), maxRetries + 1)
  }

  /** The closed form begins between 0 and `maxRetries + 1` attempts, and
      none exactly when `maxRetries` is negative. */
  lemma AttemptsBounded(outcomes: nat -> Outcome, maxRetries: int)
    ensures RetryRun(outcomes, maxRetries).attempts == 0 <==> maxRetries < 0
    ensures maxRetries >= 0 ==> RetryRun(outcomes, maxRetries).attempts <= maxRetries + 1
  {
  }

  /** A success is the first attempt that succeeds, and nothing is posted
      after it. */
  lemma SuccessIsFirst(transport: nat -> Outcome, maxRetries: int)
    requires RetryRun(transport, maxRetries).result.Sent?
    ensures var k := RetryRun(transport, maxRetries).attempts;
            && 1 <= k <= maxRetries + 1
            && Succeeds(transport(k - 1))
            && RetryRun(transport, maxRetries).result.body == transport(k - 1).json.value
            && forall j :: 0 <= j < k - 1 ==> !Succeeds(transport(j))
  {
  }

  /** When every allowed attempt fails, all `maxRetries + 1` are made and
      the message is the one of the last failure. */
  lemma AllAttemptsFail(transport: nat -> Outcome, maxRetries: int)
    requires maxRetries >= 0
    requires forall j :: 0 <= j <= maxRetries ==> !Succeeds(transport(j))
    ensures RetryRun(transport, maxRetries) == Run(Failed(FailureMessage(transport(maxRetries))), maxRetries + 1)
  {
    AllFailed(transport, maxRetries);
  }

  /** A failure means no allowed attempt succeeded. */
  lemma FailureMeansNoSuccess(transport: nat -> Outcome, maxRetries: int)
    requires RetryRun(transport, maxRetries).result.Failed?
    ensures forall j :: 0 <= j <= maxRetries ==> !Succeeds(transport(j))
  {
  }

  /** The final "maximum retries reached" return happens exactly when
      `maxRetries` is negative, that is, when no attempt is made. */
  lemma ExhaustedOnlyWithoutAttempts(transport: nat -> Outcome, maxRetries: int)
    ensures RetryRun(transport, maxRetries).result == Failed(ExhaustedMessage) <==> maxRetries < 0
  {
    if maxRetries >= 0 && FirstSuccess(transport, maxRetries + 1).None? {
      FailureIsNotExhausted(transport(maxRetries));
    }
  }

  /** With a delay the sleep accepts every attempt gets the transport's
      outcome, so the delay does not change the run. */
  lemma DelayIrrelevantWhenSleepReturns(transport: nat -> Outcome, maxRetries: int, delay: int)
    requires SleepReturns(delay)
    ensures RetryRun(Effective(transport, delay), maxRetries) == RetryRun(transport, maxRetries)
  {
    var outcomes := Effective(transport, delay);
    forall j: nat
      ensures outcomes(j) == transport(j)
    {
    }
    if maxRetries >= 0 {
      FirstSuccessPointwise(outcomes, transport, maxRetries + 1);
    }
  }

  /** With a delay the sleep rejects (negative, or too large to convert),
      once the first post fails every retry raises in its sleep, so the last
      attempt fails with the sleep's error. */
  lemma RaisingSleepFailsAfterFirst(transport: nat -> Outcome, maxRetries: int, delay: int)
    requires !SleepReturns(delay) && maxRetries >= 1
    requires !Succeeds(transport(0))
    ensures RetryRun(Effective(transport, delay), maxRetries)
         == Run(Failed(UnexpectedErrorPrefix + SleepError(delay)), maxRetries + 1)
  {
    var outcomes := Effective(transport, delay);
    forall j | 0 <= j <= maxRetries
      ensures !Succeeds(outcomes(j))
    {
      if j > 0 {
        assert !Reaches(j, delay);
        assert outcomes(j) == OtherFailure(SleepError(delay));
      }
    }
    AllFailed(outcomes, maxRetries);
    assert !Reaches(maxRetries, delay);
    assert outcomes(maxRetries) == OtherFailure(SleepError(delay));
  }

  /** Two outcome functions that agree below `n` have the same first
      success below `n`. */
  lemma {:induction false} FirstSuccessPointwise(t1: nat -> Outcome, t2: nat -> Outcome, n: nat)
    requires forall j :: 0 <= j < n ==> t1(j) == t2(j)
    ensures FirstSuccess(t1, n) == FirstSuccess(t2, n)
  {
    if n > 0 {
      FirstSuccessPointwise(t1, t2, n - 1);
    }
  }

  // ---------------------------------------------------------------------------
  // What the trace contains

  function SleepOf(e: Event): Option<int> {
    if e.Sleep? then Some(e.seconds) else None
  }

  function TryNumberOf(e: Event): Option<nat> {
    if e.TryNotice? then Some(e.attempt) else None
  }

  function RetryNumberOf(e: Event): Option<nat> {
    if e.RetryNotice? then Some(e.retry) else None
  }

  function PostOf(e: Event): Option<Event> {
    if e.Post? then Some(e) else None
  }

  /** What a selector picks out of one attempt: from the retry notice and
      the sleep when it is not the first attempt, then, when the sleep did
      not raise, from the attempt notice and the post. */
  lemma AttemptSelect<U>(a: nat, maxRetries: int, delay: int, url: string, data: SubmissionData, f: Event -> Option<U>)
    ensures Select(AttemptEvents(a, maxRetries, delay, url, data), f)
         == (if a > 0 then OptionToSeq(f(RetryNotice(a, maxRetries, delay))) + OptionToSeq(f(Sleep(delay))) else [])
            + (if Reaches(a, delay) then OptionToSeq(f(TryNotice(a + 1, maxRetries + 1))) + OptionToSeq(f(Post(url, data, RequestTimeout))) else [])
  {
    var t1, t2 := TryNotice(a + 1, maxRetries + 1), Post(url, data, RequestTimeout);
    var h1, h2 := RetryNotice(a, maxRetries, delay), Sleep(delay);
    SelectPair(t1, t2, f);
    SelectPair(h1, h2, f);
    if a > 0 && Reaches(a, delay) {
      SelectAppend([h1, h2], [t1, t2], f);
      assert AttemptEvents(a, maxRetries, delay, url, data) == [h1, h2] + [t1, t2];
    } else if a > 0 {
      assert AttemptEvents(a, maxRetries, delay, url, data) == [h1, h2];
    } else {
      assert AttemptEvents(a, maxRetries, delay, url, data) == [t1, t2];
    }
  }

  /** After `k` attempts: one retry notice and one sleep of `delay` per
      attempt but the first, the retries numbered 1 to `k - 1`; and, for
      each attempt whose sleep did not raise, a try notice, numbered 1 up,
      and an identical post of the payload to the grading URL with the
      fixed timeout. */
  lemma {:induction false} TraceContents(k: nat, maxRetries: int, delay: int, url: string, data: SubmissionData)
    ensures Select(Trace(k, maxRetries, delay, url, data), TryNumberOf) == seq(Posted(k, delay), i => i + 1)
    ensures Select(Trace(k, maxRetries, delay, url, data), RetryNumberOf) == seq(if k == 0 then 0 else k - 1, i => i + 1)
    ensures Select(Trace(k, maxRetries, delay, url, data), SleepOf) == seq(if k == 0 then 0 else k - 1, i => delay)
    ensures Select(Trace(k, maxRetries, delay, url, data), PostOf) == seq(Posted(k, delay), i => Post(url, data, RequestTimeout))
  {
    TraceTries(k, maxRetries, delay, url, data);
    TraceRetries(k, maxRetries, delay, url, data);
    TraceSleeps(k, maxRetries, delay, url, data);
    TracePosts(k, maxRetries, delay, url, data);
  }

  /** The trace of `k` attempts, selected, is that of `k - 1` attempts
      followed by what the last attempt contributes. */
  lemma TraceStep<U>(k: nat, maxRetries: int, delay: int, url: string, data: SubmissionData, f: Event -> Option<U>)
    requires k > 0
    ensures Select(Trace(k, maxRetries, delay, url, data), f)
         == Select(Trace(k - 1, maxRetries, delay, url, data), f) + Select(AttemptEvents(k - 1, maxRetries, delay, url, data), f)
  {
    SelectAppend(Trace(k - 1, maxRetries, delay, url, data), AttemptEvents(k - 1, maxRetries, delay, url, data), f);
  }

  lemma AttemptTries(a: nat, maxRetries: int, delay: int, url: string, data: SubmissionData)
    ensures Select(AttemptEvents(a, maxRetries, delay, url, data), TryNumberOf) == if Reaches(a, delay) then [a + 1] else []
  {
    AttemptSelect(a, maxRetries, delay, url, data, TryNumberOf);
  }

  lemma AttemptRetries(a: nat, maxRetries: int, delay: int, url: string, data: SubmissionData)
    ensures Select(AttemptEvents(a, maxRetries, delay, url, data), RetryNumberOf) == if a > 0 then [a] else []
  {
    AttemptSelect(a, maxRetries, delay, url, data, RetryNumberOf);
  }

  lemma AttemptSleeps(a: nat, maxRetries: int, delay: int, url: string, data: SubmissionData)
    ensures Select(AttemptEvents(a, maxRetries, delay, url, data), SleepOf) == if a > 0 then [delay] else []
  {
    AttemptSelect(a, maxRetries, delay, url, data, SleepOf);
  }

  lemma AttemptPosts(a: nat, maxRetries: int, delay: int, url: string, data: SubmissionData)
    ensures Select(AttemptEvents(a, maxRetries, delay, url, data), PostOf)
         == if Reaches(a, delay) then [Post(url, data, RequestTimeout)] else []
  {
    AttemptSelect(a, maxRetries, delay, url, data, PostOf);
  }

  lemma {:induction false} TraceTries(k: nat, maxRetries: int, delay: int, url: string, data: SubmissionData)
    ensures Select(Trace(k, maxRetries, delay, url, data), TryNumberOf) == seq(Posted(k, delay), i => i + 1)
  {
    if k > 0 {
      var prev := Select(Trace(k - 1, maxRetries, delay, url, data), TryNumberOf);
      var step := Select(AttemptEvents(k - 1, maxRetries, delay, url, data), TryNumberOf);
      assert Select(Trace(k, maxRetries, delay, url, data), TryNumberOf) == prev + step by {
        TraceStep(k, maxRetries, delay, url, data, TryNumberOf);
      }
      assert prev == seq(Posted(k - 1, delay), i => i + 1) by {
        TraceTries(k - 1, maxRetries, delay, url, data);
      }
      assert step == if Reaches(k - 1, delay) then [k] else [] by {
        AttemptTries(k - 1, maxRetries, delay, url, data);
      }
      if Reaches(k - 1, delay) {
        assert Posted(k, delay) == k && Posted(k - 1, delay) == k - 1;
        assert prev + step == seq(k - 1, i => i + 1) + [k] == seq(k, i => i + 1);
      } else {
        assert Posted(k, delay) == Posted(k - 1, delay);
        assert prev + step == prev;
      }
    }
  }

  lemma {:induction false} TraceRetries(k: nat, maxRetries: int, delay: int, url: string, data: SubmissionData)
    ensures Select(Trace(k, maxRetries, delay, url, data), RetryNumberOf) == seq(if k == 0 then 0 else k - 1, i => i + 1)
  {
    if k > 0 {
      var prev := Select(Trace(k - 1, maxRetries, delay, url, data), RetryNumberOf);
      var step := Select(AttemptEvents(k - 1, maxRetries, delay, url, data), RetryNumberOf);
      assert Select(Trace(k, maxRetries, delay, url, data), RetryNumberOf) == prev + step by {
        TraceStep(k, maxRetries, delay, url, data, RetryNumberOf);
      }
      assert prev == seq(if k == 1 then 0 else k - 2, i => i + 1) by {
        TraceRetries(k - 1, maxRetries, delay, url, data);
      }
      assert step == if k > 1 then [k - 1] else [] by {
        AttemptRetries(k - 1, maxRetries, delay, url, data);
      }
      if k > 1 {
        assert prev + step == seq(k - 2, i => i + 1) + [k - 1] == seq(k - 1, i => i + 1);
      } else {
        assert prev + step == [];
      }
    }
  }

  lemma {:induction false} TraceSleeps(k: nat, maxRetries: int, delay: int, url: string, data: SubmissionData)
    ensures Select(Trace(k, maxRetries, delay, url, data), SleepOf) == seq(if k == 0 then 0 else k - 1, i => delay)
  {
    if k > 0 {
      var prev := Select(Trace(k - 1, maxRetries, delay, url, data), SleepOf);
      var step := Select(AttemptEvents(k - 1, maxRetries, delay, url, data), SleepOf);
      assert Select(Trace(k, maxRetries, delay, url, data), SleepOf) == prev + step by {
        TraceStep(k, maxRetries, delay, url, data, SleepOf);
      }
      assert prev == seq(if k == 1 then 0 else k - 2, i => delay) by {
        TraceSleeps(k - 1, maxRetries, delay, url, data);
      }
      assert step == if k > 1 then [delay] else [] by {
        AttemptSleeps(k - 1, maxRetries, delay, url, data);
      }
      if k > 1 {
        assert prev + step == seq(k - 2, i => delay) + [delay] == seq(k - 1, i => delay);
      } else {
        assert prev + step == [];
      }
    }
  }

  lemma {:induction false} TracePosts(k: nat, maxRetries: int, delay: int, url: string, data: SubmissionData)
    ensures Select(Trace(k, maxRetries, delay, url, data), PostOf) == seq(Posted(k, delay), i => Post(url, data, RequestTimeout))
  {
    if k > 0 {
      var prev := Select(Trace(k - 1, maxRetries, delay, url, data), PostOf);
      var step := Select(AttemptEvents(k - 1, maxRetries, delay, url, data), PostOf);
      assert Select(Trace(k, maxRetries, delay, url, data), PostOf) == prev + step by {
        TraceStep(k, maxRetries, delay, url, data, PostOf);
      }
      assert prev == seq(Posted(k - 1, delay), i => Post(url, data, RequestTimeout)) by {
        TracePosts(k - 1, maxRetries, delay, url, data);
      }
      assert step == if Reaches(k - 1, delay) then [Post(url, data, RequestTimeout)] else [] by {
        AttemptPosts(k - 1, maxRetries, delay, url, data);
      }
      if Reaches(k - 1, delay) {
        assert Posted(k, delay) == k && Posted(k - 1, delay) == k - 1;
        assert prev + step == seq(k - 1, i => Post(url, data, RequestTimeout)) + [Post(url, data, RequestTimeout)]
            == seq(k, i => Post(url, data, RequestTimeout));
      } else {
        assert Posted(k, delay) == Posted(k - 1, delay);
        assert prev + step == prev;
      }
    }
  }

  /** The loop sleeps once fewer than it begins attempts. With a delay the
      sleep accepts it posts at every attempt; with one it rejects it posts
      only once. */
  lemma SleepsBetweenPosts(transport: nat -> Outcome, maxRetries: int, delay: int, url: string, data: SubmissionData)
    requires maxRetries >= 0
    ensures var k := RetryRun(Effective(transport, delay), maxRetries).attempts;
            var trace := Trace(k, maxRetries, delay, url, data);
            && |Select(trace, SleepOf)| == k - 1
            && (SleepReturns(delay) ==> |Select(trace, PostOf)| == k == RetryRun(transport, maxRetries).attempts)
            && (!SleepReturns(delay) ==> |Select(trace, PostOf)| == 1)
  {
    var k := RetryRun(Effective(transport, delay), maxRetries).attempts;
    AttemptsBounded(Effective(transport, delay), maxRetries);
    TraceContents(k, maxRetries, delay, url, data);
    if SleepReturns(delay) {
      DelayIrrelevantWhenSleepReturns(transport, maxRetries, delay);
    }
  }

  // ---------------------------------------------------------------------------
  // Client

  class GradingClient {
    var baseUrl: string
    var notebookPath: Option<string>

    constructor (baseUrl: string)
      ensures this.baseUrl == baseUrl && notebookPath == None
    {
      this.baseUrl := baseUrl;
      notebookPath := None;
    }

    /** `set_grading_system_url`. */
    method SetGradingSystemUrl(url: string)
      modifies this
      ensures baseUrl == url && notebookPath == old(notebookPath)
    {
      baseUrl := url;
    }

    /** `get_grading_system_url`. */
    method GetGradingSystemUrl() returns (url: string)
      ensures url == baseUrl
    {
      url := baseUrl;
    }

    /** `set_notebook_path`. */
    method SetNotebookPath(path: Option<string>)
      modifies this
      ensures notebookPath == path && baseUrl == old(baseUrl)
    {
      notebookPath := path;
    }

    /** `get_notebook_path`. */
    method GetNotebookPath() returns (path: Option<string>)
      ensures path == notebookPath
    {
      path := notebookPath;
    }

    /** `create_submission_data`: the cells pass through unchanged, the
        notebook path is the client's current one, the assignment id is the
        prefix followed by the decimal problem number, and that number can
        be read back from it. */
    function CreateSubmissionData(studentEmail: string, problemNumber: int, cells: seq<Notebook.Cell>): (d: SubmissionData)
      reads this
      ensures d.studentEmail == studentEmail && d.cells == cells && d.notebookPath == notebookPath
      ensures d.assignmentId == AssignmentPrefix + IntToDecimal(problemNumber)
      ensures ParseInt(d.assignmentId[|AssignmentPrefix|..]) == Some(problemNumber)
      ensures d.kernelName == KernelName && d.kernelDisplayName == KernelDisplayName
    {
      var id := AssignmentPrefix + IntToDecimal(problemNumber);
      assert id[|AssignmentPrefix|..] == IntToDecimal(problemNumber);
      IntDecimalRoundTrip(problemNumber);
      SubmissionData(studentEmail, id, notebookPath, cells, KernelName, KernelDisplayName)
    }

    /** `send_to_grading_system_with_retry`: up to `maxRetries + 1`
        attempts, a sleep of `retryDelay` before every attempt but the
        first, and a return from inside the loop on the first success or
        on the failure of the last attempt. A delay that is negative or too
        large makes the sleep raise, which fails that attempt before it
        posts. */
    method SendToGradingSystemWithRetry(data: SubmissionData, transport: nat -> Outcome, maxRetries: int, retryDelay: int)
      returns (result: SendResult, trace: seq<Event>)
      ensures result == RetryRun(Effective(transport, retryDelay), maxRetries).result
      ensures trace == Trace(RetryRun(Effective(transport, retryDelay), maxRetries).attempts, maxRetries, retryDelay, baseUrl + GradePath, data)
    {
      var outcomes := Effective(transport, retryDelay);
      var url := baseUrl + GradePath;
      trace := [];
      var attempt := 0;
      while attempt < maxRetries + 1
        invariant 0 <= attempt && (maxRetries >= 0 ==> attempt <= maxRetries)
        invariant maxRetries < 0 ==> attempt == 0
        invariant forall j :: 0 <= j < attempt ==> !Succeeds(outcomes(j))
        invariant trace == Trace(attempt, maxRetries, retryDelay, url, data)
        decreases maxRetries + 1 - attempt
      {
        if attempt > 0 {
          trace := trace + [RetryNotice(attempt, maxRetries, retryDelay), Sleep(retryDelay)];
        }
        var errorMessage;
        if !Reaches(attempt, retryDelay) {
          assert outcomes(attempt) == OtherFailure(SleepError(retryDelay));
          errorMessage := UnexpectedErrorPrefix + SleepError(retryDelay);
        } else {
          trace := trace + [TryNotice(attempt + 1, maxRetries + 1), Post(url, data, RequestTimeout)];
          var response := transport(attempt);
          assert outcomes(attempt) == response;
          match response {
            case Http(status, text, json) =>
              if status == 200 {
                match json {
                  case Parsed(body) =>
                    FirstSuccessAt(outcomes, attempt);
                    return Sent(body), trace;
                  case ParseError(detail) =>
                    errorMessage := UnexpectedErrorPrefix + detail;
                }
              } else {
                errorMessage := "HTTP " + IntToDecimal(status) + ": " + text;
              }
            case RequestFailure(detail) =>
              errorMessage := NetworkErrorPrefix + detail;
            case OtherFailure(detail) =>
              errorMessage := UnexpectedErrorPrefix + detail;
          }
        }
        assert errorMessage == FailureMessage(outcomes(attempt));
        if attempt >= maxRetries {
          AllFailed(outcomes, maxRetries);
          return Failed(errorMessage), trace;
        }
        attempt := attempt + 1;
      }
      return Failed(ExhaustedMessage), trace;
    }

    /** `submit_assignment` with the default retry settings: the payload
        built from the arguments is what every attempt posts, the delay is
        the default one, and the retry result is passed through. Showing the
        result may raise, but that is caught and the success is returned all
        the same. */
    method SubmitAssignment(studentEmail: string, problemNumber: int, cells: seq<Notebook.Cell>, transport: nat -> Outcome)
      returns (success: bool, result: Option<Results.Response>, error: Option<string>, trace: seq<Event>)
      ensures var run := RetryRun(transport, DefaultMaxRetries);
              && (success <==> run.result.Sent?)
              && (success ==> result == Some(run.result.body) && error == None)
              && (!success ==> result == None && error == Some(run.result.message))
              && trace == Trace(run.attempts, DefaultMaxRetries, DefaultRetryDelay, baseUrl + GradePath,
                                CreateSubmissionData(studentEmail, problemNumber, cells))
    {
      var data := CreateSubmissionData(studentEmail, problemNumber, cells);
      var sent;
      sent, trace := SendToGradingSystemWithRetry(data, transport, DefaultMaxRetries, DefaultRetryDelay);
      DelayIrrelevantWhenSleepReturns(transport, DefaultMaxRetries, DefaultRetryDelay);
      match sent {
        case Sent(body) =>
          success, result, error := true, Some(body), None;
        case Failed(message) =>
          success, result, error := false, None, Some(message);
      }
    }
  }

  /** The attempt the loop succeeds at is the first success. */
  lemma FirstSuccessAt(transport: nat -> Outcome, k: nat)
    requires Succeeds(transport(k))
    requires forall j :: 0 <= j < k ==> !Succeeds(transport(j))
    ensures forall n :: k < n ==> FirstSuccess(transport, n) == Some(k)
  {
    forall n | k < n
      ensures FirstSuccess(transport, n) == Some(k)
    {
      FirstSuccessBelow(transport, k, n);
    }
  }

  lemma {:induction false} FirstSuccessBelow(transport: nat -> Outcome, k: nat, n: nat)
    requires k < n && Succeeds(transport(k))
    requires forall j :: 0 <= j < k ==> !Succeeds(transport(j))
    ensures FirstSuccess(transport, n) == Some(k)
    decreases n
  {
    if n - 1 > k {
      FirstSuccessBelow(transport, k, n - 1);
    }
  }

  /** When the first `n` attempts all fail, there is no success below `n`. */
  lemma AllFailed(transport: nat -> Outcome, maxRetries: int)
    requires maxRetries >= 0
    requires forall j :: 0 <= j <= maxRetries ==> !Succeeds(transport(j))
    ensures FirstSuccess(transport, maxRetries + 1) == None
  {
  }
}
