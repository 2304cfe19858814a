/** The grading service's answer as the result viewer reads it: totals over
    the problems, the status of each problem under the three rules the
    views use, the guards each view applies to its input, and the lookup of
    the submitted problem. Rendering (text, HTML markup, percentages) is
    outside the model; what each view decides is inside it. */
module Results {
  import opened Common

  // ---------------------------------------------------------------------------
  // The response

  /** One entry of `problems`: its `problem_number`, `points_earned` and
      `points_total` keys, each None when absent. */
  datatype Problem = Problem(number: Option<int>, earned: Option<int>, total: Option<int>)

  /** The value under `notebook_result`: JSON null, or an object whose
      `problems` and `execution_log` keys may be absent, and whose other
      keys are only counted for its truth value. */
  datatype NotebookValue =
    | Null
    | Object(problems: Option<seq<Problem>>, executionLog: Option<string>, otherKeys: set<string>)

  /** The response object: `notebook_result` when present, and the names of
      its other keys. */
  datatype ResultData = ResultData(notebookResult: Option<NotebookValue>, otherKeys: set<string>)

  /** What the viewers receive: None for a JSON null body. */
  type Response = Option<ResultData>

  /** Python's truth value of the response: None and `{}` are falsy. */
  predicate ResponseTruthy(rd: Response) {
    rd.Some? && (rd.value.notebookResult.Some? || rd.value.otherKeys != {})
  }

  /** Python's truth value of `notebook_result`: null and `{}` are falsy. */
  predicate NotebookTruthy(v: NotebookValue) {
    v.Object? && (v.problems.Some? || v.executionLog.Some? || v.otherKeys != {})
  }

  function Earned(p: Problem): int { p.earned.GetOr(0) }
  function Total(p: Problem): int { p.total.GetOr(0) }

  /** `notebook_result.get("problems", [])` on an object. */
  function ProblemsOf(v: NotebookValue): seq<Problem>
    requires v.Object?
  {
    v.problems.GetOr([])
  }

  // ---------------------------------------------------------------------------
  // Totals

  /** `sum(p.get("points_earned", 0) for p in problems)`. */
  function SumEarned(ps: seq<Problem>): (n: int)
    ensures ps == [] ==> n == 0
    ensures |ps| == 1 ==> n == Earned(ps[0])
  {
    if ps == [] then 0 else SumEarned(ps[..|ps| - 1]) + Earned(ps[|ps| - 1])
  }

  /** `sum(p.get("points_total", 0) for p in problems)`. */
  function SumTotal(ps: seq<Problem>): (n: int)
    ensures ps == [] ==> n == 0
    ensures |ps| == 1 ==> n == Total(ps[0])
  {
    if ps == [] then 0 else SumTotal(ps[..|ps| - 1]) + Total(ps[|ps| - 1])
  }

  /** The totals are additive over a split of the problem list. */
  lemma {:induction false} SumsAppend(a: seq<Problem>, b: seq<Problem>)
    ensures SumEarned(a + b) == SumEarned(a) + SumEarned(b)
    ensures SumTotal(a + b) == SumTotal(a) + SumTotal(b)
    decreases |b|
  {
    if b != [] {
      var b' := b[..|b| - 1];
      SumsAppend(a, b');
      var last := b[|b| - 1];
      assert (a + b)[..|a + b| - 1] == a + b';
      assert (a + b)[|a + b| - 1] == last;
      assert b[..|b| - 1] == b';
    } else {
      assert a + b == a;
    }
  }

  /** A problem whose keys are both absent adds nothing to either total. */
  lemma {:induction false} EmptyEntriesAddNothing(ps: seq<Problem>, q: Problem)
    requires q.earned.None? && q.total.None?
    ensures SumEarned(ps + [q]) == SumEarned(ps) && SumTotal(ps + [q]) == SumTotal(ps)
  {
    assert (ps + [q])[..|ps|] == ps;
  }

  /** When no problem earns more than its total, neither does the sum. */
  lemma {:induction false} EarnedBoundedByTotal(ps: seq<Problem>)
    requires forall i :: 0 <= i < |ps| ==> Earned(ps[i]) <= Total(ps[i])
    ensures SumEarned(ps) <= SumTotal(ps)
  {
    if ps != [] {
      EarnedBoundedByTotal(ps[..|ps| - 1]);
    }
  }

  /** Full marks on every problem is full marks overall. */
  lemma {:induction false} AllPassIsFullMarks(ps: seq<Problem>)
    requires forall i :: 0 <= i < |ps| ==> Classify(Earned(ps[i]), Total(ps[i])) == Pass
    ensures SumEarned(ps) == SumTotal(ps) && (ps != [] ==> SumTotal(ps) > 0)
  {
    if ps != [] {
      AllPassIsFullMarks(ps[..|ps| - 1]);
    }
  }

  // ---------------------------------------------------------------------------
  // Status rules

  datatype Status = Pass | Partial | Fail | Ungradeable

  /** The status the text and HTML views show for one problem. */
  function Classify(earned: int, total: int): (s: Status)
    ensures s == Ungradeable <==> total <= 0
    ensures s == Pass <==> total > 0 && earned == total
    ensures s == Partial <==> total > 0 && earned != total && earned > 0
    ensures s == Fail <==> total > 0 && earned != total && earned <= 0
  {
    if total > 0 then
      if earned == total then Pass else if earned > 0 then Partial else Fail
    else Ungradeable
  }

  /** More points than the total is shown as partial credit, not as a pass. */
  lemma OverfullIsPartial(earned: int, total: int)
    requires 0 < total < earned
    ensures Classify(earned, total) == Partial
  {
  }

  /** The CSS class of a status in the HTML view. */
  function HtmlClass(s: Status): (c: string)
    ensures c == "status-pass" <==> s == Pass
    ensures c == "status-partial" <==> s == Partial
    ensures c == "status-fail" <==> s == Fail || s == Ungradeable
  {
    match s
    case Pass => "status-pass"
    case Partial => "status-partial"
    case Fail => "status-fail"
    case Ungradeable => "status-fail"
  }

  /** The mark of the details views: ✅ when `earned >= total`. */
  predicate CheckMark(earned: int, total: int) {
    earned >= total
  }

  /** How the details views' mark relates to the four-way status: a pass
      gets the mark; with a positive total only a pass or an overfull
      partial does; an ungradeable problem gets it whenever the earned
      points are not below the total, for instance 0 of 0. */
  lemma CheckMarkVersusStatus(earned: int, total: int)
    ensures Classify(earned, total) == Pass ==> CheckMark(earned, total)
    ensures total > 0 ==>
              (CheckMark(earned, total) <==>
                 Classify(earned, total) == Pass || (Classify(earned, total) == Partial && earned > total))
    ensures CheckMark(0, 0) && Classify(0, 0) == Ungradeable
  {
  }

  // ---------------------------------------------------------------------------
  // Text report

  /** One line of the text report (and one row of the HTML view). */
  datatype Row = Row(number: int, earned: int, total: int, status: Status)

  /** The line for the problem at 1-based `position`. */
  function RowFor(p: Problem, position: nat): Row {
    Row(p.number.GetOr(position), Earned(p), Total(p), Classify(Earned(p), Total(p)))
  }

  /** The lines for `enumerate(problems, 1)`. */
  function Rows(ps: seq<Problem>): seq<Row> {
    if ps == [] then [] else Rows(ps[..|ps| - 1]) + [RowFor(ps[|ps| - 1], |ps|)]
  }

  /** Line i is about problem i, numbered i + 1 when it has no number. */
  lemma {:induction false} RowsByPosition(ps: seq<Problem>)
    ensures |Rows(ps)| == |ps|
    ensures forall i :: 0 <= i < |ps| ==> Rows(ps)[i] == RowFor(ps[i], i + 1)
  {
    if ps != [] {
      var front := ps[..|ps| - 1];
      RowsByPosition(front);
      assert forall i :: 0 <= i < |front| ==> ps[i] == front[i];
    }
  }

  /** What `display_grading_result` does with its input. */
  datatype TextOutcome =
    | TextInvalid                // the "invalid data" line, nothing else
    | TextCrash                  // `notebook_result` is null: `.get` raises
    | TextReport(totalEarned: int, totalPossible: int, rows: seq<Row>, log: Option<string>)

  /** The log is shown when present and not blank. */
  function ShownLog(v: NotebookValue): (r: Option<string>)
    requires v.Object?
    ensures r.Some? <==> v.executionLog.Some? && Strip(v.executionLog.value) != []
    ensures r.Some? ==> r == v.executionLog
  {
    match v.executionLog
    case Some(log) => if Strip(log) != [] then Some(log) else None
    case None => None
  }

  /** `display_grading_result`. */
  function TextView(rd: Response): (r: TextOutcome)
    ensures r.TextReport? <==> rd.Some? && rd.value.notebookResult.Some? && rd.value.notebookResult.value.Object?
    ensures r.TextReport? ==> var ps := ProblemsOf(rd.value.notebookResult.value);
              r.totalEarned == SumEarned(ps) && r.totalPossible == SumTotal(ps)
  {
    if !ResponseTruthy(rd) || rd.value.notebookResult.None? then TextInvalid
    else
      var v := rd.value.notebookResult.value;
      if v.Null? then TextCrash
      else
        var ps := ProblemsOf(v);
        TextReport(SumEarned(ps), SumTotal(ps), Rows(ps), ShownLog(v))
  }

  /** The guard of the text and HTML views: a report is produced only for a
      response that has the `notebook_result` key. */
  lemma TextGuard(rd: Response)
    ensures TextView(rd) == TextInvalid <==> rd.None? || rd.value.notebookResult.None?
    ensures TextView(rd) == TextCrash <==> rd.Some? && rd.value.notebookResult == Some(Null)
  {
  }

  // ---------------------------------------------------------------------------
  // HTML report

  /** The parts appended to `html_content`, in order, without the markup. */
  datatype HtmlPiece =
    | SummaryPiece(totalEarned: int, totalPossible: int)
    | ProblemRow(number: int, earned: int, total: int, statusClass: string, status: Status)
    | NoProblemsNotice
    | LogPiece(log: string)

  datatype HtmlOutcome = HtmlInvalid | HtmlCrash | Html(pieces: seq<HtmlPiece>)

  /** The HTML row that shows a text-report line. */
  function HtmlRowOf(r: Row): HtmlPiece {
    ProblemRow(r.number, r.earned, r.total, HtmlClass(r.status), r.status)
  }

  /** The body of the row loop of `display_grading_result_html`: the
      defaults, then the status and its class chosen inline. */
  method ProblemRowHtml(p: Problem, position: nat) returns (piece: HtmlPiece)
    ensures piece == HtmlRowOf(RowFor(p, position))
  {
    var number := p.number.GetOr(position);
    var earned := p.earned.GetOr(0);
    var total := p.total.GetOr(0);
    var status, statusClass;
    if total > 0 {
      if earned == total {
        status, statusClass := Pass, "status-pass";
      } else if earned > 0 {
        status, statusClass := Partial, "status-partial";
      } else {
        status, statusClass := Fail, "status-fail";
      }
    } else {
      status, statusClass := Ungradeable, "status-fail";
    }
    piece := ProblemRow(number, earned, total, statusClass, status);
  }

  /** The row loop of `display_grading_result_html`: one row per problem,
      numbered by position when the problem has no number. */
  method ProblemRowsHtml(ps: seq<Problem>) returns (rows: seq<HtmlPiece>)
    ensures |rows| == |ps|
    ensures forall k :: 0 <= k < |ps| ==> rows[k] == HtmlRowOf(RowFor(ps[k], k + 1))
  {
    rows := [];
    for i := 0 to |ps|
      invariant |rows| == i
      invariant forall k :: 0 <= k < i ==> rows[k] == HtmlRowOf(RowFor(ps[k], k + 1))
    {
      var row := ProblemRowHtml(ps[i], i + 1);
      rows := rows + [row];
    }
  }

  /** `display_grading_result_html`: the rows are appended one by one with
      the status and class chosen inline. */
  method DisplayGradingResultHtml(rd: Response) returns (out: HtmlOutcome)
    ensures out == HtmlInvalid <==> TextView(rd) == TextInvalid
    ensures out == HtmlCrash <==> TextView(rd) == TextCrash
    ensures out.Html? ==> TextView(rd).TextReport? && HtmlAgrees(out.pieces, TextView(rd))
  {
    if !ResponseTruthy(rd) || rd.value.notebookResult.None? {
      assert TextView(rd) == TextInvalid;
      return HtmlInvalid;
    }
    var v := rd.value.notebookResult.value;
    if v.Null? {
      assert TextView(rd) == TextCrash;
      return HtmlCrash;
    }
    var ps := ProblemsOf(v);
    var log := ShownLog(v);
    assert TextView(rd) == TextReport(SumEarned(ps), SumTotal(ps), Rows(ps), log);
    var html := AssembleHtml(ps, SumEarned(ps), SumTotal(ps), log);
    out := Html(html);
  }

  /** The pieces after the guards: the totals, the rows (or the notice),
      then the log when it is shown. */
  method AssembleHtml(ps: seq<Problem>, earned: int, possible: int, log: Option<string>) returns (html: seq<HtmlPiece>)
    ensures HtmlAgrees(html, TextReport(earned, possible, Rows(ps), log))
  {
    var tail := if log.Some? then [LogPiece(log.value)] else [];
    if ps != [] {
      var rows := ProblemRowsHtml(ps);
      html := [SummaryPiece(earned, possible)] + rows + tail;
      ProblemRowsAreLines(ps, rows);
      HtmlRowsAssembled(Rows(ps), earned, possible, log, rows);
    } else {
      html := [SummaryPiece(earned, possible), NoProblemsNotice] + tail;
      HtmlNoticeAssembled(earned, possible, log);
    }
  }

  /** The summary, one piece per text line and the log show a text report
      with at least one line. */
  lemma HtmlRowsAssembled(lines: seq<Row>, earned: int, possible: int, log: Option<string>, rows: seq<HtmlPiece>)
    requires lines != []
    requires |rows| == |lines|
    requires forall k :: 0 <= k < |lines| ==> rows[k] == HtmlRowOf(lines[k])
    ensures HtmlAgrees([SummaryPiece(earned, possible)] + rows + (if log.Some? then [LogPiece(log.value)] else []),
                       TextReport(earned, possible, lines, log))
  {
    var pieces := [SummaryPiece(earned, possible)] + rows + (if log.Some? then [LogPiece(log.value)] else []);
    forall k | 0 <= k < |lines|
      ensures pieces[1 + k] == HtmlRowOf(lines[k])
    {
      assert pieces[1 + k] == rows[k];
    }
  }

  /** The pieces built row by row are those of the text lines. */
  lemma ProblemRowsAreLines(ps: seq<Problem>, rows: seq<HtmlPiece>)
    requires |rows| == |ps|
    requires forall k :: 0 <= k < |ps| ==> rows[k] == HtmlRowOf(RowFor(ps[k], k + 1))
    ensures |Rows(ps)| == |rows|
    ensures forall k :: 0 <= k < |rows| ==> rows[k] == HtmlRowOf(Rows(ps)[k])
  {
    RowsByPosition(ps);
  }

  /** The summary, the notice and the log show the text report of an empty
      problem list. */
  lemma HtmlNoticeAssembled(earned: int, possible: int, log: Option<string>)
    ensures HtmlAgrees([SummaryPiece(earned, possible), NoProblemsNotice] + (if log.Some? then [LogPiece(log.value)] else []),
                       TextReport(earned, possible, Rows([]), log))
  {
  }

  /** The HTML pieces show the text report: the same totals, one row per
      text line with the line's class, or the notice when there are no
      problems, then the log exactly when the text report shows it. */
  ghost predicate HtmlAgrees(pieces: seq<HtmlPiece>, report: TextOutcome)
    requires report.TextReport?
  {
    var rows := report.rows;
    var body := if rows == [] then 1 else |rows|;
    && |pieces| == 1 + body + (if report.log.Some? then 1 else 0)
    && pieces[0] == SummaryPiece(report.totalEarned, report.totalPossible)
    && (rows == [] ==> pieces[1] == NoProblemsNotice)
    && (forall k :: 0 <= k < |rows| ==> pieces[1 + k] == HtmlRowOf(rows[k]))
    && (report.log.Some? ==> pieces[|pieces| - 1] == LogPiece(report.log.value))
  }

  // ---------------------------------------------------------------------------
  // Details view

  /** The guard of `display_grading_result_with_details`: a truthy response
      whose `notebook_result` is itself truthy. */
  predicate DetailsAccepts(rd: Response)
    ensures DetailsAccepts(rd) ==> rd.Some? && rd.value.notebookResult.Some? && rd.value.notebookResult.value.Object?
  {
    ResponseTruthy(rd) && rd.value.notebookResult.Some? && NotebookTruthy(rd.value.notebookResult.value)
  }

  /** The details view is stricter than the text view: what it accepts the
      text view reports on, and an empty `notebook_result` object is
      accepted by the text view only. */
  lemma DetailsGuardIsStricter(rd: Response)
    ensures DetailsAccepts(rd) ==> TextView(rd).TextReport?
    ensures rd == Some(ResultData(Some(Object(None, None, {})), {})) ==>
              !DetailsAccepts(rd) && TextView(rd) == TextReport(0, 0, [], None)
  {
  }

  /** One line of the details summary. */
  datatype DetailRow = DetailRow(number: Option<int>, earned: int, total: int, check: bool, submitted: bool)

  /** The summary lines as the view evidently means them: a problem without
      a number is shown with "?" and never carries the submitted mark. */
  function SummaryRows(ps: seq<Problem>, submitted: int): (rows: seq<DetailRow>)
    ensures |rows| == |ps|
    ensures forall i :: 0 <= i < |ps| ==>
              && rows[i].number == ps[i].number
              && rows[i].earned == Earned(ps[i]) && rows[i].total == Total(ps[i])
              && (rows[i].check <==> Earned(ps[i]) >= Total(ps[i]))
              && (rows[i].submitted <==> ps[i].number == Some(submitted))
  {
    if ps == [] then []
    else
      var p := ps[|ps| - 1];
      SummaryRows(ps[..|ps| - 1], submitted)
        + [DetailRow(p.number, Earned(p), Total(p), CheckMark(Earned(p), Total(p)), p.number == Some(submitted))]
  }

  /** The summary lines as written: the "?" shown for a missing number is
      formatted with `02d`, which raises for a string, so the view fails on
      the first problem without a number. */
  function SummaryRowsAsWritten(ps: seq<Problem>, submitted: int): (r: Option<seq<DetailRow>>)
    ensures r.Some? ==> |r.value| == |ps|
    ensures r.None? ==> exists i :: 0 <= i < |ps| && ps[i].number.None?
  {
    if ps == [] then Some([])
    else
      match SummaryRowsAsWritten(ps[..|ps| - 1], submitted)
      case None => None
      case Some(front) =>
        var p := ps[|ps| - 1];
        if p.number.None? then None
        else Some(front + [DetailRow(p.number, Earned(p), Total(p), CheckMark(Earned(p), Total(p)), p.number == Some(submitted))])
  }

  /** As written, the summary matches the intended one exactly when every
      problem has a number. */
  lemma {:induction false} SummaryAsWrittenAgrees(ps: seq<Problem>, submitted: int)
    ensures SummaryRowsAsWritten(ps, submitted).Some? <==> forall i :: 0 <= i < |ps| ==> ps[i].number.Some?
    ensures SummaryRowsAsWritten(ps, submitted).Some? ==> SummaryRowsAsWritten(ps, submitted).value == SummaryRows(ps, submitted)
  {
    if ps != [] {
      var front := ps[..|ps| - 1];
      SummaryAsWrittenAgrees(front, submitted);
      assert forall i :: 0 <= i < |front| ==> ps[i] == front[i];
    }
  }

  /** A single problem without `problem_number` makes the view as written
      fail, while the intended summary shows it. */
  lemma MissingNumberBreaksSummary()
    ensures SummaryRowsAsWritten([Problem(None, Some(5), Some(10))], 1) == None
    ensures SummaryRows([Problem(None, Some(5), Some(10))], 1) == [DetailRow(None, 5, 10, false, false)]
  {
    var ps := [Problem(None, Some(5), Some(10))];
    assert ps[..0] == [];
  }

  /** What `display_grading_result_with_details` shows before its button. */
  datatype DetailsOutcome =
    | NoData                       // the response is falsy
    | InvalidData(keys: set<string>) // `notebook_result` is absent or falsy; the keys are listed
    | Summary(totalEarned: int, totalPossible: int, rows: seq<DetailRow>)

  /** `display_grading_result_with_details`, with the summary lines as
      intended. */
  function DetailsView(rd: Response, submitted: int): (out: DetailsOutcome)
    ensures out == NoData <==> !ResponseTruthy(rd)
    ensures out.InvalidData? <==> ResponseTruthy(rd) && !DetailsAccepts(rd)
    ensures out.Summary? ==> DetailsAccepts(rd) && |out.rows| == |ProblemsOf(rd.value.notebookResult.value)|
    ensures out.Summary? ==> var ps := ProblemsOf(rd.value.notebookResult.value);
              && out.rows == SummaryRows(ps, submitted)
              && out.totalEarned == SumEarned(ps) && out.totalPossible == SumTotal(ps)
  {
    if !ResponseTruthy(rd) then NoData
    else if !DetailsAccepts(rd) then
      InvalidData(rd.value.otherKeys + (if rd.value.notebookResult.Some? then {"notebook_result"} else {}))
    else
      var ps := ProblemsOf(rd.value.notebookResult.value);
      Summary(SumEarned(ps), SumTotal(ps), SummaryRows(ps, submitted))
  }

  /** The three views show the same totals. */
  lemma SameTotals(rd: Response, submitted: int)
    requires DetailsAccepts(rd)
    ensures TextView(rd).TextReport? && DetailsView(rd, submitted).Summary?
    ensures TextView(rd).totalEarned == DetailsView(rd, submitted).totalEarned
    ensures TextView(rd).totalPossible == DetailsView(rd, submitted).totalPossible
  {
  }

  // ---------------------------------------------------------------------------
  // The submitted problem

  /** Index of the first problem whose `problem_number` is `n`. */
  function FirstNumbered(ps: seq<Problem>, n: int): (r: Option<nat>)
    ensures r.Some? ==> r.value < |ps| && ps[r.value].number == Some(n)
    ensures r.Some? ==> forall j :: 0 <= j < r.value ==> ps[j].number != Some(n)
    ensures r.None? ==> forall j :: 0 <= j < |ps| ==> ps[j].number != Some(n)
  {
    if ps == [] then None
    else if ps[0].number == Some(n) then Some(0)
    else
      match FirstNumbered(ps[1..], n)
      case Some(i) => Some(i + 1)
      case None => None
  }

  /** The first match is the only index that fits its description. */
  lemma FirstNumberedUnique(ps: seq<Problem>, n: int, r: Option<nat>)
    requires r.Some? ==> r.value < |ps| && ps[r.value].number == Some(n)
    requires r.Some? ==> forall j :: 0 <= j < r.value ==> ps[j].number != Some(n)
    requires r.None? ==> forall j :: 0 <= j < |ps| ==> ps[j].number != Some(n)
    ensures r == FirstNumbered(ps, n)
  {
  }

  /** The loop in `show_details` that looks for the submitted problem. */
  method FindSubmittedProblem(ps: seq<Problem>, submitted: int) returns (found: Option<Problem>)
    ensures found == (match FirstNumbered(ps, submitted) case Some(i) => Some(ps[i]) case None => None)
  {
    found := None;
    var index: Option<nat> := None;
    for i := 0 to |ps|
      invariant found.None? && index.None?
      invariant forall j :: 0 <= j < i ==> ps[j].number != Some(submitted)
    {
      if ps[i].number == Some(submitted) {
        found, index := Some(ps[i]), Some(i);
        break;
      }
    }
    FirstNumberedUnique(ps, submitted, index);
  }
}
