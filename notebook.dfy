/** Selection of the notebook cells that are sent for grading: the cells
    before the submit button of the problem (or before the common submission
    program), without the cells whose code starts with `#@title`. Which
    cells the notebook holds comes from Colab or from a file; here it is
    the list `allCells`. */
module Notebook {
  import opened Common

  /** A cell's `source`: one string, or a list of strings that is joined. */
  datatype Source = Whole(text: string) | Lines(parts: seq<string>)

  /** A notebook cell: its `cell_type` and `source` keys when present, and
      whatever other keys it has, passed through untouched. */
  datatype Cell = Cell(cellType: Option<string>, source: Option<Source>, otherKeys: map<string, string>)

  const TitleMarker := "#@title"
  const CommonProgramMarker := "送信処理用共通プログラム実行"
  const PreferredNotebookName := "プログラミング言語Python"

  function SourceText(src: Source): string {
    match src
    case Whole(t) => t
    case Lines(ps) => Concat(ps)
  }

  /** `cell.get('cell_type') == 'code' and 'source' in cell`. */
  predicate IsCodeWithSource(c: Cell) {
    c.cellType == Some("code") && c.source.Some?
  }

  /** A code cell whose joined, stripped source starts with `#@title`. */
  predicate IsTitleCell(c: Cell) {
    IsCodeWithSource(c) && TitleMarker <= Strip(SourceText(c.source.value))
  }

  /** Only leading whitespace matters for the title test. */
  lemma TitleTestIgnoresTrailingSpace(c: Cell)
    requires IsCodeWithSource(c)
    ensures IsTitleCell(c) <==> TitleMarker <= TrimLeft(SourceText(c.source.value))
  {
    StripStartsWith(SourceText(c.source.value), TitleMarker);
  }

  // ---------------------------------------------------------------------------
  // Filtering

  /** The cells kept by `filter_submission_cells`, in order. */
  function Filtered(cells: seq<Cell>): (kept: seq<Cell>)
    ensures |kept| <= |cells|
  {
    if cells == [] then []
    else
      var last := cells[|cells| - 1];
      Filtered(cells[..|cells| - 1]) + (if IsTitleCell(last) then [] else [last])
  }

  /** `filter_submission_cells`. */
  method FilterSubmissionCells(cells: seq<Cell>) returns (filtered: seq<Cell>)
    ensures filtered == Filtered(cells)
  {
    filtered := [];
    for i := 0 to |cells|
      invariant filtered == Filtered(cells[..i])
    {
      var cell := cells[i];
      assert cells[..i + 1][..i] == cells[..i];
      if cell.cellType == Some("code") && cell.source.Some? {
        var source := SourceText(cell.source.value);
        if TitleMarker <= Strip(source) {
          continue;
        }
      }
      filtered := filtered + [cell];
    }
    assert cells[..|cells|] == cells;
  }

  /** Filtering one more cell at the end. */
  lemma FilteredSnoc(front: seq<Cell>, last: Cell)
    ensures Filtered(front + [last]) == Filtered(front) + (if IsTitleCell(last) then [] else [last])
  {
    assert (front + [last])[..|front|] == front;
  }

  /** A cell is kept exactly when it is in the input and is not a title cell. */
  lemma {:induction false} FilteredMembers(cells: seq<Cell>, c: Cell)
    ensures c in Filtered(cells) <==> c in cells && !IsTitleCell(c)
  {
    FilteredIsFilterOut(cells);
    FilterOutMembers(cells, IsTitleCell, c);
  }

  /** `Filtered` is the generic filter with the title test. */
  lemma {:induction false} FilteredIsFilterOut(cells: seq<Cell>)
    ensures Filtered(cells) == FilterOut(cells, IsTitleCell)
  {
    if cells != [] {
      FilteredIsFilterOut(cells[..|cells| - 1]);
    }
  }

  /** The output keeps the input's order: it is a subsequence. */
  lemma {:induction false} FilteredIsSubsequence(cells: seq<Cell>)
    ensures IsSubsequence(Filtered(cells), cells)
  {
    if cells != [] {
      var front := cells[..|cells| - 1];
      var last := cells[|cells| - 1];
      FilteredIsSubsequence(front);
      if IsTitleCell(last) {
        assert Filtered(cells) == Filtered(front);
        if Filtered(front) != [] {
          assert IsSubsequence(Filtered(cells), cells[..|cells| - 1]);
        }
      } else {
        var r := Filtered(cells);
        assert r == Filtered(front) + [last];
        assert r[..|r| - 1] == Filtered(front);
      }
    }
  }

  /** Filtering twice is filtering once. */
  lemma {:induction false} FilterIdempotent(cells: seq<Cell>)
    ensures Filtered(Filtered(cells)) == Filtered(cells)
  {
    if cells != [] {
      var front := cells[..|cells| - 1];
      var last := cells[|cells| - 1];
      assert cells == front + [last];
      FilteredSnoc(front, last);
      FilterIdempotent(front);
      var kept := Filtered(front);
      if IsTitleCell(last) {
        assert Filtered(cells) == kept;
      } else {
        assert Filtered(cells) == kept + [last];
        FilteredSnoc(kept, last);
        assert Filtered(kept + [last]) == Filtered(kept) + [last];
      }
    }
  }

  /** Without title cells, nothing is removed; in particular every cell that
      is not code, or has no source, survives. */
  lemma {:induction false} FilterKeepsNonTitleCells(cells: seq<Cell>)
    requires forall i :: 0 <= i < |cells| ==> !IsTitleCell(cells[i])
    ensures Filtered(cells) == cells
  {
    if cells != [] {
      FilterKeepsNonTitleCells(cells[..|cells| - 1]);
    }
  }

  // ---------------------------------------------------------------------------
  // The cut before the submit button

  /** The text searched for in `get_notebook_cells_before_submit`. */
  function ButtonPattern(problemNumber: int): string {
    "create_submit_button(problem_number=" + IntToDecimal(problemNumber) + ")"
  }

  /** A code cell with a source that contains `pattern`. */
  predicate CodeCellContains(c: Cell, pattern: string) {
    IsCodeWithSource(c) && Contains(SourceText(c.source.value), pattern)
  }

  /** Index of the first code cell containing `pattern`. */
  function FirstCodeCellContaining(cells: seq<Cell>, pattern: string): (r: Option<nat>)
    ensures r.Some? ==> r.value < |cells| && CodeCellContains(cells[r.value], pattern)
    ensures r.Some? ==> forall j :: 0 <= j < r.value ==> !CodeCellContains(cells[j], pattern)
    ensures r.None? ==> forall j :: 0 <= j < |cells| ==> !CodeCellContains(cells[j], pattern)
  {
    if cells == [] then None
    else if CodeCellContains(cells[0], pattern) then Some(0)
    else
      match FirstCodeCellContaining(cells[1..], pattern)
      case Some(i) => Some(i + 1)
      case None => None
  }

  /** Where the list is cut: before the first button cell of the problem,
      else before the first common-program cell, else after the last cell. */
  function CutPoint(cells: seq<Cell>, problemNumber: int): (cut: nat)
    ensures cut <= |cells|
  {
    match FirstCodeCellContaining(cells, ButtonPattern(problemNumber))
    case Some(i) => i
    case None =>
      match FirstCodeCellContaining(cells, CommonProgramMarker)
      case Some(i) => i
      case None => |cells|
  }

  /** The cells `get_notebook_cells_before_submit` returns for `allCells`. */
  function SubmissionCells(allCells: seq<Cell>, problemNumber: int): (sent: seq<Cell>)
    ensures |sent| <= |allCells|
  {
    if allCells == [] then [] else Filtered(allCells[..CutPoint(allCells, problemNumber)])
  }

  /** The first match is the only index that fits its description. */
  lemma FirstCodeCellUnique(cells: seq<Cell>, pattern: string, r: Option<nat>)
    requires r.Some? ==> r.value < |cells| && CodeCellContains(cells[r.value], pattern)
    requires r.Some? ==> forall j :: 0 <= j < r.value ==> !CodeCellContains(cells[j], pattern)
    requires r.None? ==> forall j :: 0 <= j < |cells| ==> !CodeCellContains(cells[j], pattern)
    ensures r == FirstCodeCellContaining(cells, pattern)
  {
  }

  /** The index of the first code cell containing `pattern`, by the loop
      with `break` the source uses. */
  method FindCodeCell(cells: seq<Cell>, pattern: string) returns (index: Option<nat>)
    ensures index == FirstCodeCellContaining(cells, pattern)
  {
    index := None;
    for i := 0 to |cells|
      invariant forall j :: 0 <= j < i ==> !CodeCellContains(cells[j], pattern)
    {
      var cell := cells[i];
      if cell.cellType == Some("code") && cell.source.Some? {
        var source := SourceText(cell.source.value);
        if Contains(source, pattern) {
          index := Some(i);
          break;
        }
      }
    }
    FirstCodeCellUnique(cells, pattern, index);
  }

  /** The selection part of `get_notebook_cells_before_submit`: search for
      the button, fall back to the common program (`for ... else`), then
      filter. */
  method GetNotebookCellsBeforeSubmit(allCells: seq<Cell>, problemNumber: int) returns (cells: seq<Cell>)
    ensures cells == SubmissionCells(allCells, problemNumber)
  {
    if allCells == [] {
      return [];
    }
    var cellsBeforeSubmit: seq<Cell>;
    var submitButtonIndex := FindCodeCell(allCells, ButtonPattern(problemNumber));
    if submitButtonIndex.Some? {
      cellsBeforeSubmit := allCells[..submitButtonIndex.value];
    } else {
      var commonIndex := FindCodeCell(allCells, CommonProgramMarker);
      if commonIndex.Some? {
        cellsBeforeSubmit := allCells[..commonIndex.value];
      } else {
        cellsBeforeSubmit := allCells;
        assert allCells[..|allCells|] == allCells;
      }
    }
    cells := FilterSubmissionCells(cellsBeforeSubmit);
  }

  /** The filtered prefix of a list is a subsequence of the whole list. */
  lemma FilteredPrefixIsSubsequence(cells: seq<Cell>, cut: nat)
    requires cut <= |cells|
    ensures IsSubsequence(Filtered(cells[..cut]), cells)
  {
    FilteredIsSubsequence(cells[..cut]);
    SubsequenceOfPrefix(Filtered(cells[..cut]), cells, cut);
  }

  /** The selected cells are a subsequence of the notebook's cells. */
  lemma SubmissionCellsAreSubsequence(allCells: seq<Cell>, problemNumber: int)
    ensures IsSubsequence(SubmissionCells(allCells, problemNumber), allCells)
  {
    if allCells != [] {
      FilteredPrefixIsSubsequence(allCells, CutPoint(allCells, problemNumber));
    }
  }

  /** Every cell before the cut point is a cell without the button call;
      when the notebook has no button for the problem, it is also a cell
      without the common-program marker. */
  lemma BeforeCut(allCells: seq<Cell>, problemNumber: int, j: nat)
    requires j < CutPoint(allCells, problemNumber)
    ensures !CodeCellContains(allCells[j], ButtonPattern(problemNumber))
    ensures FirstCodeCellContaining(allCells, ButtonPattern(problemNumber)).None?
            ==> !CodeCellContains(allCells[j], CommonProgramMarker)
  {
  }

  /** No selected cell is a code cell that calls the problem's submit
      button, and none is a title cell; when the notebook has no button for
      the problem, no selected code cell contains the common-program marker
      either. */
  lemma SubmissionCellsExcludeButton(allCells: seq<Cell>, problemNumber: int, c: Cell)
    requires c in SubmissionCells(allCells, problemNumber)
    ensures !CodeCellContains(c, ButtonPattern(problemNumber))
    ensures !IsTitleCell(c)
    ensures FirstCodeCellContaining(allCells, ButtonPattern(problemNumber)).None?
            ==> !CodeCellContains(c, CommonProgramMarker)
  {
    var cut := CutPoint(allCells, problemNumber);
    var before := allCells[..cut];
    FilteredMembers(before, c);
    var j :| 0 <= j < cut && before[j] == c;
    BeforeCut(allCells, problemNumber, j);
  }

  /** When the button is present, exactly the cells before its first
      occurrence are considered, and the button cell is not among them. */
  lemma ButtonCut(allCells: seq<Cell>, problemNumber: int, i: nat)
    requires i < |allCells| && CodeCellContains(allCells[i], ButtonPattern(problemNumber))
    requires forall j :: 0 <= j < i ==> !CodeCellContains(allCells[j], ButtonPattern(problemNumber))
    ensures SubmissionCells(allCells, problemNumber) == Filtered(allCells[..i])
    ensures allCells[i] !in SubmissionCells(allCells, problemNumber)
  {
    FirstCodeCellUnique(allCells, ButtonPattern(problemNumber), Some(i));
    if allCells[i] in SubmissionCells(allCells, problemNumber) {
      SubmissionCellsExcludeButton(allCells, problemNumber, allCells[i]);
    }
  }

  /** Without the button, the cells before the first common-program cell
      are considered, and that cell is not among them. */
  lemma CommonProgramCut(allCells: seq<Cell>, problemNumber: int, i: nat)
    requires forall j :: 0 <= j < |allCells| ==> !CodeCellContains(allCells[j], ButtonPattern(problemNumber))
    requires i < |allCells| && CodeCellContains(allCells[i], CommonProgramMarker)
    requires forall j :: 0 <= j < i ==> !CodeCellContains(allCells[j], CommonProgramMarker)
    ensures SubmissionCells(allCells, problemNumber) == Filtered(allCells[..i])
    ensures allCells[i] !in SubmissionCells(allCells, problemNumber)
  {
    FirstCodeCellUnique(allCells, ButtonPattern(problemNumber), None);
    FirstCodeCellUnique(allCells, CommonProgramMarker, Some(i));
    if allCells[i] in SubmissionCells(allCells, problemNumber) {
      SubmissionCellsExcludeButton(allCells, problemNumber, allCells[i]);
    }
  }

  /** With neither the button nor the common program, nothing is cut off. */
  lemma NoMarkerCutsAtEnd(allCells: seq<Cell>, problemNumber: int)
    requires forall j :: 0 <= j < |allCells| ==> !CodeCellContains(allCells[j], ButtonPattern(problemNumber))
    requires forall j :: 0 <= j < |allCells| ==> !CodeCellContains(allCells[j], CommonProgramMarker)
    ensures CutPoint(allCells, problemNumber) == |allCells|
  {
    FirstCodeCellUnique(allCells, ButtonPattern(problemNumber), None);
    FirstCodeCellUnique(allCells, CommonProgramMarker, None);
  }

  /** With neither the button nor the common program, all cells are
      considered. */
  lemma NoMarkerKeepsAll(allCells: seq<Cell>, problemNumber: int)
    requires forall j :: 0 <= j < |allCells| ==> !CodeCellContains(allCells[j], ButtonPattern(problemNumber))
    requires forall j :: 0 <= j < |allCells| ==> !CodeCellContains(allCells[j], CommonProgramMarker)
    ensures SubmissionCells(allCells, problemNumber) == Filtered(allCells)
  {
    NoMarkerCutsAtEnd(allCells, problemNumber);
    CutAtEndKeepsAll(allCells, problemNumber);
  }

  lemma CutAtEndKeepsAll(allCells: seq<Cell>, problemNumber: int)
    requires CutPoint(allCells, problemNumber) == |allCells|
    ensures SubmissionCells(allCells, problemNumber) == Filtered(allCells)
  {
    assert allCells[..|allCells|] == allCells;
  }

  // ---------------------------------------------------------------------------
  // Which notebook file is read outside Colab

  /** The file `get_notebook_cells_vscode` opens among the `*.ipynb` names
      `glob` listed: the first whose name contains the course's notebook
      name, else the first listed, else none. */
  method ChooseNotebookFile(files: seq<string>) returns (chosen: Option<string>)
    ensures files == [] <==> chosen.None?
    ensures chosen.Some? ==> chosen.value in files
    ensures (exists i :: 0 <= i < |files| && Contains(files[i], PreferredNotebookName))
            ==> chosen.Some? && Contains(chosen.value, PreferredNotebookName)
    ensures chosen.Some? && Contains(chosen.value, PreferredNotebookName) ==>
            exists i :: 0 <= i < |files| && files[i] == chosen.value
                        && forall j :: 0 <= j < i ==> !Contains(files[j], PreferredNotebookName)
    ensures (forall i :: 0 <= i < |files| ==> !Contains(files[i], PreferredNotebookName)) && files != []
            ==> chosen == Some(files[0])
  {
    chosen := None;
    if files != [] {
      var i := 0;
      while i < |files| && !Contains(files[i], PreferredNotebookName)
        invariant 0 <= i <= |files|
        invariant forall j :: 0 <= j < i ==> !Contains(files[j], PreferredNotebookName)
      {
        i := i + 1;
      }
      chosen := if i < |files| then Some(files[i]) else Some(files[0]);
    }
  }
}
