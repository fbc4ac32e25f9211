/**
 * What the spreadsheet writer puts in each sheet: a sanitised title, the
 * fixed header row, and the five largest functions with their ranks. The
 * workbook library, styling and column widths are not modelled; a sheet is
 * the value below.
 */
module ExcelWriter {
  import opened Wrappers
  import opened FunctionRecords
  import opened Ranking

  /** The longest sheet title the spreadsheet format allows. */
  const MaxSheetNameLength: nat := 31

  const Headers: seq<string> := ["Rank", "Function Name", "File Path", "Start Line", "End Line", "Lines of Code"]

  /** One data row: rank, name, path, first line, last line, size. */
  datatype Row = Row(rank: int, name: string, filePath: string, startLine: int, endLine: int, size: int)

  datatype Sheet = Sheet(title: string, header: seq<string>, rows: seq<Row>)

  /** `s.replace(from, to)` for one-character arguments: every occurrence is replaced, nothing else changes. */
  function ReplaceChar(s: string, from: char, to: char): (r: string)
    ensures |r| == |s|
    ensures forall k :: 0 <= k < |s| ==> r[k] == (if s[k] == from then to else s[k])
  {
    if s == [] then []
    else [if s[0] == from then to else s[0]] + ReplaceChar(s[1..], from, to)
  }

  /** Is `c` a path separator the sheet title may not contain? */
  predicate IsSeparator(c: char)
  {
    c == '/' || c == '\\'
  }

  /**
   * The sheet title for a repository: both path separators replaced by `_`,
   * then cut to 31 characters. The title never holds a separator, has
   * length min(31, |repoName|), and is character for character the
   * separator-replaced name.
   */
  function SheetName(repoName: string): (r: string)
    ensures forall k :: 0 <= k < |r| ==> !IsSeparator(r[k])
    ensures |r| == Min(MaxSheetNameLength, |repoName|)
    ensures forall k :: 0 <= k < |r| ==> r[k] == (if IsSeparator(repoName[k]) then '_' else repoName[k])
  {
    var sheetName := ReplaceChar(ReplaceChar(repoName, '/', '_'), '\\', '_');
    if |sheetName| > MaxSheetNameLength then sheetName[..MaxSheetNameLength] else sheetName
  }

  /** A name of at most 31 characters without separators is its own sheet title. */
  lemma ShortPlainNameIsKept(repoName: string)
    requires |repoName| <= MaxSheetNameLength
    requires forall k :: 0 <= k < |repoName| ==> !IsSeparator(repoName[k])
    ensures SheetName(repoName) == repoName
  {
  }

  /** The row reporting `f` at position `rank`. */
  function RowOf(rank: int, f: FunctionInfo): Row
  {
    Row(rank, f.name, f.filePath, f.startLine, f.endLine, f.size)
  }

  /** The row describes one of `functions`. */
  ghost predicate Reports(row: Row, functions: seq<FunctionInfo>)
  {
    exists f :: f in functions && row == RowOf(row.rank, f)
  }

  /** The sheet the writer produces for one repository. */
  function SheetFor(repoName: string, functions: seq<FunctionInfo>): Sheet
  {
    var top := TopFunctions(functions);
    Sheet(SheetName(repoName), Headers, seq(|top|, k requires 0 <= k < |top| => RowOf(k + 1, top[k])))
  }

  /**
   * Writes one sheet per repository, in the order given: title, header row,
   * then `enumerate(top_functions, 1)` as data rows.
   */
  method WriteResults(repoResults: seq<(string, seq<FunctionInfo>)>) returns (sheets: seq<Sheet>)
    ensures |sheets| == |repoResults|
    ensures forall k :: 0 <= k < |repoResults| ==> sheets[k] == SheetFor(repoResults[k].0, repoResults[k].1)
  {
    sheets := [];
    for r := 0 to |repoResults|
      invariant |sheets| == r
      invariant forall k :: 0 <= k < r ==> sheets[k] == SheetFor(repoResults[k].0, repoResults[k].1)
    {
      var (repoName, functions) := repoResults[r];
      var sheetName := SheetName(repoName);
      var topFunctions := TopFunctions(functions);
      var rows: seq<Row> := [];
      for rank := 1 to |topFunctions| + 1
        invariant |rows| == rank - 1
        invariant forall k :: 0 <= k < rank - 1 ==> rows[k] == RowOf(k + 1, topFunctions[k])
      {
        var func := topFunctions[rank - 1];
        rows := rows + [Row(rank, func.name, func.filePath, func.startLine, func.endLine, func.size)];
      }
      sheets := sheets + [Sheet(sheetName, Headers, rows)];
    }
  }

  /** A sheet has one row per reported function: min(5, n) rows. */
  lemma SheetRowCount(repoName: string, functions: seq<FunctionInfo>)
    ensures |SheetFor(repoName, functions).rows| == Min(TopCount, |functions|)
  {
    TopFunctionsSelects(functions);
  }

  /** Ranks run 1, 2, ... in row order. */
  lemma SheetRanks(repoName: string, functions: seq<FunctionInfo>)
    ensures forall k :: 0 <= k < |SheetFor(repoName, functions).rows| ==> SheetFor(repoName, functions).rows[k].rank == k + 1
  {
  }

  /** Sizes never increase down the sheet. */
  lemma SheetSizesDescend(repoName: string, functions: seq<FunctionInfo>)
    ensures forall p, q :: 0 <= p < q < |SheetFor(repoName, functions).rows| ==>
      SheetFor(repoName, functions).rows[p].size >= SheetFor(repoName, functions).rows[q].size
  {
    var top := TopFunctions(functions);
    TopFunctionsSelects(functions);
    var rows := SheetFor(repoName, functions).rows;
    assert forall p, q :: 0 <= p < q < |rows| ==> rows[p].size == top[p].size >= top[q].size == rows[q].size;
  }

  /** Every row describes one of the repository's functions. */
  lemma SheetRowsReportFunctions(repoName: string, functions: seq<FunctionInfo>)
    ensures forall k :: 0 <= k < |SheetFor(repoName, functions).rows| ==>
      Reports(SheetFor(repoName, functions).rows[k], functions)
  {
    var top := TopFunctions(functions);
    TopFunctionsSelects(functions);
    var rows := SheetFor(repoName, functions).rows;
    forall k | 0 <= k < |rows|
      ensures Reports(rows[k], functions)
    {
      assert top[k] in multiset(top);
      assert top[k] in multiset(functions);
      assert top[k] in functions;
      assert rows[k] == RowOf(k + 1, top[k]);
    }
  }

  /** Separators in a short name become underscores. */
  lemma SheetNameExample()
    ensures SheetName("a/b\\c") == "a_b_c"
  {
  }
}
