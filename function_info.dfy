/** The record every scanner emits: a function's name, file and line span. */
module FunctionRecords {

  /**
   * One function or method found in a source file. Lines are 1-based and
   * `endLine` is inclusive; `size` is the number of lines the function spans.
   * Records are values: the repository scan rewrites `filePath` by building
   * an updated record.
   */
  datatype FunctionInfo = FunctionInfo(
    name: string,
    filePath: string,
    startLine: int,
    endLine: int,
    size: int)

  /** The shape of a record produced by a brace-counting scan: at least two lines, size consistent with the span. */
  predicate Spans(f: FunctionInfo)
  {
    1 <= f.startLine < f.endLine && f.size == f.endLine - f.startLine + 1
  }
}
