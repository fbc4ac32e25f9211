/** The Java parser: one header pattern, then the shared brace walk. */
module JavaParser {
  import opened Wrappers
  import opened FunctionRecords
  import opened BraceScanner

  /**
   * Tries every line of a Java file as a method header, in order. For a
   * matching line the brace walk runs from that line; a record is appended
   * only when the walk closes at balance zero on a later line. Lines inside
   * a method that is still open are tried as headers too.
   */
  method ParseFunctions(lines: seq<string>, filePath: string, methodPattern: Header)
    returns (functions: seq<FunctionInfo>)
    ensures functions == Scan(lines, filePath, methodPattern)
  {
    functions := [];
    for i := 0 to |lines|
      invariant functions == Emitted(lines, filePath, methodPattern, i)
    {
      var line := lines[i];
      var match_ := methodPattern(line);
      if match_.Some? {
        var funcName := match_.value;
        var startLine := i + 1;
        var braceCount, endLine := TraceBody(lines, i);
        EmitAfterWalk(lines, filePath, methodPattern, i, funcName, braceCount, endLine);
        if braceCount == 0 && endLine > i {
          var size := endLine - i + 1;
          functions := functions + [FunctionInfo(funcName, filePath, startLine, endLine + 1, size)];
        }
      } else {
        EmitNothing(lines, filePath, methodPattern, i);
      }
    }
  }
}
