/**
 * The JavaScript/TypeScript parser: an ordered list of header patterns
 * (function declaration, arrow function, method, class method), the first
 * matching pattern supplying the name, then the shared brace walk.
 */
module JavaScriptParser {
  import opened Wrappers
  import opened FunctionRecords
  import opened BraceScanner

  /** Patterns are tried in order; the first one that matches the line decides. */
  function FirstMatch(patterns: seq<Header>, line: string): (r: Option<string>)
    ensures r.Some? ==> exists p :: 0 <= p < |patterns| && patterns[p](line) == r
  {
    if patterns == [] then None
    else if patterns[0](line).Some? then patterns[0](line)
    else FirstMatch(patterns[1..], line)
  }

  /**
   * When pattern p is the first that matches, FirstMatch yields its capture.
   * With FirstMatchNone this determines FirstMatch on every line.
   */
  lemma {:induction false} FirstMatchIsFirst(patterns: seq<Header>, line: string, p: nat)
    requires p < |patterns| && patterns[p](line).Some?
    requires forall q :: 0 <= q < p ==> patterns[q](line).None?
    ensures FirstMatch(patterns, line) == patterns[p](line)
  {
    if p > 0 {
      FirstMatchIsFirst(patterns[1..], line, p - 1);
      assert forall q :: 0 < q < |patterns| ==> patterns[q] == patterns[1..][q - 1];
    }
  }

  /** FirstMatch yields nothing exactly when no pattern matches. */
  lemma {:induction false} FirstMatchNone(patterns: seq<Header>, line: string)
    ensures FirstMatch(patterns, line).None? <==> forall q :: 0 <= q < |patterns| ==> patterns[q](line).None?
  {
    if patterns != [] {
      FirstMatchNone(patterns[1..], line);
      assert forall q :: 0 < q < |patterns| ==> patterns[q] == patterns[1..][q - 1];
    }
  }

  /** The header recogniser made of an ordered pattern list. */
  function JsHeader(patterns: seq<Header>): Header
  {
    line => FirstMatch(patterns, line)
  }

  /**
   * The pattern loop for line `i`: the first matching pattern supplies the
   * name and the brace walk runs once; the loop stops there even when the
   * walk is rejected, so a line never yields two records and never gets a
   * second chance with a later pattern.
   */
  method ParseLine(lines: seq<string>, filePath: string, patterns: seq<Header>, i: nat)
    returns (found: seq<FunctionInfo>)
    requires i < |lines|
    ensures found == Found(lines, filePath, JsHeader(patterns), i)
  {
    var line := lines[i];
    ghost var header := JsHeader(patterns);
    assert header(line) == FirstMatch(patterns, line);
    found := [];
    var p := 0;
    while p < |patterns|
      invariant p <= |patterns|
      invariant forall q :: 0 <= q < p ==> patterns[q](line).None?
      invariant found == []
    {
      var match_ := patterns[p](line);
      if match_.Some? {
        FirstMatchIsFirst(patterns, line, p);
        var funcName := match_.value;
        var startLine := i + 1;
        var braceCount, endLine := TraceBody(lines, i);
        if braceCount == 0 && endLine > i {
          var size := endLine - i + 1;
          found := [FunctionInfo(funcName, filePath, startLine, endLine + 1, size)];
        }
        return;
      }
      p := p + 1;
    }
    FirstMatchNone(patterns, line);
  }

  /** Tries every line of the file as a header, in order, collecting the records. */
  method ParseFunctions(lines: seq<string>, filePath: string, patterns: seq<Header>)
    returns (functions: seq<FunctionInfo>)
    ensures functions == Scan(lines, filePath, JsHeader(patterns))
  {
    functions := [];
    ghost var header := JsHeader(patterns);
    for i := 0 to |lines|
      invariant functions == Emitted(lines, filePath, header, i)
    {
      var found := ParseLine(lines, filePath, patterns, i);
      functions := functions + found;
    }
  }
}
