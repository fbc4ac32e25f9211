/**
 * Worked instances of the brace scan: `largeMethod` of the Java fixture
 * Sample.java, `testMethod` of the fixture SampleTest.java, a nested
 * function, and the headers the scan rejects.
 */
module ScannerExamples {
  import opened Wrappers
  import opened FunctionRecords
  import opened BraceScanner
  import JavaScriptParser

  /**
   * `largeMethod` of the Java fixture Sample.java occupies its lines 29-39.
   * Per line, those lines open/close braces as follows: the header opens one,
   * `if (x > 0) {` opens one, `} else {` nets zero, the `}` ending the if and
   * the `}` ending the method close one each, all other lines carry none.
   * Whatever the rest of the file holds, the scan records the method as
   * lines 29 to 39, size 11.
   */
  lemma LargeMethodIsRecorded(lines: seq<string>, path: string, methodPattern: Header)
    requires |lines| >= 39
    requires methodPattern(lines[28]) == Some("largeMethod")
    requires Delta(lines[28]) == 1 && Delta(lines[32]) == 1 && Delta(lines[36]) == -1 && Delta(lines[38]) == -1
    requires forall k :: 28 < k < 38 && k != 32 && k != 36 ==> Delta(lines[k]) == 0
    ensures FunctionInfo("largeMethod", path, 29, 39, 11) in Scan(lines, path, methodPattern)
  {
    assert Running(lines, 28, 28) == 1;
    assert Running(lines, 28, 29) == 1;
    assert Running(lines, 28, 30) == 1;
    assert Running(lines, 28, 31) == 1;
    assert Running(lines, 28, 32) == 2;
    assert Running(lines, 28, 33) == 2;
    assert Running(lines, 28, 34) == 2;
    assert Running(lines, 28, 35) == 2;
    assert Running(lines, 28, 36) == 1;
    assert Running(lines, 28, 37) == 1;
    assert Running(lines, 28, 38) == 0;
    assert ClosesAt(lines, 28, 38);
    EndLineIsClosingLine(lines, 28, 38);
    ScanMembership(lines, path, methodPattern, FunctionInfo("largeMethod", path, 29, 39, 11));
  }

  /**
   * `testMethod` of the Java fixture SampleTest.java occupies its lines 7-10:
   * the header opens a brace, two statement lines carry none, and `}` closes
   * it. The scan records it with size 4.
   */
  lemma TestMethodIsRecorded(lines: seq<string>, path: string, methodPattern: Header)
    requires |lines| >= 10
    requires methodPattern(lines[6]) == Some("testMethod")
    requires Delta(lines[6]) == 1 && Delta(lines[7]) == 0 && Delta(lines[8]) == 0 && Delta(lines[9]) == -1
    ensures FunctionInfo("testMethod", path, 7, 10, 4) in Scan(lines, path, methodPattern)
  {
    assert Running(lines, 6, 8) == 1;
    assert Running(lines, 6, 9) == 0;
    assert ClosesAt(lines, 6, 9);
    EndLineIsClosingLine(lines, 6, 9);
    ScanMembership(lines, path, methodPattern, FunctionInfo("testMethod", path, 7, 10, 4));
  }

  /** A one-letter header `n(){` opens one brace. */
  lemma OpenHeaderDelta(n: char)
    requires n != '{' && n != '}'
    ensures Delta([n, '(', ')', '{']) == 1
  {
    assert [n][..0] == [];
    assert Delta([n]) == 0;
    assert [n, '('][..1] == [n];
    assert Delta([n, '(']) == 0;
    assert [n, '(', ')'][..2] == [n, '('];
    assert Delta([n, '(', ')']) == 0;
    assert [n, '(', ')', '{'][..3] == [n, '(', ')'];
  }

  lemma ClosingDeltas()
    ensures Delta("}") == -1 && Delta("}}") == -2 && Delta("x") == 0
  {
    assert "}}"[..1] == "}";
  }

  /** In the nested example line 3 closes `a` and line 2 closes `b`. */
  lemma NestedClosingLines(lines: seq<string>)
    requires |lines| == 4
    requires Delta(lines[0]) == 1 && Delta(lines[1]) == 1 && Delta(lines[2]) == -1 && Delta(lines[3]) == -1
    ensures EndLine(lines, 0) == Some(3) && EndLine(lines, 1) == Some(2)
  {
    assert Running(lines, 0, 2) == 1;
    assert ClosesAt(lines, 0, 3);
    EndLineIsClosingLine(lines, 0, 3);
    assert ClosesAt(lines, 1, 2);
    EndLineIsClosingLine(lines, 1, 2);
  }

  /**
   * A function declared inside another is recorded too, after the outer one:
   * headers inside an open function are still tried. The file is `a(){`,
   * `b(){`, `}`, `}`.
   */
  lemma NestedFunctionsAreBothRecorded(lines: seq<string>, path: string, header: Header)
    requires |lines| == 4
    requires header(lines[0]) == Some("a") && header(lines[1]) == Some("b")
    requires header(lines[2]) == None && header(lines[3]) == None
    requires Delta(lines[0]) == 1 && Delta(lines[1]) == 1 && Delta(lines[2]) == -1 && Delta(lines[3]) == -1
    ensures Scan(lines, path, header) == [FunctionInfo("a", path, 1, 4, 4), FunctionInfo("b", path, 2, 3, 2)]
  {
    var a, b := FunctionInfo("a", path, 1, 4, 4), FunctionInfo("b", path, 2, 3, 2);
    NestedClosingLines(lines);
    assert Found(lines, path, header, 0) == [a];
    assert Emitted(lines, path, header, 1) == [a];
    assert Found(lines, path, header, 1) == [b];
    assert Emitted(lines, path, header, 2) == [a] + [b];
    assert Emitted(lines, path, header, 4) == Emitted(lines, path, header, 2);
  }

  /** A function whose braces balance on its header line is not recorded. */
  lemma BalancedHeaderYieldsNothing(path: string, header: Header)
    requires header("f(){}") == Some("f")
    ensures Scan(["f(){}"], path, header) == []
  {
    OpenHeaderDelta('f');
    assert "f(){}"[..4] == "f(){";
    assert Emitted(["f(){}"], path, header, 1) == [];
  }

  /** A function still open at the end of the file is not recorded. */
  lemma UnclosedBodyYieldsNothing(path: string, header: Header)
    requires header("g(){") == Some("g") && header("x") == None
    ensures Scan(["g(){", "x"], path, header) == []
  {
    var lines := ["g(){", "x"];
    OpenHeaderDelta('g');
    ClosingDeltas();
    assert Running(lines, 0, 1) == 1;
    assert EndLine(lines, 0) == None;
    assert Emitted(lines, path, header, 1) == [];
  }

  /** A function whose body closes more braces than it opened is not recorded. */
  lemma OverClosedBodyYieldsNothing(path: string, header: Header)
    requires header("g(){") == Some("g") && header("}}") == None
    ensures Scan(["g(){", "}}"], path, header) == []
  {
    var lines := ["g(){", "}}"];
    OpenHeaderDelta('g');
    ClosingDeltas();
    assert Running(lines, 0, 1) == -1;
    assert EndLine(lines, 0) == None;
    assert Emitted(lines, path, header, 1) == [];
  }

  /**
   * In the JavaScript parser an earlier pattern shadows a later one: the
   * name comes from the first pattern that matches. The file is a header
   * both patterns match and a closing brace.
   */
  lemma FirstPatternNamesTheFunction(lines: seq<string>, first: Header, second: Header, path: string)
    requires |lines| == 2
    requires first(lines[0]) == Some("a") && second(lines[0]) == Some("other")
    requires first(lines[1]) == None && second(lines[1]) == None
    requires Delta(lines[0]) == 1 && Delta(lines[1]) == -1
    ensures Scan(lines, path, JavaScriptParser.JsHeader([first, second])) == [FunctionInfo("a", path, 1, 2, 2)]
  {
    var header := JavaScriptParser.JsHeader([first, second]);
    JavaScriptParser.FirstMatchIsFirst([first, second], lines[0], 0);
    JavaScriptParser.FirstMatchNone([first, second], lines[1]);
    assert header(lines[0]) == Some("a");
    assert header(lines[1]) == None;
    assert EndLine(lines, 0) == Some(1);
    assert Emitted(lines, path, header, 1) == [FunctionInfo("a", path, 1, 2, 2)];
  }
}
