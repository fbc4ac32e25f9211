/**
 * The brace-counting boundary scan shared by the JavaScript and the Java
 * parser. A file is a sequence of lines; a header recogniser says whether a
 * line opens a function and what that function is called. The regular
 * expressions themselves are not modelled: a recogniser is any total
 * function from a line to an optional name.
 */
module BraceScanner {
  import opened Wrappers
  import opened FunctionRecords

  /** Recognises a function header on one line and yields the captured name. */
  type Header = string -> Option<string>

  /** Occurrences of `c` in `s`, as Python's `str.count` with a one-character argument. */
  function Count(s: string, c: char): nat
  {
    multiset(s)[c]
  }

  /** What one character does to the brace balance. */
  function Weight(c: char): int
  {
    if c == '{' then 1 else if c == '}' then -1 else 0
  }

  /** The change in brace balance over one line, character by character. */
  function Delta(line: string): int
  {
    if line == [] then 0 else Delta(line[..|line| - 1]) + Weight(line[|line| - 1])
  }

  /** A line's balance change is its count of opening braces minus its count of closing braces. */
  lemma {:induction false} DeltaCountsBraces(line: string)
    ensures Delta(line) == Count(line, '{') - Count(line, '}')
  {
    if line != [] {
      var init := line[..|line| - 1];
      DeltaCountsBraces(init);
      assert line == init + [line[|line| - 1]];
      assert multiset(line) == multiset(init) + multiset{line[|line| - 1]};
    }
  }

  /** The running brace balance of lines `i` through `k` inclusive: the counter after line `k` is consumed. */
  function Running(lines: seq<string>, i: nat, k: nat): int
    requires i <= k < |lines|
    decreases k - i
  {
    if k == i then Delta(lines[i]) else Running(lines, i, k - 1) + Delta(lines[k])
  }

  /** The balance is additive: what lines i..k open plus what k+1..m open. */
  lemma {:induction false} RunningSplit(lines: seq<string>, i: nat, k: nat, m: nat)
    requires i <= k < m < |lines|
    ensures Running(lines, i, m) == Running(lines, i, k) + Running(lines, k + 1, m)
    decreases m - k
  {
    if m > k + 1 {
      RunningSplit(lines, i, k, m - 1);
    }
  }

  /**
   * The first line at or after `j` at which the running balance of the
   * function whose header is line `i` has dropped to zero or below.
   */
  function FirstClose(lines: seq<string>, i: nat, j: nat): (r: Option<nat>)
    requires i < j <= |lines|
    decreases |lines| - j
    ensures r.Some? ==> j <= r.value < |lines|
  {
    if j == |lines| then None
    else if Running(lines, i, j) <= 0 then Some(j)
    else FirstClose(lines, i, j + 1)
  }

  /** FirstClose stops at a line where the balance is not positive, and the balance is positive at every line it passes. */
  lemma {:induction false} FirstCloseIsFirst(lines: seq<string>, i: nat, j: nat)
    requires i < j <= |lines|
    decreases |lines| - j
    ensures FirstClose(lines, i, j).Some? ==> Running(lines, i, FirstClose(lines, i, j).value) <= 0
    ensures forall k :: j <= k < |lines| && (FirstClose(lines, i, j).None? || k < FirstClose(lines, i, j).value) ==>
      Running(lines, i, k) > 0
  {
    if j < |lines| && Running(lines, i, j) > 0 {
      FirstCloseIsFirst(lines, i, j + 1);
    }
  }

  /**
   * Line `e` closes the function opened at line `i`: it is a later line, the
   * balance is positive after every line before it (header included) and
   * exactly zero after it.
   */
  ghost predicate ClosesAt(lines: seq<string>, i: nat, e: nat)
  {
    i < e < |lines| && Running(lines, i, e) == 0 &&
    forall k :: i <= k < e ==> Running(lines, i, k) > 0
  }

  /**
   * The closing line of a function whose header is line `i`, if the scan
   * accepts it: the header must open more braces than it closes, and the
   * first later line where the balance stops being positive must bring it to
   * exactly zero. A header balanced on its own line, the last line of the
   * file, a body never closed and a body that over-closes all yield None.
   */
  function EndLine(lines: seq<string>, i: nat): (r: Option<nat>)
    requires i < |lines|
    ensures r.Some? ==> i < r.value < |lines|
  {
    if Delta(lines[i]) <= 0 || i + 1 == |lines| then None
    else
      match FirstClose(lines, i, i + 1)
      case None => None
      case Some(e) => if Running(lines, i, e) == 0 then Some(e) else None
  }

  /** EndLine finds exactly the closing line described by ClosesAt, in both directions. */
  lemma EndLineIsClosingLine(lines: seq<string>, i: nat, e: nat)
    requires i < |lines|
    ensures EndLine(lines, i) == Some(e) <==> ClosesAt(lines, i, e)
  {
    if i + 1 < |lines| {
      FirstCloseIsFirst(lines, i, i + 1);
    }
    if ClosesAt(lines, i, e) {
      assert Running(lines, i, i) > 0;
      var r := FirstClose(lines, i, i + 1);
      assert r == Some(e);
    }
  }

  /**
   * The record for a function called `name` whose header is line `i`
   * (0-based), when the brace walk accepts it: 1-based start and end lines
   * and the inclusive line count.
   */
  function Recorded(lines: seq<string>, path: string, name: string, i: nat): (r: Option<FunctionInfo>)
    requires i < |lines|
  {
    match EndLine(lines, i)
    case None => None
    case Some(e) => Some(FunctionInfo(name, path, i + 1, e + 1, e - i + 1))
  }

  /** The record a parser emits for line `i`: a name from the header recogniser, then the brace walk. */
  function RecordAt(lines: seq<string>, path: string, header: Header, i: nat): (r: Option<FunctionInfo>)
    requires i < |lines|
  {
    match header(lines[i])
    case None => None
    case Some(name) => Recorded(lines, path, name, i)
  }

  /** The records line `i` contributes: none or one. */
  function Found(lines: seq<string>, path: string, header: Header, i: nat): seq<FunctionInfo>
    requires i < |lines|
  {
    OptionToSeq(RecordAt(lines, path, header, i))
  }

  /** The records emitted after trying lines 0 .. n-1 as headers, in discovery order. */
  function Emitted(lines: seq<string>, path: string, header: Header, n: nat): seq<FunctionInfo>
    requires n <= |lines|
  {
    if n == 0 then []
    else Emitted(lines, path, header, n - 1) + Found(lines, path, header, n - 1)
  }

  /** The records a parser emits for a whole file. */
  function Scan(lines: seq<string>, path: string, header: Header): seq<FunctionInfo>
  {
    Emitted(lines, path, header, |lines|)
  }

  /**
   * The inner brace walk of both parsers: start from the header line's
   * balance and consume further lines while the balance stays positive.
   * The walk is accepted exactly when it ends at balance zero after
   * consuming at least one further line, and then the last consumed line is
   * the closing line.
   */
  method TraceBody(lines: seq<string>, i: nat) returns (braceCount: int, endLine: nat)
    requires i < |lines|
    ensures i <= endLine < |lines| && braceCount == Running(lines, i, endLine)
    ensures (braceCount == 0 && endLine > i) == EndLine(lines, i).Some?
    ensures EndLine(lines, i).Some? ==> EndLine(lines, i).value == endLine
  {
    braceCount := Delta(lines[i]);
    endLine := i;
    var j := i + 1;
    while j < |lines| && braceCount > 0
      invariant i <= endLine < |lines| && j == endLine + 1
      invariant braceCount == Running(lines, i, endLine)
      invariant forall k :: i <= k < endLine ==> Running(lines, i, k) > 0
    {
      braceCount := braceCount + Delta(lines[j]);
      endLine := j;
      j := j + 1;
    }
    if Delta(lines[i]) > 0 && i + 1 < |lines| {
      FirstCloseIsFirst(lines, i, i + 1);
      var r := FirstClose(lines, i, i + 1);
      if braceCount <= 0 {
        assert r == Some(endLine);
      } else {
        assert r.None?;
      }
    }
  }

  /**
   * One step of a parser's outer loop: after a header match on line `i`
   * and the brace walk, the record appended (if any) is exactly the one
   * RecordAt describes.
   */
  lemma EmitAfterWalk(lines: seq<string>, path: string, header: Header, i: nat, name: string, braceCount: int, endLine: nat)
    requires i < |lines| && header(lines[i]) == Some(name)
    requires (braceCount == 0 && endLine > i) == EndLine(lines, i).Some?
    requires EndLine(lines, i).Some? ==> EndLine(lines, i).value == endLine
    ensures braceCount == 0 && endLine > i ==>
      Emitted(lines, path, header, i + 1) ==
      Emitted(lines, path, header, i) + [FunctionInfo(name, path, i + 1, endLine + 1, endLine - i + 1)]
    ensures !(braceCount == 0 && endLine > i) ==>
      Emitted(lines, path, header, i + 1) == Emitted(lines, path, header, i)
  {
    var rec := RecordAt(lines, path, header, i);
    assert Emitted(lines, path, header, i + 1) == Emitted(lines, path, header, i) + OptionToSeq(rec);
    if braceCount == 0 && endLine > i {
      assert rec == Some(FunctionInfo(name, path, i + 1, endLine + 1, endLine - i + 1));
    } else {
      assert rec == None;
    }
  }

  /** A line no header matches adds nothing. */
  lemma EmitNothing(lines: seq<string>, path: string, header: Header, i: nat)
    requires i < |lines| && header(lines[i]).None?
    ensures Emitted(lines, path, header, i + 1) == Emitted(lines, path, header, i)
  {
  }

  /** Every record emitted so far spans two or more lines of the file and carries the file's path. */
  lemma {:induction false} EmittedWellFormed(lines: seq<string>, path: string, header: Header, n: nat)
    requires n <= |lines|
    ensures forall r :: r in Emitted(lines, path, header, n) ==>
      Spans(r) && r.startLine <= n && r.endLine <= |lines| && r.filePath == path
  {
    if n > 0 {
      EmittedWellFormed(lines, path, header, n - 1);
    }
  }

  /**
   * Every record of a scan lies inside the file: start at least 1, end at
   * most the number of lines, size the inclusive span, and at least two lines.
   */
  lemma ScanWellFormed(lines: seq<string>, path: string, header: Header)
    ensures forall r :: r in Scan(lines, path, header) ==>
      Spans(r) && r.endLine <= |lines| && r.filePath == path
  {
    EmittedWellFormed(lines, path, header, |lines|);
  }

  /** Records appear in strictly increasing start line, so no line yields two records. */
  lemma {:induction false} EmittedIncreasing(lines: seq<string>, path: string, header: Header, n: nat)
    requires n <= |lines|
    ensures forall p, q :: 0 <= p < q < |Emitted(lines, path, header, n)| ==>
      Emitted(lines, path, header, n)[p].startLine < Emitted(lines, path, header, n)[q].startLine
  {
    if n > 0 {
      EmittedIncreasing(lines, path, header, n - 1);
      EmittedWellFormed(lines, path, header, n - 1);
      var prev := Emitted(lines, path, header, n - 1);
      forall p | 0 <= p < |prev|
        ensures prev[p].startLine < n
      {
        assert prev[p] in prev;
      }
    }
  }

  /** A scan's records, in order, have strictly increasing start lines. */
  lemma ScanIncreasing(lines: seq<string>, path: string, header: Header)
    ensures forall p, q :: 0 <= p < q < |Scan(lines, path, header)| ==>
      Scan(lines, path, header)[p].startLine < Scan(lines, path, header)[q].startLine
  {
    EmittedIncreasing(lines, path, header, |lines|);
  }

  /** The record line `i` contributes is the one RecordAt yields, and it starts on that line. */
  lemma FoundMembership(lines: seq<string>, path: string, header: Header, i: nat, r: FunctionInfo)
    requires i < |lines|
    ensures r in Found(lines, path, header, i) <==> RecordAt(lines, path, header, i) == Some(r)
    ensures r in Found(lines, path, header, i) ==> r.startLine == i + 1
  {
  }

  /** Every record emitted among the first n lines is the contribution of its own header line. */
  lemma {:induction false} EmittedSound(lines: seq<string>, path: string, header: Header, n: nat, r: FunctionInfo)
    requires n <= |lines| && r in Emitted(lines, path, header, n)
    ensures 1 <= r.startLine <= n && r in Found(lines, path, header, r.startLine - 1)
  {
    FoundMembership(lines, path, header, n - 1, r);
    if r !in Found(lines, path, header, n - 1) {
      EmittedSound(lines, path, header, n - 1, r);
    }
  }

  /** What any of the first n lines contributes is among the records emitted. */
  lemma {:induction false} EmittedComplete(lines: seq<string>, path: string, header: Header, n: nat, i: nat, r: FunctionInfo)
    requires i < n <= |lines| && r in Found(lines, path, header, i)
    ensures r in Emitted(lines, path, header, n)
  {
    if i < n - 1 {
      EmittedComplete(lines, path, header, n - 1, i, r);
    }
  }

  /**
   * A record is in the scan of a file exactly when its start line is a line
   * of the file whose header match and brace walk produce it. In particular
   * a header inside a function that is still open is tried too, so nested
   * functions are recorded.
   */
  lemma ScanMembership(lines: seq<string>, path: string, header: Header, r: FunctionInfo)
    ensures r in Scan(lines, path, header) <==>
      1 <= r.startLine <= |lines| && RecordAt(lines, path, header, r.startLine - 1) == Some(r)
  {
    if r in Scan(lines, path, header) {
      EmittedSound(lines, path, header, |lines|, r);
    }
    if 1 <= r.startLine <= |lines| {
      FoundMembership(lines, path, header, r.startLine - 1, r);
      if r in Found(lines, path, header, r.startLine - 1) {
        EmittedComplete(lines, path, header, |lines|, r.startLine - 1, r);
      }
    }
  }

  /** A header line that balances its own braces, or is the last line, never starts a record. */
  lemma ScanSkipsBalancedOrLastHeader(lines: seq<string>, path: string, header: Header, i: nat)
    requires i < |lines|
    requires Delta(lines[i]) <= 0 || i == |lines| - 1
    ensures forall r :: r in Scan(lines, path, header) ==> r.startLine != i + 1
  {
    forall r | r in Scan(lines, path, header)
      ensures r.startLine != i + 1
    {
      ScanMembership(lines, path, header, r);
    }
  }

  /**
   * Any two recorded functions are nested or disjoint: a function whose
   * header lies inside another recorded function closes strictly before it.
   */
  lemma RecordsNestOrAreDisjoint(lines: seq<string>, path: string, header: Header, a: FunctionInfo, b: FunctionInfo)
    requires a in Scan(lines, path, header) && b in Scan(lines, path, header)
    requires a.startLine < b.startLine
    ensures b.startLine > a.endLine || b.endLine < a.endLine
  {
    ScanMembership(lines, path, header, a);
    ScanMembership(lines, path, header, b);
    var i, k := a.startLine - 1, b.startLine - 1;
    var e, f := a.endLine - 1, b.endLine - 1;
    assert EndLine(lines, i) == Some(e);
    assert EndLine(lines, k) == Some(f);
    EndLineIsClosingLine(lines, i, e);
    EndLineIsClosingLine(lines, k, f);
    if k <= e {
      assert Running(lines, i, k - 1) > 0;
      assert k < e;
      RunningSplit(lines, i, k - 1, e);
      assert Running(lines, k, e) < 0;
    }
  }
}
