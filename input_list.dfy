/**
 * Reading the list of repositories to scan: the locators given as
 * arguments, followed by those of an input file in which blank lines and
 * lines starting with `#` (after stripping) are ignored.
 */
module InputList {
  import opened Wrappers

  /** Python's `str.isspace` for one character. */
  predicate IsSpace(c: char)
  {
    var n := c as int;
    (9 <= n <= 13) || (28 <= n <= 32) || n == 0x85 || n == 0xA0 || n == 0x1680 ||
    (0x2000 <= n <= 0x200A) || n == 0x2028 || n == 0x2029 || n == 0x202F ||
    n == 0x205F || n == 0x3000
  }

  /** The number of whitespace characters at the start of `s`. */
  function LeadingSpace(s: string): (n: nat)
    ensures n <= |s|
    ensures n < |s| ==> !IsSpace(s[n])
  {
    if s != [] && IsSpace(s[0]) then 1 + LeadingSpace(s[1..]) else 0
  }

  /** The number of whitespace characters at the end of `s`. */
  function TrailingSpace(s: string): (n: nat)
    ensures n <= |s|
    ensures n < |s| ==> !IsSpace(s[|s| - n - 1])
  {
    if s != [] && IsSpace(s[|s| - 1]) then 1 + TrailingSpace(s[..|s| - 1]) else 0
  }

  /** Everything LeadingSpace counts is whitespace. */
  lemma {:induction false} LeadingSpaceIsSpace(s: string, k: nat)
    requires k < LeadingSpace(s)
    ensures IsSpace(s[k])
  {
    if k > 0 {
      LeadingSpaceIsSpace(s[1..], k - 1);
    }
  }

  /** Everything TrailingSpace counts is whitespace. */
  lemma {:induction false} TrailingSpaceIsSpace(s: string, k: nat)
    requires |s| - TrailingSpace(s) <= k < |s|
    ensures IsSpace(s[k])
  {
    if k < |s| - 1 {
      TrailingSpaceIsSpace(s[..|s| - 1], k);
    }
  }

  /**
   * `s.strip()`: the slice of `s` left after removing leading and trailing
   * whitespace. The result neither starts nor ends with whitespace.
   */
  function Strip(s: string): (r: string)
    ensures r == [] || (!IsSpace(r[0]) && !IsSpace(r[|r| - 1]))
  {
    var t := s[LeadingSpace(s)..];
    t[..|t| - TrailingSpace(t)]
  }

  /** `r` occurs in `s` at offset `a`, and everything around it is whitespace. */
  predicate TrimmedAt(s: string, r: string, a: nat)
  {
    a + |r| <= |s| && s[a..a + |r|] == r &&
    (forall k :: 0 <= k < a ==> IsSpace(s[k])) &&
    (forall k :: a + |r| <= k < |s| ==> IsSpace(s[k]))
  }

  /** Strip removes only whitespace, on either side, and keeps what lies between. */
  lemma StripRemovesOnlySpace(s: string)
    ensures TrimmedAt(s, Strip(s), LeadingSpace(s))
  {
    var a := LeadingSpace(s);
    var t := s[a..];
    var r := t[..|t| - TrailingSpace(t)];
    assert Strip(s) == r;
    assert s[a..a + |r|] == r;
    forall k | 0 <= k < a
      ensures IsSpace(s[k])
    {
      LeadingSpaceIsSpace(s, k);
    }
    forall k | a + |r| <= k < |s|
      ensures IsSpace(s[k])
    {
      TrailingSpaceIsSpace(t, k - a);
      assert t[k - a] == s[k];
    }
  }

  /** A line names a repository when, stripped, it is non-empty and not a comment. */
  predicate Keep(line: string)
  {
    var entry := Strip(line);
    entry != [] && entry[0] != '#'
  }

  /** What one line of the input file contributes: its stripped form, or nothing. */
  function Entry(line: string): seq<string>
  {
    if Keep(line) then [Strip(line)] else []
  }

  /** The repositories an input file lists, stripped, in file order. */
  function KeptLines(lines: seq<string>): seq<string>
  {
    if lines == [] then [] else KeptLines(lines[..|lines| - 1]) + Entry(lines[|lines| - 1])
  }

  /**
   * The loop of the entry point over the input file's lines: strip each
   * line and append it to the repository list unless it is empty or a comment.
   */
  method AppendInputFile(repositories: seq<string>, fileLines: seq<string>) returns (result: seq<string>)
    ensures result == repositories + KeptLines(fileLines)
  {
    result := repositories;
    for i := 0 to |fileLines|
      invariant result == repositories + KeptLines(fileLines[..i])
    {
      var line := Strip(fileLines[i]);
      if |line| > 0 && line[0] != '#' {
        result := result + [line];
      }
      assert fileLines[..i + 1][..i] == fileLines[..i];
      assert KeptLines(fileLines[..i + 1]) == KeptLines(fileLines[..i]) + Entry(fileLines[i]);
    }
    assert fileLines[..|fileLines|] == fileLines;
  }

  /** Filtering distributes over concatenation: the kept lines stay in file order. */
  lemma {:induction false} KeptLinesConcat(a: seq<string>, b: seq<string>)
    ensures KeptLines(a + b) == KeptLines(a) + KeptLines(b)
    decreases |b|
  {
    if b == [] {
      assert a + b == a;
    } else {
      assert (a + b)[..|a + b| - 1] == a + b[..|b| - 1];
      KeptLinesConcat(a, b[..|b| - 1]);
    }
  }

  /** Line `k` of the file is kept and strips to `x`. */
  predicate KeptFrom(lines: seq<string>, k: int, x: string)
  {
    0 <= k < |lines| && Keep(lines[k]) && Strip(lines[k]) == x
  }

  /** An entry is kept exactly when some line of the file strips to it and is neither blank nor a comment. */
  lemma {:induction false} KeptLinesMembership(lines: seq<string>, x: string)
    ensures x in KeptLines(lines) <==> exists k :: KeptFrom(lines, k, x)
  {
    if lines != [] {
      var n := |lines| - 1;
      var init := lines[..n];
      KeptLinesMembership(init, x);
      assert KeptLines(lines) == KeptLines(init) + Entry(lines[n]);
      if x in KeptLines(lines) {
        if x in KeptLines(init) {
          var k :| KeptFrom(init, k, x);
          assert KeptFrom(lines, k, x);
        } else {
          assert x in Entry(lines[n]);
          assert KeptFrom(lines, n, x);
        }
      }
      if exists k :: KeptFrom(lines, k, x) {
        var k :| KeptFrom(lines, k, x);
        if k < n {
          assert KeptFrom(init, k, x);
        } else {
          assert k == n && Keep(lines[n]);
          assert Entry(lines[n]) == [x];
        }
      }
    }
  }

  /** Every kept entry is non-empty, does not start with `#`, and has no surrounding whitespace. */
  lemma KeptEntriesAreClean(lines: seq<string>, x: string)
    requires x in KeptLines(lines)
    ensures x != [] && x[0] != '#' && !IsSpace(x[0]) && !IsSpace(x[|x| - 1])
  {
    KeptLinesMembership(lines, x);
    var k :| KeptFrom(lines, k, x);
  }

  /** Blank lines and comment lines contribute nothing. */
  lemma DropsBlankAndCommentLines(line: string)
    requires Strip(line) == [] || Strip(line)[0] == '#'
    ensures KeptLines([line]) == []
  {
    assert [line][..0] == [];
  }

  lemma LocatorLineIsKept()
    ensures Entry("r1\n") == ["r1"]
  {
    assert LeadingSpace("r1\n") == 0;
    assert "r1\n"[0..] == "r1\n";
    assert "r1\n"[..2] == "r1";
    assert TrailingSpace("r1") == 0;
    assert TrailingSpace("r1\n") == 1;
  }

  lemma PaddedLocatorLineIsTrimmed()
    ensures Entry(" /p \n") == ["/p"]
  {
    assert LeadingSpace("/p \n") == 0;
    assert LeadingSpace(" /p \n") == 1;
    assert " /p \n"[1..] == "/p \n";
    assert "/p \n"[..3] == "/p ";
    assert "/p "[..2] == "/p";
    assert TrailingSpace("/p") == 0;
    assert TrailingSpace("/p ") == 1;
    assert TrailingSpace("/p \n") == 2;
    assert "/p \n"[..2] == "/p";
    assert Strip(" /p \n") == "/p";
  }

  lemma CommentLineIsDropped()
    ensures Entry("# c\n") == []
  {
    assert LeadingSpace("# c\n") == 0;
    assert "# c\n"[0..] == "# c\n";
  }

  lemma BlankLineIsDropped()
    ensures Entry("\n") == []
  {
    assert LeadingSpace("\n") == 1;
  }

  /**
   * An input file of a locator, a comment, a blank line and a locator
   * padded with spaces (the test suite's file has the first three kinds of
   * line; the padding here also exercises the stripping).
   */
  lemma KeptLinesExample()
    ensures KeptLines(["r1\n", "# c\n", "\n", " /p \n"]) == ["r1", "/p"]
  {
    LocatorLineIsKept();
    CommentLineIsDropped();
    BlankLineIsDropped();
    PaddedLocatorLineIsTrimmed();
    var lines := ["r1\n", "# c\n", "\n", " /p \n"];
    assert lines[..3] == ["r1\n", "# c\n", "\n"];
    assert lines[..3][..2] == ["r1\n", "# c\n"];
    assert lines[..3][..2][..1] == ["r1\n"];
    assert KeptLines(["r1\n"]) == ["r1"];
    assert KeptLines(["r1\n", "# c\n"]) == ["r1"];
    assert KeptLines(["r1\n", "# c\n", "\n"]) == ["r1"];
  }

  /** What the entry point checks before any scanning starts. */
  datatype StartupError = JobsBelowOne | InputFileUnreadable | NoRepositories

  /** The input file option: absent, unreadable, or read as lines. */
  datatype InputFile = NoInputFile | Unreadable | Lines(lines: seq<string>)

  /**
   * The repositories a run scans, or why it stops: fewer than one parallel
   * job, an unreadable input file, or an empty list.
   */
  function Repositories(jobs: int, args: seq<string>, inputFile: InputFile): (r: Result<seq<string>, StartupError>)
    ensures r == Err(JobsBelowOne) <==> jobs < 1
    ensures r == Err(InputFileUnreadable) <==> jobs >= 1 && inputFile.Unreadable?
    ensures r == Err(NoRepositories) <==>
      jobs >= 1 && args == [] && (inputFile.NoInputFile? || (inputFile.Lines? && KeptLines(inputFile.lines) == []))
    ensures r.Ok? ==> jobs >= 1 && r.value != [] && args <= r.value
    ensures r.Ok? ==> forall x :: x in r.value ==> x in args || (inputFile.Lines? && x in KeptLines(inputFile.lines))
    ensures r.Ok? && inputFile.Lines? ==> forall x :: x in KeptLines(inputFile.lines) ==> x in r.value
  {
    if jobs < 1 then Err(JobsBelowOne)
    else if inputFile.Unreadable? then Err(InputFileUnreadable)
    else
      var repositories := args + (if inputFile.Lines? then KeptLines(inputFile.lines) else []);
      if repositories == [] then Err(NoRepositories) else Ok(repositories)
  }
}
