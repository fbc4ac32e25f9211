/**
 * Scanning one repository: deciding whether the locator is remote, skipping
 * housekeeping paths, running the parser for each file, rewriting the paths
 * of the records, and deriving the repository's display name.
 *
 * Cloning, the existence test on a local path, the recursive file listing and
 * `os.path.relpath` are outside the model: their outcomes arrive as
 * parameters (a clone flag, an existence flag, the listed files with their
 * lines or None when unreadable, and a path-rewriting function).
 */
module Repository {
  import opened Wrappers
  import opened FunctionRecords
  import opened BraceScanner
  import JavaScriptParser
  import JavaParser

  predicate StartsWith(s: string, prefix: string)
  {
    |prefix| <= |s| && s[..|prefix|] == prefix
  }

  /** `sub` occurs in `s` starting at index `k`. */
  predicate OccursAt(s: string, sub: string, k: int)
  {
    0 <= k <= |s| - |sub| && s[k..k + |sub|] == sub
  }

  /** `sub in s` for strings: `sub` occurs somewhere in `s`. */
  predicate Contains(s: string, sub: string)
  {
    exists k :: 0 <= k <= |s| && OccursAt(s, sub, k)
  }

  /** A locator naming a repository to clone rather than a local directory. */
  predicate IsRemote(repoPath: string)
  {
    StartsWith(repoPath, "http://") || StartsWith(repoPath, "https://") || StartsWith(repoPath, "git@")
  }

  /** JavaScript/TypeScript files under dependency caches or version-control metadata are skipped. */
  predicate SkipJavaScriptFile(path: string)
  {
    Contains(path, "node_modules") || Contains(path, ".git")
  }

  const JavaSkipMarkers: seq<string> := [".git", "target", "build", "out"]

  /** Java files whose path mentions metadata or a build directory name anywhere are skipped. */
  predicate SkipJavaFile(path: string)
  {
    exists d :: d in JavaSkipMarkers && Contains(path, d)
  }

  /**
   * A file found by the recursive listing: its path and its lines, or None
   * when it could not be read. The path is the full listed path, with the
   * repository's root in front, so the skip rules see the root too.
   */
  datatype SourceFile = SourceFile(path: string, content: Option<seq<string>>)

  /** Every record with its path rewritten by `relPath`, nothing else changed. */
  function Relocated(functions: seq<FunctionInfo>, relPath: string -> string): (r: seq<FunctionInfo>)
    ensures |r| == |functions|
  {
    seq(|functions|, k requires 0 <= k < |functions| => functions[k].(filePath := relPath(functions[k].filePath)))
  }

  /** The records one file contributes: none when unreadable, else its scan with paths rewritten. */
  function FileFunctions(file: SourceFile, header: Header, relPath: string -> string): seq<FunctionInfo>
  {
    match file.content
    case None => []
    case Some(lines) => Relocated(Scan(lines, file.path, header), relPath)
  }

  /** What one listed file contributes: nothing when skipped, else its records. */
  function Contribution(file: SourceFile, skip: string -> bool, header: Header, relPath: string -> string): seq<FunctionInfo>
  {
    if skip(file.path) then [] else FileFunctions(file, header, relPath)
  }

  /** The records of the first `n` listed files, skipped files contributing none, in listing order. */
  function Harvest(files: seq<SourceFile>, n: nat, skip: string -> bool, header: Header, relPath: string -> string): seq<FunctionInfo>
    requires n <= |files|
  {
    if n == 0 then [] else Harvest(files, n - 1, skip, header, relPath) + Contribution(files[n - 1], skip, header, relPath)
  }

  /** The records of a whole repository: JavaScript files first, then Java files. */
  function RepositoryFunctions(jsFiles: seq<SourceFile>, javaFiles: seq<SourceFile>, relPath: string -> string,
                               jsPatterns: seq<Header>, methodPattern: Header): seq<FunctionInfo>
  {
    Harvest(jsFiles, |jsFiles|, SkipJavaScriptFile, JavaScriptParser.JsHeader(jsPatterns), relPath) +
    Harvest(javaFiles, |javaFiles|, SkipJavaFile, methodPattern, relPath)
  }

  /** Rewrites the path of every record in place, in order. */
  method RelocateAll(functions: seq<FunctionInfo>, relPath: string -> string) returns (relocated: seq<FunctionInfo>)
    ensures relocated == Relocated(functions, relPath)
  {
    relocated := functions;
    for k := 0 to |relocated|
      invariant |relocated| == |functions|
      invariant forall j :: 0 <= j < k ==> relocated[j] == functions[j].(filePath := relPath(functions[j].filePath))
      invariant forall j :: k <= j < |functions| ==> relocated[j] == functions[j]
    {
      var func := relocated[k];
      relocated := relocated[k := func.(filePath := relPath(func.filePath))];
    }
  }

  /** One JavaScript/TypeScript file of the listing: skipped, unreadable, or parsed with its paths rewritten. */
  method ScanJavaScriptFile(file: SourceFile, relPath: string -> string, jsPatterns: seq<Header>)
    returns (functions: seq<FunctionInfo>)
    ensures functions == Contribution(file, SkipJavaScriptFile, JavaScriptParser.JsHeader(jsPatterns), relPath)
  {
    functions := [];
    if !SkipJavaScriptFile(file.path) && file.content.Some? {
      functions := JavaScriptParser.ParseFunctions(file.content.value, file.path, jsPatterns);
      functions := RelocateAll(functions, relPath);
    }
  }

  /** One Java file of the listing: skipped, unreadable, or parsed with its paths rewritten. */
  method ScanJavaFile(file: SourceFile, relPath: string -> string, methodPattern: Header)
    returns (functions: seq<FunctionInfo>)
    ensures functions == Contribution(file, SkipJavaFile, methodPattern, relPath)
  {
    functions := [];
    if !SkipJavaFile(file.path) && file.content.Some? {
      functions := JavaParser.ParseFunctions(file.content.value, file.path, methodPattern);
      functions := RelocateAll(functions, relPath);
    }
  }

  /** The loop over the listed JavaScript/TypeScript files, extending the repository's records in order. */
  method ScanJavaScriptFiles(jsFiles: seq<SourceFile>, relPath: string -> string, jsPatterns: seq<Header>)
    returns (allFunctions: seq<FunctionInfo>)
    ensures allFunctions == Harvest(jsFiles, |jsFiles|, SkipJavaScriptFile, JavaScriptParser.JsHeader(jsPatterns), relPath)
  {
    allFunctions := [];
    for i := 0 to |jsFiles|
      invariant allFunctions == Harvest(jsFiles, i, SkipJavaScriptFile, JavaScriptParser.JsHeader(jsPatterns), relPath)
    {
      var functions := ScanJavaScriptFile(jsFiles[i], relPath, jsPatterns);
      allFunctions := allFunctions + functions;
    }
  }

  /** The loop over the listed Java files, extending the repository's records in order. */
  method ScanJavaFiles(javaFiles: seq<SourceFile>, relPath: string -> string, methodPattern: Header)
    returns (allFunctions: seq<FunctionInfo>)
    ensures allFunctions == Harvest(javaFiles, |javaFiles|, SkipJavaFile, methodPattern, relPath)
  {
    allFunctions := [];
    for i := 0 to |javaFiles|
      invariant allFunctions == Harvest(javaFiles, i, SkipJavaFile, methodPattern, relPath)
    {
      var functions := ScanJavaFile(javaFiles[i], relPath, methodPattern);
      allFunctions := allFunctions + functions;
    }
  }

  /**
   * Scans one repository. A remote locator whose clone fails, or a local
   * path that does not exist, yields no name and no records. Otherwise every
   * listed JavaScript file and then every listed Java file not skipped is
   * parsed (an unreadable file contributes nothing), record paths are
   * rewritten, and the name is derived from the locator.
   */
  method ScanSingleRepository(repoPath: string, cloneSucceeds: bool, pathExists: bool,
                              jsFiles: seq<SourceFile>, javaFiles: seq<SourceFile>, relPath: string -> string,
                              jsPatterns: seq<Header>, methodPattern: Header)
    returns (repoName: Option<string>, allFunctions: seq<FunctionInfo>)
    ensures repoName.None? <==> (if IsRemote(repoPath) then !cloneSucceeds else !pathExists)
    ensures repoName.None? ==> allFunctions == []
    ensures repoName.Some? ==> repoName.value == RepoName(repoPath)
    ensures repoName.Some? ==> allFunctions == RepositoryFunctions(jsFiles, javaFiles, relPath, jsPatterns, methodPattern)
  {
    if IsRemote(repoPath) {
      if !cloneSucceeds {
        return None, [];
      }
    } else if !pathExists {
      return None, [];
    }

    var jsFunctions := ScanJavaScriptFiles(jsFiles, relPath, jsPatterns);
    var javaFunctions := ScanJavaFiles(javaFiles, relPath, methodPattern);
    allFunctions := jsFunctions + javaFunctions;
    repoName := Some(RepoName(repoPath));
  }

  /**
   * Every record a repository scan reports spans two or more lines of a
   * listed, readable file that was not skipped, and carries that file's
   * rewritten path.
   */
  lemma {:induction false} HarvestWellFormed(files: seq<SourceFile>, n: nat, skip: string -> bool, header: Header,
                                             relPath: string -> string, r: FunctionInfo)
    requires n <= |files|
    requires r in Harvest(files, n, skip, header, relPath)
    ensures Spans(r)
    ensures exists i :: (0 <= i < n && !skip(files[i].path) && files[i].content.Some? &&
                         r.filePath == relPath(files[i].path) && r.endLine <= |files[i].content.value|)
  {
    if r in Harvest(files, n - 1, skip, header, relPath) {
      HarvestWellFormed(files, n - 1, skip, header, relPath, r);
    } else {
      ContributionWellFormed(files[n - 1], skip, header, relPath, r);
    }
  }

  /** A record one file contributes comes from that readable, non-skipped file. */
  lemma ContributionWellFormed(file: SourceFile, skip: string -> bool, header: Header, relPath: string -> string, r: FunctionInfo)
    requires r in Contribution(file, skip, header, relPath)
    ensures Spans(r) && !skip(file.path) && file.content.Some?
    ensures r.filePath == relPath(file.path) && r.endLine <= |file.content.value|
  {
    var scanned := Scan(file.content.value, file.path, header);
    var k :| 0 <= k < |scanned| && r == scanned[k].(filePath := relPath(scanned[k].filePath));
    ScanWellFormed(file.content.value, file.path, header);
    assert scanned[k] in scanned;
  }

  /** What `s.rstrip(c)` returns: `s` without its trailing run of `c`. */
  function RStrip(s: string, c: char): (r: string)
    ensures r <= s
    ensures r == [] || r[|r| - 1] != c
    ensures forall k :: |r| <= k < |s| ==> s[k] == c
  {
    if s != [] && s[|s| - 1] == c then RStrip(s[..|s| - 1], c) else s
  }

  /**
   * `s.replace(pat, rep)`: occurrences of `pat` found scanning left to
   * right, without overlap, are each replaced by `rep`.
   */
  function ReplaceAll(s: string, pat: string, rep: string): (r: string)
    requires |pat| > 0
    ensures |rep| <= |pat| ==> |r| <= |s|
    decreases |s|
  {
    if |s| < |pat| then s
    else if s[..|pat|] == pat then rep + ReplaceAll(s[|pat|..], pat, rep)
    else [s[0]] + ReplaceAll(s[1..], pat, rep)
  }

  /** A string in which the pattern does not occur is left unchanged. */
  lemma {:induction false} ReplaceAllWithoutOccurrence(s: string, pat: string, rep: string)
    requires |pat| > 0 && !Contains(s, pat)
    ensures ReplaceAll(s, pat, rep) == s
    decreases |s|
  {
    if |s| >= |pat| {
      assert !OccursAt(s, pat, 0);
      assert !Contains(s[1..], pat) by {
        if Contains(s[1..], pat) {
          var k :| 0 <= k <= |s[1..]| && OccursAt(s[1..], pat, k);
          assert s[k + 1..k + 1 + |pat|] == s[1..][k..k + |pat|];
          assert OccursAt(s, pat, k + 1);
        }
      }
      ReplaceAllWithoutOccurrence(s[1..], pat, rep);
      assert s == [s[0]] + s[1..];
    }
  }

  /**
   * `os.path.basename` on POSIX (`posixpath.basename`): what follows the
   * last `/`, all of `p` when it has none. The Windows variant also splits
   * at `\` and after a drive prefix; that variant is not modelled.
   */
  function Basename(p: string): (r: string)
    ensures forall k :: 0 <= k < |r| ==> r[k] != '/'
    ensures |r| <= |p| && r == p[|p| - |r|..]
    ensures |r| < |p| ==> p[|p| - |r| - 1] == '/'
  {
    if p == [] || p[|p| - 1] == '/' then []
    else Basename(p[..|p| - 1]) + [p[|p| - 1]]
  }

  /** The name used when the locator leaves no last path component. */
  const DefaultRepoName: string := "repository"

  lemma DefaultRepoNameHasNoSlash()
    ensures forall k :: 0 <= k < |DefaultRepoName| ==> DefaultRepoName[k] != '/'
  {
  }

  /**
   * The name of the repository's sheet: trailing slashes stripped, every
   * `.git` removed, the last path component, or `repository` when that is
   * empty. It is never empty and never contains `/`.
   */
  function RepoName(repoPath: string): (r: string)
    ensures r != []
    ensures forall k :: 0 <= k < |r| ==> r[k] != '/'
  {
    var name := Basename(ReplaceAll(RStrip(repoPath, '/'), ".git", ""));
    if |name| == 0 then
      DefaultRepoNameHasNoSlash();
      DefaultRepoName
    else name
  }

  /** Trailing slashes do not change the stripped locator. */
  lemma {:induction false} RStripIgnoresTrailing(s: string, t: string, c: char)
    requires forall k :: 0 <= k < |t| ==> t[k] == c
    ensures RStrip(s + t, c) == RStrip(s, c)
    decreases |t|
  {
    if t != [] {
      assert (s + t)[..|s + t| - 1] == s + t[..|t| - 1];
      RStripIgnoresTrailing(s, t[..|t| - 1], c);
    } else {
      assert s + t == s;
    }
  }

  /** A locator names the same repository with or without trailing slashes. */
  lemma RepoNameIgnoresTrailingSlashes(repoPath: string, slashes: string)
    requires forall k :: 0 <= k < |slashes| ==> slashes[k] == '/'
    ensures RepoName(repoPath + slashes) == RepoName(repoPath)
  {
    RStripIgnoresTrailing(repoPath, slashes, '/');
  }

  lemma ShortGitSuffixReplaced()
    ensures ReplaceAll("r.git", ".git", "") == "r"
  {
    assert "r.git"[1..] == ".git";
    assert ".git"[4..] == "";
    assert ReplaceAll(".git", ".git", "") == "";
  }

  lemma GitSuffixReplaced()
    ensures ReplaceAll("u/r.git", ".git", "") == "u/r"
  {
    ShortGitSuffixReplaced();
    assert "u/r.git"[1..] == "/r.git" && "/r.git"[1..] == "r.git";
    assert ReplaceAll("/r.git", ".git", "") == "/r";
  }

  /** A clone URL's `.git` suffix is dropped from the name. */
  lemma RepoNameDropsGitSuffix()
    ensures RepoName("u/r.git") == "r"
  {
    assert RStrip("u/r.git", '/') == "u/r.git";
    GitSuffixReplaced();
    assert "u/r"[..2] == "u/";
    assert Basename("u/") == "";
    assert Basename("u/r") == "r";
  }

  /**
   * Whenever stripping, removing `.git` and taking the last component leave
   * nothing, the locator is named `repository`.
   */
  lemma RepoNameDefaultsWhenNoComponent(repoPath: string)
    requires Basename(ReplaceAll(RStrip(repoPath, '/'), ".git", "")) == []
    ensures RepoName(repoPath) == DefaultRepoName
  {
  }

  /** A locator that is only slashes falls back to the default name. */
  lemma RepoNameDefaultsForRoot()
    ensures RepoName("/") == DefaultRepoName
  {
    assert RStrip("/", '/') == "";
    assert ReplaceAll("", ".git", "") == "";
    RepoNameDefaultsWhenNoComponent("/");
  }

  lemma GitDirectoryReplaced()
    ensures ReplaceAll("/.git", ".git", "") == "/"
  {
    assert "/.git"[1..] == ".git" && ".git"[4..] == "";
    assert ReplaceAll(".git", ".git", "") == "";
  }

  lemma InnerGitDirectoryReplaced()
    ensures ReplaceAll("r/.git", ".git", "") == "r/"
  {
    GitDirectoryReplaced();
    assert "r/.git"[1..] == "/.git";
  }

  /** A locator ending in a `.git` directory leaves an empty last component and falls back too. */
  lemma RepoNameDefaultsForGitDirectory()
    ensures RepoName("r/.git") == DefaultRepoName
  {
    assert RStrip("r/.git", '/') == "r/.git";
    InnerGitDirectoryReplaced();
    assert Basename("r/") == "";
    RepoNameDefaultsWhenNoComponent("r/.git");
  }

  lemma InnerGitReplaced()
    ensures ReplaceAll("a.github", ".git", "") == "ahub"
  {
    assert "a.github"[1..] == ".github" && ".github"[4..] == "hub";
    assert "hub"[1..] == "ub" && "ub"[1..] == "b" && "b"[1..] == "";
    assert ReplaceAll("hub", ".git", "") == "hub";
    assert ReplaceAll(".github", ".git", "") == "hub";
  }

  /** `.git` is removed wherever it occurs, not only as a suffix. */
  lemma RepoNameDropsInnerGit()
    ensures RepoName("a.github") == "ahub"
  {
    assert RStrip("a.github", '/') == "a.github";
    InnerGitReplaced();
    assert Basename("ahub") == "ahub";
  }

  /** Locators with a URL or scp-style prefix are cloned; paths are used in place. */
  lemma LocatorExamples()
    ensures IsRemote("https://h/r") && IsRemote("git@h:r")
    ensures !IsRemote("/p/r")
  {
    assert "/p/r"[0] == '/';
    assert "http://"[0] == 'h' && "https://"[0] == 'h' && "git@"[0] == 'g';
    assert "https://h/r"[..8] == "https://";
    assert "git@h:r"[..4] == "git@";
  }

  /** A path mentioning `.git` is skipped by both file rules. */
  lemma GitMetadataIsSkipped(path: string)
    requires Contains(path, ".git")
    ensures SkipJavaScriptFile(path) && SkipJavaFile(path)
  {
    assert ".git" in JavaSkipMarkers;
  }

  /** JavaScript files under a dependency cache are skipped. */
  lemma NodeModulesAreSkipped()
    ensures SkipJavaScriptFile("node_modules/a.js")
  {
    assert OccursAt("node_modules/a.js", "node_modules", 0);
  }

  /** A root directory whose name contains `out` hides every Java file under it. */
  lemma CheckoutsRootSkipsJava()
    ensures SkipJavaFile("/checkouts/A.java")
  {
    assert OccursAt("/checkouts/A.java", "out", 6);
    assert "out" in JavaSkipMarkers;
  }

  /** A root directory whose name contains `.git` hides every file under it. */
  lemma GitHubPagesRootSkipsAll()
    ensures SkipJavaScriptFile("/me.github.io/a.js") && SkipJavaFile("/me.github.io/A.java")
  {
    assert OccursAt("/me.github.io/a.js", ".git", 3);
    GitMetadataIsSkipped("/me.github.io/a.js");
    assert OccursAt("/me.github.io/A.java", ".git", 3);
    GitMetadataIsSkipped("/me.github.io/A.java");
  }

  /** The Java skip markers match anywhere in the path: a directory named `layout` hides its Java files. */
  lemma JavaSkipMatchesSubstrings()
    ensures SkipJavaFile("layout/A.java")
  {
    assert OccursAt("layout/A.java", "out", 3);
    assert "out" in JavaSkipMarkers;
  }
}
