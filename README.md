# Function size calculator — a Dafny model

`function_size_calculator.py` looks for the largest functions in Node.js and
Java repositories. It walks the repository's `.js/.jsx/.ts/.tsx/.mjs` and
`.java` files and recognises function headers with regular expressions. It
finds where each body ends by counting `{` and `}` line by line. It then
writes one spreadsheet sheet per repository, listing the five largest
functions with their rank, name, path, start line, end line and size.

This project models that core in Dafny and proves properties about it:

- `function_info.dfy` (`FunctionRecords`) holds the `FunctionInfo` record.
- `brace_scanner.dfy` (`BraceScanner`) is the brace walk both parsers share.
  - The walk is a method, `TraceBody`, with its loop.
  - It is specified by `Running`, `FirstClose`, `EndLine`, `RecordAt` and `Emitted`.
  - `ClosesAt` is an independent declarative definition of where a body ends.
- `java_parser.dfy` (`JavaParser`) and `javascript_parser.dfy`
  (`JavaScriptParser`) are the two `parse_functions` loops.
  - Each is proved to return exactly `Scan` of the file.
  - A header regex is abstracted as a total function from a line to an optional captured name (`Header`).
  - The JavaScript parser takes an ordered list of such patterns; the first that matches wins.
- `scanner_examples.dfy` (`ScannerExamples`) holds worked instances: the test fixtures' methods, a nested function, and rejected headers.
- `ranking.dfy` (`Ranking`) holds the `sorted(..., key=size, reverse=True)[:5]` selection. A stable insertion sort is the reference definition.
- `excel_writer.dfy` (`ExcelWriter`) holds the sheet title sanitiser and the rows of each sheet.
- `repository.dfy` (`Repository`) covers one repository's scan:
  - remote/local classification and the path-skip rules;
  - per-file parsing and path rewriting;
  - the repository name.
- `input_list.dfy` (`InputList`) covers the repository list: the input-file filter (`strip`, blank lines, `#` comments) and the start-up checks of `main`.
- `wrappers.dfy` (`Wrappers`) holds `Option` and `Result`.

Two behaviours of the scan are worth knowing:

- A function whose braces balance on its header line (a one-line function) is not recorded. The condition at line 90 requires `end_line > i`, so every record spans at least two lines.
- Headers inside a function that is still open are tried too. The outer loop advances by one line after every header (line 100), so nested functions are recorded, the outer one first (see `NestedFunctionsAreBothRecorded`).

The number of functions reported per repository is the constant 5 (line 264).

## Model

| member | source | states |
|---|---|---|
| BraceScanner.DeltaCountsBraces | function_size_calculator.py:81 | a line's effect on the brace counter is its count of `{` minus its count of `}` |
| BraceScanner.FirstCloseIsFirst | function_size_calculator.py:85-88 | the walk stops at a line where the running balance is not positive, and the balance is positive at every line it passes before that |
| BraceScanner.EndLineIsClosingLine | function_size_calculator.py:80-90 | the accepted closing line of the header on line i is e exactly when e is a later line at which the balance is zero and it was positive at every line from i up to e |
| BraceScanner.TraceBody | function_size_calculator.py:81-88 | the inner while loop ends with the counter equal to the running balance at its last line; the walk is accepted (`brace_count == 0 and end_line > i`) exactly when a closing line exists, and then it ends there |
| BraceScanner.EmitAfterWalk | function_size_calculator.py:90-98 | after a header match and the walk, the record appended (start i+1, end end_line+1, size end_line-i+1) is exactly the one the specification assigns to that line, and nothing is appended when the walk is rejected |
| BraceScanner.ScanWellFormed | function_size_calculator.py:90-98 | every record of a file spans at least two lines, ends within the file, has size end-start+1 and carries the file's path |
| BraceScanner.ScanIncreasing | function_size_calculator.py:70-100 | records come out in strictly increasing start line, so no line yields two records |
| BraceScanner.ScanMembership | function_size_calculator.py:70-100 | a record is in a file's scan exactly when its start line is a line of the file whose header match and brace walk produce it (both directions) |
| BraceScanner.ScanSkipsBalancedOrLastHeader | function_size_calculator.py:90 | a header line that does not open more braces than it closes, or is the last line, never starts a record |
| BraceScanner.RecordsNestOrAreDisjoint | function_size_calculator.py:80-98 | two recorded functions are nested or disjoint: one whose header lies inside another closes strictly before it |
| JavaParser.ParseFunctions | function_size_calculator.py:126-156 | the Java loop (one pattern, brace walk per match) returns exactly the scan of the file |
| JavaScriptParser.FirstMatch | function_size_calculator.py:74-77 | a captured name is always the capture of one of the patterns on that line |
| JavaScriptParser.FirstMatchIsFirst | function_size_calculator.py:74-77 | when pattern p is the first that matches, the captured name is p's |
| JavaScriptParser.FirstMatchNone | function_size_calculator.py:74-76 | no name is captured exactly when no pattern matches the line |
| JavaScriptParser.ParseLine | function_size_calculator.py:72-99 | the pattern loop for one line yields exactly the record the first matching pattern and the brace walk give, and stops after the first match even when the walk is rejected |
| JavaScriptParser.ParseFunctions | function_size_calculator.py:70-102 | the JavaScript loop returns exactly the scan of the file under the first-match recogniser |
| ScannerExamples.LargeMethodIsRecorded | tests/fixtures/Sample.java:29-39 | with the brace counts of those fixture lines, `largeMethod` is recorded as lines 29-39, size 11 |
| ScannerExamples.TestMethodIsRecorded | tests/fixtures/SampleTest.java:7-10 | with the brace counts of those fixture lines, `testMethod` is recorded as lines 7-10, size 4 |
| ScannerExamples.NestedFunctionsAreBothRecorded | function_size_calculator.py:70-100 | in `a(){` `b(){` `}` `}` both functions are recorded, the outer one first, as (1,4,4) and (2,3,2) |
| ScannerExamples.BalancedHeaderYieldsNothing | function_size_calculator.py:90 | `f(){}` alone yields no record |
| ScannerExamples.UnclosedBodyYieldsNothing | function_size_calculator.py:85-90 | a body still open at end of file yields no record |
| ScannerExamples.OverClosedBodyYieldsNothing | function_size_calculator.py:85-90 | a body whose balance drops below zero yields no record |
| ScannerExamples.FirstPatternNamesTheFunction | function_size_calculator.py:74-77 | when two patterns match a header, the name comes from the earlier one |
| Ranking.SortBySizeCorrect | function_size_calculator.py:264 | the sort by size is descending, a permutation of its input, and stable (records of each size keep their input order) |
| Ranking.TopFunctions | function_size_calculator.py:264 | the selection has min(5, n) records |
| Ranking.TopFunctionsSelects | function_size_calculator.py:264 | the top selection has min(5, n) records, in descending size, all drawn from the input (as a multiset) |
| Ranking.TopFunctionsStable | function_size_calculator.py:264 | among equal sizes the kept records are the first ones of that size in discovery order |
| Ranking.TopFunctionsOmitsSmaller | function_size_calculator.py:264 | every record left out is no larger than any record kept |
| Ranking.TopFunctionsExample | tests/test_function_size_calculator.py:246-252 | sizes 10, 20, 15, 5, 8, 12 give the records of sizes 20, 15, 12, 10, 8 in that order |
| ExcelWriter.ReplaceChar | function_size_calculator.py:246 | replacing a character keeps the length and changes exactly its occurrences |
| ExcelWriter.SheetName | function_size_calculator.py:246-248 | the title holds no `/` or `\`, has length min(31, n), and is position by position the name with separators turned into `_` |
| ExcelWriter.ShortPlainNameIsKept | function_size_calculator.py:246-248 | a name of at most 31 characters without separators is its own title |
| ExcelWriter.SheetNameExample | function_size_calculator.py:246 | `a/b\c` becomes `a_b_c` |
| ExcelWriter.WriteResults | function_size_calculator.py:244-275 | one sheet per repository in order, each with the sanitised title, the six-column header and one row per top function with rank k+1 |
| ExcelWriter.SheetRowCount | function_size_calculator.py:264-267 | a sheet has min(5, n) data rows |
| ExcelWriter.SheetRanks | function_size_calculator.py:267-269 | the ranks run 1, 2, … in row order |
| ExcelWriter.SheetSizesDescend | function_size_calculator.py:264-275 | sizes never increase down the sheet |
| ExcelWriter.SheetRowsReportFunctions | function_size_calculator.py:267-275 | every row holds the name, path, start, end and size of one of the repository's functions |
| Repository.LocatorExamples | function_size_calculator.py:168 | `https://` and `git@` locators are remote, a path is local |
| Repository.GitMetadataIsSkipped | function_size_calculator.py:199 | a path containing `.git` is skipped by both the JavaScript rule (:199) and the Java rule (:211) |
| Repository.NodeModulesAreSkipped | function_size_calculator.py:199 | a JavaScript file under `node_modules` is skipped |
| Repository.JavaSkipMatchesSubstrings | function_size_calculator.py:211 | the skip markers match as substrings anywhere in the path (`layout/A.java` is skipped) |
| Repository.CheckoutsRootSkipsJava | function_size_calculator.py:211 | a Java file under the root `/checkouts` is skipped, because the root contains `out` |
| Repository.GitHubPagesRootSkipsAll | function_size_calculator.py:199 | under the root `/me.github.io` both a JavaScript file (:199) and a Java file (:211) are skipped |
| Repository.RelocateAll | function_size_calculator.py:204-205 | every record's path is rewritten by the relative-path function and nothing else changes |
| Repository.ScanJavaScriptFile | function_size_calculator.py:199-206 | a skipped or unreadable file contributes nothing, otherwise its parse with rewritten paths |
| Repository.ScanJavaFile | function_size_calculator.py:211-218 | a skipped or unreadable Java file contributes nothing, otherwise its parse with rewritten paths |
| Repository.ScanJavaScriptFiles | function_size_calculator.py:196-206 | the records of all listed JavaScript/TypeScript files, concatenated in listing order |
| Repository.ScanJavaFiles | function_size_calculator.py:209-218 | the records of all listed Java files, concatenated in listing order |
| Repository.ScanSingleRepository | function_size_calculator.py:165-225 | no name and no records exactly when the clone fails (remote) or the path is missing (local); otherwise the JavaScript records then the Java records, and the derived name |
| Repository.HarvestWellFormed | function_size_calculator.py:192-218 | every reported record spans at least two lines of a listed, readable, non-skipped file and carries that file's rewritten path |
| Repository.RStrip | function_size_calculator.py:221 | `rstrip` returns a prefix that does not end in the character, and only that character was removed |
| Repository.ReplaceAllWithoutOccurrence | function_size_calculator.py:221 | a locator without `.git` is left unchanged by the replacement |
| Repository.Basename | function_size_calculator.py:221 | the base name is a suffix without `/`, preceded by `/` when shorter than the path |
| Repository.RepoName | function_size_calculator.py:221-223 | the repository name is never empty and never contains `/` |
| Repository.RepoNameIgnoresTrailingSlashes | function_size_calculator.py:221 | trailing slashes do not change the name |
| Repository.RepoNameDropsGitSuffix | function_size_calculator.py:221 | `u/r.git` is named `r` |
| Repository.RepoNameDropsInnerGit | function_size_calculator.py:221 | `.git` is removed wherever it occurs: `a.github` is named `ahub` |
| Repository.RepoNameDefaultsWhenNoComponent | function_size_calculator.py:221-223 | whenever stripping, removing `.git` and taking the base name leave nothing, the name is `repository` |
| Repository.RepoNameDefaultsForRoot | function_size_calculator.py:222-223 | the locator `/` is named `repository` |
| Repository.RepoNameDefaultsForGitDirectory | function_size_calculator.py:221-223 | the locator `r/.git` leaves an empty base name and is named `repository` |
| InputList.Strip | function_size_calculator.py:329 | the stripped line neither starts nor ends with whitespace |
| InputList.StripRemovesOnlySpace | function_size_calculator.py:329 | strip removes only whitespace, from both ends, and keeps the middle intact |
| InputList.AppendInputFile | function_size_calculator.py:328-332 | the loop appends exactly the kept, stripped lines in file order |
| InputList.KeptLinesConcat | function_size_calculator.py:328-332 | the filter works line by line: filtering a concatenation concatenates the filtered parts |
| InputList.KeptLinesMembership | function_size_calculator.py:328-332 | an entry is kept exactly when some line strips to it and is neither blank nor a comment |
| InputList.KeptEntriesAreClean | function_size_calculator.py:329-332 | every kept entry is non-empty, does not start with `#`, and has no surrounding whitespace |
| InputList.DropsBlankAndCommentLines | function_size_calculator.py:331 | a blank or comment line contributes nothing |
| InputList.KeptLinesExample | tests/test_function_size_calculator.py:386-406 | a locator, a comment, a blank line and a padded locator give the two locators |
| InputList.Repositories | function_size_calculator.py:317-343 | each start-up error occurs exactly in its case (jobs below 1; unreadable input file; empty list); otherwise the list starts with the arguments, holds every kept input-file line, and holds nothing else |

## Left out

- Regular expressions are not modelled. Each header pattern is an arbitrary `string -> Option<string>`, so every proof about the scan holds for any patterns. Which lines the concrete patterns of lines 61-67 and 124 match is not captured.
- The fixture lemmas (`LargeMethodIsRecorded`, `TestMethodIsRecorded`, `NestedFunctionsAreBothRecorded`, `FirstPatternNamesTheFunction`) take each line's brace balance and header match as hypotheses instead of the literal fixture text.
- File reading and `split('\n')` are not modelled. A file arrives as its lines, or as `None` when it cannot be read (that file contributes nothing). The warning print is left out.
- Cloning, the temporary directory and its removal, `os.path.exists`, `Path.rglob` and `os.path.relpath` are outside the model. Their outcomes are parameters of `ScanSingleRepository`: a clone-success flag, an existence flag, the listed files in order, and a path-rewriting function. An exception other than a failed clone is not modelled.
- A listed file's path is the full path with the repository root in front (`str(file_path)` at lines 199 and 211). The skip rules match substrings of that whole path, so the root matters. Under a root such as `/checkouts`, every Java file is skipped, because the root contains `out` (`Repository.CheckoutsRootSkipsJava`). Under a root such as `/me.github.io`, every file is skipped, because the root contains `.git` (`Repository.GitHubPagesRootSkipsAll`).
- `Repository.Basename`: models the POSIX `os.path.basename` only. On Windows, `os.path.basename` also splits at `\` and after a drive prefix, so the local locator `C:\work\repo` would be named `repo` there. The model names it `C:\work\repo`, and its sheet title is `C:_work_repo`.
- The parallel executor in `main` (lines 348-372) is not modelled. This covers completion order and the `repo_results` dictionary, where a later repository with the same name overwrites an earlier one. `WriteResults` takes the repositories as an ordered sequence.
- The console summary at line 365 is not modelled separately. It uses the same selection as the sheet, `Ranking.TopFunctions`.
- The workbook library is not modelled: cell styles, column widths and saving the file. Neither of its behaviours on titles is modelled:
  - It renames a sheet whose title repeats an earlier one (ignoring case) by appending a number.
  - It rejects a title containing `*`, `?`, `:`, `[` or `]`. The sanitiser at line 246 replaces only `/` and `\`, so those characters reach `create_sheet` (line 250). For example, a cloned `git@host:repo.git` is named `git@host:repo`, and `write_results` then fails before any file is written.
  `ExcelWriter.SheetName` models only the sanitiser itself.
- Argument parsing, help output and process exit are not modelled. `InputList.Repositories` returns the error that makes `main` exit.
- `Repository.ReplaceAll`: its own contract only bounds the length. Its meaning is fixed by `ReplaceAllWithoutOccurrence` and the `.git` examples, not by a general characterisation of every replaced occurrence.
- `Repository.Relocated`: its own contract states only the length. `RelocateAll` states the contents element by element.
- `InputList.Repositories`: it states that the list starts with the arguments, holds every kept input-file line, and holds nothing else. It does not state the order or multiplicity of the kept lines after the arguments, because that would repeat its body.
- The scanning code's per-line pattern loop and per-file loop body are factored into the methods `JavaScriptParser.ParseLine`, `Repository.ScanJavaScriptFile` and `Repository.ScanJavaFile`. The behaviour and order are unchanged.
- The `FunctionInfo.__repr__` text is not modelled.
