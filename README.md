# migemogrep — a Dafny model of its argument expansion and line search

migemogrep is a small grep: it compiles a search pattern into a regular
expression, then prints the lines of standard input, or of the named files,
that the expression matches, optionally prefixed with the file name and the
1-based line number. Before flags are parsed it expands every argument that
is a file-system glob into the files it matches, up to a `--` separator.

This project models, in Dafny:

- **argument expansion** (`expandArgs`): module `Expand` defines the expanded
  vector as a function of the old one; `Process.Program.ExpandArgs` is the
  loop with its `raw` flag that rewrites the program's argument vector in
  place, proved equal to that function;
- **the driver** (`_main` after flag parsing): module `Driver` chooses between
  the usage error, a scan of standard input and a scan of each named file,
  stops at the first file that cannot be opened or read, and computes the exit
  status; `Process.Program.Run` is the loop over the files, proved equal to it;
- **the line scan and its output format** (`grep`, as its tests fix it):
  module `Grep` defines the hits of a source and the text written for them
  (`[name ":"] [number ":"] line "\n"`); `Process.Program.Grep` is the
  line-by-line loop that appends records to the swappable output sink, proved
  to write exactly that text;
- **the tests** of the scan and of the expansion: module `GrepTests` writes
  each test scenario as a method over the model (redirect the sink to a
  buffer, scan, restore), and Dafny proves its postcondition: the buffer holds
  what the test expects.

Modules `Lines` (splitting text on `'\n'` and joining lines back), `Numbers`
(decimal rendering of line numbers), `Seqs` and `Wrappers` are supporting
definitions.

The outside world is passed in as parameters: `glob(p)` is the file system's
glob (`None` for a malformed pattern, else the matches in the order returned);
`compile(p)` loads the dictionary and compiles the pattern into a line
predicate (`None` when either fails); `stdin` is standard input and `open(f)`
opens file `f` (`None` when that fails). A `Stream` is the text a reader
delivers plus whether reading then ended in an error instead of a clean end.

## Model

| member | source | states |
|---|---|---|
| Expand.GlobOrKeep | main.go:31-35 | an argument becomes its glob matches when the glob is well-formed and matches at least one file, and stays itself (exactly one element) when the pattern is malformed or matches nothing |
| Expand.Step | main.go:30-38 | one argument's contribution: itself when the separator has been seen or its glob fails or matches nothing, else exactly the glob's matches; never empty |
| Expand.ExpandRest | main.go:26-39 | expansion never shortens the argument list |
| Expand.ExpandRestSnoc | main.go:26-39 | handling one more argument appends only that argument's contribution, and the raw flag it sees is set exactly when `--` occurred before it or is the argument itself |
| Expand.Expanded | main.go:24-40 | the new vector keeps the program name first and is at least as long as the old one |
| Expand.ProgramNameUnexamined | main.go:24 | the program name is copied and never globbed: changing it changes nothing after it |
| Expand.LiteralTail | main.go:36-38 | once `--` has been seen, every later argument is copied unchanged |
| Expand.SeparatorSwitch | main.go:27-29 | the flag is raised before `--` is itself handled, so `--` is kept literally and so is everything after it |
| Expand.GlobbedPrefix | main.go:30-35 | with no `--`, the expansion is the concatenation in argument order of each argument's glob result |
| Expand.PassThrough | main.go:33-34 | arguments whose globs all fail or match nothing pass through unchanged |
| Expand.ExpandedSplit | main.go:23-41 | the whole new vector is program name, then the glob results of the arguments before the first `--`, then `--` and everything after it verbatim |
| Process.Program.ExpandArgs | main.go:23-41 | the loop with its `raw` flag replaces the argument vector by exactly the expanded vector of the old one |
| Driver.SelectMode | main.go:58-104 | no positional argument means usage, exactly one means scan standard input, more means scan the files after the pattern |
| Driver.ScanStream | main.go:94-97 | one scan of one stream: status 1 exactly when reading failed, else 0; the text written always ends on a complete record |
| Driver.ScanFiles | main.go:104-117 | the file loop: each file opened in turn and scanned under its own name, stopping at the first that fails to open (status 1, nothing more written) or fails while read (status 1 after its records); status is always 0 or 1 and the text always ends on a complete record |
| Driver.Drive | main.go:49-120 | a whole run: no positional argument gives status 1 with nothing written; a pattern that does not compile gives status 1 with nothing written; one positional argument scans standard input under the name "stdin"; otherwise the file loop runs over the arguments after the pattern, with the name prefix on exactly when more than one file is named; status is always 0 or 1 |
| Driver.ScanFilesReadableHead | main.go:104-117 | a readable first file is scanned under its own name, its records written, and the remaining files scanned after it |
| Driver.ScanFilesFailingHead | main.go:105-116 | a first file that fails to open (nothing written) or fails while read (its hits so far written) ends the run with status 1 |
| Driver.ScanFilesAllReadable | main.go:104-119 | when every file is readable the run ends with status 0 having written each file's records, file after file in argument order |
| Driver.ScanFilesPrepend | main.go:104-117 | when the files after a readable first file first fail at file i, the first file's records go in front of that failing run's text and the status stays 1 |
| Driver.ScanFilesFirstFailure | main.go:104-117 | the first unreadable file ends the run with status 1; every file before it has been scanned in full and no file after it is opened |
| Driver.ScanFilesStatus | main.go:104-119 | the file loop returns 0 or 1, and 0 exactly when every file opens and reads to its end |
| Driver.DriveStatus | main.go:49-120 | the exit status is 0 or 1, and 0 exactly when there is a pattern, it compiles, and standard input or every named file is read without error |
| Driver.StdinNeverNamed | main.go:85-101 | with only the pattern, standard input is scanned and its records never carry a name: the file-name prefix is on only with two or more files, so the "stdin" label is never printed |
| Driver.DriveFiles | main.go:85-119 | with readable files, the run writes every file's records in argument order, each prefixed by its file name exactly when more than one file is named |
| Process.Program.Run | main.go:49-120 | the driver's checks and file loop return the status and append to the sink exactly the text of the modelled run |
| Process.Writer.constructor | grep_test.go:41 | a new buffer is empty |
| Process.Program.constructor | grep_test.go:42-45 | the program starts with the given arguments and with its sink set to an empty standard output |
| Grep.Hits | grep_test.go:89-120 | every hit is a matching line of the source, with its 1-based number; never more hits than lines |
| Grep.HitsComplete | grep_test.go:57-87 | every matching line is reported, under its own 1-based number |
| Grep.HitsOrdered | grep_test.go:89-120 | hits come in source order, with strictly increasing line numbers, each line at most once |
| Grep.Prefix | grep_test.go:150 | the record prefix is empty exactly when neither names nor numbers are shown |
| Grep.PrefixReadsBack | grep_test.go:150 | the prefix reads back: the name and ":" come first when names are shown, and when numbers are shown the digits between it and the final ":" denote the line number |
| Grep.RecordLine | grep_test.go:84 | a record ends with the matching line's text, unaltered |
| Grep.RecordLineSingle | grep_test.go:84 | a record holds a line break exactly when its line or its shown name does, so records of break-free lines and names are single lines |
| Grep.Output | grep_test.go:83-86 | everything one scan writes always ends on a complete record |
| Grep.OutputSnoc | grep_test.go:89-120 | scanning one more line appends that line's record, if it matches, after all earlier records; a non-matching line adds nothing |
| Grep.ScanStep | grep_test.go:89-120 | taking the next line off the unread text keeps read lines plus remaining lines equal to all lines, and numbers that line one past the lines read |
| Grep.OutputEmptyIff | grep_test.go:28-55 | a scan writes nothing if and only if no line matches |
| Grep.OutputLines | grep_test.go:83-86 | the output read back as lines is exactly one record per hit: the source terminator is dropped and one newline added per record |
| Process.Program.Grep | grep_test.go:104-119 | the scan loop appends to the current sink exactly the records of the source's hits and reports a read failure as an error |
| Lines.NextLine | grep_test.go:29-30 | the next line holds no line break and the text is that line, then its terminator, then the rest (or the line alone at the end) |
| Lines.SplitLines | grep_test.go:58-61 | no line of a split source contains a line break |
| Lines.JoinLines | grep_test.go:83-86 | the text of some lines, each followed by a terminator: empty exactly when there are no lines, and always ending on a complete line |
| Lines.SplitJoin | grep_test.go:58-61 | splitting the newline-terminated join of break-free lines gives back those lines |
| Lines.JoinSplit | grep_test.go:58-61 | joining a source's lines gives back the source, with a final terminator added when it had none |
| Lines.SplitBlankLine | grep_test.go:29-30 | a source holding one line break is one empty line |
| Lines.SplitHitSource | grep_test.go:58-61 | the hit test's source is an empty line, "foobar", "barbaz" |
| Lines.SplitNumberSource | grep_test.go:90-93 | the numbering tests' source is an empty line, "barbaz", "foobar" |
| Numbers.Decimal | grep_test.go:116 | a line number is rendered as a non-empty run of digits with no leading zero except for 0 itself |
| Numbers.DecimalRoundTrip | grep_test.go:116 | reading a rendered line number back gives the number |
| GrepTests.GrepIntoBuffer | grep_test.go:41-50 | a scan with the sink redirected to a fresh buffer leaves its records in the buffer and reports no error; afterwards the sink is standard output again, standard output has received nothing, and the argument vector is untouched |
| GrepTests.OneHit | grep_test.go:89-120 | a source whose only match is "foobar", at line 2 or 3, writes only that line's record |
| GrepTests.HitLinesOutput | grep_test.go:57-87 | the hit test's lines write only the record for line 2, "foobar" |
| GrepTests.HitSourceLines | grep_test.go:57-87 | the hit test's source writes what its three lines write |
| GrepTests.NumberLinesOutput | grep_test.go:89-120 | the numbering tests' lines write only the record for line 3, "foobar" |
| GrepTests.NumberSourceLines | grep_test.go:89-120 | the numbering tests' source writes what its three lines write |
| GrepTests.NumberSourceOutput | grep_test.go:89-120 | the numbering tests' source writes only the record for line 3, "foobar" |
| GrepTests.NumberScenario | grep_test.go:89-154 | with numbering on, the numbering tests' source writes the optional name prefix followed by "3:foobar\n" |
| GrepTests.TestEmpty | grep_test.go:28-55 | a single blank line writes nothing even with numbering on |
| GrepTests.TestHit | grep_test.go:57-87 | without options only "foobar\n" is written |
| GrepTests.TestNumber | grep_test.go:89-120 | with numbering the match on the third line is written as "3:foobar\n" |
| GrepTests.TestMultiple | grep_test.go:122-154 | with numbering and names the record is name, then ":3:foobar\n" |
| GrepTests.TestExpandArgs | grep_test.go:156-169 | a glob matching only "grep_test.go" turns ["foo", "*_test.go"] into ["foo", "grep_test.go"], and the saved vector is restored afterwards |

## Left out

- Flag parsing (main.go:15, 50-56): the driver takes the positional arguments and the value of `-n` directly; the usage text and `flag.PrintDefaults` output on standard error are not modelled, only the status 1.
- Dictionary loading and pattern compilation (main.go:63-83): folded into the `compile` parameter, which fails or yields a line predicate; the two failure sources are not told apart.
- Messages written to standard error on each failure (main.go:68, 74, 81, 95, 107, 114) and `os.Exit` in `main` (main.go:43-47): only the returned status and what reaches the output sink are modelled.
- `main` itself (main.go:43-47): it is expandArgs then `_main`, with flag parsing in between; the two halves are modelled separately because flag parsing is left out.
- The file system's glob (`filepath.Glob`) and `os.Open`: parameters `glob` and `open`; the order of glob matches is whatever `glob` returns.
- `defer f.Close()` (main.go:110): files are not modelled as resources, so the files staying open until `_main` returns is not captured.
- The `grep` function and the `out` sink are defined in grep.go, whose code is not modelled. grep_test.go fixes splitting on `'\n'`, numbering from 1 and one record per hit; its sources all end in `'\n'`, hold no `'\r'` and read without error. Three behaviours are therefore modelling choices for what the modelled files leave open: a carriage return stays part of the line (a reader built on Go's `bufio.Scanner` with `ScanLines` would drop a `'\r'` before `'\n'`, which this model does not); a last line without terminator is still scanned; a read error is modelled as `Stream.failed`, reported after all delivered text has been scanned.
- The temporary files of the tests (grep_test.go:11-26) and `regexp.MustCompile("^foo")`: the source text is passed directly and the pattern is the predicate `GrepTests.MatchesFoo`; the file name in TestMultiple is any name.
- Expand.Expanded: requires a non-empty argument vector, because the source reads `os.Args[0]` without a check and would panic on an empty one.
- Lines and records are Dafny strings of characters; byte-level encoding is not modelled.
