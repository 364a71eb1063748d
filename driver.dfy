/**
 * The driver's decisions once flags are parsed, with all I/O abstracted: the
 * positional arguments choose between the usage error, a scan of standard
 * input and a scan of each named file; the pattern is compiled first; the
 * first file that cannot be opened or read ends the run with status 1.
 *
 * Parameters stand for the outside world: `compile(p)` loads the dictionary
 * and compiles pattern `p` (`None` when either fails), `stdin` is the standard
 * input stream, and `open(f)` opens file `f` (`None` when that fails).
 */
module Driver {
  import opened Wrappers
  import opened Seqs
  import opened Lines
  import opened Grep

  /** What the positional arguments ask for. */
  datatype Mode = Usage | FromStdin | FromFiles(files: seq<string>)

  function SelectMode(pos: seq<string>): (m: Mode)
    ensures m.Usage? <==> |pos| == 0
    ensures m.FromStdin? <==> |pos| == 1
    ensures m.FromFiles? ==> |pos| >= 2 && m.files == pos[1..]
  {
    if |pos| == 0 then Usage
    else if |pos| == 1 then FromStdin
    else FromFiles(pos[1..])
  }

  /** The exit status of a run and everything it wrote to the output sink. */
  datatype Outcome = Outcome(status: int, text: string)

  /** One scan of one stream: what it writes, and status 1 if reading failed. */
  function ScanStream(src: Stream, matches: string -> bool, opt: GrepOpt): (o: Outcome)
    ensures o.status == 0 <==> !src.failed
    ensures o.status == 0 || o.status == 1
    ensures Complete(o.text)
  {
    Outcome(if src.failed then 1 else 0, Output(SplitLines(src.text), matches, opt))
  }

  /** The file opens and reads to its end without error. */
  predicate Readable(open: string -> Option<Stream>, f: string)
  {
    open(f).Some? && !open(f).value.failed
  }

  /** The files scanned in order, each under its own name, stopping at the first failure. */
  function ScanFiles(files: seq<string>, open: string -> Option<Stream>,
                     matches: string -> bool, opt: GrepOpt): (o: Outcome)
    ensures o.status == 0 || o.status == 1
    ensures Complete(o.text)
  {
    if files == [] then Outcome(0, "") else
      match open(files[0])
      case None => Outcome(1, "")
      case Some(src) =>
        var r := ScanStream(src, matches, opt.(filename := files[0]));
        if r.status != 0 then r else
          var t := ScanFiles(files[1..], open, matches, opt);
          Outcome(t.status, r.text + t.text)
  }

  /** A whole run of the driver. */
  function Drive(pos: seq<string>, optN: bool, compile: string -> Option<string -> bool>,
                 stdin: Stream, open: string -> Option<Stream>): (o: Outcome)
    ensures o.status == 0 || o.status == 1
    ensures Complete(o.text)
    ensures |pos| == 0 ==> o == Outcome(1, "")
    ensures |pos| >= 1 && compile(pos[0]).None? ==> o == Outcome(1, "")
  {
    var mode := SelectMode(pos);
    if mode.Usage? then Outcome(1, "") else
      match compile(pos[0])
      case None => Outcome(1, "")
      case Some(matches) =>
        var opt := GrepOpt(optN, |pos| > 2, "");
        if mode.FromStdin? then ScanStream(stdin, matches, opt.(filename := "stdin"))
        else ScanFiles(mode.files, open, matches, opt)
  }

  /** What scanning file `f` writes, prefixed with `f` when `showName` holds. */
  function FileOutput(open: string -> Option<Stream>, matches: string -> bool,
                      optN: bool, showName: bool, f: string): (s: string)
  {
    match open(f)
    case None => ""
    case Some(src) => Output(SplitLines(src.text), matches, GrepOpt(optN, showName, f))
  }

  function FileOutputs(files: seq<string>, open: string -> Option<Stream>, matches: string -> bool,
                       optN: bool, showName: bool): (outs: seq<string>)
    ensures |outs| == |files|
  {
    seq(|files|, i requires 0 <= i < |files| => FileOutput(open, matches, optN, showName, files[i]))
  }

  /** The outputs of a list of files: the first file's, then those of the rest. */
  lemma FileOutputsCons(files: seq<string>, open: string -> Option<Stream>, matches: string -> bool,
                        optN: bool, showName: bool)
    requires files != []
    ensures var outs := FileOutputs(files, open, matches, optN, showName);
      outs[0] == FileOutput(open, matches, optN, showName, files[0]) &&
      outs[1..] == FileOutputs(files[1..], open, matches, optN, showName)
  {
  }

  /** A readable first file writes its hits, then the remaining files are scanned. */
  lemma ScanFilesReadableHead(files: seq<string>, open: string -> Option<Stream>,
                              matches: string -> bool, optN: bool, showName: bool)
    requires files != [] && Readable(open, files[0])
    ensures var t := ScanFiles(files[1..], open, matches, GrepOpt(optN, showName, ""));
      ScanFiles(files, open, matches, GrepOpt(optN, showName, "")) ==
      Outcome(t.status, FileOutput(open, matches, optN, showName, files[0]) + t.text)
  {
    assert GrepOpt(optN, showName, "").(filename := files[0]) == GrepOpt(optN, showName, files[0]);
  }

  /** A first file that cannot be opened or read ends the scan after its own output. */
  lemma ScanFilesFailingHead(files: seq<string>, open: string -> Option<Stream>,
                             matches: string -> bool, optN: bool, showName: bool)
    requires files != [] && !Readable(open, files[0])
    ensures ScanFiles(files, open, matches, GrepOpt(optN, showName, "")) ==
      Outcome(1, FileOutput(open, matches, optN, showName, files[0]))
  {
    assert GrepOpt(optN, showName, "").(filename := files[0]) == GrepOpt(optN, showName, files[0]);
  }

  /** When every file is readable, the run succeeds and writes each file's hits in turn. */
  lemma {:induction false} ScanFilesAllReadable(files: seq<string>, open: string -> Option<Stream>,
                                                matches: string -> bool, optN: bool, showName: bool)
    requires forall i :: 0 <= i < |files| ==> Readable(open, files[i])
    ensures ScanFiles(files, open, matches, GrepOpt(optN, showName, "")) ==
      Outcome(0, Flatten(FileOutputs(files, open, matches, optN, showName)))
  {
    if files != [] {
      ScanFilesReadableHead(files, open, matches, optN, showName);
      ScanFilesAllReadable(files[1..], open, matches, optN, showName);
      var outs := FileOutputs(files, open, matches, optN, showName);
      FileOutputsCons(files, open, matches, optN, showName);
      assert Flatten(outs) == outs[0] + Flatten(outs[1..]);
    }
  }

  /** The output of a readable first file comes before that of the files after it. */
  lemma ScanFilesPrepend(files: seq<string>, open: string -> Option<Stream>,
                         matches: string -> bool, optN: bool, showName: bool, i: nat, last: string)
    requires 0 < i < |files| && Readable(open, files[0])
    requires ScanFiles(files[1..], open, matches, GrepOpt(optN, showName, "")) ==
      Outcome(1, Flatten(FileOutputs(files[1..][..i - 1], open, matches, optN, showName)) + last)
    ensures ScanFiles(files, open, matches, GrepOpt(optN, showName, "")) ==
      Outcome(1, Flatten(FileOutputs(files[..i], open, matches, optN, showName)) + last)
  {
    var tail := files[1..];
    var outs := FileOutputs(files[..i], open, matches, optN, showName);
    var first := FileOutput(open, matches, optN, showName, files[0]);
    var rest := Flatten(FileOutputs(tail[..i - 1], open, matches, optN, showName));
    assert files[..i][1..] == tail[..i - 1];
    FileOutputsCons(files[..i], open, matches, optN, showName);
    assert Flatten(outs) == first + rest;
    ScanFilesReadableHead(files, open, matches, optN, showName);
    AppendAssoc(first, rest, last);
  }

  /**
   * The first file that cannot be opened or read ends the run with status 1;
   * the files before it have been scanned in full, and a file that opened
   * but failed while reading has written the hits it read before failing.
   */
  lemma {:induction false} ScanFilesFirstFailure(files: seq<string>, open: string -> Option<Stream>,
                                                 matches: string -> bool, optN: bool, showName: bool, i: nat)
    requires i < |files|
    requires forall j :: 0 <= j < i ==> Readable(open, files[j])
    requires !Readable(open, files[i])
    ensures ScanFiles(files, open, matches, GrepOpt(optN, showName, "")) ==
      Outcome(1, Flatten(FileOutputs(files[..i], open, matches, optN, showName)) +
                 FileOutput(open, matches, optN, showName, files[i]))
  {
    var last := FileOutput(open, matches, optN, showName, files[i]);
    if i == 0 {
      assert Flatten(FileOutputs(files[..0], open, matches, optN, showName)) + last == last;
      ScanFilesFailingHead(files, open, matches, optN, showName);
    } else {
      assert files[1..][i - 1] == files[i];
      ScanFilesFirstFailure(files[1..], open, matches, optN, showName, i - 1);
      ScanFilesPrepend(files, open, matches, optN, showName, i, last);
    }
  }

  /** The run over files succeeds exactly when every file is readable. */
  lemma {:induction false} ScanFilesStatus(files: seq<string>, open: string -> Option<Stream>,
                                           matches: string -> bool, opt: GrepOpt)
    ensures var r := ScanFiles(files, open, matches, opt);
      (r.status == 0 || r.status == 1) &&
      (r.status == 0 <==> forall i :: 0 <= i < |files| ==> Readable(open, files[i]))
  {
    if files != [] {
      ScanFilesStatus(files[1..], open, matches, opt);
      if forall i :: 0 <= i < |files[1..]| ==> Readable(open, files[1..][i]) {
        forall i | 0 <= i < |files| && Readable(open, files[0]) ensures Readable(open, files[i]) {
          if i > 0 { assert files[i] == files[1..][i - 1]; }
        }
      }
    }
  }

  /**
   * The exit status: 0 exactly when there is a pattern, it compiles, and the
   * stream or every named file is read to its end; 1 otherwise.
   */
  lemma DriveStatus(pos: seq<string>, optN: bool, compile: string -> Option<string -> bool>,
                    stdin: Stream, open: string -> Option<Stream>)
    ensures var r := Drive(pos, optN, compile, stdin, open);
      (r.status == 0 || r.status == 1) &&
      (r.status == 0 <==>
        |pos| >= 1 && compile(pos[0]).Some? &&
        (|pos| == 1 ==> !stdin.failed) &&
        (forall i :: 1 <= i < |pos| ==> Readable(open, pos[i])))
  {
    if |pos| >= 2 && compile(pos[0]).Some? {
      var files := pos[1..];
      ScanFilesStatus(files, open, compile(pos[0]).value, GrepOpt(optN, |pos| > 2, ""));
      assert forall i :: 1 <= i < |pos| ==> pos[i] == files[i - 1];
    }
  }

  /**
   * With one positional argument the standard input is scanned; its records
   * never carry a name, since the name prefix is only on with more than one
   * file, so the "stdin" label set for this case never shows.
   */
  lemma StdinNeverNamed(pos: seq<string>, optN: bool, compile: string -> Option<string -> bool>,
                        stdin: Stream, open: string -> Option<Stream>)
    requires |pos| == 1 && compile(pos[0]).Some?
    ensures Drive(pos, optN, compile, stdin, open) ==
      Outcome(if stdin.failed then 1 else 0,
              Output(SplitLines(stdin.text), compile(pos[0]).value, GrepOpt(optN, false, "")))
  {
    var hs := Hits(SplitLines(stdin.text), compile(pos[0]).value);
    assert RecordLines(GrepOpt(optN, false, "stdin"), hs) == RecordLines(GrepOpt(optN, false, ""), hs);
  }

  /**
   * With a pattern and readable files, the run writes every file's hits in
   * argument order; records carry the file name exactly when more than one
   * file is named.
   */
  lemma DriveFiles(pos: seq<string>, optN: bool, compile: string -> Option<string -> bool>,
                   stdin: Stream, open: string -> Option<Stream>)
    requires |pos| >= 2 && compile(pos[0]).Some?
    requires forall i :: 1 <= i < |pos| ==> Readable(open, pos[i])
    ensures Drive(pos, optN, compile, stdin, open) ==
      Outcome(0, Flatten(FileOutputs(pos[1..], open, compile(pos[0]).value, optN, |pos| > 2)))
  {
    var files := pos[1..];
    assert forall i :: 0 <= i < |files| ==> files[i] == pos[i + 1];
    ScanFilesAllReadable(files, open, compile(pos[0]).value, optN, |pos| > 2);
  }
}
