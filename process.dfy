/**
 * The program's mutable state and the operations that change it: the process
 * argument vector that argument expansion rewrites, and the swappable output
 * sink the scan writes to (standard output unless redirected).
 */
module Process {
  import opened Wrappers
  import opened Seqs
  import opened Lines
  import opened Grep
  import opened Expand
  import opened Driver

  /** A text sink that records everything written to it, in order. */
  class Writer {
    var written: string

    constructor ()
      ensures written == []
    {
      written := [];
    }
  }

  /** The package-level state: the argument vector and the output sink. */
  class Program {
    var args: seq<string>
    var out: Writer
    const stdout: Writer

    constructor (argv: seq<string>)
      ensures args == argv && out == stdout
      ensures fresh(stdout) && stdout.written == []
    {
      args := argv;
      var w := new Writer();
      stdout := w;
      out := w;
    }

    /**
     * Rewrites the argument vector in place: the program name is kept, then
     * each argument is globbed until `--` is met, and copied from there on.
     */
    method ExpandArgs(glob: string -> Option<seq<string>>)
      requires |args| >= 1
      modifies this`args
      ensures args == Expanded(glob, old(args))
    {
      var argv := args;
      var expanded := [argv[0]];
      var raw := false;
      for i := 1 to |argv|
        invariant raw <==> Separator in argv[1..i]
        invariant expanded == [argv[0]] + ExpandRest(glob, argv[1..i])
      {
        var arg := argv[i];
        if arg == Separator {
          raw := true;
        }
        var piece;
        if !raw {
          var matches := glob(arg);
          if matches.Some? && |matches.value| > 0 {
            piece := matches.value;
          } else {
            piece := [arg];
          }
        } else {
          piece := [arg];
        }
        assert argv[1..i + 1] == argv[1..i] + [arg];
        ExpandRestSnoc(glob, argv[1..i], arg);
        AppendAssoc([argv[0]], ExpandRest(glob, argv[1..i]), piece);
        expanded := expanded + piece;
      }
      assert argv[1..|argv|] == argv[1..];
      args := expanded;
    }

    /**
     * Scans `src` line by line, numbering lines from 1, and writes one record
     * per matching line to the current sink; reports whether reading failed.
     */
    method Grep(src: Stream, matches: string -> bool, opt: GrepOpt) returns (failed: bool)
      modifies out
      ensures out.written == old(out.written) + Output(SplitLines(src.text), matches, opt)
      ensures failed == src.failed
    {
      ghost var lines := SplitLines(src.text);
      ghost var done: seq<string> := [];
      var rest := src.text;
      var n: nat := 0;
      while rest != []
        invariant n == |done|
        invariant done + SplitLines(rest) == lines
        invariant out.written == old(out.written) + Output(done, matches, opt)
        decreases |rest|
      {
        ScanStep(lines, done, rest, matches, opt);
        var next := NextLine(rest);
        var line := next.0;
        rest := next.1;
        n := n + 1;
        if matches(line) {
          var record := RecordLine(opt, Hit(n, line)) + "\n";
          AppendAssoc(old(out.written), Output(done, matches, opt), record);
          out.written := out.written + record;
        }
        done := done + [line];
      }
      assert done == lines;
      failed := src.failed;
    }

    /**
     * The driver after flag parsing: `pos` are the positional arguments and
     * `optN` the line-number flag; see module Driver for the parameters that
     * stand for the dictionary, the pattern compiler, standard input and the
     * file system.
     */
    method Run(pos: seq<string>, optN: bool, compile: string -> Option<string -> bool>,
               stdin: Stream, open: string -> Option<Stream>) returns (status: int)
      modifies out
      ensures status == Drive(pos, optN, compile, stdin, open).status
      ensures out.written == old(out.written) + Drive(pos, optN, compile, stdin, open).text
    {
      if |pos| == 0 {
        return 1;
      }
      var re := compile(pos[0]);
      if re.None? {
        return 1;
      }
      var opt := GrepOpt(optN, |pos| > 2, "");
      if |pos| == 1 {
        opt := opt.(filename := "stdin");
        var failed := Grep(stdin, re.value, opt);
        if failed {
          return 1;
        }
        return 0;
      }
      var files := pos[1..];
      ghost var base := opt;
      ghost var total := ScanFiles(files, open, re.value, base);
      assert Drive(pos, optN, compile, stdin, open) == total;
      for i := 0 to |files|
        invariant opt.(filename := "") == base
        invariant total.status == ScanFiles(files[i..], open, re.value, base).status
        invariant old(out.written) + total.text ==
          out.written + ScanFiles(files[i..], open, re.value, base).text
      {
        ghost var before := out.written;
        ghost var here := ScanFiles(files[i..], open, re.value, base);
        ghost var output := FileOutput(open, re.value, optN, |pos| > 2, files[i]);
        var f := open(files[i]);
        if f.None? {
          assert here == Outcome(1, "") by {
            ScanFilesFailingHead(files[i..], open, re.value, optN, |pos| > 2);
          }
          return 1;
        }
        opt := opt.(filename := files[i]);
        var failed := Grep(f.value, re.value, opt);
        assert out.written == before + output;
        if failed {
          assert here == Outcome(1, output) by {
            ScanFilesFailingHead(files[i..], open, re.value, optN, |pos| > 2);
          }
          return 1;
        }
        ghost var next := ScanFiles(files[i + 1..], open, re.value, base);
        assert here == Outcome(next.status, output + next.text) by {
          assert files[i..][1..] == files[i + 1..];
          ScanFilesReadableHead(files[i..], open, re.value, optN, |pos| > 2);
        }
        AppendAssoc(before, output, next.text);
      }
      return 0;
    }
  }
}
