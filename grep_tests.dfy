/**
 * The scenarios the search's tests exercise, each written as a method over
 * the model whose postcondition is what the test checks: the output sink is
 * redirected to a fresh buffer, the scan runs, the sink is restored, and the
 * buffer holds what the test expects. The tests' pattern `^foo` is the line
 * predicate `MatchesFoo`.
 */
module GrepTests {
  import opened Wrappers
  import opened Lines
  import opened Grep
  import opened Expand
  import opened Process

  /** The compiled pattern `^foo`: the line starts with "foo". */
  predicate MatchesFoo(line: string)
  {
    |line| >= 3 && line[..3] == "foo"
  }

  /**
   * Scans `text` with `p`'s sink redirected to a fresh buffer, then restores
   * the sink: the buffer's content is returned, the sink is standard output
   * again, and nothing reached standard output.
   */
  method GrepIntoBuffer(p: Program, text: string, opt: GrepOpt) returns (written: string, failed: bool)
    requires p.out == p.stdout
    modifies p
    ensures written == Output(SplitLines(text), MatchesFoo, opt) && !failed
    ensures p.out == p.stdout && p.stdout.written == old(p.stdout.written)
    ensures p.args == old(p.args)
  {
    var buf := new Writer();
    var saved := p.out;
    p.out := buf;
    failed := p.Grep(Stream(text, false), MatchesFoo, opt);
    p.out := saved;
    written := buf.written;
  }

  /** The tests' sources hold one hit, "foobar", at line 2 or 3. */
  lemma {:induction false} OneHit(before: seq<string>, other: string, opt: GrepOpt)
    requires before == [""] + [other] || before == [""]
    requires !MatchesFoo(other)
    ensures Output(before + ["foobar"], MatchesFoo, opt) ==
      RecordLine(opt, Hit(|before| + 1, "foobar")) + "\n"
  {
    assert MatchesFoo("foobar") by { assert "foobar"[..3] == "foo"; }
    assert Output([], MatchesFoo, opt) == "";
    OutputSnoc([], "", MatchesFoo, opt);
    assert [] + [""] == [""];
    if before != [""] {
      OutputSnoc([""], other, MatchesFoo, opt);
    }
    assert Output(before, MatchesFoo, opt) == "";
    OutputSnoc(before, "foobar", MatchesFoo, opt);
  }

  /** The lines of the hit test's source: one hit, at line 2. */
  lemma HitLinesOutput(opt: GrepOpt)
    ensures Output(["", "foobar", "barbaz"], MatchesFoo, opt) == Prefix(opt, 2) + "foobar\n"
  {
    var lines := ["", "foobar", "barbaz"];
    OneHit([""], "", opt);
    assert [""] + ["foobar"] == lines[..2];
    assert !MatchesFoo("barbaz") by { assert "barbaz"[..3] == "bar"; }
    OutputSnoc(lines[..2], "barbaz", MatchesFoo, opt);
    assert lines[..2] + ["barbaz"] == lines;
  }

  /** The lines of the numbering tests' source: one hit, at line 3. */
  lemma NumberLinesOutput(opt: GrepOpt)
    ensures Output(["", "barbaz", "foobar"], MatchesFoo, opt) == Prefix(opt, 3) + "foobar\n"
  {
    assert !MatchesFoo("barbaz") by { assert "barbaz"[..3] == "bar"; }
    OneHit([""] + ["barbaz"], "barbaz", opt);
    assert [""] + ["barbaz"] + ["foobar"] == ["", "barbaz", "foobar"];
  }

  lemma HitSourceLines(opt: GrepOpt)
    ensures Output(SplitLines("\nfoobar\nbarbaz\n"), MatchesFoo, opt) ==
      Output(["", "foobar", "barbaz"], MatchesFoo, opt)
  {
    SplitHitSource();
  }

  lemma NumberSourceLines(opt: GrepOpt)
    ensures Output(SplitLines("\nbarbaz\nfoobar\n"), MatchesFoo, opt) ==
      Output(["", "barbaz", "foobar"], MatchesFoo, opt)
  {
    SplitNumberSource();
  }

  /** What the scan of the numbering tests' source writes: one record, for line 3. */
  lemma NumberSourceOutput(opt: GrepOpt)
    ensures Output(SplitLines("\nbarbaz\nfoobar\n"), MatchesFoo, opt) == Prefix(opt, 3) + "foobar\n"
  {
    NumberSourceLines(opt);
    NumberLinesOutput(opt);
  }

  /** Line 3's prefix: the name if shown, then "3:". */
  lemma NumberPrefix(opt: GrepOpt)
    requires opt.optNumber
    ensures Prefix(opt, 3) == (if opt.optFilename then opt.filename + ":" else "") + "3:"
  {
    assert Numbers.Decimal(3) == "3";
  }

  /** With numbering on, the numbering tests' source writes "3:foobar\n", after the name if shown. */
  lemma NumberScenario(opt: GrepOpt)
    requires opt.optNumber
    ensures Output(SplitLines("\nbarbaz\nfoobar\n"), MatchesFoo, opt) ==
      (if opt.optFilename then opt.filename + ":" else "") + "3:foobar\n"
  {
    NumberSourceOutput(opt);
    NumberPrefix(opt);
    var name := if opt.optFilename then opt.filename + ":" else "";
    Seqs.AppendAssoc(name, "3:", "foobar\n");
    ThreeFoobar();
  }

  /** Proof steps: the expected records written as single literals. */
  lemma ThreeFoobar()
    ensures "3:" + "foobar\n" == "3:foobar\n"
  {
  }

  lemma NamedRecord(name: string)
    ensures name + ":" + "3:foobar\n" == name + ":3:foobar\n"
  {
    Seqs.AppendAssoc(name, ":", "3:foobar\n");
    assert ":" + "3:foobar\n" == ":3:foobar\n";
  }

  /** A source holding one blank line writes nothing, even with numbering on. */
  method TestEmpty() returns (written: string, console: string, failed: bool)
    ensures written == "" && console == "" && !failed
  {
    var opt := GrepOpt(true, false, "");
    var p := new Program(["migemogrep.test"]);
    written, failed := GrepIntoBuffer(p, "\n", opt);
    console := p.stdout.written;
    SplitBlankLine();
    OutputEmptyIff([""], MatchesFoo, opt);
  }

  /** Without options only the matching line is written, with one terminator. */
  method TestHit() returns (written: string, console: string, failed: bool)
    ensures written == "foobar\n" && console == "" && !failed
  {
    var opt := GrepOpt(false, false, "");
    var p := new Program(["migemogrep.test"]);
    written, failed := GrepIntoBuffer(p, "\nfoobar\nbarbaz\n", opt);
    console := p.stdout.written;
    HitSourceLines(opt);
    HitLinesOutput(opt);
  }

  /** Line numbers count every line from 1, the leading blank one included. */
  method TestNumber() returns (written: string, console: string, failed: bool)
    ensures written == "3:foobar\n" && console == "" && !failed
  {
    var opt := GrepOpt(true, false, "");
    var p := new Program(["migemogrep.test"]);
    written, failed := GrepIntoBuffer(p, "\nbarbaz\nfoobar\n", opt);
    console := p.stdout.written;
    NumberScenario(opt);
  }

  /** With both options the record reads name, number, line, in that order. */
  method TestMultiple(name: string) returns (written: string, console: string, failed: bool)
    ensures written == name + ":3:foobar\n" && console == "" && !failed
  {
    var opt := GrepOpt(true, true, name);
    var p := new Program(["migemogrep.test"]);
    written, failed := GrepIntoBuffer(p, "\nbarbaz\nfoobar\n", opt);
    console := p.stdout.written;
    NumberScenario(opt);
    NamedRecord(name);
  }

  /**
   * A glob that matches one test file replaces the pattern by that file; the
   * argument vector is restored afterwards.
   */
  method TestExpandArgs(argv: seq<string>, glob: string -> Option<seq<string>>)
    returns (expanded: seq<string>, restored: seq<string>)
    requires glob("*_test.go") == Some(["grep_test.go"])
    ensures expanded == ["foo", "grep_test.go"] && restored == argv
  {
    var p := new Program(argv);
    var saved := p.args;
    p.args := ["foo", "*_test.go"];
    p.ExpandArgs(glob);
    expanded := p.args;
    p.args := saved;
    restored := p.args;
    assert ["foo", "*_test.go"][1..] == ["*_test.go"];
    assert ["*_test.go"][..0] == [];
  }
}
