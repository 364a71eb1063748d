/**
 * The line scan and its output format, as the tests of the search pin them
 * down: the source is split into lines, lines are numbered from 1, every line
 * the matcher accepts is a hit, and every hit becomes one output record
 * `[name ":"] [number ":"] line "\n"`.
 */
module Grep {
  import opened Lines
  import opened Numbers

  /** The scan's options: line numbers, file-name prefix, and that name. */
  datatype GrepOpt = GrepOpt(optNumber: bool, optFilename: bool, filename: string)

  /**
   * A text source as the scan sees it: the characters the reader delivered,
   * and whether reading then failed instead of reaching a clean end.
   */
  datatype Stream = Stream(text: string, failed: bool)

  /** A matching line with its 1-based number in its source. */
  datatype Hit = Hit(number: nat, text: string)

  /** The hits among `lines`, in source order, for the line predicate `matches`. */
  function Hits(lines: seq<string>, matches: string -> bool): (hs: seq<Hit>)
    ensures |hs| <= |lines|
    ensures forall h :: h in hs ==>
      1 <= h.number <= |lines| && lines[h.number - 1] == h.text && matches(h.text)
  {
    if lines == [] then [] else
      var k := |lines| - 1;
      Hits(lines[..k], matches) + (if matches(lines[k]) then [Hit(|lines|, lines[k])] else [])
  }

  /** Every matching line is reported, under its own number. */
  lemma {:induction false} HitsComplete(lines: seq<string>, matches: string -> bool, i: nat)
    requires i < |lines| && matches(lines[i])
    ensures Hit(i + 1, lines[i]) in Hits(lines, matches)
  {
    var k := |lines| - 1;
    if i < k {
      HitsComplete(lines[..k], matches, i);
    }
  }

  /** Line numbers strictly increase along `hs`. */
  predicate InSourceOrder(hs: seq<Hit>)
  {
    forall i, j :: 0 <= i < j < |hs| ==> hs[i].number < hs[j].number
  }

  /** Hits come out in source order, each line at most once. */
  lemma {:induction false} HitsOrdered(lines: seq<string>, matches: string -> bool)
    ensures InSourceOrder(Hits(lines, matches))
  {
    if lines != [] {
      var k := |lines| - 1;
      var front := Hits(lines[..k], matches);
      HitsOrdered(lines[..k], matches);
      var hs := Hits(lines, matches);
      assert hs == front + (if matches(lines[k]) then [Hit(|lines|, lines[k])] else []);
      assert forall h :: h in front ==> h.number <= k;
      forall i, j | 0 <= i < j < |hs| ensures hs[i].number < hs[j].number {
        if j >= |front| {
          assert hs[j].number == |lines|;
          assert hs[i] == front[i] && front[i] in front;
        } else {
          assert hs[i] == front[i] && hs[j] == front[j];
          assert front[i].number < front[j].number;
        }
      }
    }
  }

  /** The prefix of the record for line `n`: the name first, then the number. */
  function Prefix(opt: GrepOpt, n: nat): (s: string)
    ensures s == [] <==> !opt.optFilename && !opt.optNumber
  {
    (if opt.optFilename then opt.filename + ":" else "") +
    (if opt.optNumber then Decimal(n) + ":" else "")
  }

  /**
   * The prefix reads back: the name and a colon come first when names are
   * shown, and when numbers are shown the digits before the final colon
   * denote the line number.
   */
  lemma PrefixReadsBack(opt: GrepOpt, n: nat)
    ensures var s := Prefix(opt, n);
      var k := if opt.optFilename then |opt.filename| + 1 else 0;
      k <= |s| && (opt.optFilename ==> s[..k] == opt.filename + ":") &&
      (opt.optNumber ==>
        (k < |s| && s[|s| - 1] == ':' &&
         var d := s[k..|s| - 1];
         (forall i :: 0 <= i < |d| ==> IsDigit(d[i])) && DecimalValue(d) == n))
  {
    var name := if opt.optFilename then opt.filename + ":" else "";
    var number := if opt.optNumber then Decimal(n) + ":" else "";
    var s := name + number;
    assert s[..|name|] == name;
    if opt.optNumber {
      assert s[|name|..|s| - 1] == Decimal(n);
      DecimalRoundTrip(n);
    }
  }

  /** The text of the record for one hit, without its terminator. */
  function RecordLine(opt: GrepOpt, h: Hit): (s: string)
    ensures |s| >= |h.text| && s[|s| - |h.text|..] == h.text
  {
    Prefix(opt, h.number) + h.text
  }

  function RecordLines(opt: GrepOpt, hs: seq<Hit>): (rs: seq<string>)
    ensures |rs| == |hs|
  {
    seq(|hs|, i requires 0 <= i < |hs| => RecordLine(opt, hs[i]))
  }

  /** A record is a single line exactly when its text and the name it shows hold no terminator. */
  lemma RecordLineSingle(opt: GrepOpt, h: Hit)
    ensures '\n' in RecordLine(opt, h) <==> '\n' in h.text || (opt.optFilename && '\n' in opt.filename)
  {
    var name := if opt.optFilename then opt.filename + ":" else "";
    var number := if opt.optNumber then Decimal(h.number) + ":" else "";
    assert RecordLine(opt, h) == name + number + h.text;
    assert '\n' !in number;
  }

  /** Everything one scan of `lines` writes to the output sink. */
  function Output(lines: seq<string>, matches: string -> bool, opt: GrepOpt): (s: string)
    ensures Complete(s)
  {
    JoinLines(RecordLines(opt, Hits(lines, matches)))
  }

  /** One more line scanned adds its record, if it is a hit, after all earlier ones. */
  lemma OutputSnoc(lines: seq<string>, l: string, matches: string -> bool, opt: GrepOpt)
    ensures Output(lines + [l], matches, opt) ==
      Output(lines, matches, opt) +
      (if matches(l) then RecordLine(opt, Hit(|lines| + 1, l)) + "\n" else "")
  {
    assert (lines + [l])[..|lines|] == lines;
    var hs := Hits(lines, matches);
    if matches(l) {
      var h := Hit(|lines| + 1, l);
      assert RecordLines(opt, hs + [h]) == RecordLines(opt, hs) + [RecordLine(opt, h)];
      JoinLinesSnoc(RecordLines(opt, hs), RecordLine(opt, h));
    } else {
      assert Hits(lines + [l], matches) == hs;
    }
  }

  /**
   * One step of the line loop: taking the next line off the unread text
   * keeps "read lines, then the lines of the unread text" equal to all lines,
   * and extends the output by that line's record if it is a hit.
   */
  lemma ScanStep(lines: seq<string>, done: seq<string>, rest: string, matches: string -> bool, opt: GrepOpt)
    requires rest != [] && done + SplitLines(rest) == lines
    ensures var next := NextLine(rest);
      (done + [next.0]) + SplitLines(next.1) == lines &&
      Output(done + [next.0], matches, opt) == Output(done, matches, opt) +
        (if matches(next.0) then RecordLine(opt, Hit(|done| + 1, next.0)) + "\n" else "")
  {
    var next := NextLine(rest);
    assert SplitLines(rest) == [next.0] + SplitLines(next.1);
    assert (done + [next.0]) + SplitLines(next.1) == done + ([next.0] + SplitLines(next.1));
    OutputSnoc(done, next.0, matches, opt);
  }

  /** A scan writes nothing exactly when no line matches. */
  lemma OutputEmptyIff(lines: seq<string>, matches: string -> bool, opt: GrepOpt)
    ensures Output(lines, matches, opt) == "" <==>
      forall i :: 0 <= i < |lines| ==> !matches(lines[i])
  {
    var hs := Hits(lines, matches);
    if hs != [] {
      assert hs[0] in hs;
      assert !matches(lines[hs[0].number - 1]) ==> false;
    }
    if exists i :: 0 <= i < |lines| && matches(lines[i]) {
      var i :| 0 <= i < |lines| && matches(lines[i]);
      HitsComplete(lines, matches, i);
    }
  }

  /**
   * The output, read back as lines, is exactly one record per hit: the source
   * terminator is not part of a record, and the scan adds exactly one.
   */
  lemma OutputLines(lines: seq<string>, matches: string -> bool, opt: GrepOpt)
    requires forall i :: 0 <= i < |lines| ==> '\n' !in lines[i]
    requires opt.optFilename ==> '\n' !in opt.filename
    ensures SplitLines(Output(lines, matches, opt)) == RecordLines(opt, Hits(lines, matches))
  {
    var hs := Hits(lines, matches);
    var rs := RecordLines(opt, hs);
    forall i | 0 <= i < |rs| ensures '\n' !in rs[i] {
      assert hs[i] in hs;
      RecordLineSingle(opt, hs[i]);
    }
    SplitJoin(rs);
  }
}
