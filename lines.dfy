/**
 * Splitting a text source into lines, the way the scan reads it: a line is a
 * maximal run of characters up to, and excluding, a '\n'; a final terminator
 * does not start an extra empty line, and a final line without terminator is
 * still a line.
 */
module Lines {

  /** The first line of a non-empty text and what follows its terminator. */
  function NextLine(s: string): (p: (string, string))
    requires s != []
    ensures '\n' !in p.0
    ensures s == p.0 + "\n" + p.1 || (s == p.0 && p.1 == [])
    ensures |p.1| < |s|
  {
    if s[0] == '\n' then
      ([], s[1..])
    else if |s| == 1 then
      (s, [])
    else
      var p := NextLine(s[1..]);
      assert s == [s[0]] + s[1..];
      ([s[0]] + p.0, p.1)
  }

  /** The lines of a text, in order, without their terminators. */
  function SplitLines(s: string): (ls: seq<string>)
    ensures forall i :: 0 <= i < |ls| ==> '\n' !in ls[i]
    decreases |s|
  {
    if s == [] then [] else
      var p := NextLine(s);
      [p.0] + SplitLines(p.1)
  }

  /** The text is empty or ends with a terminator: its last line is complete. */
  predicate Complete(s: string)
  {
    s == [] || s[|s| - 1] == '\n'
  }

  /** The text made of the given lines, each followed by one terminator. */
  function JoinLines(ls: seq<string>): (s: string)
    ensures s == [] <==> ls == []
    ensures Complete(s)
  {
    if ls == [] then [] else ls[0] + "\n" + JoinLines(ls[1..])
  }

  lemma {:induction false} JoinLinesSnoc(ls: seq<string>, l: string)
    ensures JoinLines(ls + [l]) == JoinLines(ls) + l + "\n"
  {
    if ls == [] {
      assert [] + [l] == [l];
    } else {
      assert (ls + [l])[1..] == ls[1..] + [l];
      JoinLinesSnoc(ls[1..], l);
    }
  }

  /** Two ways of writing a text as "first line, terminator, rest" agree. */
  lemma FirstLineUnique(a: string, b: string, x: string, y: string)
    requires '\n' !in a && '\n' !in x
    requires a + "\n" + b == x + "\n" + y
    ensures a == x && b == y
  {
    var s := a + "\n" + b;
    assert |a| <= |x| by {
      assert s[|x|] == '\n';
      assert forall k :: 0 <= k < |a| ==> s[k] == a[k];
    }
    assert |x| <= |a| by {
      assert s[|a|] == '\n';
      assert forall k :: 0 <= k < |x| ==> s[k] == x[k];
    }
    assert a == s[..|a|] == x;
    assert b == s[|a| + 1..] == y;
  }

  /** Splitting undoes joining, for lines that hold no terminator. */
  lemma {:induction false} SplitJoin(ls: seq<string>)
    requires forall i :: 0 <= i < |ls| ==> '\n' !in ls[i]
    ensures SplitLines(JoinLines(ls)) == ls
  {
    if ls != [] {
      var s := JoinLines(ls);
      var p := NextLine(s);
      assert s == ls[0] + "\n" + JoinLines(ls[1..]);
      if s == p.0 {
        assert false;
      }
      FirstLineUnique(p.0, p.1, ls[0], JoinLines(ls[1..]));
      SplitJoin(ls[1..]);
      assert ls == [ls[0]] + ls[1..];
    }
  }

  /**
   * Joining undoes splitting, up to the terminator that splitting drops
   * from a text whose last line has none.
   */
  lemma {:induction false} JoinSplit(s: string)
    ensures JoinLines(SplitLines(s)) == if s == [] || s[|s| - 1] == '\n' then s else s + "\n"
    decreases |s|
  {
    if s != [] {
      var p := NextLine(s);
      var ls := SplitLines(s);
      assert ls[1..] == SplitLines(p.1);
      assert JoinLines(ls) == p.0 + "\n" + JoinLines(SplitLines(p.1));
      JoinSplit(p.1);
      if s == p.0 && p.1 == [] {
        assert s[|s| - 1] in p.0;
      } else if p.1 != [] {
        assert s[|s| - 1] == p.1[|p.1| - 1];
      }
    }
  }

  /** The sources used by the scan's tests split as those tests expect. */
  lemma SplitBlankLine()
    ensures SplitLines("\n") == [""]
  {
    assert JoinLines([""]) == "\n";
    SplitJoin([""]);
  }

  lemma SplitHitSource()
    ensures SplitLines("\nfoobar\nbarbaz\n") == ["", "foobar", "barbaz"]
  {
    var ls := ["", "foobar", "barbaz"];
    assert JoinLines(ls[2..]) == "barbaz\n";
    assert JoinLines(ls[1..]) == "foobar\nbarbaz\n";
    assert JoinLines(ls) == "\nfoobar\nbarbaz\n";
    SplitJoin(ls);
  }

  lemma SplitNumberSource()
    ensures SplitLines("\nbarbaz\nfoobar\n") == ["", "barbaz", "foobar"]
  {
    var ls := ["", "barbaz", "foobar"];
    assert JoinLines(ls[2..]) == "foobar\n";
    assert JoinLines(ls[1..]) == "barbaz\nfoobar\n";
    assert JoinLines(ls) == "\nbarbaz\nfoobar\n";
    SplitJoin(ls);
  }
}
