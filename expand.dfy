/**
 * Glob expansion of the process arguments before flag parsing. The program
 * name is kept; every later argument is tried as a file-system glob and
 * replaced by its matches, until the separator `--` is met: from there on
 * (the separator included) arguments are copied unchanged.
 *
 * The file system's glob is a parameter: `glob(p)` is `None` when `p` is not a
 * well-formed pattern and `Some(ms)` with the matches, in the order the glob
 * gives them, otherwise.
 */
module Expand {
  import opened Wrappers
  import opened Seqs

  const Separator: string := "--"

  /** The glob either failed or matched no file. */
  predicate NoMatch(glob: string -> Option<seq<string>>, arg: string)
  {
    glob(arg).None? || glob(arg).value == []
  }

  /** An argument tried as a glob: its matches, or itself when there are none. */
  function GlobOrKeep(glob: string -> Option<seq<string>>, arg: string): (r: seq<string>)
    ensures |r| >= 1
    ensures NoMatch(glob, arg) ==> r == [arg]
    ensures !NoMatch(glob, arg) ==> Some(r) == glob(arg)
  {
    match glob(arg)
    case Some(ms) => if |ms| > 0 then ms else [arg]
    case None => [arg]
  }

  /** What one argument contributes, given whether the separator was met. */
  function Step(glob: string -> Option<seq<string>>, raw: bool, arg: string): (r: seq<string>)
    ensures |r| >= 1
    ensures raw || NoMatch(glob, arg) ==> r == [arg]
    ensures !raw && !NoMatch(glob, arg) ==> Some(r) == glob(arg)
  {
    if raw then [arg] else GlobOrKeep(glob, arg)
  }

  /**
   * The expansion of the arguments after the program name. The flag for the
   * last argument is "the separator occurs among the arguments up to and
   * including this one": it is set by `--` before that token is handled, and
   * once set it stays set.
   */
  function ExpandRest(glob: string -> Option<seq<string>>, xs: seq<string>): (r: seq<string>)
    ensures |r| >= |xs|
  {
    if xs == [] then [] else
      var k := |xs| - 1;
      ExpandRest(glob, xs[..k]) + Step(glob, Separator in xs, xs[k])
  }

  /** Handling one more argument: the flag it sees, and what it appends. */
  lemma ExpandRestSnoc(glob: string -> Option<seq<string>>, xs: seq<string>, x: string)
    ensures Separator in xs + [x] <==> Separator in xs || x == Separator
    ensures ExpandRest(glob, xs + [x]) == ExpandRest(glob, xs) + Step(glob, Separator in xs + [x], x)
  {
    assert (xs + [x])[..|xs|] == xs;
  }

  /** The whole argument vector after expansion. */
  function Expanded(glob: string -> Option<seq<string>>, args: seq<string>): (r: seq<string>)
    requires |args| >= 1
    ensures |r| >= |args| && r[0] == args[0]
  {
    [args[0]] + ExpandRest(glob, args[1..])
  }

  /** The program name is never looked at: changing it changes nothing else. */
  lemma ProgramNameUnexamined(glob: string -> Option<seq<string>>, a: string, b: string, rest: seq<string>)
    ensures Expanded(glob, [a] + rest)[1..] == Expanded(glob, [b] + rest)[1..]
  {
    assert ([a] + rest)[1..] == rest == ([b] + rest)[1..];
  }

  /** Once the separator has been met, later arguments are copied unchanged. */
  lemma {:induction false} LiteralTail(glob: string -> Option<seq<string>>, xs: seq<string>, ys: seq<string>)
    requires Separator in xs
    ensures ExpandRest(glob, xs + ys) == ExpandRest(glob, xs) + ys
    decreases |ys|
  {
    if ys != [] {
      var k := |ys| - 1;
      var zs := xs + ys;
      assert ExpandRest(glob, zs) == ExpandRest(glob, xs + ys[..k]) + [ys[k]] by {
        assert zs[..|zs| - 1] == xs + ys[..k];
        assert Separator in zs by { assert zs[..|xs|] == xs; }
      }
      LiteralTail(glob, xs, ys[..k]);
      assert ys == ys[..k] + [ys[k]];
      AppendAssoc(ExpandRest(glob, xs), ys[..k], [ys[k]]);
    } else {
      assert xs + ys == xs;
    }
  }

  /**
   * The separator switches expansion off before it is itself handled: it is
   * copied as it is, and so is everything after it.
   */
  lemma SeparatorSwitch(glob: string -> Option<seq<string>>, xs: seq<string>, ys: seq<string>)
    ensures ExpandRest(glob, xs + [Separator] + ys) == ExpandRest(glob, xs) + [Separator] + ys
  {
    var zs := xs + [Separator];
    assert zs[..|xs|] == xs;
    assert ExpandRest(glob, zs) == ExpandRest(glob, xs) + [Separator];
    LiteralTail(glob, zs, ys);
  }

  /** Each argument's glob result, in input order. */
  function GlobEach(glob: string -> Option<seq<string>>, xs: seq<string>): (gs: seq<seq<string>>)
    ensures |gs| == |xs|
  {
    seq(|xs|, i requires 0 <= i < |xs| => GlobOrKeep(glob, xs[i]))
  }

  /**
   * Before the separator, the expansion is the concatenation, in input order,
   * of every argument's glob result.
   */
  lemma {:induction false} GlobbedPrefix(glob: string -> Option<seq<string>>, xs: seq<string>)
    requires Separator !in xs
    ensures ExpandRest(glob, xs) == Flatten(GlobEach(glob, xs))
  {
    if xs != [] {
      var k := |xs| - 1;
      GlobbedPrefix(glob, xs[..k]);
      assert GlobEach(glob, xs) == GlobEach(glob, xs[..k]) + [GlobOrKeep(glob, xs[k])];
      FlattenSnoc(GlobEach(glob, xs[..k]), GlobOrKeep(glob, xs[k]));
    }
  }

  /**
   * The whole expansion: the program name, then the glob results of the
   * arguments before the first separator, then the separator and everything
   * after it unchanged (`i` is the position of that first separator, or the
   * length of the vector when there is none).
   */
  lemma ExpandedSplit(glob: string -> Option<seq<string>>, args: seq<string>, i: nat)
    requires 1 <= i <= |args|
    requires Separator !in args[1..i]
    requires i < |args| ==> args[i] == Separator
    ensures Expanded(glob, args) == [args[0]] + Flatten(GlobEach(glob, args[1..i])) + args[i..]
  {
    var before, after := args[1..i], args[i..];
    assert ExpandRest(glob, args[1..]) == ExpandRest(glob, before) + after by {
      if i == |args| {
        assert before == args[1..] && after == [];
      } else {
        var rest := args[i + 1..];
        assert args[1..] == before + [Separator] + rest;
        assert after == [Separator] + rest;
        SeparatorSwitch(glob, before, rest);
        AppendAssoc(ExpandRest(glob, before), [Separator], rest);
      }
    }
    GlobbedPrefix(glob, before);
    AppendAssoc([args[0]], ExpandRest(glob, before), after);
  }

  /** Arguments none of whose globs match anything all pass through unchanged. */
  lemma {:induction false} PassThrough(glob: string -> Option<seq<string>>, xs: seq<string>)
    requires forall i :: 0 <= i < |xs| ==> NoMatch(glob, xs[i])
    ensures ExpandRest(glob, xs) == xs
  {
    if xs != [] {
      var k := |xs| - 1;
      PassThrough(glob, xs[..k]);
      assert xs == xs[..k] + [xs[k]];
    }
  }
}
