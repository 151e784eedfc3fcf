/**
  The three stages together: what the parser's group count guarantees about the
  program the compiler builds from its tree, and so about the capture vector of
  (group_count + 1) * 2 slots that `search` allocates for it.
*/
module Pipeline {
  import opened Ast
  import opened Grammar
  import opened GrammarFacts
  import opened Compiler
  import opened CompilerFacts
  import opened Vm
  import opened VmFacts

  predicate AtMost(s: seq<nat>, n: nat)
  {
    forall i :: 0 <= i < |s| ==> s[i] <= n
  }

  lemma {:induction false} NumberedAtMost(lo: nat, hi: nat)
    ensures AtMost(Numbered(lo, hi), hi)
    decreases hi
  {
    if lo < hi {
      NumberedAtMost(lo, hi - 1);
    }
  }

  /** A tree whose capture indices are all at most n has no group index above n. */
  lemma {:induction false} MaxGroupWithin(node: AstNode, n: nat)
    requires AtMost(Captures(node), n)
    ensures MaxGroup(node) <= n
    decreases node, 1
  {
    match node
    case Concat(ns) => MaxGroupOfWithin(ns, n);
    case Alternation(bs) => MaxGroupOfWithin(bs, n);
    case Quantifier(sub, _, _) => MaxGroupWithin(sub, n);
    case Group(index, sub) =>
      var cs := Captures(node);
      assert cs[0] == index;
      assert forall i :: 0 <= i < |Captures(sub)| ==> Captures(sub)[i] == cs[i + 1];
      MaxGroupWithin(sub, n);
    case NonCapturingGroup(sub) => MaxGroupWithin(sub, n);
    case Lookahead(sub, _) => MaxGroupWithin(sub, n);
    case Lookbehind(sub, _) => MaxGroupWithin(sub, n);
    case _ =>
  }

  lemma {:induction false} MaxGroupOfWithin(ns: seq<AstNode>, n: nat)
    requires AtMost(CapturesOf(ns), n)
    ensures MaxGroupOf(ns) <= n
    decreases ns, 0
  {
    if |ns| > 0 {
      var init, last := ns[..|ns| - 1], ns[|ns| - 1];
      var a, b := CapturesOf(init), Captures(last);
      assert CapturesOf(ns) == a + b;
      assert forall i :: 0 <= i < |a| ==> a[i] == (a + b)[i];
      assert forall i :: 0 <= i < |b| ==> b[i] == (a + b)[|a| + i];
      MaxGroupOfWithin(init, n);
      MaxGroupWithin(last, n);
    }
  }

  /** No capturing group of a parsed tree has an index above the parser's group count. */
  lemma ParsedGroupsBounded(pattern: seq<char>)
    ensures var s := Parse(pattern);
            s.result.Ok? ==> MaxGroup(s.result.value) <= s.groups
  {
    var s := Parse(pattern);
    if s.result.Ok? {
      ParseNumbersGroups(pattern);
      NumberedAtMost(0, s.groups);
      MaxGroupWithin(s.result.value, s.groups);
    }
  }

  /**
    The parser does not check the order of `{n,m}`: `a{5,3}` parses, and its tree
    is one `compile` cannot lower, since it underflows on m - n.
  */
  lemma ParsedReversedRange()
    ensures Parse("a{5,3}").result == Ok(Quantifier(Literal('a'), Range(5, 3), true))
    ensures !RangesOrdered(Parse("a{5,3}").result.value)
  {
    var cs := "a{5,3}";
    var q := Quantifier(Literal('a'), Range(5, 3), true);
    assert cs[2..3] == ['5'] && cs[4..5] == ['3'];
    assert DecimalValue(['5']) == 5 by { assert ['5'][..0] == []; }
    assert DecimalValue(['3']) == 3 by { assert ['3'][..0] == []; }
    assert DigitsEnd(cs, 2) == 3 && DigitsEnd(cs, 4) == 5;
    assert ParseNumber(cs, 2, 0) == Step(Ok(5), 3, 0);
    assert ParseNumber(cs, 4, 0) == Step(Ok(3), 5, 0);
    assert TryBraceContents(cs, 2, 0) == Step(Ok((Range(5, 3), true)), 6, 0);
    assert ParseQuantified(cs, 0, 0) == Step(Ok(q), 6, 0);
    assert ConcatLoop(cs, 0, 0, []) == ConcatLoop(cs, 6, 0, [q]);
    assert ParseAlternation(cs, 0, 0) == Step(Ok(q), 6, 0);
  }

  /**
    The program compiled from a parsed pattern with the parser's group count is
    well formed, and every `Save` it holds writes one of the (group_count + 1) * 2
    slots `search` allocates, so no `Save` of it panics. This holds for every
    pattern `compile` accepts, that is one without `{n,m}` where m < n.
  */
  lemma ParsedProgramFits(pattern: seq<char>)
    ensures var s := Parse(pattern);
            s.result.Ok? && RangesOrdered(s.result.value) ==>
              var insts := Compiled(s.result.value, s.groups).insts;
              WellFormed(insts, 0, 0, |insts| - 1, s.groups, MaxRef(s.result.value))
              && SavesFit(Compiled(s.result.value, s.groups), (s.groups + 1) * 2)
  {
    var s := Parse(pattern);
    if s.result.Ok? && RangesOrdered(s.result.value) {
      ParsedGroupsBounded(pattern);
      CompiledWellFormed(s.result.value, s.groups);
      CompiledSavesFit(s.result.value, s.groups);
    }
  }

  /** A tree without backreferences compiles to a program without `Backref`. */
  lemma CompiledNoBackrefs(ast: AstNode, nGroups: nat)
    requires MaxRef(ast) == 0
    ensures NoBackrefs(Compiled(ast, nGroups))
  {
    var insts := Compiled(ast, nGroups).insts;
    CompiledWellFormed(ast, nGroups);
    forall pc | 0 <= pc < |insts|
      ensures !insts[pc].Backref?
    {
      assert InstOk(insts, pc, 0, 0, |insts| - 1, Max(nGroups, MaxGroup(ast)), 0);
    }
  }

  /**
    Searching any input with the program of a parsed pattern that compiles and has
    no backreference never panics: once `compile` has succeeded, only a
    backreference can make `search` panic.
  */
  lemma ParsedSearchNoPanic(pattern: seq<char>, input: seq<char>, fuel: nat)
    requires Parse(pattern).result.Ok? && RangesOrdered(Parse(pattern).result.value)
    requires MaxRef(Parse(pattern).result.value) == 0
    ensures SearchFrom(Compiled(Parse(pattern).result.value, Parse(pattern).groups), input, 0, fuel) != Aborted
  {
    var s := Parse(pattern);
    ParsedProgramFits(pattern);
    CompiledNoBackrefs(s.result.value, s.groups);
    SearchNoPanic(Compiled(s.result.value, s.groups), input, 0, fuel);
  }
}
