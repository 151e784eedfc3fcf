/**
  Properties of the VM: more fuel never changes a decided run, a match ends
  between its start and the end of the input, `search` reports the leftmost
  match, and the two hints the compiler computes are necessary conditions for a
  match (so the start positions they would rule out never match).
*/
module VmFacts {
  import opened Ast
  import opened Compiler
  import opened Vm
  import opened CompilerFacts

  // ----- Fuel -----

  /** A run that finished with `fuel` finishes the same way with any more fuel. */
  lemma {:induction false} RunFuel(p: Program, input: seq<char>, pos: nat, pc: nat, caps: Caps, fuel: nat, more: nat)
    requires Ready(p, input, pos, caps) && fuel <= more
    requires Run(p, input, pos, pc, caps, fuel).status != OutOfFuel
    ensures Run(p, input, pos, pc, caps, more) == Run(p, input, pos, pc, caps, fuel)
    decreases fuel, 5
  {
    if pc < |p.insts| {
      var inst := p.insts[pc];
      if inst.Split? {
        SplitFuel(p, input, pos, pc, caps, fuel, more);
      } else if inst.LookaheadPositive? || inst.LookaheadNegative? || inst.LookbehindPositive? || inst.LookbehindNegative? {
        LookaroundFuel(p, input, pos, pc, caps, fuel, more);
      } else {
        StepFuel(p, input, pos, pc, caps, fuel, more);
      }
    }
  }

  /** The instructions with one successor. */
  lemma {:induction false} StepFuel(p: Program, input: seq<char>, pos: nat, pc: nat, caps: Caps, fuel: nat, more: nat)
    requires Ready(p, input, pos, caps) && fuel <= more && pc < |p.insts|
    requires !p.insts[pc].Split? && !p.insts[pc].LookaheadPositive? && !p.insts[pc].LookaheadNegative?
    requires !p.insts[pc].LookbehindPositive? && !p.insts[pc].LookbehindNegative?
    requires Run(p, input, pos, pc, caps, fuel).status != OutOfFuel
    ensures Run(p, input, pos, pc, caps, more) == Run(p, input, pos, pc, caps, fuel)
    decreases fuel, 4
  {
    var inst := p.insts[pc];
    match inst
    case Char(_) | AnyChar | CharClass(_, _) | ShorthandClass(_) =>
      if pos < |input| && Accepts(inst, input[pos]) { RunFuel(p, input, pos + 1, pc + 1, caps, fuel - 1, more - 1); }
    case AssertStart | AssertEnd | AssertWordBoundary | AssertNonWordBoundary =>
      if Holds(inst, input, pos) { RunFuel(p, input, pos, pc + 1, caps, fuel - 1, more - 1); }
    case Match =>
    case Jump(target) => RunFuel(p, input, pos, target, caps, fuel - 1, more - 1);
    case Save(slot) =>
      if slot < |caps| { RunFuel(p, input, pos, pc + 1, caps[slot := Some(pos)], fuel - 1, more - 1); }
    case Backref(group) =>
      if group * 2 + 1 < |caps| && !BackrefUnderflows(caps[group * 2], caps[group * 2 + 1])
         && BackrefMatches(input, pos, caps[group * 2], caps[group * 2 + 1]) {
        var len := caps[group * 2 + 1].value - caps[group * 2].value;
        RunFuel(p, input, pos + len, pc + 1, caps, fuel - 1, more - 1);
      }
    case Nop => RunFuel(p, input, pos, pc + 1, caps, fuel - 1, more - 1);
  }

  lemma {:induction false} SplitFuel(p: Program, input: seq<char>, pos: nat, pc: nat, caps: Caps, fuel: nat, more: nat)
    requires Ready(p, input, pos, caps) && fuel <= more && pc < |p.insts| && p.insts[pc].Split?
    requires Run(p, input, pos, pc, caps, fuel).status != OutOfFuel
    ensures Run(p, input, pos, pc, caps, more) == Run(p, input, pos, pc, caps, fuel)
    decreases fuel, 4
  {
    var first, second := p.insts[pc].first, p.insts[pc].second;
    RunFuel(p, input, pos, first, caps, fuel - 1, more - 1);
    if Run(p, input, pos, first, caps, fuel - 1).status == Failed {
      RunFuel(p, input, pos, second, caps, fuel - 1, more - 1);
    }
  }

  lemma {:induction false} LookaroundFuel(p: Program, input: seq<char>, pos: nat, pc: nat, caps: Caps, fuel: nat, more: nat)
    requires Ready(p, input, pos, caps) && fuel <= more && pc < |p.insts|
    requires p.insts[pc].LookaheadPositive? || p.insts[pc].LookaheadNegative?
          || p.insts[pc].LookbehindPositive? || p.insts[pc].LookbehindNegative?
    requires Run(p, input, pos, pc, caps, fuel).status != OutOfFuel
    ensures Run(p, input, pos, pc, caps, more) == Run(p, input, pos, pc, caps, fuel)
    decreases fuel, 4
  {
    var inst := p.insts[pc];
    LookFuel(p, input, pos, inst, caps, fuel - 1, more - 1);
    if Look(p, input, pos, inst, caps, fuel - 1) == Matched {
      RunFuel(p, input, pos, inst.subEnd, caps, fuel - 1, more - 1);
    }
  }

  lemma {:induction false} LookFuel(p: Program, input: seq<char>, pos: nat, inst: Inst, caps: Caps, fuel: nat, more: nat)
    requires Ready(p, input, pos, caps) && fuel <= more
    requires Look(p, input, pos, inst, caps, fuel) != OutOfFuel
    ensures Look(p, input, pos, inst, caps, more) == Look(p, input, pos, inst, caps, fuel)
    decreases fuel, 8
  {
    match inst
    case LookaheadPositive(subStart, _) => RunSubFuel(p, input, pos, subStart, caps, fuel, more);
    case LookaheadNegative(subStart, _) => RunSubFuel(p, input, pos, subStart, caps, fuel, more);
    case LookbehindPositive(subStart, _) => BehindFuel(p, input, pos, subStart, caps, fuel, more, 0);
    case LookbehindNegative(subStart, _) => BehindFuel(p, input, pos, subStart, caps, fuel, more, 0);
    case _ =>
  }

  lemma {:induction false} RunSubFuel(p: Program, input: seq<char>, pos: nat, subStart: nat, caps: Caps, fuel: nat, more: nat)
    requires Ready(p, input, pos, caps) && fuel <= more
    requires RunSub(p, input, pos, subStart, caps, fuel).status != OutOfFuel
    ensures RunSub(p, input, pos, subStart, caps, more) == RunSub(p, input, pos, subStart, caps, fuel)
    decreases fuel, 6
  {
    RunFuel(p, input, pos, subStart, caps[1 := None], fuel, more);
  }

  lemma {:induction false} BehindFuel(p: Program, input: seq<char>, pos: nat, subStart: nat, caps: Caps,
                                      fuel: nat, more: nat, lookback: nat)
    requires Ready(p, input, pos, caps) && fuel <= more
    requires Behind(p, input, pos, subStart, caps, fuel, lookback) != OutOfFuel
    ensures Behind(p, input, pos, subStart, caps, more, lookback) == Behind(p, input, pos, subStart, caps, fuel, lookback)
    decreases fuel, 7, pos + 1 - lookback
  {
    if lookback <= pos {
      RunSubFuel(p, input, pos - lookback, subStart, caps, fuel, more);
      var sub := RunSub(p, input, pos - lookback, subStart, caps, fuel);
      if sub.status != Panicked && !(sub.status == Matched && (sub.caps[1] == Some(pos) || FindSubEnd(sub.caps) == Some(pos))) {
        BehindFuel(p, input, pos, subStart, caps, fuel, more, lookback + 1);
      }
    }
  }

  // ----- Character tests -----

  /**
    `\D`, `\W` and `\S` accept exactly what `\d`, `\w` and `\s` reject; `\d` is
    the ASCII digits and `\w` is the word-character test of `\b` and `\B`.
  */
  lemma ShorthandComplements(ch: char)
    ensures ShorthandMatches(ch, NonDigit) == !ShorthandMatches(ch, Digit)
    ensures ShorthandMatches(ch, NonWord) == !ShorthandMatches(ch, Word)
    ensures ShorthandMatches(ch, NonSpace) == !ShorthandMatches(ch, Space)
    ensures ShorthandMatches(ch, Digit) <==> '0' <= ch <= '9'
    ensures ShorthandMatches(ch, Word) == IsWordChar(ch)
  {
  }

  /**
    A word boundary lies between a word character and a non-word character, and
    the edges of the input count as non-word: at either end there is a boundary
    exactly when the neighbouring character is a word character.
  */
  lemma WordBoundaryEdges(input: seq<char>, pos: nat)
    requires pos <= |input|
    ensures 0 < pos < |input| ==> (IsWordBoundary(input, pos) <==> IsWordChar(input[pos - 1]) != IsWordChar(input[pos]))
    ensures pos == 0 < |input| ==> (IsWordBoundary(input, pos) <==> IsWordChar(input[0]))
    ensures 0 < pos == |input| ==> (IsWordBoundary(input, pos) <==> IsWordChar(input[pos - 1]))
    ensures |input| == 0 ==> !IsWordBoundary(input, pos)
  {
  }

  /** `find_sub_end` reads the same slot 1 that the lookbehind test checks first, so that test reduces to slot 1. */
  lemma SubEndRedundant(caps: Caps, pos: nat)
    requires |caps| >= 2
    ensures (caps[1] == Some(pos) || FindSubEnd(caps) == Some(pos)) <==> caps[1] == Some(pos)
  {
  }

  /** A body run from one start that the lookbehind passes over: it failed, or matched but did not end at `pos`. */
  predicate PassedOver(sub: Outcome, pos: nat)
  {
    sub.status == Failed || (sub.status == Matched && |sub.caps| >= 2 && sub.caps[1] != Some(pos))
  }

  /**
    The body run from `st` matched up to `pos`, and every start after `st` that the
    loop tried first (down from pos - lookback) was passed over.
  */
  predicate NearestHit(p: Program, input: seq<char>, pos: nat, subStart: nat, caps: Caps, fuel: nat,
                       lookback: nat, st: nat)
    requires Ready(p, input, pos, caps)
  {
    st + lookback <= pos
    && RunSub(p, input, st, subStart, caps, fuel).status == Matched
    && RunSub(p, input, st, subStart, caps, fuel).caps[1] == Some(pos)
    && forall s: nat :: st < s && s + lookback <= pos ==> PassedOver(RunSub(p, input, s, subStart, caps, fuel), pos)
  }

  /**
    A lookbehind holds at `pos` exactly when its body, started at some earlier
    position, matches up to `pos` itself: `Matched` names such a start, the
    nearest one to `pos`, with every start between it and `pos` passed over
    (none of them panicked or ran out of fuel), and `Failed` means that every
    start was passed over.
  */
  lemma {:induction false} BehindMatches(p: Program, input: seq<char>, pos: nat, subStart: nat, caps: Caps,
                                         fuel: nat, lookback: nat)
    requires Ready(p, input, pos, caps)
    ensures Behind(p, input, pos, subStart, caps, fuel, lookback) == Matched ==>
              exists st: nat :: NearestHit(p, input, pos, subStart, caps, fuel, lookback, st)
    ensures Behind(p, input, pos, subStart, caps, fuel, lookback) == Failed ==>
              forall st: nat :: st + lookback <= pos ==> PassedOver(RunSub(p, input, st, subStart, caps, fuel), pos)
    decreases pos + 1 - lookback
  {
    if lookback <= pos {
      BehindMatches(p, input, pos, subStart, caps, fuel, lookback + 1);
      var st := pos - lookback;
      var sub := RunSub(p, input, st, subStart, caps, fuel);
      if sub.status == Matched && sub.caps[1] == Some(pos) {
        assert NearestHit(p, input, pos, subStart, caps, fuel, lookback, st);
      } else if sub.status == Failed || sub.status == Matched {
        assert PassedOver(sub, pos);
        assert FindSubEnd(sub.caps) == sub.caps[1];
        assert Behind(p, input, pos, subStart, caps, fuel, lookback) == Behind(p, input, pos, subStart, caps, fuel, lookback + 1);
        if Behind(p, input, pos, subStart, caps, fuel, lookback) == Matched {
          var w: nat :| NearestHit(p, input, pos, subStart, caps, fuel, lookback + 1, w);
          assert NearestHit(p, input, pos, subStart, caps, fuel, lookback, w);
        }
      }
    }
  }

  // ----- Panics -----

  /** No instruction of the program is a backreference. */
  predicate NoBackrefs(p: Program)
  {
    forall pc :: 0 <= pc < |p.insts| ==> !p.insts[pc].Backref?
  }

  /**
    Only a backreference can make a run panic: when every `Save` writes an
    existing slot and the program has no `Backref`, no run panics.
  */
  lemma {:induction false} RunNoPanic(p: Program, input: seq<char>, pos: nat, pc: nat, caps: Caps, fuel: nat)
    requires Ready(p, input, pos, caps) && SavesFit(p, |caps|) && NoBackrefs(p)
    ensures Run(p, input, pos, pc, caps, fuel).status != Panicked
    decreases fuel, 0
  {
    if fuel > 0 && pc < |p.insts| {
      var inst := p.insts[pc];
      match inst
      case Char(_) | AnyChar | CharClass(_, _) | ShorthandClass(_) =>
        if pos < |input| && Accepts(inst, input[pos]) { RunNoPanic(p, input, pos + 1, pc + 1, caps, fuel - 1); }
      case AssertStart | AssertEnd | AssertWordBoundary | AssertNonWordBoundary =>
        if Holds(inst, input, pos) { RunNoPanic(p, input, pos, pc + 1, caps, fuel - 1); }
      case LookaheadPositive(_, _) | LookaheadNegative(_, _) | LookbehindPositive(_, _) | LookbehindNegative(_, _) =>
        LookNoPanic(p, input, pos, inst, caps, fuel - 1);
        if Look(p, input, pos, inst, caps, fuel - 1) == Matched {
          RunNoPanic(p, input, pos, inst.subEnd, caps, fuel - 1);
        }
      case Match =>
      case Jump(target) => RunNoPanic(p, input, pos, target, caps, fuel - 1);
      case Split(first, second) =>
        RunNoPanic(p, input, pos, first, caps, fuel - 1);
        RunNoPanic(p, input, pos, second, caps, fuel - 1);
      case Save(slot) => RunNoPanic(p, input, pos, pc + 1, caps[slot := Some(pos)], fuel - 1);
      case Nop => RunNoPanic(p, input, pos, pc + 1, caps, fuel - 1);
    }
  }

  lemma {:induction false} LookNoPanic(p: Program, input: seq<char>, pos: nat, inst: Inst, caps: Caps, fuel: nat)
    requires Ready(p, input, pos, caps) && SavesFit(p, |caps|) && NoBackrefs(p)
    ensures Look(p, input, pos, inst, caps, fuel) != Panicked
    decreases fuel, 2
  {
    match inst
    case LookaheadPositive(subStart, _) => RunNoPanic(p, input, pos, subStart, caps[1 := None], fuel);
    case LookaheadNegative(subStart, _) => RunNoPanic(p, input, pos, subStart, caps[1 := None], fuel);
    case LookbehindPositive(subStart, _) => BehindNoPanic(p, input, pos, subStart, caps, fuel, 0);
    case LookbehindNegative(subStart, _) => BehindNoPanic(p, input, pos, subStart, caps, fuel, 0);
    case _ =>
  }

  lemma {:induction false} BehindNoPanic(p: Program, input: seq<char>, pos: nat, subStart: nat, caps: Caps,
                                         fuel: nat, lookback: nat)
    requires Ready(p, input, pos, caps) && SavesFit(p, |caps|) && NoBackrefs(p)
    ensures Behind(p, input, pos, subStart, caps, fuel, lookback) != Panicked
    decreases fuel, 1, pos + 1 - lookback
  {
    if lookback <= pos {
      RunNoPanic(p, input, pos - lookback, subStart, caps[1 := None], fuel);
      BehindNoPanic(p, input, pos, subStart, caps, fuel, lookback + 1);
    }
  }

  /** So `search` over such a program never aborts. */
  lemma {:induction false} SearchNoPanic(p: Program, input: seq<char>, start: nat, fuel: nat)
    requires start <= |input| + 1 && SavesFit(p, (p.nGroups + 1) * 2) && NoBackrefs(p)
    ensures SearchFrom(p, input, start, fuel) != Aborted
    decreases |input| + 1 - start
  {
    if start <= |input| {
      FreshReady(p, input, start);
      RunNoPanic(p, input, start, 0, Fresh(p.nGroups, start), fuel);
      SearchNoPanic(p, input, start + 1, fuel);
    }
  }

  // ----- Where a match ends -----

  /** A match ends at or after the position it started from, and within the input. */
  lemma {:induction false} MatchEnd(p: Program, input: seq<char>, pos: nat, pc: nat, caps: Caps, fuel: nat)
    requires Ready(p, input, pos, caps)
    requires Run(p, input, pos, pc, caps, fuel).status == Matched
    ensures var o := Run(p, input, pos, pc, caps, fuel); o.caps[1].Some? && pos <= o.caps[1].value <= |input|
    decreases fuel, 1
  {
    var inst := p.insts[pc];
    if inst.Split? {
      if Run(p, input, pos, inst.first, caps, fuel - 1).status == Matched {
        MatchEnd(p, input, pos, inst.first, caps, fuel - 1);
      } else {
        MatchEnd(p, input, pos, inst.second, caps, fuel - 1);
      }
    } else if inst.Save? || inst.Backref? || inst.Match? {
      MatchEndCaptures(p, input, pos, pc, caps, fuel);
    } else {
      MatchEndStep(p, input, pos, pc, caps, fuel);
    }
  }

  /** The instructions that read or write the captures. */
  lemma {:induction false} MatchEndCaptures(p: Program, input: seq<char>, pos: nat, pc: nat, caps: Caps, fuel: nat)
    requires Ready(p, input, pos, caps) && pc < |p.insts|
    requires p.insts[pc].Save? || p.insts[pc].Backref? || p.insts[pc].Match?
    requires Run(p, input, pos, pc, caps, fuel).status == Matched
    ensures var o := Run(p, input, pos, pc, caps, fuel); o.caps[1].Some? && pos <= o.caps[1].value <= |input|
    decreases fuel, 0
  {
    match p.insts[pc]
    case Save(slot) => MatchEnd(p, input, pos, pc + 1, caps[slot := Some(pos)], fuel - 1);
    case Backref(group) =>
      var len := caps[group * 2 + 1].value - caps[group * 2].value;
      MatchEnd(p, input, pos + len, pc + 1, caps, fuel - 1);
    case Match =>
  }

  /** The instructions that leave the captures alone and have one successor. */
  lemma {:induction false} MatchEndStep(p: Program, input: seq<char>, pos: nat, pc: nat, caps: Caps, fuel: nat)
    requires Ready(p, input, pos, caps) && pc < |p.insts|
    requires !p.insts[pc].Split? && !p.insts[pc].Save? && !p.insts[pc].Backref? && !p.insts[pc].Match?
    requires Run(p, input, pos, pc, caps, fuel).status == Matched
    ensures var o := Run(p, input, pos, pc, caps, fuel); o.caps[1].Some? && pos <= o.caps[1].value <= |input|
    decreases fuel, 0
  {
    var inst := p.insts[pc];
    match inst
    case Char(_) | AnyChar | CharClass(_, _) | ShorthandClass(_) =>
      MatchEnd(p, input, pos + 1, pc + 1, caps, fuel - 1);
    case AssertStart | AssertEnd | AssertWordBoundary | AssertNonWordBoundary =>
      MatchEnd(p, input, pos, pc + 1, caps, fuel - 1);
    case LookaheadPositive(_, _) | LookaheadNegative(_, _) | LookbehindPositive(_, _) | LookbehindNegative(_, _) =>
      MatchEnd(p, input, pos, inst.subEnd, caps, fuel - 1);
    case Jump(target) => MatchEnd(p, input, pos, target, caps, fuel - 1);
    case Nop => MatchEnd(p, input, pos, pc + 1, caps, fuel - 1);
  }

  // ----- search -----

  lemma FreshReady(p: Program, input: seq<char>, start: nat)
    requires start <= |input|
    ensures Ready(p, input, start, Fresh(p.nGroups, start))
  {
    var caps := Fresh(p.nGroups, start);
    assert forall i :: 0 < i < |caps| ==> caps[i] == None;
  }

  /**
    `search` answers for the leftmost start that does not fail: a match there, no
    match exactly when every start fails, `Aborted` when the first start that
    does not fail panicked, and `Exhausted` when it ran out of fuel.
  */
  lemma {:induction false} SearchLeftmost(p: Program, input: seq<char>, start: nat, fuel: nat)
    requires start <= |input| + 1
    ensures SearchFrom(p, input, start, fuel).Found? ==>
              var m := SearchFrom(p, input, start, fuel).m;
              start <= m.start <= |input|
              && Attempt(p, input, m.start, fuel).status == Matched
              && m == Finish(m.start, Attempt(p, input, m.start, fuel).caps)
              && forall s :: start <= s < m.start ==> Attempt(p, input, s, fuel).status == Failed
    ensures SearchFrom(p, input, start, fuel) == NoMatch <==>
              forall s :: start <= s <= |input| ==> Attempt(p, input, s, fuel).status == Failed
    ensures SearchFrom(p, input, start, fuel) == Aborted ==>
              exists e :: start <= e <= |input| && Attempt(p, input, e, fuel).status == Panicked
                && forall s :: start <= s < e ==> Attempt(p, input, s, fuel).status == Failed
    ensures SearchFrom(p, input, start, fuel) == Exhausted ==>
              exists e :: start <= e <= |input| && Attempt(p, input, e, fuel).status == OutOfFuel
                && forall s :: start <= s < e ==> Attempt(p, input, s, fuel).status == Failed
    decreases |input| + 1 - start
  {
    if start <= |input| {
      SearchLeftmost(p, input, start + 1, fuel);
    }
  }

  /** The match `search` reports lies within the input, and its end slot is its end. */
  lemma SearchSpan(p: Program, input: seq<char>, fuel: nat)
    requires SearchFrom(p, input, 0, fuel).Found?
    ensures var m := SearchFrom(p, input, 0, fuel).m;
            m.start <= m.end <= |input| && |m.captures| == (p.nGroups + 1) * 2 && m.captures[1] == Some(m.end)
  {
    SearchLeftmost(p, input, 0, fuel);
    var m := SearchFrom(p, input, 0, fuel).m;
    FreshReady(p, input, m.start);
    MatchEnd(p, input, m.start, 0, Fresh(p.nGroups, m.start), fuel);
  }

  /** More fuel never changes an answer `search` could give. */
  lemma {:induction false} SearchFuel(p: Program, input: seq<char>, start: nat, fuel: nat, more: nat)
    requires start <= |input| + 1 && fuel <= more
    requires SearchFrom(p, input, start, fuel) != Exhausted
    ensures SearchFrom(p, input, start, more) == SearchFrom(p, input, start, fuel)
    decreases |input| + 1 - start
  {
    if start <= |input| {
      FreshReady(p, input, start);
      RunFuel(p, input, start, 0, Fresh(p.nGroups, start), fuel, more);
      if Attempt(p, input, start, fuel).status == Failed {
        SearchFuel(p, input, start + 1, fuel, more);
      }
    }
  }

  // ----- The compiler's hints -----

  /**
    When no capturing group of the tree has an index above `nGroups`, every
    `Save` of the compiled program writes one of the (nGroups + 1) * 2 slots
    `search` allocates, so no `Save` panics.
  */
  lemma CompiledSavesFit(ast: AstNode, nGroups: nat)
    requires MaxGroup(ast) <= nGroups
    ensures SavesFit(Compiled(ast, nGroups), (nGroups + 1) * 2)
  {
    var insts := Compiled(ast, nGroups).insts;
    CompiledWellFormed(ast, nGroups);
    forall pc | 0 <= pc < |insts| && insts[pc].Save?
      ensures insts[pc].slot < (nGroups + 1) * 2
    {
      assert InstOk(insts, pc, 0, 0, |insts| - 1, Max(nGroups, MaxGroup(ast)), MaxRef(ast));
    }
  }

  /** A program whose first-character hint is `c` only matches where the input holds `c`. */
  lemma FirstCharNecessary(ast: AstNode, nGroups: nat, input: seq<char>, start: nat, fuel: nat, c: char)
    requires start <= |input|
    requires Compiled(ast, nGroups).firstChar == Some(c)
    requires Attempt(Compiled(ast, nGroups), input, start, fuel).status == Matched
    ensures start < |input| && input[start] == c
  {
    var p := Compiled(ast, nGroups);
    var caps := Fresh(nGroups, start);
    FreshReady(p, input, start);
    if p.insts[0] == AssertStart {
      assert Run(p, input, start, 1, caps, fuel - 1).status == Matched;
    }
  }

  /** An anchored program only matches from position 0. */
  lemma AnchoredNecessary(ast: AstNode, nGroups: nat, input: seq<char>, start: nat, fuel: nat)
    requires start <= |input|
    requires Compiled(ast, nGroups).anchoredStart
    requires Attempt(Compiled(ast, nGroups), input, start, fuel).status == Matched
    ensures start == 0
  {
    FreshReady(Compiled(ast, nGroups), input, start);
  }

  /** So the match `search` finds without looking at the hints agrees with both of them. */
  lemma SearchAgreesWithHints(ast: AstNode, nGroups: nat, input: seq<char>, fuel: nat)
    requires SearchFrom(Compiled(ast, nGroups), input, 0, fuel).Found?
    ensures var m := SearchFrom(Compiled(ast, nGroups), input, 0, fuel).m;
            (Compiled(ast, nGroups).anchoredStart ==> m.start == 0)
            && (Compiled(ast, nGroups).firstChar.Some? ==>
                  m.start < |input| && input[m.start] == Compiled(ast, nGroups).firstChar.value)
  {
    var p := Compiled(ast, nGroups);
    SearchLeftmost(p, input, 0, fuel);
    var m := SearchFrom(p, input, 0, fuel).m;
    if p.anchoredStart {
      AnchoredNecessary(ast, nGroups, input, m.start, fuel);
    }
    if p.firstChar.Some? {
      FirstCharNecessary(ast, nGroups, input, m.start, fuel, p.firstChar.value);
    }
  }
}
