/**
  The compiler of src/compiler.rs: lowers an AST into a flat instruction list.

  `Code(node, base)` is the code the compiler emits for `node` when the list
  already holds `base` instructions (targets are absolute, so the code depends on
  where it starts). `Emit` and `EmitQuantifier` build that code the way the source
  does: pushing onto the list, reserving `Nop` placeholders and back-patching them
  by index once the targets are known.
*/
module Compiler {
  import opened Ast

  /** A VM instruction. Split(a, b) tries a first and b only if a fails. */
  datatype Inst =
    | Char(ch: char)
    | AnyChar
    | CharClass(items: seq<ClassItem>, negated: bool)
    | ShorthandClass(kind: ShorthandKind)
    | Match
    | Jump(target: nat)
    | Split(first: nat, second: nat)
    | Save(slot: nat)
    | AssertStart
    | AssertEnd
    | AssertWordBoundary
    | AssertNonWordBoundary
    | Backref(group: nat)
    | LookaheadPositive(subStart: nat, subEnd: nat)
    | LookaheadNegative(subStart: nat, subEnd: nat)
    | LookbehindPositive(subStart: nat, subEnd: nat)
    | LookbehindNegative(subStart: nat, subEnd: nat)
    | Nop

  /** A compiled pattern and its two search hints. */
  datatype Program = Program(insts: seq<Inst>, nGroups: nat, firstChar: Option<char>, anchoredStart: bool)

  /** The number of instructions emitted for a node. */
  function Size(node: AstNode): nat
    decreases node, 1
  {
    match node
    case Concat(ns) => SizeOf(ns)
    case Alternation(bs) => if |bs| == 0 then 0 else SizeOf(bs) + 2 * (|bs| - 1)
    case Quantifier(sub, k, _) => QuantSize(Size(sub), k)
    case Group(_, sub) => Size(sub) + 2
    case NonCapturingGroup(sub) => Size(sub)
    case Lookahead(sub, _) => Size(sub) + 2
    case Lookbehind(sub, _) => Size(sub) + 2
    case _ => 1
  }

  /** The number of instructions a quantifier of kind `k` emits around a body of `s`. */
  function QuantSize(s: nat, k: QuantifierKind): nat
  {
    match k
    case Star => s + 2
    case Plus => s + 1
    case Question => s + 1
    case Exact(n) => Repeat(s, n)
    case AtLeast(n) => Repeat(s, n) + s + 2
    case Range(n, m) => Repeat(s, n) + Repeat(s + 1, if n <= m then m - n else 0)
  }

  /** `count` times `s`, as the sum the emitter's loops build up. */
  function Repeat(s: nat, count: nat): nat
  {
    if count == 0 then 0 else Repeat(s, count - 1) + s
  }

  function SizeOf(ns: seq<AstNode>): nat
    decreases ns, 0
  {
    if |ns| == 0 then 0 else SizeOf(ns[..|ns| - 1]) + Size(ns[|ns| - 1])
  }

  /** The code `emit` appends for `node` to a list of length `base`. */
  function Code(node: AstNode, base: nat): seq<Inst>
    decreases node, 0, 0
  {
    match node
    case Literal(ch) => [Char(ch)]
    case Dot => [AnyChar]
    case Concat(ns) => ConcatCode(ns, base)
    case Alternation(bs) =>
      if |bs| == 0 then [] else AltCode(bs, base)
    case Quantifier(sub, kind, greedy) => QuantCode(sub, kind, greedy, base)
    case CharClass(items, negated) => [Inst.CharClass(items, negated)]
    case ShorthandClass(kind) => [Inst.ShorthandClass(kind)]
    case Anchor(a) =>
      [match a
       case Start => AssertStart
       case End => AssertEnd
       case WordBoundary => AssertWordBoundary
       case NonWordBoundary => AssertNonWordBoundary]
    case Group(index, sub) => GroupCode(index, sub, base)
    case NonCapturingGroup(sub) => Code(sub, base)
    case Backreference(k) => [Backref(k)]
    case Lookahead(sub, positive) => LookaroundCode(sub, true, positive, base)
    case Lookbehind(sub, positive) => LookaroundCode(sub, false, positive, base)
  }

  /** A capturing group saves its start in slot index*2 and its end in slot index*2+1. */
  function GroupCode(index: nat, sub: AstNode, base: nat): seq<Inst>
    decreases sub, 2, 0
  {
    [Save(index * 2)] + Code(sub, base + 1) + [Save(index * 2 + 1)]
  }

  /** The instruction that opens a lookaround whose body occupies [subStart, subEnd). */
  function LookInst(ahead: bool, positive: bool, subStart: nat, subEnd: nat): Inst
  {
    if ahead then
      (if positive then LookaheadPositive(subStart, subEnd) else LookaheadNegative(subStart, subEnd))
    else
      (if positive then LookbehindPositive(subStart, subEnd) else LookbehindNegative(subStart, subEnd))
  }

  /** A lookaround: its opening instruction, then its body ended by its own `Match`. */
  function LookaroundCode(sub: AstNode, ahead: bool, positive: bool, base: nat): seq<Inst>
    decreases sub, 2, 0
  {
    var body := Code(sub, base + 1);
    [LookInst(ahead, positive, base + 1, base + |body| + 2)] + body + [Match]
  }

  /** The children of a concatenation, one after the other. */
  function ConcatCode(ns: seq<AstNode>, base: nat): seq<Inst>
    decreases ns, 0, 0
  {
    if |ns| == 0 then []
    else
      var prev := ConcatCode(ns[..|ns| - 1], base);
      prev + Code(ns[|ns| - 1], base + |prev|)
  }

  /**
    The non-last branches of an alternation ending at `end`: each is
    `Split(its code, the next branch)`, its code, then its exit jump. The first
    `patched` exits are `Jump(end)`; the others are still the `Nop` placeholder
    that the emitter back-patches once `end` is known.
  */
  function AltBranches(bs: seq<AstNode>, base: nat, end: nat, patched: nat): seq<Inst>
    decreases bs, 0, 1
  {
    if |bs| == 0 then []
    else AltBranches(bs[..|bs| - 1], base, end, patched) + BranchSegment(bs, base, end, patched)
  }

  /** The segment of the last branch of `bs`, which starts after the segments of the others. */
  function BranchSegment(bs: seq<AstNode>, base: nat, end: nat, patched: nat): seq<Inst>
    requires |bs| > 0
    decreases bs, 0, 0
  {
    var splitPc := base + SizeOf(bs[..|bs| - 1]) + 2 * (|bs| - 1);
    var body := Code(bs[|bs| - 1], splitPc + 1);
    [Split(splitPc + 1, splitPc + |body| + 2)] + body + [if |bs| - 1 < patched then Jump(end) else Nop]
  }

  /** A non-empty alternation; a single branch is just that branch's code. */
  function AltCode(bs: seq<AstNode>, base: nat): seq<Inst>
    requires |bs| >= 1
    decreases bs, 1, 0
  {
    var n := |bs|;
    var end := base + SizeOf(bs) + 2 * (n - 1);
    var head := AltBranches(bs[..n - 1], base, end, n - 1);
    head + Code(bs[n - 1], base + |head|)
  }

  /** The code `emit_quantifier` appends. */
  function QuantCode(sub: AstNode, kind: QuantifierKind, greedy: bool, base: nat): seq<Inst>
    decreases sub, 4, 0
  {
    match kind
    case Star => StarCode(sub, greedy, base)
    case Plus => PlusCode(sub, greedy, base)
    case Question => QuestionCode(sub, greedy, base)
    case Exact(n) => Copies(sub, n, base)
    case AtLeast(n) => AtLeastCode(sub, n, greedy, base)
    case Range(n, m) => RangeCode(sub, n, m, greedy, base)
  }

  /** `{n,}`: n copies of the body, then the body under `*`. */
  function AtLeastCode(sub: AstNode, n: nat, greedy: bool, base: nat): seq<Inst>
    decreases sub, 2, 0
  {
    var required := Copies(sub, n, base);
    required + StarCode(sub, greedy, base + |required|)
  }

  /** `{n,m}`: n copies of the body, then m - n optional copies. */
  function RangeCode(sub: AstNode, n: nat, m: nat, greedy: bool, base: nat): seq<Inst>
    decreases sub, 3, 0
  {
    var required := Copies(sub, n, base);
    required + Optionals(sub, if n <= m then m - n else 0, greedy, base + |required|)
  }

  /** `*`: a Split over the body, which jumps back to the Split. Lazy swaps the Split's targets. */
  function StarCode(sub: AstNode, greedy: bool, base: nat): seq<Inst>
    decreases sub, 1, 0
  {
    var body := Code(sub, base + 1);
    var exit := base + |body| + 2;
    [if greedy then Split(base + 1, exit) else Split(exit, base + 1)] + body + [Jump(base)]
  }

  /** `+`: the body, then a Split back to its start. */
  function PlusCode(sub: AstNode, greedy: bool, base: nat): seq<Inst>
    decreases sub, 1, 0
  {
    var body := Code(sub, base);
    var exit := base + |body| + 1;
    body + [if greedy then Split(base, exit) else Split(exit, base)]
  }

  /** `?`: a Split over the body. */
  function QuestionCode(sub: AstNode, greedy: bool, base: nat): seq<Inst>
    decreases sub, 1, 0
  {
    var body := Code(sub, base + 1);
    var exit := base + |body| + 1;
    [if greedy then Split(base + 1, exit) else Split(exit, base + 1)] + body
  }

  /** `count` consecutive copies of the code of `sub`. */
  function Copies(sub: AstNode, count: nat, base: nat): seq<Inst>
    decreases sub, 1, count
  {
    if count == 0 then []
    else
      var prev := Copies(sub, count - 1, base);
      prev + Code(sub, base + |prev|)
  }

  /** `count` consecutive `sub?` units (lazy ones when not greedy). */
  function Optionals(sub: AstNode, count: nat, greedy: bool, base: nat): seq<Inst>
    decreases sub, 2, count
  {
    if count == 0 then []
    else
      var prev := Optionals(sub, count - 1, greedy, base);
      prev + QuestionCode(sub, greedy, base + |prev|)
  }

  /** The code emitted for a node has exactly `Size(node)` instructions. */
  lemma {:induction false} CodeLength(node: AstNode, base: nat)
    ensures |Code(node, base)| == Size(node)
    decreases node, 0, 0
  {
    match node
    case Concat(ns) => ConcatCodeLength(ns, base);
    case Alternation(bs) => if |bs| > 0 { AltCodeLength(bs, base); }
    case Quantifier(sub, kind, greedy) => QuantCodeLength(sub, kind, greedy, base);
    case Group(_, sub) => CodeLength(sub, base + 1);
    case NonCapturingGroup(sub) => CodeLength(sub, base);
    case Lookahead(sub, _) => CodeLength(sub, base + 1);
    case Lookbehind(sub, _) => CodeLength(sub, base + 1);
    case _ =>
  }

  lemma {:induction false} ConcatCodeLength(ns: seq<AstNode>, base: nat)
    ensures |ConcatCode(ns, base)| == SizeOf(ns)
    decreases ns, 0, 0
  {
    if |ns| > 0 {
      var prev := ConcatCode(ns[..|ns| - 1], base);
      ConcatCodeLength(ns[..|ns| - 1], base);
      CodeLength(ns[|ns| - 1], base + |prev|);
    }
  }

  lemma {:induction false} AltBranchesLength(bs: seq<AstNode>, base: nat, end: nat, patched: nat)
    ensures |AltBranches(bs, base, end, patched)| == SizeOf(bs) + 2 * |bs|
    decreases bs, 0, 1
  {
    if |bs| > 0 {
      AltBranchesLength(bs[..|bs| - 1], base, end, patched);
      var splitPc := base + SizeOf(bs[..|bs| - 1]) + 2 * (|bs| - 1);
      CodeLength(bs[|bs| - 1], splitPc + 1);
    }
  }

  lemma {:induction false} AltCodeLength(bs: seq<AstNode>, base: nat)
    requires |bs| >= 1
    ensures |AltCode(bs, base)| == SizeOf(bs) + 2 * (|bs| - 1)
    decreases bs, 1, 0
  {
    var n := |bs|;
    var end := base + SizeOf(bs) + 2 * (n - 1);
    var head := AltBranches(bs[..n - 1], base, end, n - 1);
    AltBranchesLength(bs[..n - 1], base, end, n - 1);
    CodeLength(bs[n - 1], base + |head|);
  }

  lemma {:induction false} QuantCodeLength(sub: AstNode, kind: QuantifierKind, greedy: bool, base: nat)
    ensures |QuantCode(sub, kind, greedy, base)| == Size(Quantifier(sub, kind, greedy))
    decreases sub, 5, 0
  {
    assert Size(Quantifier(sub, kind, greedy)) == QuantSize(Size(sub), kind);
    match kind
    case Star => CodeLength(sub, base + 1);
    case Plus => CodeLength(sub, base);
    case Question => CodeLength(sub, base + 1);
    case Exact(n) => CopiesLength(sub, n, base);
    case AtLeast(n) => AtLeastCodeLength(sub, n, greedy, base);
    case Range(n, m) => RangeCodeLength(sub, n, m, greedy, base);
  }

  lemma {:induction false} AtLeastCodeLength(sub: AstNode, n: nat, greedy: bool, base: nat)
    ensures |AtLeastCode(sub, n, greedy, base)| == Repeat(Size(sub), n) + Size(sub) + 2
    decreases sub, 4, 0
  {
    var required := Copies(sub, n, base);
    CopiesLength(sub, n, base);
    CodeLength(sub, base + |required| + 1);
  }

  lemma {:induction false} RangeCodeLength(sub: AstNode, n: nat, m: nat, greedy: bool, base: nat)
    ensures |RangeCode(sub, n, m, greedy, base)| == Repeat(Size(sub), n) + Repeat(Size(sub) + 1, if n <= m then m - n else 0)
    decreases sub, 4, 0
  {
    var required := Copies(sub, n, base);
    CopiesLength(sub, n, base);
    OptionalsLength(sub, if n <= m then m - n else 0, greedy, base + |required|);
  }

  lemma {:induction false} CopiesLength(sub: AstNode, count: nat, base: nat)
    ensures |Copies(sub, count, base)| == Repeat(Size(sub), count)
    decreases sub, 1, count
  {
    if count > 0 {
      CopiesLength(sub, count - 1, base);
      CodeLength(sub, base + |Copies(sub, count - 1, base)|);
    }
  }

  lemma {:induction false} OptionalsLength(sub: AstNode, count: nat, greedy: bool, base: nat)
    ensures |Optionals(sub, count, greedy, base)| == Repeat(Size(sub) + 1, count)
    decreases sub, 2, count
  {
    if count > 0 {
      OptionalsLength(sub, count - 1, greedy, base);
      CodeLength(sub, base + |Optionals(sub, count - 1, greedy, base)| + 1);
    }
  }

  /** The program for a pattern: its code and one final `Match`, with the search hints. */
  function Compiled(ast: AstNode, nGroups: nat): Program
  {
    var insts := Code(ast, 0) + [Match];
    Program(insts, nGroups, ExtractFirstChar(insts), insts[0] == AssertStart)
  }

  /** The literal every match must start with, if the program begins with one (after `^`). */
  function ExtractFirstChar(insts: seq<Inst>): Option<char>
  {
    if |insts| == 0 then None
    else match insts[0]
      case Char(ch) => Some(ch)
      case AssertStart =>
        if |insts| > 1 then
          match insts[1]
          case Char(ch) => Some(ch)
          case _ => None
        else None
      case _ => None
  }

  method Compile(ast: AstNode, nGroups: nat) returns (p: Program)
    requires RangesOrdered(ast)
    ensures p == Compiled(ast, nGroups)
  {
    var insts := Emit([], ast);
    insts := insts + [Match];
    var firstChar := ExtractFirstChar(insts);
    var anchoredStart := insts[0] == AssertStart;
    p := Program(insts, nGroups, firstChar, anchoredStart);
  }

  /** `emit`: appends the code of `node`. */
  method Emit(insts: seq<Inst>, node: AstNode) returns (out: seq<Inst>)
    requires RangesOrdered(node)
    ensures out == insts + Code(node, |insts|)
    decreases node, 0, 2
  {
    match node {
      case Literal(ch) =>
        out := insts + [Char(ch)];
      case Dot =>
        out := insts + [AnyChar];
      case Concat(ns) =>
        out := EmitConcat(insts, ns);
      case Alternation(bs) =>
        out := EmitAlternation(insts, bs);
      case Quantifier(sub, kind, greedy) =>
        out := EmitQuantifier(insts, sub, kind, greedy);
      case CharClass(items, negated) =>
        out := insts + [Inst.CharClass(items, negated)];
      case ShorthandClass(kind) =>
        out := insts + [Inst.ShorthandClass(kind)];
      case Anchor(a) =>
        match a {
          case Start => out := insts + [AssertStart];
          case End => out := insts + [AssertEnd];
          case WordBoundary => out := insts + [AssertWordBoundary];
          case NonWordBoundary => out := insts + [AssertNonWordBoundary];
        }
      case Group(index, sub) =>
        out := EmitGroup(insts, index, sub);
      case NonCapturingGroup(sub) =>
        out := Emit(insts, sub);
      case Backreference(k) =>
        out := insts + [Backref(k)];
      case Lookahead(sub, positive) =>
        out := EmitLookaround(insts, sub, true, positive);
      case Lookbehind(sub, positive) =>
        out := EmitLookaround(insts, sub, false, positive);
    }
  }

  /** The concatenation arm of `emit`: each child in turn. */
  method EmitConcat(insts: seq<Inst>, ns: seq<AstNode>) returns (out: seq<Inst>)
    requires RangesOrderedAll(ns)
    ensures out == insts + ConcatCode(ns, |insts|)
    decreases ns, 0, 0
  {
    out := insts;
    for i := 0 to |ns|
      invariant out == insts + ConcatCode(ns[..i], |insts|)
    {
      assert ns[..i + 1][..i] == ns[..i];
      OrderedElement(ns, i);
      Append2(insts, ConcatCode(ns[..i], |insts|), Code(ns[i], |out|));
      out := Emit(out, ns[i]);
    }
    assert ns[..|ns|] == ns;
  }

  /** The group arm of `emit`: `Save` around the body. */
  method EmitGroup(insts: seq<Inst>, index: nat, sub: AstNode) returns (out: seq<Inst>)
    requires RangesOrdered(sub)
    ensures out == insts + GroupCode(index, sub, |insts|)
    decreases sub, 2, 0
  {
    out := insts + [Save(index * 2)];
    out := Emit(out, sub);
    out := out + [Save(index * 2 + 1)];
    Append3(insts, [Save(index * 2)], Code(sub, |insts| + 1), [Save(index * 2 + 1)]);
  }

  /** The lookahead and lookbehind arms of `emit`: a placeholder patched once the body's end is known. */
  method EmitLookaround(insts: seq<Inst>, sub: AstNode, ahead: bool, positive: bool) returns (out: seq<Inst>)
    requires RangesOrdered(sub)
    ensures out == insts + LookaroundCode(sub, ahead, positive, |insts|)
    decreases sub, 2, 0
  {
    var lookPc := |insts|;
    out := insts + [Nop];
    var subStart := |out|;
    out := Emit(out, sub);
    out := out + [Match];
    var subEnd := |out|;
    Append3(insts, [Nop], Code(sub, subStart), [Match]);
    PatchFirst(insts, Nop, Code(sub, subStart) + [Match], LookInst(ahead, positive, subStart, subEnd));
    out := out[lookPc := LookInst(ahead, positive, subStart, subEnd)];
  }

  /** The alternation arm of `emit`: branches left to right, exits back-patched at the end. */
  method EmitAlternation(insts: seq<Inst>, bs: seq<AstNode>) returns (out: seq<Inst>)
    requires RangesOrdered(Alternation(bs))
    ensures out == insts + Code(Alternation(bs), |insts|)
    decreases Alternation(bs), 0, 1
  {
    var n := |bs|;
    if n == 0 {
      return insts;
    }
    if n == 1 {
      OrderedElement(bs, 0);
      out := Emit(insts, bs[0]);
      AltCodeSingle(bs, |insts|);
      return;
    }
    AltCodeParts(bs, |insts|);
    out := EmitBranchesThenLast(insts, bs);
    Append2(insts, AltBranches(bs[..n - 1], |insts|, |insts| + Size(Alternation(bs)), n - 1),
            Code(bs[n - 1], |insts| + SizeOf(bs[..n - 1]) + 2 * (n - 1)));
  }

  /** Two or more branches: the segments of all but the last, the last one, then the back-patching. */
  method EmitBranchesThenLast(insts: seq<Inst>, bs: seq<AstNode>) returns (out: seq<Inst>)
    requires |bs| >= 2 && RangesOrderedAll(bs)
    ensures out == insts + AltBranches(bs[..|bs| - 1], |insts|, |insts| + Size(Alternation(bs)), |bs| - 1)
                   + Code(bs[|bs| - 1], |insts| + SizeOf(bs[..|bs| - 1]) + 2 * (|bs| - 1))
    decreases Alternation(bs), 0, 0
  {
    var init := bs[..|bs| - 1];
    var lastBranch := bs[|bs| - 1];
    AltCodeParts(bs, |insts|);
    ghost var end := |insts| + SizeOf(init) + 2 * |init| + Size(lastBranch);
    var fixupJumps;
    out, fixupJumps := EmitBranches(insts, init, end);
    AltBranchesLength(init, |insts|, end, 0);
    ghost var last := Code(lastBranch, |out|);
    CodeLength(lastBranch, |out|);
    out := Emit(out, lastBranch);
    out := PatchExits(insts, init, last, out, fixupJumps);
  }

  lemma AltCodeSingle(bs: seq<AstNode>, base: nat)
    requires |bs| == 1
    ensures AltCode(bs, base) == Code(bs[0], base)
  {
    assert AltBranches(bs[..0], base, base + SizeOf(bs), 0) == [];
  }

  /** An alternation of n >= 2 branches: the n - 1 patched branch segments, then the last branch. */
  lemma AltCodeParts(bs: seq<AstNode>, base: nat)
    requires |bs| >= 2
    ensures Size(Alternation(bs)) == SizeOf(bs[..|bs| - 1]) + 2 * (|bs| - 1) + Size(bs[|bs| - 1])
    ensures AltCode(bs, base)
         == AltBranches(bs[..|bs| - 1], base, base + Size(Alternation(bs)), |bs| - 1)
          + Code(bs[|bs| - 1], base + SizeOf(bs[..|bs| - 1]) + 2 * (|bs| - 1))
  {
    AltBranchesLength(bs[..|bs| - 1], base, base + Size(Alternation(bs)), |bs| - 1);
  }

  /** The first loop of the alternation arm: each non-last branch behind a `Split`, its exit left as `Nop`. */
  method EmitBranches(insts: seq<Inst>, bs: seq<AstNode>, ghost end: nat)
    returns (out: seq<Inst>, fixupJumps: seq<nat>)
    requires RangesOrderedAll(bs)
    ensures out == insts + AltBranches(bs, |insts|, end, 0)
    ensures |fixupJumps| == |bs|
    ensures forall j :: 0 <= j < |bs| ==> fixupJumps[j] == |insts| + SizeOf(bs[..j + 1]) + 2 * j + 1
    decreases bs, 0, 0
  {
    out := insts;
    fixupJumps := [];
    for i := 0 to |bs|
      invariant out == insts + AltBranches(bs[..i], |insts|, end, 0)
      invariant |fixupJumps| == i
      invariant forall j :: 0 <= j < i ==> fixupJumps[j] == |insts| + SizeOf(bs[..j + 1]) + 2 * j + 1
    {
      assert bs[..i + 1][..i] == bs[..i];
      OrderedElement(bs, i);
      AltBranchesLength(bs[..i], |insts|, end, 0);
      ghost var prefix := AltBranches(bs[..i], |insts|, end, 0);
      var splitPc := |out|;
      out := EmitBranch(out, bs[i]);
      CodeLength(bs[i], splitPc + 1);
      fixupJumps := fixupJumps + [|out| - 1];
      assert SizeOf(bs[..i + 1]) == SizeOf(bs[..i]) + Size(bs[i]);
      BranchSegmentOf(bs, i, |insts|, end);
      Append2(insts, prefix, BranchSegment(bs[..i + 1], |insts|, end, 0));
    }
    assert bs[..|bs|] == bs;
  }

  /** One non-last branch: a `Split` to its code or past it, its code, then a `Nop` exit placeholder. */
  method EmitBranch(insts: seq<Inst>, node: AstNode) returns (out: seq<Inst>)
    requires RangesOrdered(node)
    ensures out == insts + ([Split(|insts| + 1, |insts| + Size(node) + 2)] + Code(node, |insts| + 1) + [Nop])
    decreases node, 0, 3
  {
    ghost var body := Code(node, |insts| + 1);
    var splitPc := |insts|;
    out := insts + [Nop];
    var branchStart := |out|;
    out := Emit(out, node);
    CodeLength(node, branchStart);
    out := out + [Nop];
    var nextBranch := |out|;
    var split := Split(branchStart, nextBranch);
    assert out == insts + [Nop] + body + [Nop];
    Append2(insts + [Nop], body, [Nop]);
    PatchFirst(insts, Nop, body + [Nop], split);
    Append2(insts + [split], body, [Nop]);
    Append3(insts, [split], body, [Nop]);
    out := out[splitPc := split];
  }

  /** The segment of branch i, in terms of the code before it. */
  lemma BranchSegmentOf(bs: seq<AstNode>, i: nat, base: nat, end: nat)
    requires i < |bs|
    ensures var p := base + SizeOf(bs[..i]) + 2 * i;
              BranchSegment(bs[..i + 1], base, end, 0)
              == [Split(p + 1, p + Size(bs[i]) + 2)] + Code(bs[i], p + 1) + [Nop]
  {
    assert bs[..i + 1][..i] == bs[..i];
    CodeLength(bs[i], base + SizeOf(bs[..i]) + 2 * i + 1);
  }

  /** The second loop of the alternation arm: every recorded exit becomes `Jump(end)`. */
  method PatchExits(insts: seq<Inst>, ghost bs: seq<AstNode>, ghost last: seq<Inst>, code: seq<Inst>, fixupJumps: seq<nat>)
    returns (out: seq<Inst>)
    requires code == insts + AltBranches(bs, |insts|, |code|, 0) + last
    requires |fixupJumps| == |bs|
    requires forall j :: 0 <= j < |bs| ==> fixupJumps[j] == |insts| + SizeOf(bs[..j + 1]) + 2 * j + 1
    ensures out == insts + AltBranches(bs, |insts|, |code|, |bs|) + last
  {
    out := code;
    var end := |code|;
    for k := 0 to |fixupJumps|
      invariant out == insts + AltBranches(bs, |insts|, end, k) + last
    {
      AltBranchesPatch(bs, |insts|, end, k);
      PatchInside(insts, AltBranches(bs, |insts|, end, k), last, SizeOf(bs[..k + 1]) + 2 * k + 1, Jump(end));
      out := out[fixupJumps[k] := Jump(end)];
    }
  }

  lemma Append2(a: seq<Inst>, x: seq<Inst>, b: seq<Inst>)
    ensures a + x + b == a + (x + b)
  {
  }

  lemma Append3(a: seq<Inst>, x: seq<Inst>, b: seq<Inst>, y: seq<Inst>)
    ensures a + x + b + y == a + (x + b + y)
  {
  }

  /** Replacing the placeholder right after `a`. */
  lemma PatchFirst(a: seq<Inst>, x: Inst, b: seq<Inst>, y: Inst)
    ensures (a + [x] + b)[|a| := y] == a + [y] + b
  {
  }

  /** Replacing an instruction inside the middle part of a list. */
  lemma PatchInside(a: seq<Inst>, m: seq<Inst>, b: seq<Inst>, i: nat, y: Inst)
    requires i < |m|
    ensures (a + m + b)[|a| + i := y] == a + m[i := y] + b
  {
  }

  /** Once every exit is patched, the number of patched exits no longer matters. */
  lemma {:induction false} AltBranchesSettled(bs: seq<AstNode>, base: nat, end: nat, p: nat, q: nat)
    requires |bs| <= p && |bs| <= q
    ensures AltBranches(bs, base, end, p) == AltBranches(bs, base, end, q)
    decreases |bs|
  {
    if |bs| > 0 {
      AltBranchesSettled(bs[..|bs| - 1], base, end, p, q);
    }
  }

  /** Back-patching the exit of branch `k` turns `k` patched exits into `k + 1`. */
  lemma {:induction false} AltBranchesPatch(bs: seq<AstNode>, base: nat, end: nat, k: nat)
    requires k < |bs|
    ensures SizeOf(bs[..k + 1]) + 2 * k + 1 < |AltBranches(bs, base, end, k)|
    ensures AltBranches(bs, base, end, k)[SizeOf(bs[..k + 1]) + 2 * k + 1 := Jump(end)]
         == AltBranches(bs, base, end, k + 1)
    decreases |bs|, 1
  {
    AltBranchesLength(bs, base, end, k);
    if k < |bs| - 1 {
      AltBranchesPatchEarlier(bs, base, end, k);
    } else {
      assert bs[..k + 1] == bs;
      AltBranchesLength(bs[..|bs| - 1], base, end, k);
      AltBranchesSettled(bs[..|bs| - 1], base, end, k, k + 1);
    }
  }

  lemma {:induction false} AltBranchesPatchEarlier(bs: seq<AstNode>, base: nat, end: nat, k: nat)
    requires k < |bs| - 1
    ensures SizeOf(bs[..k + 1]) + 2 * k + 1 < |AltBranches(bs, base, end, k)|
    ensures AltBranches(bs, base, end, k)[SizeOf(bs[..k + 1]) + 2 * k + 1 := Jump(end)]
         == AltBranches(bs, base, end, k + 1)
    decreases |bs|, 0
  {
    var init := bs[..|bs| - 1];
    assert init[..k + 1] == bs[..k + 1];
    AltBranchesPatch(init, base, end, k);
    AltBranchesLength(init, base, end, k);
    assert BranchSegment(bs, base, end, k) == BranchSegment(bs, base, end, k + 1);
    PatchInside([], AltBranches(init, base, end, k), BranchSegment(bs, base, end, k),
                SizeOf(bs[..k + 1]) + 2 * k + 1, Jump(end));
  }

  /** `emit_quantifier`. */
  method EmitQuantifier(insts: seq<Inst>, sub: AstNode, kind: QuantifierKind, greedy: bool)
    returns (out: seq<Inst>)
    requires RangesOrdered(Quantifier(sub, kind, greedy))
    ensures out == insts + QuantCode(sub, kind, greedy, |insts|)
    decreases sub, 4, 0
  {
    match kind {
      case Star =>
        out := EmitStar(insts, sub, greedy);
      case Plus =>
        out := EmitPlus(insts, sub, greedy);
      case Question =>
        out := EmitQuestion(insts, sub, greedy);
      case Exact(n) =>
        out := EmitCopies(insts, sub, n);
      case AtLeast(n) =>
        out := EmitAtLeast(insts, sub, n, greedy);
      case Range(n, m) =>
        out := EmitRange(insts, sub, n, m, greedy);
    }
  }

  /** `+`: the body, then a Split back to its start. */
  method EmitPlus(insts: seq<Inst>, sub: AstNode, greedy: bool) returns (out: seq<Inst>)
    requires RangesOrdered(sub)
    ensures out == insts + PlusCode(sub, greedy, |insts|)
    decreases sub, 1, 0
  {
    var l1 := |insts|;
    out := Emit(insts, sub);
    var l2 := |out| + 1;
    Append2(insts, Code(sub, l1), [if greedy then Split(l1, l2) else Split(l2, l1)]);
    out := out + [if greedy then Split(l1, l2) else Split(l2, l1)];
  }

  /** `{n,}`: n copies, then `*`. */
  method EmitAtLeast(insts: seq<Inst>, sub: AstNode, n: nat, greedy: bool) returns (out: seq<Inst>)
    requires RangesOrdered(sub)
    ensures out == insts + AtLeastCode(sub, n, greedy, |insts|)
    decreases sub, 2, 0
  {
    ghost var required := Copies(sub, n, |insts|);
    out := EmitCopies(insts, sub, n);
    ghost var star := StarCode(sub, greedy, |out|);
    assert AtLeastCode(sub, n, greedy, |insts|) == required + star;
    out := EmitStar(out, sub, greedy);
    Append2(insts, required, star);
  }

  /** `{n,m}`: n copies, then m - n optional ones. */
  method EmitRange(insts: seq<Inst>, sub: AstNode, n: nat, m: nat, greedy: bool) returns (out: seq<Inst>)
    requires RangesOrdered(sub) && n <= m
    ensures out == insts + RangeCode(sub, n, m, greedy, |insts|)
    decreases sub, 3, 0
  {
    ghost var required := Copies(sub, n, |insts|);
    out := EmitCopies(insts, sub, n);
    ghost var optional := Optionals(sub, m - n, greedy, |out|);
    assert RangeCode(sub, n, m, greedy, |insts|) == required + optional;
    out := EmitOptionals(out, sub, m - n, greedy);
    Append2(insts, required, optional);
  }

  /** `*`: Split over the body, which jumps back to the Split. */
  method EmitStar(insts: seq<Inst>, sub: AstNode, greedy: bool) returns (out: seq<Inst>)
    requires RangesOrdered(sub)
    ensures out == insts + StarCode(sub, greedy, |insts|)
    decreases sub, 1, 0
  {
    ghost var body := Code(sub, |insts| + 1);
    var l1 := |insts|;
    out := insts + [Nop];
    var l2 := |out|;
    out := Emit(out, sub);
    assert out == insts + [Nop] + body;
    out := out + [Jump(l1)];
    var l3 := |out|;
    var split := if greedy then Split(l2, l3) else Split(l3, l2);
    Append3(insts, [Nop], body, [Jump(l1)]);
    PatchFirst(insts, Nop, body + [Jump(l1)], split);
    out := out[l1 := split];
    assert out == insts + ([split] + body + [Jump(l1)]);
  }

  /** `?`: Split over the body. */
  method EmitQuestion(insts: seq<Inst>, sub: AstNode, greedy: bool) returns (out: seq<Inst>)
    requires RangesOrdered(sub)
    ensures out == insts + QuestionCode(sub, greedy, |insts|)
    decreases sub, 1, 0
  {
    var splitPc := |insts|;
    out := insts + [Nop];
    var l1 := |out|;
    out := Emit(out, sub);
    var l2 := |out|;
    PatchFirst(insts, Nop, Code(sub, l1), if greedy then Split(l1, l2) else Split(l2, l1));
    out := out[splitPc := if greedy then Split(l1, l2) else Split(l2, l1)];
  }

  /** The `for _ in 0..n { emit(insts, sub) }` loop of the counted quantifiers. */
  method EmitCopies(insts: seq<Inst>, sub: AstNode, count: nat) returns (out: seq<Inst>)
    requires RangesOrdered(sub)
    ensures out == insts + Copies(sub, count, |insts|)
    decreases sub, 1, 0
  {
    out := insts;
    for c := 0 to count
      invariant out == insts + Copies(sub, c, |insts|)
    {
      Append2(insts, Copies(sub, c, |insts|), Code(sub, |out|));
      out := Emit(out, sub);
    }
  }

  /** The `m - n` optional copies of `{n,m}`, each one `sub?`. */
  method EmitOptionals(insts: seq<Inst>, sub: AstNode, count: nat, greedy: bool) returns (out: seq<Inst>)
    requires RangesOrdered(sub)
    ensures out == insts + Optionals(sub, count, greedy, |insts|)
    decreases sub, 2, 0
  {
    out := insts;
    for c := 0 to count
      invariant out == insts + Optionals(sub, c, greedy, |insts|)
    {
      ghost var done := Optionals(sub, c, greedy, |insts|);
      ghost var next := QuestionCode(sub, greedy, |out|);
      assert Optionals(sub, c + 1, greedy, |insts|) == done + next;
      out := EmitQuestion(out, sub, greedy);
      Append2(insts, done, next);
    }
  }
}
