/**
  Structural properties of the code the compiler emits: once back-patching is
  done no `Nop` placeholder is left, every `Jump`/`Split` target lies inside the
  program, every lookaround marker at p holds (p + 1, q) with the body's own
  `Match` at q - 1, every `Save` slot lies below 2 * (g + 1) where g bounds the
  group indices, every `Backref` names a group below r, and the program ends in
  `Match`.

  `WellFormed(code, base, lo, hi, g, r)` says this of a fragment placed at `base`
  whose targets must stay within [lo, hi]; fragments join into larger ones.
*/
module CompilerFacts {
  import opened Ast
  import opened Compiler

  function Max(a: nat, b: nat): nat
  {
    if a < b then b else a
  }

  /** The largest index of a capturing group inside a node (0 when there is none). */
  function MaxGroup(node: AstNode): nat
    decreases node, 1
  {
    match node
    case Concat(ns) => MaxGroupOf(ns)
    case Alternation(bs) => MaxGroupOf(bs)
    case Quantifier(sub, _, _) => MaxGroup(sub)
    case Group(index, sub) => Max(index, MaxGroup(sub))
    case NonCapturingGroup(sub) => MaxGroup(sub)
    case Lookahead(sub, _) => MaxGroup(sub)
    case Lookbehind(sub, _) => MaxGroup(sub)
    case _ => 0
  }

  function MaxGroupOf(ns: seq<AstNode>): nat
    decreases ns, 0
  {
    if |ns| == 0 then 0 else Max(MaxGroupOf(ns[..|ns| - 1]), MaxGroup(ns[|ns| - 1]))
  }

  /** One more than the largest group number a backreference in the node names (0 when there is none). */
  function MaxRef(node: AstNode): nat
    decreases node, 1
  {
    match node
    case Concat(ns) => MaxRefOf(ns)
    case Alternation(bs) => MaxRefOf(bs)
    case Quantifier(sub, _, _) => MaxRef(sub)
    case Group(_, sub) => MaxRef(sub)
    case NonCapturingGroup(sub) => MaxRef(sub)
    case Lookahead(sub, _) => MaxRef(sub)
    case Lookbehind(sub, _) => MaxRef(sub)
    case Backreference(k) => k + 1
    case _ => 0
  }

  function MaxRefOf(ns: seq<AstNode>): nat
    decreases ns, 0
  {
    if |ns| == 0 then 0 else Max(MaxRefOf(ns[..|ns| - 1]), MaxRef(ns[|ns| - 1]))
  }

  predicate IsLook(inst: Inst)
  {
    inst.LookaheadPositive? || inst.LookaheadNegative? || inst.LookbehindPositive? || inst.LookbehindNegative?
  }

  /** A lookaround marker at index i of `code` (placed at `base`) opens a body that ends in `code` with a Match. */
  predicate LookOk(code: seq<Inst>, i: nat, base: nat)
    requires i < |code| && IsLook(code[i])
  {
    var e := code[i].subEnd;
    code[i].subStart == base + i + 1 && base + i + 2 <= e <= base + |code| && code[e - 1 - base] == Match
  }

  predicate InstOk(code: seq<Inst>, i: nat, base: nat, lo: nat, hi: nat, g: nat, r: nat)
    requires i < |code|
  {
    match code[i]
    case Nop => false
    case Jump(t) => lo <= t <= hi
    case Split(a, b) => lo <= a <= hi && lo <= b <= hi
    case Save(slot) => slot < 2 * (g + 1)
    case Backref(k) => k < r
    case LookaheadPositive(_, _) | LookaheadNegative(_, _) | LookbehindPositive(_, _) | LookbehindNegative(_, _) =>
      LookOk(code, i, base)
    case _ => true
  }

  predicate WellFormed(code: seq<Inst>, base: nat, lo: nat, hi: nat, g: nat, r: nat)
  {
    forall i :: 0 <= i < |code| ==> InstOk(code, i, base, lo, hi, g, r)
  }

  // ----- Joining fragments -----

  lemma Widen(code: seq<Inst>, base: nat, lo: nat, hi: nat, lo2: nat, hi2: nat, g: nat, r: nat)
    requires WellFormed(code, base, lo, hi, g, r) && lo2 <= lo && hi <= hi2
    ensures WellFormed(code, base, lo2, hi2, g, r)
  {
    forall i | 0 <= i < |code|
      ensures InstOk(code, i, base, lo2, hi2, g, r)
    {
      assert InstOk(code, i, base, lo, hi, g, r);
    }
  }

  lemma Join(a: seq<Inst>, b: seq<Inst>, base: nat, lo: nat, hi: nat, g: nat, r: nat)
    requires WellFormed(a, base, lo, hi, g, r) && WellFormed(b, base + |a|, lo, hi, g, r)
    ensures WellFormed(a + b, base, lo, hi, g, r)
  {
    var c := a + b;
    forall i | 0 <= i < |c|
      ensures InstOk(c, i, base, lo, hi, g, r)
    {
      if i < |a| {
        assert InstOk(a, i, base, lo, hi, g, r);
        assert c[i] == a[i];
        if IsLook(a[i]) {
          assert c[a[i].subEnd - 1 - base] == a[a[i].subEnd - 1 - base];
        }
      } else {
        var j := i - |a|;
        assert InstOk(b, j, base + |a|, lo, hi, g, r);
        assert c[i] == b[j];
        if IsLook(b[j]) {
          assert c[b[j].subEnd - 1 - base] == b[b[j].subEnd - 1 - (base + |a|)];
        }
      }
    }
  }

  /** A marker in front of a fragment; its own condition is checked against the whole. */
  lemma Prepend(x: Inst, rest: seq<Inst>, base: nat, lo: nat, hi: nat, g: nat, r: nat)
    requires WellFormed(rest, base + 1, lo, hi, g, r) && InstOk([x] + rest, 0, base, lo, hi, g, r)
    ensures WellFormed([x] + rest, base, lo, hi, g, r)
  {
    var c := [x] + rest;
    forall i | 0 < i < |c|
      ensures InstOk(c, i, base, lo, hi, g, r)
    {
      var j := i - 1;
      assert InstOk(rest, j, base + 1, lo, hi, g, r);
      assert c[i] == rest[j];
      if IsLook(rest[j]) {
        assert c[rest[j].subEnd - 1 - base] == rest[rest[j].subEnd - 1 - (base + 1)];
      }
    }
  }

  /** One instruction that is not a lookaround marker. */
  lemma Single(x: Inst, base: nat, lo: nat, hi: nat, g: nat, r: nat)
    requires !IsLook(x) && InstOk([x], 0, base, lo, hi, g, r)
    ensures WellFormed([x], base, lo, hi, g, r)
  {
  }

  // ----- The code of each node -----

  /** The code of a node is a well-formed fragment whose targets stay within it. */
  lemma {:induction false} CodeWellFormed(node: AstNode, base: nat, g: nat, r: nat)
    requires MaxGroup(node) <= g && MaxRef(node) <= r
    ensures WellFormed(Code(node, base), base, base, base + |Code(node, base)|, g, r)
    decreases node, 0, 0
  {
    var code := Code(node, base);
    match node
    case Concat(ns) => ConcatWellFormed(ns, base, g, r);
    case Alternation(bs) => if |bs| > 0 { AltWellFormed(bs, base, g, r); }
    case Quantifier(sub, kind, greedy) => QuantWellFormed(sub, kind, greedy, base, g, r);
    case Group(index, sub) => GroupWellFormed(index, sub, base, g, r);
    case NonCapturingGroup(sub) => CodeWellFormed(sub, base, g, r);
    case Lookahead(sub, positive) => LookaroundWellFormed(sub, true, positive, base, g, r);
    case Lookbehind(sub, positive) => LookaroundWellFormed(sub, false, positive, base, g, r);
    case Backreference(k) => Single(code[0], base, base, base + 1, g, r);
    case Literal(_) => Single(code[0], base, base, base + 1, g, r);
    case Dot => Single(code[0], base, base, base + 1, g, r);
    case CharClass(_, _) => Single(code[0], base, base, base + 1, g, r);
    case ShorthandClass(_) => Single(code[0], base, base, base + 1, g, r);
    case Anchor(_) => Single(code[0], base, base, base + 1, g, r);
  }

  lemma {:induction false} ConcatWellFormed(ns: seq<AstNode>, base: nat, g: nat, r: nat)
    requires MaxGroupOf(ns) <= g && MaxRefOf(ns) <= r
    ensures WellFormed(ConcatCode(ns, base), base, base, base + |ConcatCode(ns, base)|, g, r)
    decreases ns, 0, 0
  {
    if |ns| > 0 {
      var prev := ConcatCode(ns[..|ns| - 1], base);
      var last := Code(ns[|ns| - 1], base + |prev|);
      var hi := base + |prev| + |last|;
      ConcatWellFormed(ns[..|ns| - 1], base, g, r);
      CodeWellFormed(ns[|ns| - 1], base + |prev|, g, r);
      Widen(prev, base, base, base + |prev|, base, hi, g, r);
      Widen(last, base + |prev|, base + |prev|, hi, base, hi, g, r);
      Join(prev, last, base, base, hi, g, r);
    }
  }

  /**
    Branch segments ending at `end`, all of them patched: each Split leads into its
    branch or to the next segment, and each exit jumps to `end`.
  */
  lemma {:induction false} AltBranchesWellFormed(bs: seq<AstNode>, base: nat, end: nat, patched: nat, g: nat, r: nat)
    requires |bs| <= patched && MaxGroupOf(bs) <= g && MaxRefOf(bs) <= r && base + SizeOf(bs) + 2 * |bs| <= end
    ensures WellFormed(AltBranches(bs, base, end, patched), base, base, end, g, r)
    decreases bs, 0, 1
  {
    if |bs| > 0 {
      var init := bs[..|bs| - 1];
      var prev := AltBranches(init, base, end, patched);
      AltBranchesWellFormed(init, base, end, patched, g, r);
      AltBranchesLength(init, base, end, patched);
      var splitPc := base + SizeOf(init) + 2 * (|bs| - 1);
      var body := Code(bs[|bs| - 1], splitPc + 1);
      CodeWellFormed(bs[|bs| - 1], splitPc + 1, g, r);
      CodeLength(bs[|bs| - 1], splitPc + 1);
      Widen(body, splitPc + 1, splitPc + 1, splitPc + 1 + |body|, base, end, g, r);
      var split := Split(splitPc + 1, splitPc + |body| + 2);
      Single(split, splitPc, base, end, g, r);
      Single(Jump(end), splitPc + 1 + |body|, base, end, g, r);
      Join([split], body, splitPc, base, end, g, r);
      Join([split] + body, [Jump(end)], splitPc, base, end, g, r);
      assert BranchSegment(bs, base, end, patched) == [split] + body + [Jump(end)];
      Join(prev, BranchSegment(bs, base, end, patched), base, base, end, g, r);
    }
  }

  lemma {:induction false} AltWellFormed(bs: seq<AstNode>, base: nat, g: nat, r: nat)
    requires |bs| >= 1 && MaxGroupOf(bs) <= g && MaxRefOf(bs) <= r
    ensures WellFormed(AltCode(bs, base), base, base, base + |AltCode(bs, base)|, g, r)
    decreases bs, 1, 0
  {
    var n := |bs|;
    var end := base + SizeOf(bs) + 2 * (n - 1);
    var head := AltBranches(bs[..n - 1], base, end, n - 1);
    AltBranchesWellFormed(bs[..n - 1], base, end, n - 1, g, r);
    AltBranchesLength(bs[..n - 1], base, end, n - 1);
    var last := Code(bs[n - 1], base + |head|);
    CodeWellFormed(bs[n - 1], base + |head|, g, r);
    CodeLength(bs[n - 1], base + |head|);
    Widen(last, base + |head|, base + |head|, base + |head| + |last|, base, end, g, r);
    Join(head, last, base, base, end, g, r);
  }

  lemma {:induction false} QuantWellFormed(sub: AstNode, kind: QuantifierKind, greedy: bool, base: nat, g: nat, r: nat)
    requires MaxGroup(sub) <= g && MaxRef(sub) <= r
    ensures WellFormed(QuantCode(sub, kind, greedy, base), base, base, base + |QuantCode(sub, kind, greedy, base)|, g, r)
    decreases sub, 4, 0
  {
    match kind
    case Star => StarWellFormed(sub, greedy, base, g, r);
    case Plus => PlusWellFormed(sub, greedy, base, g, r);
    case Question => QuestionWellFormed(sub, greedy, base, g, r);
    case Exact(n) => CopiesWellFormed(sub, n, base, g, r);
    case AtLeast(n) => AtLeastWellFormed(sub, n, greedy, base, g, r);
    case Range(n, m) => RangeWellFormed(sub, n, m, greedy, base, g, r);
  }

  lemma {:induction false} AtLeastWellFormed(sub: AstNode, n: nat, greedy: bool, base: nat, g: nat, r: nat)
    requires MaxGroup(sub) <= g && MaxRef(sub) <= r
    ensures WellFormed(AtLeastCode(sub, n, greedy, base), base, base, base + |AtLeastCode(sub, n, greedy, base)|, g, r)
    decreases sub, 2, 0
  {
    var required := Copies(sub, n, base);
    var star := StarCode(sub, greedy, base + |required|);
    var hi := base + |required| + |star|;
    CopiesWellFormed(sub, n, base, g, r);
    StarWellFormed(sub, greedy, base + |required|, g, r);
    Widen(required, base, base, base + |required|, base, hi, g, r);
    Widen(star, base + |required|, base + |required|, hi, base, hi, g, r);
    Join(required, star, base, base, hi, g, r);
  }

  lemma {:induction false} RangeWellFormed(sub: AstNode, n: nat, m: nat, greedy: bool, base: nat, g: nat, r: nat)
    requires MaxGroup(sub) <= g && MaxRef(sub) <= r
    ensures WellFormed(RangeCode(sub, n, m, greedy, base), base, base, base + |RangeCode(sub, n, m, greedy, base)|, g, r)
    decreases sub, 3, 0
  {
    var required := Copies(sub, n, base);
    var count := if n <= m then m - n else 0;
    var optional := Optionals(sub, count, greedy, base + |required|);
    var hi := base + |required| + |optional|;
    CopiesWellFormed(sub, n, base, g, r);
    OptionalsWellFormed(sub, count, greedy, base + |required|, g, r);
    Widen(required, base, base, base + |required|, base, hi, g, r);
    Widen(optional, base + |required|, base + |required|, hi, base, hi, g, r);
    Join(required, optional, base, base, hi, g, r);
  }

  lemma {:induction false} StarWellFormed(sub: AstNode, greedy: bool, base: nat, g: nat, r: nat)
    requires MaxGroup(sub) <= g && MaxRef(sub) <= r
    ensures WellFormed(StarCode(sub, greedy, base), base, base, base + |StarCode(sub, greedy, base)|, g, r)
    decreases sub, 1, 0
  {
    var body := Code(sub, base + 1);
    var exit := base + |body| + 2;
    var split := if greedy then Split(base + 1, exit) else Split(exit, base + 1);
    CodeWellFormed(sub, base + 1, g, r);
    Widen(body, base + 1, base + 1, base + 1 + |body|, base, exit, g, r);
    Single(split, base, base, exit, g, r);
    Single(Jump(base), base + 1 + |body|, base, exit, g, r);
    Join([split], body, base, base, exit, g, r);
    Join([split] + body, [Jump(base)], base, base, exit, g, r);
  }

  lemma {:induction false} PlusWellFormed(sub: AstNode, greedy: bool, base: nat, g: nat, r: nat)
    requires MaxGroup(sub) <= g && MaxRef(sub) <= r
    ensures WellFormed(PlusCode(sub, greedy, base), base, base, base + |PlusCode(sub, greedy, base)|, g, r)
    decreases sub, 1, 0
  {
    var body := Code(sub, base);
    var exit := base + |body| + 1;
    var split := if greedy then Split(base, exit) else Split(exit, base);
    CodeWellFormed(sub, base, g, r);
    Widen(body, base, base, base + |body|, base, exit, g, r);
    Single(split, base + |body|, base, exit, g, r);
    Join(body, [split], base, base, exit, g, r);
  }

  lemma {:induction false} QuestionWellFormed(sub: AstNode, greedy: bool, base: nat, g: nat, r: nat)
    requires MaxGroup(sub) <= g && MaxRef(sub) <= r
    ensures WellFormed(QuestionCode(sub, greedy, base), base, base, base + |QuestionCode(sub, greedy, base)|, g, r)
    decreases sub, 1, 0
  {
    var body := Code(sub, base + 1);
    var exit := base + |body| + 1;
    var split := if greedy then Split(base + 1, exit) else Split(exit, base + 1);
    CodeWellFormed(sub, base + 1, g, r);
    Widen(body, base + 1, base + 1, exit, base, exit, g, r);
    Single(split, base, base, exit, g, r);
    Join([split], body, base, base, exit, g, r);
  }

  lemma {:induction false} CopiesWellFormed(sub: AstNode, count: nat, base: nat, g: nat, r: nat)
    requires MaxGroup(sub) <= g && MaxRef(sub) <= r
    ensures WellFormed(Copies(sub, count, base), base, base, base + |Copies(sub, count, base)|, g, r)
    decreases sub, 1, count
  {
    if count > 0 {
      var prev := Copies(sub, count - 1, base);
      var last := Code(sub, base + |prev|);
      var hi := base + |prev| + |last|;
      CopiesWellFormed(sub, count - 1, base, g, r);
      CodeWellFormed(sub, base + |prev|, g, r);
      Widen(prev, base, base, base + |prev|, base, hi, g, r);
      Widen(last, base + |prev|, base + |prev|, hi, base, hi, g, r);
      Join(prev, last, base, base, hi, g, r);
    }
  }

  lemma {:induction false} OptionalsWellFormed(sub: AstNode, count: nat, greedy: bool, base: nat, g: nat, r: nat)
    requires MaxGroup(sub) <= g && MaxRef(sub) <= r
    ensures WellFormed(Optionals(sub, count, greedy, base), base, base, base + |Optionals(sub, count, greedy, base)|, g, r)
    decreases sub, 2, count
  {
    if count > 0 {
      var prev := Optionals(sub, count - 1, greedy, base);
      var last := QuestionCode(sub, greedy, base + |prev|);
      var hi := base + |prev| + |last|;
      OptionalsWellFormed(sub, count - 1, greedy, base, g, r);
      QuestionWellFormed(sub, greedy, base + |prev|, g, r);
      Widen(prev, base, base, base + |prev|, base, hi, g, r);
      Widen(last, base + |prev|, base + |prev|, hi, base, hi, g, r);
      Join(prev, last, base, base, hi, g, r);
    }
  }

  lemma {:induction false} GroupWellFormed(index: nat, sub: AstNode, base: nat, g: nat, r: nat)
    requires index <= g && MaxGroup(sub) <= g && MaxRef(sub) <= r
    ensures WellFormed(GroupCode(index, sub, base), base, base, base + |GroupCode(index, sub, base)|, g, r)
    decreases sub, 2, 0
  {
    var body := Code(sub, base + 1);
    var hi := base + |body| + 2;
    CodeWellFormed(sub, base + 1, g, r);
    Widen(body, base + 1, base + 1, base + 1 + |body|, base, hi, g, r);
    Single(Save(index * 2), base, base, hi, g, r);
    Single(Save(index * 2 + 1), base + 1 + |body|, base, hi, g, r);
    Join([Save(index * 2)], body, base, base, hi, g, r);
    Join([Save(index * 2)] + body, [Save(index * 2 + 1)], base, base, hi, g, r);
  }

  lemma {:induction false} LookaroundWellFormed(sub: AstNode, ahead: bool, positive: bool, base: nat, g: nat, r: nat)
    requires MaxGroup(sub) <= g && MaxRef(sub) <= r
    ensures WellFormed(LookaroundCode(sub, ahead, positive, base), base, base, base + |LookaroundCode(sub, ahead, positive, base)|, g, r)
    decreases sub, 2, 0
  {
    var body := Code(sub, base + 1);
    var hi := base + |body| + 2;
    var marker := LookInst(ahead, positive, base + 1, hi);
    CodeWellFormed(sub, base + 1, g, r);
    Widen(body, base + 1, base + 1, base + 1 + |body|, base, hi, g, r);
    Single(Match, base + 1 + |body|, base, hi, g, r);
    Join(body, [Match], base + 1, base, hi, g, r);
    var code := [marker] + (body + [Match]);
    assert code[|body| + 1] == Match;
    assert InstOk(code, 0, base, base, hi, g, r);
    Prepend(marker, body + [Match], base, base, hi, g, r);
    assert LookaroundCode(sub, ahead, positive, base) == code;
  }

  /**
    The compiled program of any tree ends in Match, and it is well formed within
    itself: no placeholder is left, every Jump/Split target is an instruction of
    the program, every lookaround body ends in its own Match, every Save slot
    lies below 2 * (g + 1) for g the larger of `nGroups` and the largest group
    index of the tree, and every Backref names a group some backreference of the
    tree names.
  */
  lemma CompiledWellFormed(ast: AstNode, nGroups: nat)
    ensures var insts := Compiled(ast, nGroups).insts;
      |insts| > 0 && insts[|insts| - 1] == Match
      && WellFormed(insts, 0, 0, |insts| - 1, Max(nGroups, MaxGroup(ast)), MaxRef(ast))
  {
    var code := Code(ast, 0);
    var g := Max(nGroups, MaxGroup(ast));
    var r := MaxRef(ast);
    CodeWellFormed(ast, 0, g, r);
    Single(Match, |code|, 0, |code|, g, r);
    Join(code, [Match], 0, 0, |code|, g, r);
  }
}
