/**
  What a quantifier means once compiled: for a single-character atom (a literal,
  `.`, a bracketed class or a shorthand class), a match of the compiled
  `atom{kind}` consumes a run of characters the atom accepts whose length is a
  count the kind allows (any for `*`, at least one for `+`, at most one for `?`,
  n for `{n}`, at least n for `{n,}`, n to m for `{n,m}`), greedy or lazy alike.
*/
module QuantifierFacts {
  import opened Ast
  import opened Compiler
  import opened Vm

  predicate SingleChar(atom: AstNode)
  {
    atom.Literal? || atom.Dot? || atom.CharClass? || atom.ShorthandClass?
  }

  /** The one instruction a single-character atom compiles to. */
  function Unit(atom: AstNode): Inst
    requires SingleChar(atom)
  {
    match atom
    case Literal(ch) => Char(ch)
    case CharClass(items, negated) => Inst.CharClass(items, negated)
    case ShorthandClass(kind) => Inst.ShorthandClass(kind)
    case Dot => AnyChar
  }

  predicate IsUnit(u: Inst)
  {
    u.Char? || u.AnyChar? || u.CharClass? || u.ShorthandClass?
  }

  /** A quantifier's Split: greedy tries `body` first, lazy tries `exit` first. */
  function Fork(greedy: bool, body: nat, exit: nat): Inst
  {
    if greedy then Split(body, exit) else Split(exit, body)
  }

  /** The number of optional units of `{n,m}` as the compiler counts them. */
  function Spare(n: nat, m: nat): nat
  {
    if n <= m then m - n else 0
  }

  /** Length of the program for `u{k}`, its final Match included. */
  function Len(k: QuantifierKind): nat
  {
    match k
    case Star => 4
    case Plus => 3
    case Question => 3
    case Exact(n) => n + 1
    case AtLeast(n) => n + 4
    case Range(n, m) => n + 2 * Spare(n, m) + 1
  }

  /** Instruction `q` of the program for `u{k}`. */
  function Expected(k: QuantifierKind, u: Inst, greedy: bool, q: nat): Inst
  {
    match k
    case Star =>
      if q == 0 then Fork(greedy, 1, 3) else if q == 1 then u else if q == 2 then Jump(0) else Match
    case Plus =>
      if q == 0 then u else if q == 1 then Fork(greedy, 0, 2) else Match
    case Question =>
      if q == 0 then Fork(greedy, 1, 2) else if q == 1 then u else Match
    case Exact(n) =>
      if q < n then u else Match
    case AtLeast(n) =>
      if q < n then u
      else if q == n then Fork(greedy, n + 1, n + 3)
      else if q == n + 1 then u
      else if q == n + 2 then Jump(n)
      else Match
    case Range(n, m) =>
      if q < n then u
      else if q < n + 2 * Spare(n, m) then (if (q - n) % 2 == 0 then Fork(greedy, q + 1, q + 2) else u)
      else Match
  }

  predicate Layout(insts: seq<Inst>, k: QuantifierKind, u: Inst, greedy: bool)
  {
    |insts| == Len(k) && forall q :: 0 <= q < |insts| ==> LaidOut(insts, k, u, greedy, q)
  }

  predicate LaidOut(insts: seq<Inst>, k: QuantifierKind, u: Inst, greedy: bool, q: nat)
    requires q < |insts|
  {
    insts[q] == Expected(k, u, greedy, q)
  }

  // ----- The compiled layout -----

  lemma UnitCode(atom: AstNode, base: nat)
    requires SingleChar(atom)
    ensures Code(atom, base) == [Unit(atom)]
  {
  }

  lemma {:induction false} CopiesUnits(atom: AstNode, count: nat, base: nat)
    requires SingleChar(atom)
    ensures Copies(atom, count, base) == seq(count, _ => Unit(atom))
  {
    if count > 0 {
      CopiesUnits(atom, count - 1, base);
      UnitCode(atom, base + count - 1);
    }
  }

  lemma {:induction false} OptionalsUnits(atom: AstNode, count: nat, greedy: bool, base: nat)
    requires SingleChar(atom)
    ensures var o := Optionals(atom, count, greedy, base);
            |o| == 2 * count
            && forall j :: 0 <= j < 2 * count ==>
                 o[j] == if j % 2 == 0 then Fork(greedy, base + j + 1, base + j + 2) else Unit(atom)
  {
    if count > 0 {
      var prev := Optionals(atom, count - 1, greedy, base);
      OptionalsUnits(atom, count - 1, greedy, base);
      UnitCode(atom, base + |prev| + 1);
      var last := QuestionCode(atom, greedy, base + |prev|);
      assert last == [Fork(greedy, base + |prev| + 1, base + |prev| + 2), Unit(atom)];
    }
  }

  /** `compile` lays `atom{k}` out as `Expected` says. */
  lemma CompiledLayout(atom: AstNode, k: QuantifierKind, greedy: bool, nGroups: nat)
    requires SingleChar(atom)
    ensures Layout(Compiled(Quantifier(atom, k, greedy), nGroups).insts, k, Unit(atom), greedy)
  {
    var insts := Compiled(Quantifier(atom, k, greedy), nGroups).insts;
    assert insts == QuantCode(atom, k, greedy, 0) + [Match];
    match k
    case Star => StarLayout(atom, greedy);
    case Plus => PlusLayout(atom, greedy);
    case Question => QuestionLayout(atom, greedy);
    case Exact(n) => CopiesUnits(atom, n, 0);
    case AtLeast(n) => AtLeastLayout(atom, n, greedy);
    case Range(n, m) => RangeLayout(atom, n, m, greedy);
  }

  lemma StarLayout(atom: AstNode, greedy: bool)
    requires SingleChar(atom)
    ensures Layout(StarCode(atom, greedy, 0) + [Match], Star, Unit(atom), greedy)
  {
    UnitCode(atom, 1);
    assert StarCode(atom, greedy, 0) + [Match] == [Fork(greedy, 1, 3), Unit(atom), Jump(0), Match];
  }

  lemma PlusLayout(atom: AstNode, greedy: bool)
    requires SingleChar(atom)
    ensures Layout(PlusCode(atom, greedy, 0) + [Match], Plus, Unit(atom), greedy)
  {
    UnitCode(atom, 0);
    assert PlusCode(atom, greedy, 0) + [Match] == [Unit(atom), Fork(greedy, 0, 2), Match];
  }

  lemma QuestionLayout(atom: AstNode, greedy: bool)
    requires SingleChar(atom)
    ensures Layout(QuestionCode(atom, greedy, 0) + [Match], Question, Unit(atom), greedy)
  {
    UnitCode(atom, 1);
    assert QuestionCode(atom, greedy, 0) + [Match] == [Fork(greedy, 1, 2), Unit(atom), Match];
  }

  lemma AtLeastLayout(atom: AstNode, n: nat, greedy: bool)
    requires SingleChar(atom)
    ensures Layout(AtLeastCode(atom, n, greedy, 0) + [Match], AtLeast(n), Unit(atom), greedy)
  {
    var u := Unit(atom);
    CopiesUnits(atom, n, 0);
    UnitCode(atom, n + 1);
    assert StarCode(atom, greedy, n) == [Fork(greedy, n + 1, n + 3), u, Jump(n)];
    var insts := AtLeastCode(atom, n, greedy, 0) + [Match];
    assert insts == seq(n, _ => u) + [Fork(greedy, n + 1, n + 3), u, Jump(n), Match];
  }

  lemma RangeLayout(atom: AstNode, n: nat, m: nat, greedy: bool)
    requires SingleChar(atom)
    ensures Layout(RangeCode(atom, n, m, greedy, 0) + [Match], Range(n, m), Unit(atom), greedy)
  {
    var u := Unit(atom);
    CopiesUnits(atom, n, 0);
    OptionalsUnits(atom, Spare(n, m), greedy, n);
    var o := Optionals(atom, Spare(n, m), greedy, n);
    var insts := RangeCode(atom, n, m, greedy, 0) + [Match];
    assert insts == seq(n, _ => u) + o + [Match];
    forall q | 0 <= q < |insts|
      ensures insts[q] == Expected(Range(n, m), u, greedy, q)
    {
      if n <= q < n + |o| {
        assert insts[q] == o[q - n];
      }
    }
  }

  // ----- Counting along a run -----

  /** The counts of consumed characters with which a run can be at `q`. */
  predicate Inv(k: QuantifierKind, q: nat, c: nat)
  {
    match k
    case Star => true
    case Plus => q == 0 || c >= 1
    case Question => if q <= 1 then c == 0 else c <= 1
    case Exact(n) => c == q
    case AtLeast(n) => if q < n then c == q else c >= n
    case Range(n, m) => if q < n then c == q else n <= c <= n + (q - n) / 2
  }

  predicate Ordered(k: QuantifierKind)
  {
    k.Range? ==> k.n <= k.m
  }

  lemma InvUnit(k: QuantifierKind, u: Inst, greedy: bool, q: nat, c: nat)
    requires IsUnit(u) && q < Len(k) && Expected(k, u, greedy, q) == u && Inv(k, q, c)
    ensures Inv(k, q + 1, c + 1)
  {
  }

  lemma InvSplit(k: QuantifierKind, u: Inst, greedy: bool, q: nat, c: nat)
    requires IsUnit(u) && q < Len(k) && Expected(k, u, greedy, q).Split? && Inv(k, q, c)
    ensures Inv(k, Expected(k, u, greedy, q).first, c) && Inv(k, Expected(k, u, greedy, q).second, c)
  {
  }

  lemma InvJump(k: QuantifierKind, u: Inst, greedy: bool, q: nat, c: nat)
    requires IsUnit(u) && q < Len(k) && Expected(k, u, greedy, q).Jump? && Inv(k, q, c)
    ensures Inv(k, Expected(k, u, greedy, q).target, c)
  {
  }

  lemma InvMatch(k: QuantifierKind, u: Inst, greedy: bool, q: nat, c: nat)
    requires IsUnit(u) && Ordered(k) && q < Len(k) && Expected(k, u, greedy, q) == Match && Inv(k, q, c)
    ensures AllowsCount(k, c)
  {
  }

  /** Every run of the laid-out program that matches has consumed an allowed count of accepted characters. */
  lemma {:induction false} CountSound(p: Program, input: seq<char>, start: nat, pos: nat, pc: nat, caps: Caps, fuel: nat,
                                      k: QuantifierKind, u: Inst, greedy: bool)
    requires Ready(p, input, pos, caps) && Layout(p.insts, k, u, greedy) && IsUnit(u) && Ordered(k)
    requires start <= pos && Inv(k, pc, pos - start)
    requires forall i :: start <= i < pos ==> Accepts(u, input[i])
    requires Run(p, input, pos, pc, caps, fuel).status == Matched
    ensures Counted(Run(p, input, pos, pc, caps, fuel), input, start, k, u)
    decreases fuel, 1
  {
    var inst := p.insts[pc];
    assert LaidOut(p.insts, k, u, greedy, pc);
    if inst.Split? {
      CountSplit(p, input, start, pos, pc, caps, fuel, k, u, greedy);
    } else if inst.Jump? {
      InvJump(k, u, greedy, pc, pos - start);
      CountSound(p, input, start, pos, inst.target, caps, fuel - 1, k, u, greedy);
    } else if inst == Match {
      InvMatch(k, u, greedy, pc, pos - start);
    } else {
      CountUnit(p, input, start, pos, pc, caps, fuel, k, u, greedy);
    }
  }

  /** A matched outcome ends at an allowed count of characters, all accepted. */
  predicate Counted(o: Outcome, input: seq<char>, start: nat, k: QuantifierKind, u: Inst)
  {
    |o.caps| >= 2 && o.caps[1].Some? && start <= o.caps[1].value <= |input| && AllowsCount(k, o.caps[1].value - start)
    && forall i :: start <= i < o.caps[1].value ==> Accepts(u, input[i])
  }

  lemma {:induction false} CountSplit(p: Program, input: seq<char>, start: nat, pos: nat, pc: nat, caps: Caps, fuel: nat,
                                      k: QuantifierKind, u: Inst, greedy: bool)
    requires Ready(p, input, pos, caps) && Layout(p.insts, k, u, greedy) && IsUnit(u) && Ordered(k)
    requires start <= pos && Inv(k, pc, pos - start) && pc < |p.insts| && p.insts[pc].Split?
    requires forall i :: start <= i < pos ==> Accepts(u, input[i])
    requires Run(p, input, pos, pc, caps, fuel).status == Matched
    ensures Counted(Run(p, input, pos, pc, caps, fuel), input, start, k, u)
    decreases fuel, 0
  {
    var inst := p.insts[pc];
    assert LaidOut(p.insts, k, u, greedy, pc);
    InvSplit(k, u, greedy, pc, pos - start);
    var tried := Run(p, input, pos, inst.first, caps, fuel - 1);
    if tried.status != Failed {
      CountSound(p, input, start, pos, inst.first, caps, fuel - 1, k, u, greedy);
    } else {
      CountSound(p, input, start, pos, inst.second, caps, fuel - 1, k, u, greedy);
    }
  }

  lemma {:induction false} CountUnit(p: Program, input: seq<char>, start: nat, pos: nat, pc: nat, caps: Caps, fuel: nat,
                                     k: QuantifierKind, u: Inst, greedy: bool)
    requires Ready(p, input, pos, caps) && Layout(p.insts, k, u, greedy) && IsUnit(u) && Ordered(k)
    requires start <= pos && Inv(k, pc, pos - start) && pc < |p.insts| && p.insts[pc] == u
    requires forall i :: start <= i < pos ==> Accepts(u, input[i])
    requires Run(p, input, pos, pc, caps, fuel).status == Matched
    ensures Counted(Run(p, input, pos, pc, caps, fuel), input, start, k, u)
    decreases fuel, 0
  {
    assert LaidOut(p.insts, k, u, greedy, pc);
    InvUnit(k, u, greedy, pc, pos - start);
    assert pos < |input| && Accepts(u, input[pos]);
    CountSound(p, input, start, pos + 1, pc + 1, caps, fuel - 1, k, u, greedy);
  }

  /**
    A successful attempt of the compiled `atom{k}` at `start` ends at `end` where
    end - start is a count `k` allows, and every character in between is one the
    atom accepts. `{n,m}` needs n <= m, as the compiler itself does.
  */
  lemma QuantifierCounts(atom: AstNode, k: QuantifierKind, greedy: bool, nGroups: nat,
                         input: seq<char>, start: nat, fuel: nat)
    requires SingleChar(atom) && Ordered(k) && start <= |input|
    requires Attempt(Compiled(Quantifier(atom, k, greedy), nGroups), input, start, fuel).status == Matched
    ensures var end := Attempt(Compiled(Quantifier(atom, k, greedy), nGroups), input, start, fuel).caps[1];
            end.Some? && start <= end.value <= |input| && AllowsCount(k, end.value - start)
            && forall i :: start <= i < end.value ==> Accepts(Unit(atom), input[i])
  {
    var p := Compiled(Quantifier(atom, k, greedy), nGroups);
    var caps := Fresh(nGroups, start);
    assert forall i :: 0 < i < |caps| ==> caps[i] == None;
    CompiledLayout(atom, k, greedy, nGroups);
    CountSound(p, input, start, start, 0, caps, fuel, k, Unit(atom), greedy);
  }
}
