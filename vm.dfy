/**
  The backtracking VM of src/vm.rs: runs a compiled program against an input.

  The capture vector that the source threads through `exec` as a `&mut Vec` is a
  value here: every run takes the vector and returns the one it leaves behind.
  `exec` need not terminate on a zero-width loop body: greedy `(?:)*` recurses
  at its `Split` until the stack overflows, and lazy `(?:)*?x` loops in place
  for ever when the `x` fails. So every instruction on one path of the run
  costs one unit of `fuel` (each branch of a `Split` gets what is left), and a
  run that needs more says so with `OutOfFuel` instead of an answer. Where the source
  panics (a capture slot past the end of the vector, or a backreference whose
  end lies before its start, which underflows), the run ends with `Panicked`,
  and that verdict travels up through every enclosing run and `search`.

  `Run`, `RunSub`, `Behind` and `SearchFrom` are the specification; the methods
  `Exec`, `ExecSub`, `Lookbehind`, `CharClassMatches` and `Search` are the loops
  of the source, each proved to compute its specification.
*/
module Vm {
  import opened Ast
  import opened Compiler

  /** Capture slots: slot 2i is the start and 2i + 1 the end of group i; group 0 is the whole match. */
  type Caps = seq<Option<nat>>

  datatype Status = Matched | Failed | Panicked | OutOfFuel

  /** How a run ended and the capture vector it left behind. */
  datatype Outcome = Outcome(status: Status, caps: Caps)

  /** A match: its span in the input and the captures. */
  datatype MatchResult = MatchResult(start: nat, end: nat, captures: Caps)

  /** The answer of `search`: a match, none at any start, a panic, or not enough fuel to tell. */
  datatype SearchOutcome = Found(m: MatchResult) | NoMatch | Aborted | Exhausted

  // ----- Character predicates -----

  predicate IsWordChar(ch: char)
  {
    IsAsciiAlphanumeric(ch) || ch == '_'
  }

  predicate ShorthandMatches(ch: char, kind: ShorthandKind)
  {
    match kind
    case Digit => IsAsciiDigit(ch)
    case NonDigit => !IsAsciiDigit(ch)
    case Word => IsAsciiAlphanumeric(ch) || ch == '_'
    case NonWord => !(IsAsciiAlphanumeric(ch) || ch == '_')
    case Space => IsAsciiWhitespace(ch)
    case NonSpace => !IsAsciiWhitespace(ch)
  }

  predicate ItemMatches(ch: char, item: ClassItem)
  {
    match item
    case ClassChar(c) => ch == c
    case ClassRange(lo, hi) => lo <= ch <= hi
    case ClassShorthand(kind) => ShorthandMatches(ch, kind)
  }

  /** A class matches when some item matches, or, when negated, when none does. */
  predicate ClassMatches(ch: char, items: seq<ClassItem>, negated: bool)
  {
    (exists i :: 0 <= i < |items| && ItemMatches(ch, items[i])) != negated
  }

  /** `is_word_boundary`: positions outside the input count as non-word. */
  predicate IsWordBoundary(input: seq<char>, pos: nat)
    requires pos <= |input|
  {
    var before := if pos > 0 then IsWordChar(input[pos - 1]) else false;
    var after := if pos < |input| then IsWordChar(input[pos]) else false;
    before != after
  }

  /** `find_sub_end`: where the last sub-match ended. */
  function FindSubEnd(caps: Caps): Option<nat>
    requires |caps| >= 2
  {
    caps[1]
  }

  // ----- What a run needs -----

  /** Every `Save` of the program writes a slot that exists in a vector of `slots` slots. */
  predicate SavesFit(p: Program, slots: nat)
  {
    forall pc :: 0 <= pc < |p.insts| && p.insts[pc].Save? ==> p.insts[pc].slot < slots
  }

  /** Every recorded position lies within the input. */
  predicate Bounded(caps: Caps, len: nat)
  {
    forall i :: 0 <= i < |caps| && caps[i].Some? ==> caps[i].value <= len
  }

  /**
    Positions and captures a run may start from. The vector always holds slots 0
    and 1, since `search` gives it (n_groups + 1) * 2 slots.
  */
  predicate Ready(p: Program, input: seq<char>, pos: nat, caps: Caps)
  {
    pos <= |input| && |caps| >= 2 && Bounded(caps, |input|)
  }

  // ----- The specification of a run -----

  /** The one-character instructions: whether `ch` is accepted. */
  predicate Accepts(inst: Inst, ch: char)
  {
    match inst
    case Char(c) => ch == c
    case AnyChar => ch != '\n'
    case CharClass(items, negated) => ClassMatches(ch, items, negated)
    case ShorthandClass(kind) => ShorthandMatches(ch, kind)
    case _ => false
  }

  /** The zero-width assertions: whether they hold at `pos`. */
  predicate Holds(inst: Inst, input: seq<char>, pos: nat)
    requires pos <= |input|
  {
    match inst
    case AssertStart => pos == 0
    case AssertEnd => pos == |input|
    case AssertWordBoundary => IsWordBoundary(input, pos)
    case AssertNonWordBoundary => !IsWordBoundary(input, pos)
    case _ => false
  }

  function Negate(s: Status): Status
  {
    match s
    case Matched => Failed
    case Failed => Matched
    case Panicked => Panicked
    case OutOfFuel => OutOfFuel
  }

  /**
    A lookaround instruction: `Matched` when the run may go on at its `subEnd`.
    A lookahead runs its body at `pos` on a copy of the captures; the negative
    forms invert the verdict.
  */
  function Look(p: Program, input: seq<char>, pos: nat, inst: Inst, caps: Caps, fuel: nat): Status
    requires Ready(p, input, pos, caps)
    decreases fuel, 3
  {
    match inst
    case LookaheadPositive(subStart, _) => RunSub(p, input, pos, subStart, caps, fuel).status
    case LookaheadNegative(subStart, _) => Negate(RunSub(p, input, pos, subStart, caps, fuel).status)
    case LookbehindPositive(subStart, _) => Behind(p, input, pos, subStart, caps, fuel, 0)
    case LookbehindNegative(subStart, _) => Negate(Behind(p, input, pos, subStart, caps, fuel, 0))
    case _ => Failed
  }

  /** `exec` from `pos` and `pc` with at most `fuel` instructions on any path. */
  function Run(p: Program, input: seq<char>, pos: nat, pc: nat, caps: Caps, fuel: nat): (o: Outcome)
    requires Ready(p, input, pos, caps)
    ensures |o.caps| == |caps|
    decreases fuel, 0
  {
    if fuel == 0 then Outcome(OutOfFuel, caps)
    else if pc >= |p.insts| then Outcome(Failed, caps)
    else
      var inst := p.insts[pc];
      match inst
      case Char(_) | AnyChar | CharClass(_, _) | ShorthandClass(_) =>
        if pos < |input| && Accepts(inst, input[pos]) then Run(p, input, pos + 1, pc + 1, caps, fuel - 1)
        else Outcome(Failed, caps)
      case AssertStart | AssertEnd | AssertWordBoundary | AssertNonWordBoundary =>
        if Holds(inst, input, pos) then Run(p, input, pos, pc + 1, caps, fuel - 1)
        else Outcome(Failed, caps)
      case LookaheadPositive(_, _) | LookaheadNegative(_, _) | LookbehindPositive(_, _) | LookbehindNegative(_, _) =>
        var look := Look(p, input, pos, inst, caps, fuel - 1);
        if look == Matched then Run(p, input, pos, inst.subEnd, caps, fuel - 1)
        else Outcome(look, caps)
      case Match => Outcome(Matched, caps[1 := Some(pos)])
      case Jump(target) => Run(p, input, pos, target, caps, fuel - 1)
      case Split(first, second) =>
        var tried := Run(p, input, pos, first, caps, fuel - 1);
        if tried.status != Failed then tried
        else Run(p, input, pos, second, caps, fuel - 1)
      case Save(slot) =>
        if slot < |caps| then Run(p, input, pos, pc + 1, caps[slot := Some(pos)], fuel - 1)
        else Outcome(Panicked, caps)
      case Backref(group) =>
        if group * 2 + 1 >= |caps| || BackrefUnderflows(caps[group * 2], caps[group * 2 + 1]) then
          Outcome(Panicked, caps)
        else if BackrefMatches(input, pos, caps[group * 2], caps[group * 2 + 1]) then
          var len := caps[group * 2 + 1].value - caps[group * 2].value;
          Run(p, input, pos + len, pc + 1, caps, fuel - 1)
        else Outcome(Failed, caps)
      case Nop => Run(p, input, pos, pc + 1, caps, fuel - 1)
  }

  /**
    Both slots of the group are set but its end lies before its start: the source
    computes the group's length as end - start, which underflows (a panic in a
    build with overflow checks).
  */
  predicate BackrefUnderflows(start: Option<nat>, end: Option<nat>)
  {
    start.Some? && end.Some? && end.value < start.value
  }

  /**
    A backreference matches when both slots of its group are set and the input at
    `pos` repeats the group's text.
  */
  predicate BackrefMatches(input: seq<char>, pos: nat, start: Option<nat>, end: Option<nat>)
    requires pos <= |input|
    requires start.Some? ==> start.value <= |input|
    requires end.Some? ==> end.value <= |input|
  {
    start.Some? && end.Some? && start.value <= end.value
    && pos + (end.value - start.value) <= |input|
    && input[start.value..end.value] == input[pos..pos + (end.value - start.value)]
  }

  /** `exec_sub`: runs a lookaround body with the end slot cleared, restoring it on failure. */
  function RunSub(p: Program, input: seq<char>, pos: nat, subStart: nat, caps: Caps, fuel: nat): (o: Outcome)
    requires Ready(p, input, pos, caps)
    ensures |o.caps| == |caps|
    decreases fuel, 1
  {
    var r := Run(p, input, pos, subStart, caps[1 := None], fuel);
    if r.status == Matched then r else Outcome(r.status, r.caps[1 := caps[1]])
  }

  /**
    The lookbehind search: body runs from pos - lookback, pos - lookback - 1, ..., 0;
    `Matched` for the first one whose sub-match ends exactly at `pos`.
  */
  function Behind(p: Program, input: seq<char>, pos: nat, subStart: nat, caps: Caps, fuel: nat, lookback: nat): Status
    requires Ready(p, input, pos, caps)
    decreases fuel, 2, pos + 1 - lookback
  {
    if lookback > pos then Failed
    else
      var sub := RunSub(p, input, pos - lookback, subStart, caps, fuel);
      if sub.status == OutOfFuel || sub.status == Panicked then sub.status
      else if sub.status == Matched && (sub.caps[1] == Some(pos) || FindSubEnd(sub.caps) == Some(pos)) then Matched
      else Behind(p, input, pos, subStart, caps, fuel, lookback + 1)
  }

  // ----- The loops of the source -----

  /** `char_class_matches`: scans the items and stops at the first that matches. */
  method CharClassMatches(ch: char, items: seq<ClassItem>, negated: bool) returns (r: bool)
    ensures r == ClassMatches(ch, items, negated)
  {
    var matched := false;
    for i := 0 to |items|
      invariant !matched
      invariant forall j :: 0 <= j < i ==> !ItemMatches(ch, items[j])
    {
      var item := items[i];
      match item {
        case ClassChar(c) =>
          if ch == c {
            matched := true;
            break;
          }
        case ClassRange(lo, hi) =>
          if ch >= lo && ch <= hi {
            matched := true;
            break;
          }
        case ClassShorthand(kind) =>
          if ShorthandMatches(ch, kind) {
            matched := true;
            break;
          }
      }
    }
    r := if negated then !matched else matched;
  }

  /** `exec`: the instruction loop. */
  method Exec(p: Program, input: seq<char>, pos0: nat, pc0: nat, caps0: Caps, fuel0: nat)
    returns (status: Status, caps: Caps)
    requires Ready(p, input, pos0, caps0)
    ensures Outcome(status, caps) == Run(p, input, pos0, pc0, caps0, fuel0)
    decreases fuel0, 0
  {
    var pos: nat, pc: nat, fuel: nat := pos0, pc0, fuel0;
    caps := caps0;
    while fuel > 0
      invariant fuel <= fuel0
      invariant Ready(p, input, pos, caps)
      invariant Run(p, input, pos, pc, caps, fuel) == Run(p, input, pos0, pc0, caps0, fuel0)
      decreases fuel
    {
      if pc >= |p.insts| {
        return Failed, caps;
      }
      var inst := p.insts[pc];
      fuel := fuel - 1;
      match inst {
        case Match =>
          caps := caps[1 := Some(pos)];
          return Matched, caps;
        case Char(expected) =>
          if pos < |input| && input[pos] == expected {
            pos, pc := pos + 1, pc + 1;
          } else {
            return Failed, caps;
          }
        case AnyChar =>
          if pos < |input| && input[pos] != '\n' {
            pos, pc := pos + 1, pc + 1;
          } else {
            return Failed, caps;
          }
        case CharClass(items, negated) =>
          var ok := false;
          if pos < |input| {
            ok := CharClassMatches(input[pos], items, negated);
          }
          if ok {
            pos, pc := pos + 1, pc + 1;
          } else {
            return Failed, caps;
          }
        case ShorthandClass(kind) =>
          if pos < |input| && ShorthandMatches(input[pos], kind) {
            pos, pc := pos + 1, pc + 1;
          } else {
            return Failed, caps;
          }
        case Jump(target) =>
          pc := target;
        case Split(first, second) =>
          var saved := caps;
          var tried;
          tried, caps := Exec(p, input, pos, first, caps, fuel);
          if tried != Failed {
            return tried, caps;
          }
          caps := saved;
          pc := second;
        case Save(slot) =>
          if slot >= |caps| {
            return Panicked, caps;
          }
          caps := caps[slot := Some(pos)];
          pc := pc + 1;
        case AssertStart =>
          if pos == 0 {
            pc := pc + 1;
          } else {
            return Failed, caps;
          }
        case AssertEnd =>
          if pos == |input| {
            pc := pc + 1;
          } else {
            return Failed, caps;
          }
        case AssertWordBoundary =>
          if IsWordBoundary(input, pos) {
            pc := pc + 1;
          } else {
            return Failed, caps;
          }
        case AssertNonWordBoundary =>
          if !IsWordBoundary(input, pos) {
            pc := pc + 1;
          } else {
            return Failed, caps;
          }
        case Backref(group) =>
          if group * 2 + 1 >= |caps| {
            return Panicked, caps;
          }
          var start, end := caps[group * 2], caps[group * 2 + 1];
          if start.Some? && end.Some? && end.value < start.value {
            return Panicked, caps;
          }
          if BackrefMatches(input, pos, start, end) {
            pos, pc := pos + (end.value - start.value), pc + 1;
          } else {
            return Failed, caps;
          }
        case LookaheadPositive(subStart, subEnd) =>
          var sub, subCaps := ExecSub(p, input, pos, subStart, caps, fuel);
          if sub == OutOfFuel || sub == Panicked {
            return sub, caps;
          } else if sub == Matched {
            pc := subEnd;
          } else {
            return Failed, caps;
          }
        case LookaheadNegative(subStart, subEnd) =>
          var sub, subCaps := ExecSub(p, input, pos, subStart, caps, fuel);
          if sub == OutOfFuel || sub == Panicked {
            return sub, caps;
          } else if sub == Failed {
            pc := subEnd;
          } else {
            return Failed, caps;
          }
        case LookbehindPositive(subStart, subEnd) =>
          var found := Lookbehind(p, input, pos, subStart, caps, fuel);
          if found == OutOfFuel || found == Panicked {
            return found, caps;
          } else if found == Matched {
            pc := subEnd;
          } else {
            return Failed, caps;
          }
        case LookbehindNegative(subStart, subEnd) =>
          var found := Lookbehind(p, input, pos, subStart, caps, fuel);
          if found == OutOfFuel || found == Panicked {
            return found, caps;
          } else if found == Failed {
            pc := subEnd;
          } else {
            return Failed, caps;
          }
        case Nop =>
          pc := pc + 1;
      }
    }
    return OutOfFuel, caps;
  }

  /** `exec_sub`. */
  method ExecSub(p: Program, input: seq<char>, pos: nat, subStart: nat, caps0: Caps, fuel: nat)
    returns (status: Status, caps: Caps)
    requires Ready(p, input, pos, caps0)
    ensures Outcome(status, caps) == RunSub(p, input, pos, subStart, caps0, fuel)
    decreases fuel, 1
  {
    var oldEnd := caps0[1];
    caps := caps0[1 := None];
    status, caps := Exec(p, input, pos, subStart, caps, fuel);
    if status != Matched {
      caps := caps[1 := oldEnd];
    }
  }

  /** The lookbehind loop of `exec`: tries start positions pos, pos - 1, ..., 0. */
  method Lookbehind(p: Program, input: seq<char>, pos: nat, subStart: nat, caps: Caps, fuel: nat)
    returns (found: Status)
    requires Ready(p, input, pos, caps)
    ensures found == Behind(p, input, pos, subStart, caps, fuel, 0)
    decreases fuel, 2
  {
    for lookback := 0 to pos + 1
      invariant Behind(p, input, pos, subStart, caps, fuel, lookback) == Behind(p, input, pos, subStart, caps, fuel, 0)
    {
      var tryPos := pos - lookback;
      var sub, subCaps := ExecSub(p, input, tryPos, subStart, caps, fuel);
      if sub == OutOfFuel || sub == Panicked {
        return sub;
      }
      if sub == Matched && (subCaps[1] == Some(pos) || FindSubEnd(subCaps) == Some(pos)) {
        return Matched;
      }
    }
    return Failed;
  }

  // ----- search -----

  /** The capture vector each attempt of `search` starts with: every slot empty but slot 0. */
  function Fresh(nGroups: nat, start: nat): Caps
  {
    seq((nGroups + 1) * 2, _ => None)[0 := Some(start)]
  }

  /** One attempt of `search`, at `start`. */
  function Attempt(p: Program, input: seq<char>, start: nat, fuel: nat): Outcome
    requires start <= |input|
  {
    Run(p, input, start, 0, Fresh(p.nGroups, start), fuel)
  }

  /** The match `search` reports for a successful attempt: slot 1 falls back to `start`. */
  function Finish(start: nat, caps: Caps): MatchResult
    requires |caps| >= 2
  {
    var end := if caps[1].Some? then caps[1].value else start;
    MatchResult(start, end, caps[1 := Some(end)])
  }

  /** `search` from `start` on: the first attempt that does not fail decides. */
  function SearchFrom(p: Program, input: seq<char>, start: nat, fuel: nat): SearchOutcome
    requires start <= |input| + 1
    decreases |input| + 1 - start
  {
    if start > |input| then NoMatch
    else
      var o := Attempt(p, input, start, fuel);
      if o.status == Matched then Found(Finish(start, o.caps))
      else if o.status == Panicked then Aborted
      else if o.status == OutOfFuel then Exhausted
      else SearchFrom(p, input, start + 1, fuel)
  }

  /** `search`: tries every start 0, 1, ..., |input| in order. */
  method Search(p: Program, input: seq<char>, fuel: nat) returns (r: SearchOutcome)
    ensures r == SearchFrom(p, input, 0, fuel)
  {
    var nSlots := (p.nGroups + 1) * 2;
    for start := 0 to |input| + 1
      invariant SearchFrom(p, input, start, fuel) == SearchFrom(p, input, 0, fuel)
    {
      var captures: Caps := seq(nSlots, _ => None);
      captures := captures[0 := Some(start)];
      var status;
      status, captures := Exec(p, input, start, 0, captures, fuel);
      if status == Matched {
        var end := if captures[1].Some? then captures[1].value else start;
        captures := captures[1 := Some(end)];
        return Found(MatchResult(start, end, captures));
      }
      if status == Panicked {
        return Aborted;
      }
      if status == OutOfFuel {
        return Exhausted;
      }
    }
    return NoMatch;
  }
}
