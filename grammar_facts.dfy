/**
  Properties of the parser: capturing groups are numbered 1, 2, 3, ... in the
  order of their opening parentheses and the group counter ends at their number;
  a pattern is accepted only when it is consumed whole, and the only character
  the top level can leave behind is `)`; a malformed brace quantifier falls
  back to a literal `{`; a character class is closed by its first unescaped `]`.
*/
module GrammarFacts {
  import opened Ast
  import opened Grammar

  /** The indices lo + 1, ..., hi, in increasing order. */
  function Numbered(lo: nat, hi: nat): seq<nat>
    decreases hi
  {
    if hi <= lo then [] else Numbered(lo, hi - 1) + [hi]
  }

  lemma {:induction false} NumberedJoin(lo: nat, mid: nat, hi: nat)
    requires lo <= mid <= hi
    ensures Numbered(lo, mid) + Numbered(mid, hi) == Numbered(lo, hi)
    decreases hi
  {
    if mid < hi {
      NumberedJoin(lo, mid, hi - 1);
    }
  }

  lemma {:induction false} NumberedFirst(lo: nat, hi: nat)
    requires lo < hi
    ensures Numbered(lo, hi) == [lo + 1] + Numbered(lo + 1, hi)
  {
    NumberedJoin(lo, lo + 1, hi);
  }

  // ----- Group numbering -----

  /** Captures of accumulated nodes extend by the captures of the next node. */
  lemma CapturesSnoc(ns: seq<AstNode>, n: AstNode)
    ensures CapturesOf(ns + [n]) == CapturesOf(ns) + Captures(n)
  {
    assert (ns + [n])[..|ns|] == ns;
  }

  lemma {:induction false} AlternationNumbers(cs: seq<char>, pos: nat, gc: nat)
    requires pos <= |cs|
    ensures var s := ParseAlternation(cs, pos, gc);
            s.result.Ok? ==> Captures(s.result.value) == Numbered(gc, s.groups)
    decreases |cs| - pos, 6
  {
    var first := ParseConcat(cs, pos, gc);
    if first.result.Ok? {
      ConcatNumbers(cs, pos, gc);
      CapturesSnoc([], first.result.value);
      AltLoopNumbers(cs, first.pos, first.groups, [first.result.value], gc);
    }
  }

  lemma {:induction false} AltLoopNumbers(cs: seq<char>, pos: nat, gc: nat, branches: seq<AstNode>, gc0: nat)
    requires pos <= |cs| && gc0 <= gc && |branches| >= 1 && CapturesOf(branches) == Numbered(gc0, gc)
    ensures var s := AltLoop(cs, pos, gc, branches);
            s.result.Ok? ==> Captures(s.result.value) == Numbered(gc0, s.groups)
    decreases |cs| - pos, 5
  {
    if PeekAt(cs, pos) == Some('|') {
      var next := ParseConcat(cs, pos + 1, gc);
      if next.result.Ok? {
        ConcatNumbers(cs, pos + 1, gc);
        CapturesSnoc(branches, next.result.value);
        NumberedJoin(gc0, gc, next.groups);
        AltLoopNumbers(cs, next.pos, next.groups, branches + [next.result.value], gc0);
      }
    } else if |branches| == 1 {
      assert branches == [] + [branches[0]];
      CapturesSnoc([], branches[0]);
    }
  }

  lemma {:induction false} ConcatNumbers(cs: seq<char>, pos: nat, gc: nat)
    requires pos <= |cs|
    ensures var s := ParseConcat(cs, pos, gc);
            s.result.Ok? ==> Captures(s.result.value) == Numbered(gc, s.groups)
    decreases |cs| - pos, 4
  {
    ConcatLoopNumbers(cs, pos, gc, [], gc);
  }

  lemma {:induction false} ConcatLoopNumbers(cs: seq<char>, pos: nat, gc: nat, nodes: seq<AstNode>, gc0: nat)
    requires pos <= |cs| && gc0 <= gc && CapturesOf(nodes) == Numbered(gc0, gc)
    ensures var s := ConcatLoop(cs, pos, gc, nodes);
            s.result.Ok? ==> Captures(s.result.value) == Numbered(gc0, s.groups)
    decreases |cs| - pos, 3
  {
    if pos < |cs| && cs[pos] != ')' && cs[pos] != '|' {
      var q := ParseQuantified(cs, pos, gc);
      if q.result.Ok? {
        QuantifiedNumbers(cs, pos, gc);
        CapturesSnoc(nodes, q.result.value);
        NumberedJoin(gc0, gc, q.groups);
        ConcatLoopNumbers(cs, q.pos, q.groups, nodes + [q.result.value], gc0);
      }
    } else if |nodes| == 1 {
      assert nodes == [] + [nodes[0]];
      CapturesSnoc([], nodes[0]);
    }
  }

  lemma {:induction false} QuantifiedNumbers(cs: seq<char>, pos: nat, gc: nat)
    requires pos <= |cs|
    ensures var s := ParseQuantified(cs, pos, gc);
            s.result.Ok? ==> Captures(s.result.value) == Numbered(gc, s.groups)
    decreases |cs| - pos, 2
  {
    AtomNumbers(cs, pos, gc);
  }

  lemma {:induction false} AtomNumbers(cs: seq<char>, pos: nat, gc: nat)
    requires pos <= |cs|
    ensures var s := ParseAtom(cs, pos, gc);
            s.result.Ok? ==> Captures(s.result.value) == Numbered(gc, s.groups)
    decreases |cs| - pos, 1
  {
    if pos < |cs| {
      if cs[pos] == '(' {
        GroupNumbers(cs, pos, gc);
      } else if cs[pos] == '\\' && pos + 1 < |cs| {
        assert ParseAtom(cs, pos, gc).result.value == EscapeNode(cs[pos + 1]);
      }
    }
  }

  lemma {:induction false} EnclosedNumbers(cs: seq<char>, pos: nat, gc: nat)
    requires pos <= |cs|
    ensures var s := Enclosed(cs, pos, gc);
            s.result.Ok? ==> Captures(s.result.value) == Numbered(gc, s.groups)
    decreases |cs| - pos, 7
  {
    AlternationNumbers(cs, pos, gc);
  }

  /** A capturing group takes the next index before the groups it contains. */
  lemma {:induction false} GroupNumbers(cs: seq<char>, pos: nat, gc: nat)
    requires pos < |cs| && cs[pos] == '('
    ensures var s := ParseGroup(cs, pos, gc);
            s.result.Ok? ==> Captures(s.result.value) == Numbered(gc, s.groups)
    decreases |cs| - pos, 0
  {
    var s := ParseGroup(cs, pos, gc);
    if PeekAt(cs, pos + 1) == Some('?') {
      if pos + 2 < |cs| {
        var c := cs[pos + 2];
        if c == ':' || c == '=' || c == '!' {
          EnclosedNumbers(cs, pos + 3, gc);
        } else if c == '<' && pos + 3 < |cs| {
          EnclosedNumbers(cs, pos + 4, gc);
        }
      }
    } else {
      var body := Enclosed(cs, pos + 1, gc + 1);
      EnclosedNumbers(cs, pos + 1, gc + 1);
      if body.result.Ok? {
        NumberedFirst(gc, body.groups);
      }
    }
  }

  /**
    Parsing a whole pattern numbers its capturing groups 1, 2, ..., n in the
    order of their opening parentheses (an enclosing group before the groups
    inside it), and leaves the group counter at n.
  */
  lemma ParseNumbersGroups(pattern: seq<char>)
    ensures var s := Parse(pattern);
            s.result.Ok? ==> Captures(s.result.value) == Numbered(0, s.groups)
  {
    AlternationNumbers(pattern, 0, 0);
  }

  // ----- Whole-input parsing -----

  /** The concatenation loop stops only at `)`, `|` or the end. */
  lemma {:induction false} ConcatLoopStops(cs: seq<char>, pos: nat, gc: nat, nodes: seq<AstNode>)
    requires pos <= |cs|
    ensures var s := ConcatLoop(cs, pos, gc, nodes);
            s.result.Ok? && s.pos < |cs| ==> cs[s.pos] == ')' || cs[s.pos] == '|'
    decreases |cs| - pos
  {
    if pos < |cs| && cs[pos] != ')' && cs[pos] != '|' {
      var q := ParseQuantified(cs, pos, gc);
      if q.result.Ok? {
        ConcatLoopStops(cs, q.pos, q.groups, nodes + [q.result.value]);
      }
    }
  }

  /** Entered where a concatenation stopped, the alternation loop stops only at `)` or the end. */
  lemma {:induction false} AltLoopStops(cs: seq<char>, pos: nat, gc: nat, branches: seq<AstNode>)
    requires pos <= |cs| && |branches| >= 1 && (pos < |cs| ==> cs[pos] == ')' || cs[pos] == '|')
    ensures var s := AltLoop(cs, pos, gc, branches);
            s.result.Ok? && s.pos < |cs| ==> cs[s.pos] == ')'
    decreases |cs| - pos
  {
    if PeekAt(cs, pos) == Some('|') {
      var next := ParseConcat(cs, pos + 1, gc);
      if next.result.Ok? {
        ConcatLoopStops(cs, pos + 1, gc, []);
        AltLoopStops(cs, next.pos, next.groups, branches + [next.result.value]);
      }
    }
  }

  /**
    `parse` accepts a pattern only when the top-level alternation consumes all
    of it; what it can leave behind starts with an unmatched `)`, which is
    reported as an unexpected character at that position.
  */
  lemma ParseWhole(pattern: seq<char>)
    ensures var a := ParseAlternation(pattern, 0, 0);
            Parse(pattern).result.Ok? <==> a.result.Ok? && a.pos == |pattern|
    ensures var a := ParseAlternation(pattern, 0, 0);
            a.result.Ok? && a.pos < |pattern| ==>
              pattern[a.pos] == ')' && Parse(pattern).result == Err(UnexpectedCharacter(')', a.pos))
  {
    var first := ParseConcat(pattern, 0, 0);
    if first.result.Ok? {
      ConcatLoopStops(pattern, 0, 0, []);
      AltLoopStops(pattern, first.pos, first.groups, [first.result.value]);
    }
  }

  /** An alternation stops only at an unmatched `)` or at the end of the pattern. */
  lemma AlternationStops(cs: seq<char>, pos: nat, gc: nat)
    requires pos <= |cs|
    ensures var a := ParseAlternation(cs, pos, gc);
            a.result.Ok? && a.pos < |cs| ==> cs[a.pos] == ')'
  {
    var first := ParseConcat(cs, pos, gc);
    if first.result.Ok? {
      ConcatLoopStops(cs, pos, gc, []);
      AltLoopStops(cs, first.pos, first.groups, [first.result.value]);
    }
  }

  // ----- Groups -----

  /**
    A group body is accepted exactly when its alternation is and stops at a `)`;
    a body that runs to the end of the pattern is an unclosed group.
  */
  lemma EnclosedCloses(cs: seq<char>, pos: nat, gc: nat)
    requires pos <= |cs|
    ensures var a := ParseAlternation(cs, pos, gc);
            Enclosed(cs, pos, gc).result.Ok? <==> a.result.Ok? && a.pos < |cs|
    ensures var a := ParseAlternation(cs, pos, gc);
            a.result.Ok? && a.pos == |cs| ==> Enclosed(cs, pos, gc).result == Err(ExpectedChar(')', None))
  {
    AlternationStops(cs, pos, gc);
  }

  /**
    What follows `(` decides the kind of group: `(?:`, `(?=`, `(?!`, `(?<=` and
    `(?<!` open the non-capturing and lookaround forms, any other character after
    `(?` (or none) is an error, as is anything but `=` or `!` after `(?<`, and a
    `(` not followed by `?` opens capturing group number gc + 1.
  */
  lemma GroupForms(cs: seq<char>, pos: nat, gc: nat)
    requires pos < |cs| && cs[pos] == '('
    ensures var s := ParseGroup(cs, pos, gc);
            var question := pos + 1 < |cs| && cs[pos + 1] == '?';
            var c := if pos + 2 < |cs| then Some(cs[pos + 2]) else None;
            var d := if pos + 3 < |cs| then Some(cs[pos + 3]) else None;
            (!question ==> s.groups >= gc + 1 && (s.result.Ok? ==> s.result.value.Group? && s.result.value.index == gc + 1))
            && (question && c == Some(':') && s.result.Ok? ==> s.result.value.NonCapturingGroup?)
            && (question && c == Some('=') && s.result.Ok? ==> s.result.value == Lookahead(s.result.value.node, true))
            && (question && c == Some('!') && s.result.Ok? ==> s.result.value == Lookahead(s.result.value.node, false))
            && (question && c == Some('<') && d == Some('=') && s.result.Ok? ==>
                  s.result.value == Lookbehind(s.result.value.node, true))
            && (question && c == Some('<') && d == Some('!') && s.result.Ok? ==>
                  s.result.value == Lookbehind(s.result.value.node, false))
            && (question && c == Some('<') && d != Some('=') && d != Some('!') ==> s.result == Err(InvalidLookbehind))
            && (question && c != Some(':') && c != Some('=') && c != Some('!') && c != Some('<') ==>
                  s.result == Err(InvalidGroupSyntax))
  {
  }

  // ----- Shapes of the results -----

  /**
    The alternation loop, entered with one branch, returns that branch alone, or
    an `Alternation` of at least two branches that starts with the ones it had.
  */
  lemma {:induction false} AltLoopShape(cs: seq<char>, pos: nat, gc: nat, branches: seq<AstNode>)
    requires pos <= |cs| && |branches| >= 1
    ensures var s := AltLoop(cs, pos, gc, branches);
            s.result.Ok? ==>
              (|branches| == 1 && s.result.value == branches[0])
              || (s.result.value.Alternation? && |s.result.value.branches| >= 2
                  && |s.result.value.branches| >= |branches| && s.result.value.branches[..|branches|] == branches)
    decreases |cs| - pos
  {
    if PeekAt(cs, pos) == Some('|') {
      var next := ParseConcat(cs, pos + 1, gc);
      if next.result.Ok? {
        var more := branches + [next.result.value];
        AltLoopShape(cs, next.pos, next.groups, more);
        var s := AltLoop(cs, next.pos, next.groups, more);
        if s.result.Ok? {
          assert s.result.value.branches[..|more|][..|branches|] == s.result.value.branches[..|branches|];
          assert more[..|branches|] == branches;
        }
      }
    }
  }

  /**
    The concatenation loop, entered with at least one node, returns that node
    alone, or a `Concat` of at least two nodes that starts with the ones it had.
  */
  lemma {:induction false} ConcatLoopShape(cs: seq<char>, pos: nat, gc: nat, nodes: seq<AstNode>)
    requires pos <= |cs| && |nodes| >= 1
    ensures var s := ConcatLoop(cs, pos, gc, nodes);
            s.result.Ok? ==>
              (|nodes| == 1 && s.result.value == nodes[0])
              || (s.result.value.Concat? && |s.result.value.nodes| >= 2
                  && |s.result.value.nodes| >= |nodes| && s.result.value.nodes[..|nodes|] == nodes)
    decreases |cs| - pos
  {
    if pos < |cs| && cs[pos] != ')' && cs[pos] != '|' {
      var q := ParseQuantified(cs, pos, gc);
      if q.result.Ok? {
        var more := nodes + [q.result.value];
        ConcatLoopShape(cs, q.pos, q.groups, more);
        var s := ConcatLoop(cs, q.pos, q.groups, more);
        if s.result.Ok? {
          assert s.result.value.nodes[..|more|][..|nodes|] == s.result.value.nodes[..|nodes|];
          assert more[..|nodes|] == nodes;
        }
      }
    }
  }

  /** `*`, `+` or `?` after an atom quantifies it, and a further `?` makes it lazy. */
  lemma SuffixQuantifier(cs: seq<char>, pos: nat, gc: nat)
    requires pos <= |cs|
    ensures var a := ParseAtom(cs, pos, gc);
            var s := ParseQuantified(cs, pos, gc);
            a.result.Ok? && a.pos < |cs| && (cs[a.pos] == '*' || cs[a.pos] == '+' || cs[a.pos] == '?') ==>
              var lazy := a.pos + 1 < |cs| && cs[a.pos + 1] == '?';
              s.result.Ok? && s.result.value.Quantifier? && s.result.value.node == a.result.value
              && s.result.value.greedy == !lazy && s.pos == if lazy then a.pos + 2 else a.pos + 1
  {
  }

  /**
    Inside a class, `c-x` is the range from c to x, but a `-` just before the
    closing `]` is a literal `-`.
  */
  lemma ClassDash(cs: seq<char>, pos: nat, gc: nat, items: seq<ClassItem>)
    requires pos + 2 < |cs| && cs[pos] != ']' && cs[pos] != '\\' && cs[pos + 1] == '-'
    ensures cs[pos + 2] == ']' ==>
              ClassLoop(cs, pos, gc, items) == Step(Ok(items + [ClassChar(cs[pos]), ClassChar('-')]), pos + 3, gc)
    ensures cs[pos + 2] != ']' && cs[pos + 2] != '\\' ==>
              ClassLoop(cs, pos, gc, items) == ClassLoop(cs, pos + 3, gc, items + [ClassRange(cs[pos], cs[pos + 2])])
  {
    if cs[pos + 2] == ']' {
      var one := items + [ClassChar(cs[pos])];
      var two := one + [ClassChar('-')];
      assert two == items + [ClassChar(cs[pos]), ClassChar('-')];
      assert ClassLoop(cs, pos + 2, gc, two) == Step(Ok(two), pos + 3, gc);
      assert ClassLoop(cs, pos + 1, gc, one) == ClassLoop(cs, pos + 2, gc, two);
    }
  }

  // ----- Brace quantifiers -----

  /** `{n}`, `{n,}` or `{n,m}` (the text after the `{` starting at `pos`), digits being ASCII digits. */
  predicate BraceSyntax(cs: seq<char>, pos: nat)
    requires pos <= |cs|
  {
    var e := DigitsEnd(cs, pos);
    e > pos && e < |cs|
    && (cs[e] == '}'
        || (cs[e] == ',' && e + 1 < |cs| && cs[e + 1] == '}')
        || (cs[e] == ',' && var f := DigitsEnd(cs, e + 1); f > e + 1 && f < |cs| && cs[f] == '}'))
  }

  /** `try_parse_brace_contents` succeeds exactly on well-formed brace contents. */
  lemma BraceContentsOk(cs: seq<char>, pos: nat, gc: nat)
    requires pos <= |cs|
    ensures TryBraceContents(cs, pos, gc).result.Ok? <==> BraceSyntax(cs, pos)
  {
  }

  /**
    After an atom, a `{` that does not open well-formed brace contents leaves the
    atom unquantified with the cursor back on the `{`, and the next atom parsed
    there is the literal `{`.
  */
  lemma BraceFallback(cs: seq<char>, pos: nat, gc: nat)
    requires pos <= |cs|
    requires var a := ParseAtom(cs, pos, gc);
             a.result.Ok? && a.pos < |cs| && cs[a.pos] == '{' && !BraceSyntax(cs, a.pos + 1)
    ensures var a := ParseAtom(cs, pos, gc);
            ParseQuantified(cs, pos, gc) == a
            && ParseAtom(cs, a.pos, a.groups) == Step(Ok(Literal('{')), a.pos + 1, a.groups)
  {
    var a := ParseAtom(cs, pos, gc);
    BraceContentsOk(cs, a.pos + 1, a.groups);
  }

  // ----- Escapes -----

  /**
    Outside a class, `\` and a digit 1-9 is a backreference to that one digit's
    group, so `\10` is backreference 1 followed by the literal `0`; `\0` is a literal.
  */
  lemma EscapedDigit(cs: seq<char>, pos: nat, gc: nat)
    requires pos + 1 < |cs| && cs[pos] == '\\' && IsAsciiDigit(cs[pos + 1])
    ensures var s := ParseAtom(cs, pos, gc);
            s.pos == pos + 2
            && s.result == Ok(if cs[pos + 1] == '0' then Literal('0') else Backreference(cs[pos + 1] as int - '0' as int))
            && 1 <= (if cs[pos + 1] == '0' then 1 else cs[pos + 1] as int - '0' as int) <= 9
  {
  }

  // ----- Character classes -----

  /**
    The class loop succeeds exactly when an unescaped `]` follows; it stops just
    after the first one, and the items it had keep their place at the front.
  */
  lemma {:induction false} ClassLoopCloses(cs: seq<char>, pos: nat, gc: nat, items: seq<ClassItem>)
    requires pos <= |cs|
    ensures var s := ClassLoop(cs, pos, gc, items);
            s.result.Ok? ==>
              pos < s.pos && cs[s.pos - 1] == ']' && |s.result.value| >= |items| && s.result.value[..|items|] == items
    ensures (forall i :: pos <= i < |cs| ==> cs[i] != ']') ==> ClassLoop(cs, pos, gc, items).result.Err?
    decreases |cs| - pos
  {
    if pos < |cs| && cs[pos] != ']' {
      var ch := cs[pos];
      if ch == '\\' {
        if pos + 1 < |cs| {
          var more := items + [ClassEscape(cs[pos + 1])];
          ClassLoopCloses(cs, pos + 2, gc, more);
          PrefixOfLonger(items, more, ClassLoop(cs, pos + 2, gc, more));
        }
      } else {
        var p := pos + 1;
        if PeekAt(cs, p) == Some('-') && p + 1 < |cs| && cs[p + 1] != ']' {
          var hi := cs[p + 1];
          if hi == '\\' {
            if p + 2 < |cs| {
              var more := items + [ClassRange(ch, cs[p + 2])];
              ClassLoopCloses(cs, p + 3, gc, more);
              PrefixOfLonger(items, more, ClassLoop(cs, p + 3, gc, more));
            }
          } else {
            var more := items + [ClassRange(ch, hi)];
            ClassLoopCloses(cs, p + 2, gc, more);
            PrefixOfLonger(items, more, ClassLoop(cs, p + 2, gc, more));
          }
        } else {
          var more := items + [ClassChar(ch)];
          ClassLoopCloses(cs, p, gc, more);
          PrefixOfLonger(items, more, ClassLoop(cs, p, gc, more));
        }
      }
    }
  }

  lemma PrefixOfLonger(items: seq<ClassItem>, more: seq<ClassItem>, s: Step<seq<ClassItem>>)
    requires |more| == |items| + 1 && more[..|items|] == items
    requires s.result.Ok? ==> |s.result.value| >= |more| && s.result.value[..|more|] == more
    ensures s.result.Ok? ==> |s.result.value| >= |items| && s.result.value[..|items|] == items
  {
    if s.result.Ok? {
      assert s.result.value[..|items|] == s.result.value[..|more|][..|items|];
    }
  }

  /** A `]` right after `[` or `[^` is the class's first literal item, not its end. */
  lemma LeadingBracket(cs: seq<char>, pos: nat, gc: nat)
    requires pos < |cs| && cs[pos] == '['
    requires var p := if pos + 1 < |cs| && cs[pos + 1] == '^' then pos + 2 else pos + 1;
             p < |cs| && cs[p] == ']'
    ensures var s := ParseCharClass(cs, pos, gc);
            s.result.Ok? ==> |s.result.value.items| >= 1 && s.result.value.items[0] == ClassChar(']')
  {
    var p := if pos + 1 < |cs| && cs[pos + 1] == '^' then pos + 2 else pos + 1;
    ClassLoopCloses(cs, p + 1, gc, [ClassChar(']')]);
  }
}
