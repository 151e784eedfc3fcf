/**
  The parser of src/parser.rs written as functions of the parser state.

  Each function takes the pattern `cs`, the cursor `pos` and the capturing-group
  counter `gc`, and returns the outcome together with the cursor and counter the
  recursive-descent parser is left with, on errors too. The class `Parser.Parser`
  is proved to compute exactly these steps.
*/
module Grammar {
  import opened Ast

  /** The errors the parser reports (their message text is not modelled). */
  datatype ParseError =
    | UnexpectedCharacter(ch: char, at: nat)       // leftover input after the top-level alternation
    | ExpectedChar(expected: char, got: Option<char>)
    | UnexpectedEnd                                // an atom was required at the end of the pattern
    | DanglingBackslash                            // `\` at the end of the pattern
    | InvalidLookbehind                            // `(?<` not followed by `=` or `!`
    | InvalidGroupSyntax                           // `(?` not followed by `:`, `=`, `!` or `<`
    | UnterminatedClass                            // `[` without its `]`
    | UnexpectedEndInClassEscape                   // `\` at the end inside a class
    | UnexpectedEndInRange                         // `a-\` at the end inside a class
    | UnexpectedEndInClassRange
    | ExpectedNumber                               // inside `{...}`; always recovered from

  datatype Result<T> = Ok(value: T) | Err(error: ParseError)

  /** The outcome of a parse step and the parser state after it. */
  datatype Step<T> = Step(result: Result<T>, pos: nat, groups: nat)

  /** The same failure, re-typed for the caller that propagates it with `?`. */
  function Fail<T, U>(s: Step<T>): (r: Step<U>)
    requires s.result.Err?
    ensures r.result.Err? && r.result.error == s.result.error && r.pos == s.pos && r.groups == s.groups
  {
    Step(Err(s.result.error), s.pos, s.groups)
  }

  function PeekAt(cs: seq<char>, pos: nat): Option<char>
  {
    if pos < |cs| then Some(cs[pos]) else None
  }

  /** `expect`: consumes one character (if any) and checks it. */
  function Expect(cs: seq<char>, pos: nat, gc: nat, expected: char): (s: Step<()>)
    requires pos <= |cs|
    ensures s.pos <= |cs| && s.groups == gc
    ensures s.result.Ok? <==> pos < |cs| && cs[pos] == expected
    ensures s.pos == if pos < |cs| then pos + 1 else pos
  {
    if pos < |cs| then
      if cs[pos] == expected then Step(Ok(()), pos + 1, gc)
      else Step(Err(ExpectedChar(expected, Some(cs[pos]))), pos + 1, gc)
    else Step(Err(ExpectedChar(expected, None)), pos, gc)
  }

  /** `parse`: the whole pattern must be consumed by the top-level alternation. */
  function ParseAll(cs: seq<char>, pos: nat, gc: nat): (s: Step<AstNode>)
    requires pos <= |cs|
    ensures s.pos <= |cs|
    ensures s.result.Ok? ==> s.pos == |cs|
  {
    var a := ParseAlternation(cs, pos, gc);
    if a.result.Err? then a
    else if a.pos < |cs| then Step(Err(UnexpectedCharacter(cs[a.pos], a.pos)), a.pos, a.groups)
    else a
  }

  /** Parsing a whole pattern with a fresh parser, as the command-line front end does. */
  function Parse(pattern: seq<char>): Step<AstNode>
  {
    ParseAll(pattern, 0, 0)
  }

  /** `parse_alternation`: concatenations separated by `|`. */
  function ParseAlternation(cs: seq<char>, pos: nat, gc: nat): (s: Step<AstNode>)
    requires pos <= |cs|
    ensures pos <= s.pos <= |cs| && gc <= s.groups
    decreases |cs| - pos, 6
  {
    var first := ParseConcat(cs, pos, gc);
    if first.result.Err? then first
    else AltLoop(cs, first.pos, first.groups, [first.result.value])
  }

  /** The `while self.peek() == Some('|')` loop of `parse_alternation`, with the branches so far. */
  function AltLoop(cs: seq<char>, pos: nat, gc: nat, branches: seq<AstNode>): (s: Step<AstNode>)
    requires pos <= |cs|
    ensures pos <= s.pos <= |cs| && gc <= s.groups
    decreases |cs| - pos, 5
  {
    if PeekAt(cs, pos) == Some('|') then
      var next := ParseConcat(cs, pos + 1, gc);
      if next.result.Err? then next
      else AltLoop(cs, next.pos, next.groups, branches + [next.result.value])
    else if |branches| == 1 then Step(Ok(branches[0]), pos, gc)
    else Step(Ok(Alternation(branches)), pos, gc)
  }

  /** `parse_concat`: quantified atoms up to `)`, `|` or the end. */
  function ParseConcat(cs: seq<char>, pos: nat, gc: nat): (s: Step<AstNode>)
    requires pos <= |cs|
    ensures pos <= s.pos <= |cs| && gc <= s.groups
    decreases |cs| - pos, 4
  {
    ConcatLoop(cs, pos, gc, [])
  }

  /** The `while let Some(ch) = self.peek()` loop of `parse_concat`, with the nodes so far. */
  function ConcatLoop(cs: seq<char>, pos: nat, gc: nat, nodes: seq<AstNode>): (s: Step<AstNode>)
    requires pos <= |cs|
    ensures pos <= s.pos <= |cs| && gc <= s.groups
    decreases |cs| - pos, 3
  {
    if pos < |cs| && cs[pos] != ')' && cs[pos] != '|' then
      var q := ParseQuantified(cs, pos, gc);
      if q.result.Err? then q
      else ConcatLoop(cs, q.pos, q.groups, nodes + [q.result.value])
    else if |nodes| == 1 then Step(Ok(nodes[0]), pos, gc)
    else Step(Ok(Concat(nodes)), pos, gc)
  }

  /** `parse_quantified`: an atom and an optional `*`, `+`, `?` or brace quantifier. */
  function ParseQuantified(cs: seq<char>, pos: nat, gc: nat): (s: Step<AstNode>)
    requires pos <= |cs|
    ensures pos <= s.pos <= |cs| && gc <= s.groups
    ensures s.result.Ok? ==> pos < s.pos
    decreases |cs| - pos, 2
  {
    var a := ParseAtom(cs, pos, gc);
    if a.result.Err? then a
    else match PeekAt(cs, a.pos)
      case None => a
      case Some(ch) =>
        if ch == '*' || ch == '+' || ch == '?' then
          var kind := if ch == '*' then Star else if ch == '+' then Plus else Question;
          var lazy := PeekAt(cs, a.pos + 1) == Some('?');
          Step(Ok(Quantifier(a.result.value, kind, !lazy)), if lazy then a.pos + 2 else a.pos + 1, a.groups)
        else if ch == '{' then ParseBraceQuantifier(cs, a.pos, a.groups, a.result.value)
        else a
  }

  /** `parse_brace_quantifier` at a `{`: a quantifier, or the bare node with the cursor back on the `{`. */
  function ParseBraceQuantifier(cs: seq<char>, pos: nat, gc: nat, node: AstNode): (s: Step<AstNode>)
    requires pos < |cs| && cs[pos] == '{'
    ensures pos <= s.pos <= |cs| && s.groups == gc && s.result.Ok?
  {
    var t := TryBraceContents(cs, pos + 1, gc);
    if t.result.Ok? then Step(Ok(Quantifier(node, t.result.value.0, t.result.value.1)), t.pos, gc)
    else Step(Ok(node), pos, gc)
  }

  /** `try_parse_brace_contents`: `n}`, `n,}` or `n,m}`, then an optional lazy `?`. */
  function TryBraceContents(cs: seq<char>, pos: nat, gc: nat): (s: Step<(QuantifierKind, bool)>)
    requires pos <= |cs|
    ensures pos <= s.pos <= |cs| && s.groups == gc
  {
    var n := ParseNumber(cs, pos, gc);
    if n.result.Err? then Fail(n)
    else
      var k: Step<QuantifierKind> :=
        if PeekAt(cs, n.pos) == Some(',') then
          if PeekAt(cs, n.pos + 1) == Some('}') then Step(Ok(AtLeast(n.result.value)), n.pos + 1, gc)
          else
            var m := ParseNumber(cs, n.pos + 1, gc);
            if m.result.Err? then Fail(m) else Step(Ok(Range(n.result.value, m.result.value)), m.pos, gc)
        else Step(Ok(Exact(n.result.value)), n.pos, gc);
      if k.result.Err? then Fail(k)
      else
        var e := Expect(cs, k.pos, gc, '}');
        if e.result.Err? then Fail(e)
        else
          var lazy := PeekAt(cs, e.pos) == Some('?');
          Step(Ok((k.result.value, !lazy)), if lazy then e.pos + 1 else e.pos, gc)
  }

  /** The index of the first non-digit at or after `pos`. */
  function DigitsEnd(cs: seq<char>, pos: nat): (e: nat)
    requires pos <= |cs|
    ensures pos <= e <= |cs|
    ensures forall i :: pos <= i < e ==> IsAsciiDigit(cs[i])
    ensures e < |cs| ==> !IsAsciiDigit(cs[e])
    decreases |cs| - pos
  {
    if pos < |cs| && IsAsciiDigit(cs[pos]) then DigitsEnd(cs, pos + 1) else pos
  }

  /** The value of one ASCII digit. */
  function DigitValue(ch: char): nat
  {
    if IsAsciiDigit(ch) then (ch as int - '0' as int) else 0
  }

  /** The decimal value of a string of ASCII digits. */
  function DecimalValue(ds: seq<char>): nat
  {
    if |ds| == 0 then 0
    else 10 * DecimalValue(ds[..|ds| - 1]) + DigitValue(ds[|ds| - 1])
  }

  /** `parse_number`: one or more ASCII digits. */
  function ParseNumber(cs: seq<char>, pos: nat, gc: nat): (s: Step<nat>)
    requires pos <= |cs|
    ensures pos <= s.pos <= |cs| && s.groups == gc
    ensures s.result.Ok? <==> pos < |cs| && IsAsciiDigit(cs[pos])
  {
    var e := DigitsEnd(cs, pos);
    if e == pos then Step(Err(ExpectedNumber), pos, gc)
    else Step(Ok(DecimalValue(cs[pos..e])), e, gc)
  }

  /** `parse_atom`. */
  function ParseAtom(cs: seq<char>, pos: nat, gc: nat): (s: Step<AstNode>)
    requires pos <= |cs|
    ensures pos <= s.pos <= |cs| && gc <= s.groups
    ensures s.result.Ok? ==> pos < s.pos
    decreases |cs| - pos, 1
  {
    match PeekAt(cs, pos)
    case None => Step(Err(UnexpectedEnd), pos, gc)
    case Some(ch) =>
      if ch == '(' then ParseGroup(cs, pos, gc)
      else if ch == '[' then ParseCharClass(cs, pos, gc)
      else if ch == '.' then Step(Ok(Dot), pos + 1, gc)
      else if ch == '^' then Step(Ok(Anchor(Start)), pos + 1, gc)
      else if ch == '$' then Step(Ok(Anchor(End)), pos + 1, gc)
      else if ch == '\\' then ParseEscape(cs, pos, gc)
      else Step(Ok(Literal(ch)), pos + 1, gc)
  }

  /** The node for `\` followed by `ch` outside a class. */
  function EscapeNode(ch: char): AstNode
  {
    if ch == 'd' then ShorthandClass(Digit)
    else if ch == 'D' then ShorthandClass(NonDigit)
    else if ch == 'w' then ShorthandClass(Word)
    else if ch == 'W' then ShorthandClass(NonWord)
    else if ch == 's' then ShorthandClass(Space)
    else if ch == 'S' then ShorthandClass(NonSpace)
    else if ch == 'b' then Anchor(WordBoundary)
    else if ch == 'B' then Anchor(NonWordBoundary)
    else if IsAsciiDigit(ch) && ch != '0' then Backreference(DigitValue(ch))
    else if ch == 'n' then Literal('\n')
    else if ch == 'r' then Literal('\r')
    else if ch == 't' then Literal('\t')
    else Literal(ch)
  }

  /** `parse_escape` at a `\`. */
  function ParseEscape(cs: seq<char>, pos: nat, gc: nat): (s: Step<AstNode>)
    requires pos < |cs| && cs[pos] == '\\'
    ensures pos < s.pos <= |cs| && s.groups == gc
    ensures s.result.Ok? ==> pos + 1 < s.pos
  {
    match PeekAt(cs, pos + 1)
    case None => Step(Err(DanglingBackslash), pos + 1, gc)
    case Some(ch) => Step(Ok(EscapeNode(ch)), pos + 2, gc)
  }

  /** `parse_alternation()?` followed by `expect(')')?`: the body of every kind of group. */
  function Enclosed(cs: seq<char>, pos: nat, gc: nat): (s: Step<AstNode>)
    requires pos <= |cs|
    ensures pos <= s.pos <= |cs| && gc <= s.groups
    ensures s.result.Ok? ==> pos < s.pos && cs[s.pos - 1] == ')'
    decreases |cs| - pos, 7
  {
    var a := ParseAlternation(cs, pos, gc);
    if a.result.Err? then a
    else
      var e := Expect(cs, a.pos, a.groups, ')');
      if e.result.Err? then Fail(e) else Step(a.result, e.pos, a.groups)
  }

  /** Wraps the body of a successfully parsed group. */
  function Wrap(s: Step<AstNode>, wrap: AstNode -> AstNode): Step<AstNode>
  {
    if s.result.Err? then s else Step(Ok(wrap(s.result.value)), s.pos, s.groups)
  }

  /** `parse_group` at a `(`. A capturing group takes the next index before its body is parsed. */
  function ParseGroup(cs: seq<char>, pos: nat, gc: nat): (s: Step<AstNode>)
    requires pos < |cs| && cs[pos] == '('
    ensures pos < s.pos <= |cs| && gc <= s.groups
    ensures s.result.Ok? ==> pos + 1 < s.pos && cs[s.pos - 1] == ')'
    decreases |cs| - pos, 0
  {
    if PeekAt(cs, pos + 1) == Some('?') then
      var q := pos + 2;
      match PeekAt(cs, q)
      case Some(c) =>
        if c == ':' then Wrap(Enclosed(cs, q + 1, gc), n => NonCapturingGroup(n))
        else if c == '=' then Wrap(Enclosed(cs, q + 1, gc), n => Lookahead(n, true))
        else if c == '!' then Wrap(Enclosed(cs, q + 1, gc), n => Lookahead(n, false))
        else if c == '<' then
          match PeekAt(cs, q + 1)
          case Some(d) =>
            if d == '=' then Wrap(Enclosed(cs, q + 2, gc), n => Lookbehind(n, true))
            else if d == '!' then Wrap(Enclosed(cs, q + 2, gc), n => Lookbehind(n, false))
            else Step(Err(InvalidLookbehind), q + 1, gc)
          case None => Step(Err(InvalidLookbehind), q + 1, gc)
        else Step(Err(InvalidGroupSyntax), q, gc)
      case None => Step(Err(InvalidGroupSyntax), q, gc)
    else
      var index := gc + 1;
      Wrap(Enclosed(cs, pos + 1, index), n => Group(index, n))
  }

  /** The item for `\` followed by `ch` inside a class. */
  function ClassEscape(ch: char): ClassItem
  {
    if ch == 'd' then ClassShorthand(Digit)
    else if ch == 'D' then ClassShorthand(NonDigit)
    else if ch == 'w' then ClassShorthand(Word)
    else if ch == 'W' then ClassShorthand(NonWord)
    else if ch == 's' then ClassShorthand(Space)
    else if ch == 'S' then ClassShorthand(NonSpace)
    else if ch == 'n' then ClassChar('\n')
    else if ch == 'r' then ClassChar('\r')
    else if ch == 't' then ClassChar('\t')
    else ClassChar(ch)
  }

  /** `parse_char_class` at a `[`. */
  function ParseCharClass(cs: seq<char>, pos: nat, gc: nat): (s: Step<AstNode>)
    requires pos < |cs| && cs[pos] == '['
    ensures pos < s.pos <= |cs| && s.groups == gc
    ensures s.result.Ok? ==> pos + 1 < s.pos
  {
    var negated := PeekAt(cs, pos + 1) == Some('^');
    var p := if negated then pos + 2 else pos + 1;
    var body :=
      if PeekAt(cs, p) == Some(']') then ClassLoop(cs, p + 1, gc, [ClassChar(']')])
      else ClassLoop(cs, p, gc, []);
    if body.result.Err? then Fail(body)
    else Step(Ok(CharClass(body.result.value, negated)), body.pos, gc)
  }

  /** The `while self.peek() != Some(']')` loop of `parse_char_class`; consumes the closing `]`. */
  function ClassLoop(cs: seq<char>, pos: nat, gc: nat, items: seq<ClassItem>): (s: Step<seq<ClassItem>>)
    requires pos <= |cs|
    ensures pos < s.pos <= |cs| || (s.result.Err? && s.pos == pos == |cs|)
    ensures s.groups == gc
    decreases |cs| - pos
  {
    match PeekAt(cs, pos)
    case None => Step(Err(UnterminatedClass), pos, gc)
    case Some(ch) =>
      if ch == ']' then Step(Ok(items), pos + 1, gc)
      else if ch == '\\' then
        match PeekAt(cs, pos + 1)
        case None => Step(Err(UnexpectedEndInClassEscape), pos + 1, gc)
        case Some(e) => ClassLoop(cs, pos + 2, gc, items + [ClassEscape(e)])
      else
        var p := pos + 1;
        if PeekAt(cs, p) == Some('-') && p + 1 < |cs| && cs[p + 1] != ']' then
          var q := p + 1;
          match PeekAt(cs, q)
          case None => Step(Err(UnexpectedEndInClassRange), q, gc)
          case Some(hi) =>
            if hi == '\\' then
              match PeekAt(cs, q + 1)
              case None => Step(Err(UnexpectedEndInRange), q + 1, gc)
              case Some(e) => ClassLoop(cs, q + 2, gc, items + [ClassRange(ch, e)])
            else ClassLoop(cs, q + 1, gc, items + [ClassRange(ch, hi)])
        else ClassLoop(cs, p, gc, items + [ClassChar(ch)])
  }
}
