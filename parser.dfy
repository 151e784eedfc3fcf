/**
  The recursive-descent parser of src/parser.rs as a class with a cursor and a
  capturing-group counter. Every parsing method is proved to leave the parser in
  exactly the state, and return exactly the outcome, that the corresponding
  function of module Grammar describes.
*/
module Parser {
  import opened Ast
  import opened Grammar

  class Parser {
    const chars: seq<char>
    var pos: nat
    var groupCount: nat

    ghost predicate Valid()
      reads this
    {
      pos <= |chars|
    }

    constructor (pattern: seq<char>)
      ensures chars == pattern && pos == 0 && groupCount == 0 && Valid()
    {
      chars := pattern;
      pos := 0;
      groupCount := 0;
    }

    /** The number of capturing groups opened so far. */
    function GroupCount(): (n: nat)
      reads this
      ensures n == groupCount
    {
      groupCount
    }

    function Peek(): (c: Option<char>)
      reads this
      ensures c == PeekAt(chars, pos)
    {
      if pos < |chars| then Some(chars[pos]) else None
    }

    method Advance() returns (c: Option<char>)
      requires Valid()
      modifies this
      ensures Valid() && groupCount == old(groupCount)
      ensures c == PeekAt(chars, old(pos))
      ensures pos == if c.Some? then old(pos) + 1 else old(pos)
    {
      c := Peek();
      if c.Some? {
        pos := pos + 1;
      }
    }

    method Expect(expected: char) returns (r: Result<()>)
      requires Valid()
      modifies this
      ensures Valid()
      ensures Step(r, pos, groupCount) == Grammar.Expect(chars, old(pos), old(groupCount), expected)
    {
      var c := Advance();
      match c {
        case Some(ch) =>
          if ch == expected {
            r := Ok(());
          } else {
            r := Err(ExpectedChar(expected, Some(ch)));
          }
        case None =>
          r := Err(ExpectedChar(expected, None));
      }
    }

    /** Parses the rest of the pattern; leftover input is an error. */
    method Parse() returns (r: Result<AstNode>)
      requires Valid()
      modifies this
      ensures Valid()
      ensures Step(r, pos, groupCount) == ParseAll(chars, old(pos), old(groupCount))
    {
      r := ParseAlternation();
      if r.Err? {
        return;
      }
      if pos < |chars| {
        r := Err(UnexpectedCharacter(chars[pos], pos));
      }
    }

    method ParseAlternation() returns (r: Result<AstNode>)
      requires Valid()
      modifies this
      ensures Valid()
      ensures Step(r, pos, groupCount) == Grammar.ParseAlternation(chars, old(pos), old(groupCount))
      decreases |chars| - pos, 6
    {
      var first := ParseConcat();
      if first.Err? {
        return first;
      }
      var branches := [first.value];
      while Peek() == Some('|')
        invariant Valid() && old(pos) <= pos
        invariant AltLoop(chars, pos, groupCount, branches)
               == Grammar.ParseAlternation(chars, old(pos), old(groupCount))
        decreases |chars| - pos
      {
        var bar := Advance();
        var next := ParseConcat();
        if next.Err? {
          return next;
        }
        branches := branches + [next.value];
      }
      if |branches| == 1 {
        r := Ok(branches[0]);
      } else {
        r := Ok(Alternation(branches));
      }
    }

    method ParseConcat() returns (r: Result<AstNode>)
      requires Valid()
      modifies this
      ensures Valid()
      ensures Step(r, pos, groupCount) == Grammar.ParseConcat(chars, old(pos), old(groupCount))
      decreases |chars| - pos, 4
    {
      var nodes: seq<AstNode> := [];
      while pos < |chars| && chars[pos] != ')' && chars[pos] != '|'
        invariant Valid() && old(pos) <= pos
        invariant ConcatLoop(chars, pos, groupCount, nodes)
               == Grammar.ParseConcat(chars, old(pos), old(groupCount))
        decreases |chars| - pos
      {
        var q := ParseQuantified();
        if q.Err? {
          return q;
        }
        nodes := nodes + [q.value];
      }
      if |nodes| == 1 {
        r := Ok(nodes[0]);
      } else {
        r := Ok(Concat(nodes));
      }
    }

    method ParseQuantified() returns (r: Result<AstNode>)
      requires Valid()
      modifies this
      ensures Valid()
      ensures Step(r, pos, groupCount) == Grammar.ParseQuantified(chars, old(pos), old(groupCount))
      decreases |chars| - pos, 2
    {
      r := ParseAtom();
      if r.Err? {
        return;
      }
      var node := r.value;
      match Peek() {
        case None =>
        case Some(ch) =>
          if ch == '*' || ch == '+' || ch == '?' {
            var op := Advance();
            var kind := if ch == '*' then Star else if ch == '+' then Plus else Question;
            var greedy := true;
            if Peek() == Some('?') {
              var lazy := Advance();
              greedy := false;
            }
            r := Ok(Quantifier(node, kind, greedy));
          } else if ch == '{' {
            r := ParseBraceQuantifier(node);
          }
      }
    }

    /** At a `{`: a brace quantifier, or else the cursor goes back to the `{`. */
    method ParseBraceQuantifier(node: AstNode) returns (r: Result<AstNode>)
      requires Valid() && pos < |chars| && chars[pos] == '{'
      modifies this
      ensures Valid()
      ensures Step(r, pos, groupCount) == Grammar.ParseBraceQuantifier(chars, old(pos), old(groupCount), node)
    {
      var savePos := pos;
      var brace := Advance();
      var t := TryParseBraceContents();
      if t.Ok? {
        r := Ok(Quantifier(node, t.value.0, t.value.1));
      } else {
        pos := savePos;
        r := Ok(node);
      }
    }

    method TryParseBraceContents() returns (r: Result<(QuantifierKind, bool)>)
      requires Valid()
      modifies this
      ensures Valid()
      ensures Step(r, pos, groupCount) == TryBraceContents(chars, old(pos), old(groupCount))
    {
      var n := ParseNumber();
      if n.Err? {
        return Err(n.error);
      }
      var kind;
      if Peek() == Some(',') {
        var comma := Advance();
        if Peek() == Some('}') {
          kind := AtLeast(n.value);
        } else {
          var m := ParseNumber();
          if m.Err? {
            return Err(m.error);
          }
          kind := Range(n.value, m.value);
        }
      } else {
        kind := Exact(n.value);
      }
      var e := Expect('}');
      if e.Err? {
        return Err(e.error);
      }
      var greedy := true;
      if Peek() == Some('?') {
        var lazy := Advance();
        greedy := false;
      }
      r := Ok((kind, greedy));
    }

    method ParseNumber() returns (r: Result<nat>)
      requires Valid()
      modifies this
      ensures Valid()
      ensures Step(r, pos, groupCount) == Grammar.ParseNumber(chars, old(pos), old(groupCount))
    {
      var start := pos;
      while pos < |chars| && IsAsciiDigit(chars[pos])
        invariant Valid() && groupCount == old(groupCount)
        invariant start <= pos && DigitsEnd(chars, pos) == DigitsEnd(chars, start)
        decreases |chars| - pos
      {
        var digit := Advance();
      }
      if pos == start {
        return Err(ExpectedNumber);
      }
      r := Ok(DecimalValue(chars[start..pos]));
    }

    method ParseAtom() returns (r: Result<AstNode>)
      requires Valid()
      modifies this
      ensures Valid()
      ensures Step(r, pos, groupCount) == Grammar.ParseAtom(chars, old(pos), old(groupCount))
      decreases |chars| - pos, 1
    {
      match Peek() {
        case None =>
          r := Err(UnexpectedEnd);
        case Some(ch) =>
          if ch == '(' {
            r := ParseGroup();
          } else if ch == '[' {
            r := ParseCharClass();
          } else if ch == '\\' {
            r := ParseEscape();
          } else {
            var c := Advance();
            r := Ok(if ch == '.' then Dot
                    else if ch == '^' then Anchor(Start)
                    else if ch == '$' then Anchor(End)
                    else Literal(ch));
          }
      }
    }

    /** At a `\` outside a class. */
    method ParseEscape() returns (r: Result<AstNode>)
      requires Valid() && pos < |chars| && chars[pos] == '\\'
      modifies this
      ensures Valid()
      ensures Step(r, pos, groupCount) == Grammar.ParseEscape(chars, old(pos), old(groupCount))
    {
      var backslash := Advance();
      var c := Advance();
      match c {
        case None => r := Err(DanglingBackslash);
        case Some(ch) => r := Ok(EscapeNode(ch));
      }
    }

    /** The alternation inside a group and its closing `)`. */
    method Enclosed() returns (r: Result<AstNode>)
      requires Valid()
      modifies this
      ensures Valid()
      ensures Step(r, pos, groupCount) == Grammar.Enclosed(chars, old(pos), old(groupCount))
      decreases |chars| - pos, 7
    {
      r := ParseAlternation();
      if r.Err? {
        return;
      }
      var e := Expect(')');
      if e.Err? {
        r := Err(e.error);
      }
    }

    /** At a `(`. */
    method ParseGroup() returns (r: Result<AstNode>)
      requires Valid() && pos < |chars| && chars[pos] == '('
      modifies this
      ensures Valid()
      ensures Step(r, pos, groupCount) == Grammar.ParseGroup(chars, old(pos), old(groupCount))
      decreases |chars| - pos, 0
    {
      var open := Advance();
      if Peek() == Some('?') {
        var question := Advance();
        match Peek() {
          case Some(c) =>
            if c == ':' || c == '=' || c == '!' {
              var kindChar := Advance();
              r := Enclosed();
              if r.Ok? {
                r := Ok(if c == ':' then NonCapturingGroup(r.value) else Lookahead(r.value, c == '='));
              }
            } else if c == '<' {
              var lt := Advance();
              if Peek() == Some('=') || Peek() == Some('!') {
                var positive := Peek() == Some('=');
                var kindChar := Advance();
                r := Enclosed();
                if r.Ok? {
                  r := Ok(Lookbehind(r.value, positive));
                }
              } else {
                r := Err(InvalidLookbehind);
              }
            } else {
              r := Err(InvalidGroupSyntax);
            }
          case None =>
            r := Err(InvalidGroupSyntax);
        }
      } else {
        groupCount := groupCount + 1;
        var index := groupCount;
        r := Enclosed();
        if r.Ok? {
          r := Ok(Group(index, r.value));
        }
      }
    }

    /** At a `[`. */
    method ParseCharClass() returns (r: Result<AstNode>)
      requires Valid() && pos < |chars| && chars[pos] == '['
      modifies this
      ensures Valid()
      ensures Step(r, pos, groupCount) == Grammar.ParseCharClass(chars, old(pos), old(groupCount))
    {
      var open := Advance();
      var negated := false;
      if Peek() == Some('^') {
        var caret := Advance();
        negated := true;
      }
      var items: seq<ClassItem> := [];
      if Peek() == Some(']') {
        var bracket := Advance();
        items := [ClassChar(']')];
      }
      var body := ParseClassItems(items);
      if body.Err? {
        return Err(body.error);
      }
      r := Ok(CharClass(body.value, negated));
    }

    /** The items of a class up to and including its closing `]`, after `items0`. */
    method ParseClassItems(items0: seq<ClassItem>) returns (r: Result<seq<ClassItem>>)
      requires Valid()
      modifies this
      ensures Valid()
      ensures Step(r, pos, groupCount) == ClassLoop(chars, old(pos), old(groupCount), items0)
    {
      var items := items0;
      while Peek() != Some(']')
        invariant Valid() && groupCount == old(groupCount)
        invariant ClassLoop(chars, pos, groupCount, items) == ClassLoop(chars, old(pos), old(groupCount), items0)
        decreases |chars| - pos
      {
        match Peek() {
          case None =>
            return Err(UnterminatedClass);
          case Some(ch) =>
            if ch == '\\' {
              var backslash := Advance();
              var e := Advance();
              if e.None? {
                return Err(UnexpectedEndInClassEscape);
              }
              items := items + [ClassEscape(e.value)];
            } else {
              var c := Advance();
              if Peek() == Some('-') && pos + 1 < |chars| && chars[pos + 1] != ']' {
                var dash := Advance();
                var hi: char;
                match Peek() {
                  case Some(h) =>
                    if h == '\\' {
                      var backslash := Advance();
                      var e := Advance();
                      if e.None? {
                        return Err(UnexpectedEndInRange);
                      }
                      hi := e.value;
                    } else {
                      var h' := Advance();
                      hi := h;
                    }
                  case None =>
                    return Err(UnexpectedEndInClassRange);
                }
                items := items + [ClassRange(ch, hi)];
              } else {
                items := items + [ClassChar(ch)];
              }
            }
        }
      }
      var close := Advance();
      r := Ok(items);
    }
  }
}
