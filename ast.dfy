/** The abstract syntax tree produced by the parser and consumed by the compiler. */
module Ast {

  /** Kind of a shorthand class: `\d`, `\D`, `\w`, `\W`, `\s`, `\S`. */
  datatype ShorthandKind = Digit | NonDigit | Word | NonWord | Space | NonSpace

  /** Anchors: `^`, `$`, `\b`, `\B`. */
  datatype AnchorKind = Start | End | WordBoundary | NonWordBoundary

  /** One item of a bracketed character class. */
  datatype ClassItem =
    | ClassChar(ch: char)
    | ClassRange(lo: char, hi: char)
    | ClassShorthand(kind: ShorthandKind)

  /** How often the quantified node may repeat. */
  datatype QuantifierKind =
    | Star
    | Plus
    | Question
    | Exact(n: nat)
    | AtLeast(n: nat)
    | Range(n: nat, m: nat)

  /** A node of the pattern. Only `Group` carries a capture index. */
  datatype AstNode =
    | Literal(ch: char)
    | Dot
    | Concat(nodes: seq<AstNode>)
    | Alternation(branches: seq<AstNode>)
    | Quantifier(node: AstNode, kind: QuantifierKind, greedy: bool)
    | CharClass(items: seq<ClassItem>, negated: bool)
    | ShorthandClass(shorthand: ShorthandKind)
    | Anchor(anchor: AnchorKind)
    | Group(index: nat, node: AstNode)
    | NonCapturingGroup(node: AstNode)
    | Backreference(group: nat)
    | Lookahead(node: AstNode, positive: bool)
    | Lookbehind(node: AstNode, positive: bool)

  /** Smallest count a quantifier kind allows. */
  function MinCount(k: QuantifierKind): nat
  {
    match k
    case Star => 0
    case Plus => 1
    case Question => 0
    case Exact(n) => n
    case AtLeast(n) => n
    case Range(n, _) => n
  }

  /** Largest count a quantifier kind allows, None when unbounded. */
  function MaxCount(k: QuantifierKind): Option<nat>
  {
    match k
    case Star => None
    case Plus => None
    case Question => Some(1)
    case Exact(n) => Some(n)
    case AtLeast(_) => None
    case Range(_, m) => Some(m)
  }

  /** A repetition count is allowed by a quantifier kind. */
  predicate AllowsCount(k: QuantifierKind, count: nat)
  {
    MinCount(k) <= count && (MaxCount(k).None? || count <= MaxCount(k).value)
  }

  datatype Option<T> = None | Some(value: T)

  /** Rust's `char::is_ascii_digit`: '0'..'9'. */
  predicate IsAsciiDigit(ch: char)
  {
    '0' <= ch <= '9'
  }

  /** Rust's `char::is_ascii_alphanumeric`: '0'..'9', 'a'..'z', 'A'..'Z'. */
  predicate IsAsciiAlphanumeric(ch: char)
  {
    IsAsciiDigit(ch) || 'a' <= ch <= 'z' || 'A' <= ch <= 'Z'
  }

  /** Rust's `char::is_ascii_whitespace`: space, tab, line feed, form feed, carriage return. */
  predicate IsAsciiWhitespace(ch: char)
  {
    ch == ' ' || ch == '\t' || ch == '\n' || ch == '\U{000C}' || ch == '\r'
  }

  /** The capture indices of a tree in preorder: a group's own index before those in its body. */
  function Captures(node: AstNode): seq<nat>
    decreases node, 1
  {
    match node
    case Concat(ns) => CapturesOf(ns)
    case Alternation(bs) => CapturesOf(bs)
    case Quantifier(n, _, _) => Captures(n)
    case Group(i, n) => [i] + Captures(n)
    case NonCapturingGroup(n) => Captures(n)
    case Lookahead(n, _) => Captures(n)
    case Lookbehind(n, _) => Captures(n)
    case _ => []
  }

  function CapturesOf(ns: seq<AstNode>): seq<nat>
    decreases ns, 0
  {
    if |ns| == 0 then [] else CapturesOf(ns[..|ns| - 1]) + Captures(ns[|ns| - 1])
  }

  /** How many `{n,m}` quantifiers in the tree have m < n. */
  function UnorderedRanges(node: AstNode): nat
    decreases node, 1
  {
    match node
    case Concat(ns) => UnorderedRangesOf(ns)
    case Alternation(bs) => UnorderedRangesOf(bs)
    case Quantifier(n, k, _) => (if k.Range? && k.m < k.n then 1 else 0) + UnorderedRanges(n)
    case Group(_, n) => UnorderedRanges(n)
    case NonCapturingGroup(n) => UnorderedRanges(n)
    case Lookahead(n, _) => UnorderedRanges(n)
    case Lookbehind(n, _) => UnorderedRanges(n)
    case _ => 0
  }

  function UnorderedRangesOf(ns: seq<AstNode>): nat
    decreases ns, 0
  {
    if |ns| == 0 then 0 else UnorderedRangesOf(ns[..|ns| - 1]) + UnorderedRanges(ns[|ns| - 1])
  }

  /** Every `{n,m}` in the tree has n <= m. */
  predicate RangesOrdered(node: AstNode)
  {
    UnorderedRanges(node) == 0
  }

  predicate RangesOrderedAll(ns: seq<AstNode>)
  {
    UnorderedRangesOf(ns) == 0
  }

  /** Each element of an ordered sequence of nodes is ordered. */
  lemma {:induction false} OrderedElement(ns: seq<AstNode>, i: nat)
    requires RangesOrderedAll(ns) && i < |ns|
    ensures RangesOrdered(ns[i])
    decreases |ns|
  {
    if i < |ns| - 1 {
      assert ns[..|ns| - 1][i] == ns[i];
      OrderedElement(ns[..|ns| - 1], i);
    }
  }
}
