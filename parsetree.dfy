/**
 * The parse-tree node type of src/parser.rs.
 *
 * A parse tree is a `Tree.Node` whose value says what the node is: a
 * token, a nonterminal together with the production that built it, an
 * unlabelled run of children that the caller splices in (`InnerNode`), or
 * the children of an optional or repeated part (`List`).
 */
module ParseTree {
  import Tree
  import Lexer
  import opened Grammar

  /** `NonTerminal`: the node's type (the production's name), its label and the production itself. */
  datatype NonTerminalData = NonTerminalData(type_: string, value_: string, rule_: Production)

  datatype NodeType =
    | TerminalNode(token: Lexer.Token)
    | NonTerminalNode(nt: NonTerminalData)
    | InnerNode
    | List

  type Node = Tree.Node<NodeType>

  /** A nonterminal whose type and value agree with the production it records. */
  predicate Consistent(nt: NonTerminalData)
  {
    nt.type_ == nt.rule_.name && nt.value_ == nt.rule_.label_
  }

  /** `From<&Production> for NonTerminal`: the name, the label and a copy of the production. */
  function FromProduction(rule: Production): (nt: NonTerminalData)
    ensures nt.type_ == rule.name
    ensures nt.value_ == rule.label_
    ensures nt.rule_ == rule
    ensures Consistent(nt)
  {
    NonTerminalData(rule.name, rule.label_, rule)
  }

  /** Every consistent nonterminal is the one its production gives. */
  lemma ConsistentFrom(nt: NonTerminalData)
    requires Consistent(nt)
    ensures FromProduction(nt.rule_) == nt
  {
  }

  /** The tokens at the leaves of a tree, left to right. */
  function Fringe(n: Node): seq<Lexer.Token>
    decreases n, 1
  {
    (if n.value.TerminalNode? then [n.value.token] else []) + FringeOf(n.childs)
  }

  function FringeOf(ns: seq<Node>): seq<Lexer.Token>
    decreases ns, 0
  {
    if |ns| == 0 then [] else Fringe(ns[0]) + FringeOf(ns[1..])
  }

  lemma {:induction false} FringeOfAppend(a: seq<Node>, b: seq<Node>)
    ensures FringeOf(a + b) == FringeOf(a) + FringeOf(b)
  {
    if |a| > 0 {
      assert (a + b)[1..] == a[1..] + b;
      FringeOfAppend(a[1..], b);
    } else {
      assert a + b == b;
    }
  }
}
