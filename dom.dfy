/** The values the HTML front end passes between its stages: the tokens the
    tokenizer emits and the document tree the parser builds. */
module Dom {

  datatype TokenType = OpenTag | CloseTag | Text | Comment | EndOfFile

  /** A token. `attributes` is filled in for open tags only; the tokenizer
      builds every other token with an empty map. */
  datatype Token = Token(kind: TokenType, value: string, attributes: map<string, string>)

  function EofToken(): Token {
    Token(EndOfFile, "", map[])
  }

  datatype NodeType = ElementNode | TextNode

  /** A document node: for an element `value` is its tag name, for a text
      node its content. */
  datatype DomNode = DomNode(kind: NodeType, value: string, children: seq<DomNode>)

  /** Text nodes are leaves; the parser builds no other kind of tree. */
  ghost predicate WellFormed(n: DomNode)
    decreases n
  {
    (n.kind == TextNode ==> n.children == []) &&
    forall i :: 0 <= i < |n.children| ==> WellFormed(n.children[i])
  }
}
