/** The HTML tree builder: recursive descent over the token list, driven by a
    token cursor. Close tags are matched by name, a tag still open when the
    tokens run out is closed there, and several top-level nodes are wrapped
    in a synthetic "root" element.

    `NodeAt`, `ChildrenAt` and `NodesAt` say what the descent computes from a
    cursor position; the class `Parser` is the cursor-driven descent itself,
    each method proved to leave the value and the cursor its function gives. */
module HtmlParser {
  import opened Common
  import opened Dom

  /** The parser's `eof`: past the token list, or at an END_OF_FILE token. */
  predicate EofAt(t: seq<Token>, p: nat) {
    p >= |t| || t[p].kind == EndOfFile
  }

  /** `parseNode` from cursor `p`: the node read and the cursor after it.
      A TEXT token is one text node. Any other token opens an element named
      by its value, whose children are read up to the close tag of that name;
      the close tag is consumed, and an element still open at eof is closed
      there without consuming anything more (`NodeAtShape`). */
  function NodeAt(t: seq<Token>, p: nat): (r: (DomNode, nat))
    requires p < |t| && t[p].kind != EndOfFile
    ensures p < r.1 <= |t|
    decreases |t| - p, 0
  {
    if t[p].kind == Text then
      (DomNode(TextNode, t[p].value, []), p + 1)
    else
      var (children, q) := ChildrenAt(t, p + 1, t[p].value, []);
      (DomNode(ElementNode, t[p].value, children), if EofAt(t, q) then q else q + 1)
  }

  /** The child loop of `parseNode` from cursor `p`, with `acc` the children
      read so far: it stops at eof or at a close tag named `tag`, and
      consumes neither (`ChildrenAtStops`). */
  function ChildrenAt(t: seq<Token>, p: nat, tag: string, acc: seq<DomNode>): (r: (seq<DomNode>, nat))
    requires p <= |t|
    ensures p <= r.1 <= |t|
    decreases |t| - p, 1
  {
    if EofAt(t, p) || (t[p].kind == CloseTag && t[p].value == tag) then
      (acc, p)
    else
      var (c, q) := NodeAt(t, p);
      ChildrenAt(t, q, tag, acc + [c])
  }

  /** `parseNodes` from cursor `p`, with `acc` the nodes read so far: nodes
      are read until eof or a close tag, which is not consumed
      (`NodesAtStops`). */
  function NodesAt(t: seq<Token>, p: nat, acc: seq<DomNode>): (r: (seq<DomNode>, nat))
    requires p <= |t|
    ensures p <= r.1 <= |t|
    decreases |t| - p
  {
    if EofAt(t, p) || t[p].kind == CloseTag then
      (acc, p)
    else
      var (n, q) := NodeAt(t, p);
      NodesAt(t, q, acc + [n])
  }

  /** What `parse` returns for the top-level nodes: the only one, or a
      "root" element holding all of them in order. */
  function Document(nodes: seq<DomNode>): DomNode {
    if |nodes| == 1 then nodes[0] else DomNode(ElementNode, "root", nodes)
  }

  /** `parse` on a fresh parser. */
  function Parse(t: seq<Token>): DomNode {
    Document(NodesAt(t, 0, []).0)
  }

  /** The tree builder: the token list and its cursor. */
  class Parser {
    const tokens: seq<Token>
    var pos: nat

    constructor (toks: seq<Token>)
      ensures tokens == toks && pos == 0
    {
      tokens := toks;
      pos := 0;
    }

    predicate Eof()
      reads this
    {
      EofAt(tokens, pos)
    }

    function CurrentToken(): Token
      reads this
      requires pos < |tokens|
    {
      tokens[pos]
    }

    method ConsumeToken()
      modifies this
      ensures pos == old(pos) + 1
    {
      pos := pos + 1;
    }

    method ParseNode() returns (node: DomNode)
      requires pos < |tokens| && CurrentToken().kind != EndOfFile
      modifies this
      ensures (node, pos) == NodeAt(tokens, old(pos))
      decreases |tokens| - pos
    {
      if CurrentToken().kind == Text {
        node := DomNode(TextNode, CurrentToken().value, []);
        ConsumeToken();
        return;
      }
      var tagName := CurrentToken().value;
      ConsumeToken();
      var children: seq<DomNode> := [];
      while !Eof() && (CurrentToken().kind != CloseTag || CurrentToken().value != tagName)
        invariant old(pos) < pos <= |tokens|
        invariant ChildrenAt(tokens, old(pos) + 1, tagName, []) == ChildrenAt(tokens, pos, tagName, children)
        decreases |tokens| - pos
      {
        var c := ParseNode();
        children := children + [c];
      }
      node := DomNode(ElementNode, tagName, children);
      if !Eof() {
        ConsumeToken();
      }
    }

    method ParseNodes() returns (nodes: seq<DomNode>)
      requires pos <= |tokens|
      modifies this
      ensures (nodes, pos) == NodesAt(tokens, old(pos), [])
    {
      nodes := [];
      while !Eof()
        invariant old(pos) <= pos <= |tokens|
        invariant NodesAt(tokens, old(pos), []) == NodesAt(tokens, pos, nodes)
        decreases |tokens| - pos
      {
        if CurrentToken().kind == OpenTag {
          var n := ParseNode();
          nodes := nodes + [n];
        } else if CurrentToken().kind == CloseTag || CurrentToken().kind == EndOfFile {
          break;
        } else {
          var n := ParseNode();
          nodes := nodes + [n];
        }
      }
    }

    method Parse() returns (root: DomNode)
      requires pos <= |tokens|
      modifies this
      ensures root == Document(NodesAt(tokens, old(pos), []).0)
    {
      var nodes := ParseNodes();
      if |nodes| == 1 {
        root := nodes[0];
      } else {
        root := DomNode(ElementNode, "root", nodes);
      }
    }
  }

  // ---------------------------------------------------------------------
  // Where each loop stops, and the shape of what it reads.

  /** The child loop stops, without consuming it, at eof or at a close tag
      with the name it looks for. */
  lemma {:induction false} ChildrenAtStops(t: seq<Token>, p: nat, tag: string, acc: seq<DomNode>)
    requires p <= |t|
    ensures var r := ChildrenAt(t, p, tag, acc);
            EofAt(t, r.1) || (t[r.1].kind == CloseTag && t[r.1].value == tag)
    decreases |t| - p
  {
    if !(EofAt(t, p) || (t[p].kind == CloseTag && t[p].value == tag)) {
      var (c, q) := NodeAt(t, p);
      ChildrenAtStops(t, q, tag, acc + [c]);
    }
  }

  /** `parseNodes` stops, without consuming it, at eof or at a close tag. */
  lemma {:induction false} NodesAtStops(t: seq<Token>, p: nat, acc: seq<DomNode>)
    requires p <= |t|
    ensures var r := NodesAt(t, p, acc);
            EofAt(t, r.1) || t[r.1].kind == CloseTag
    decreases |t| - p
  {
    if !(EofAt(t, p) || t[p].kind == CloseTag) {
      var (n, q) := NodeAt(t, p);
      NodesAtStops(t, q, acc + [n]);
    }
  }

  /** A TEXT token is read as a text node with its value and consumes
      exactly one token. Any other token is read as an element named by its
      value whose children are those the child loop reads. When that loop
      stops at eof, nothing more is consumed; otherwise it stopped at a close
      tag of the element's name, which is consumed. No token read is an eof:
      `parseNode` never steps over one. */
  lemma NodeAtShape(t: seq<Token>, p: nat)
    requires p < |t| && t[p].kind != EndOfFile
    ensures var r := NodeAt(t, p);
            t[p].kind == Text ==> r == (DomNode(TextNode, t[p].value, []), p + 1)
    ensures var r := NodeAt(t, p);
            var (cs, q) := ChildrenAt(t, p + 1, t[p].value, []);
            t[p].kind != Text ==>
              r.0 == DomNode(ElementNode, t[p].value, cs) &&
              (EofAt(t, q) ==> r.1 == q) &&
              (!EofAt(t, q) ==> t[q].kind == CloseTag && t[q].value == t[p].value && r.1 == q + 1)
    ensures forall k :: p <= k < NodeAt(t, p).1 ==> !EofAt(t, k)
  {
    if t[p].kind != Text {
      ChildrenAtStops(t, p + 1, t[p].value, []);
    }
    NodeAtPassesNoEof(t, p);
  }

  /** The tokens `parseNode` consumes hold no eof. */
  lemma {:induction false} NodeAtPassesNoEof(t: seq<Token>, p: nat)
    requires p < |t| && t[p].kind != EndOfFile
    ensures forall k :: p <= k < NodeAt(t, p).1 ==> !EofAt(t, k)
    decreases |t| - p, 0
  {
    if t[p].kind != Text {
      ChildrenAtPassesNoEof(t, p + 1, t[p].value, []);
    }
  }

  /** The tokens the child loop consumes hold no eof. */
  lemma {:induction false} ChildrenAtPassesNoEof(t: seq<Token>, p: nat, tag: string, acc: seq<DomNode>)
    requires p <= |t|
    ensures forall k :: p <= k < ChildrenAt(t, p, tag, acc).1 ==> !EofAt(t, k)
    decreases |t| - p, 1
  {
    if !(EofAt(t, p) || (t[p].kind == CloseTag && t[p].value == tag)) {
      var (c, q) := NodeAt(t, p);
      NodeAtPassesNoEof(t, p);
      ChildrenAtPassesNoEof(t, q, tag, acc + [c]);
    }
  }

  /** Every node read is well formed: text nodes come out as leaves. */
  lemma {:induction false} NodeAtWellFormed(t: seq<Token>, p: nat)
    requires p < |t| && t[p].kind != EndOfFile
    ensures WellFormed(NodeAt(t, p).0)
    decreases |t| - p, 0
  {
    if t[p].kind != Text {
      var (cs, q) := ChildrenAt(t, p + 1, t[p].value, []);
      ChildrenAtWellFormed(t, p + 1, t[p].value, []);
      assert WellFormed(DomNode(ElementNode, t[p].value, cs));
      assert NodeAt(t, p).0 == DomNode(ElementNode, t[p].value, cs);
    }
  }

  lemma {:induction false} ChildrenAtWellFormed(t: seq<Token>, p: nat, tag: string, acc: seq<DomNode>)
    requires p <= |t|
    requires AllWellFormed(acc)
    ensures AllWellFormed(ChildrenAt(t, p, tag, acc).0)
    decreases |t| - p, 1
  {
    if !(EofAt(t, p) || (t[p].kind == CloseTag && t[p].value == tag)) {
      var (c, q) := NodeAt(t, p);
      NodeAtWellFormed(t, p);
      assert AllWellFormed(acc + [c]) by {
        assert forall i :: 0 <= i < |acc + [c]| ==> WellFormed((acc + [c])[i]);
      }
      ChildrenAtWellFormed(t, q, tag, acc + [c]);
      assert ChildrenAt(t, p, tag, acc) == ChildrenAt(t, q, tag, acc + [c]);
    }
  }

  lemma {:induction false} NodesAtWellFormed(t: seq<Token>, p: nat, acc: seq<DomNode>)
    requires p <= |t|
    requires AllWellFormed(acc)
    ensures AllWellFormed(NodesAt(t, p, acc).0)
    decreases |t| - p
  {
    if !(EofAt(t, p) || t[p].kind == CloseTag) {
      var (n, q) := NodeAt(t, p);
      NodeAtWellFormed(t, p);
      assert AllWellFormed(acc + [n]) by {
        assert forall i :: 0 <= i < |acc + [n]| ==> WellFormed((acc + [n])[i]);
      }
      NodesAtWellFormed(t, q, acc + [n]);
      assert NodesAt(t, p, acc) == NodesAt(t, q, acc + [n]);
    }
  }

  ghost predicate AllWellFormed(ns: seq<DomNode>) {
    forall i :: 0 <= i < |ns| ==> WellFormed(ns[i])
  }

  /** Whatever the tokens, the document tree is well formed. */
  lemma ParseWellFormed(t: seq<Token>)
    ensures WellFormed(Parse(t))
  {
    var nodes := NodesAt(t, 0, []).0;
    NodesAtWellFormed(t, 0, []);
    if |nodes| == 1 {
      assert WellFormed(nodes[0]);
    } else {
      assert WellFormed(DomNode(ElementNode, "root", nodes));
    }
  }

  // ---------------------------------------------------------------------
  // The tokens a tree is read back from, and the round trip.

  /** The token list of a tree: a text node is one TEXT token, an element its
      open tag, its children's tokens and its close tag. */
  function TokensOf(n: DomNode): seq<Token>
    decreases n, 1
  {
    if n.kind == TextNode then [Token(Text, n.value, map[])]
    else [Token(OpenTag, n.value, map[])] + TokensOfAll(n.children) + [Token(CloseTag, n.value, map[])]
  }

  function TokensOfAll(ns: seq<DomNode>): seq<Token>
    decreases ns, 0
  {
    if ns == [] then [] else TokensOf(ns[0]) + TokensOfAll(ns[1..])
  }

  /** One turn of the child loop. */
  lemma ChildrenAtStep(t: seq<Token>, p: nat, tag: string, acc: seq<DomNode>, c: DomNode, q: nat, acc': seq<DomNode>)
    requires p < |t| && t[p].kind != EndOfFile
    requires t[p].kind != CloseTag || t[p].value != tag
    requires NodeAt(t, p) == (c, q) && acc' == acc + [c]
    ensures ChildrenAt(t, p, tag, acc) == ChildrenAt(t, q, tag, acc')
  {
  }

  /** One turn of the top-level loop. */
  lemma NodesAtStep(t: seq<Token>, p: nat, acc: seq<DomNode>, n: DomNode, q: nat, acc': seq<DomNode>)
    requires p < |t| && t[p].kind != EndOfFile && t[p].kind != CloseTag
    requires NodeAt(t, p) == (n, q) && acc' == acc + [n]
    ensures NodesAt(t, p, acc) == NodesAt(t, q, acc')
  {
  }

  /** An element read from its open tag: the children up to the matching
      close tag, and the close tag consumed. */
  lemma NodeAtElement(t: seq<Token>, p: nat, cs: seq<DomNode>, m: nat, q: nat)
    requires p < |t| && t[p].kind == OpenTag
    requires ChildrenAt(t, p + 1, t[p].value, []) == (cs, m)
    requires m < |t| && t[m].kind == CloseTag && q == m + 1
    ensures NodeAt(t, p) == (DomNode(ElementNode, t[p].value, cs), q)
  {
  }

  /** Where the tokens of the first of several trees end. */
  lemma TokensOfAllCons(t: seq<Token>, p: nat, ns: seq<DomNode>, e: nat) returns (q: nat)
    requires ns != [] && AllWellFormed(ns)
    requires At(t, p, TokensOfAll(ns)) && e == p + |TokensOfAll(ns)|
    ensures WellFormed(ns[0]) && AllWellFormed(ns[1..])
    ensures At(t, p, TokensOf(ns[0])) && q == p + |TokensOf(ns[0])|
    ensures At(t, q, TokensOfAll(ns[1..])) && e == q + |TokensOfAll(ns[1..])|
  {
    AtAppend(t, p, TokensOf(ns[0]), TokensOfAll(ns[1..]));
    q := p + |TokensOf(ns[0])|;
    assert AllWellFormed(ns[1..]) by {
      forall i | 0 <= i < |ns[1..]| ensures WellFormed(ns[1..][i]) {
        assert ns[1..][i] == ns[i + 1];
      }
    }
  }

  /** Where the parts of an element's tokens lie. */
  lemma ElementTokensParts(t: seq<Token>, p: nat, n: DomNode, q: nat) returns (m: nat)
    requires n.kind == ElementNode && WellFormed(n)
    requires At(t, p, TokensOf(n)) && q == p + |TokensOf(n)|
    ensures p < |t| && t[p].kind == OpenTag && t[p].value == n.value
    ensures AllWellFormed(n.children)
    ensures At(t, p + 1, TokensOfAll(n.children)) && m == p + 1 + |TokensOfAll(n.children)|
    ensures m < |t| && t[m].kind == CloseTag && t[m].value == n.value && q == m + 1
  {
    var open := [Token(OpenTag, n.value, map[])];
    var close := [Token(CloseTag, n.value, map[])];
    var inner := TokensOfAll(n.children);
    assert TokensOf(n) == open + (inner + close);
    AtAppend(t, p, open, inner + close);
    AtAppend(t, p + 1, inner, close);
    AtIndex(t, p, open, 0);
    m := p + 1 + |inner|;
    AtIndex(t, m, close, 0);
  }

  /** A well-formed tree is read back from its tokens, whatever follows them. */
  lemma {:induction false} NodeAtTokensOf(t: seq<Token>, p: nat, n: DomNode, q: nat)
    requires WellFormed(n)
    requires At(t, p, TokensOf(n)) && q == p + |TokensOf(n)|
    ensures p < |t| && (t[p].kind == OpenTag || t[p].kind == Text)
    ensures NodeAt(t, p) == (n, q)
    decreases n, 1
  {
    if n.kind == ElementNode {
      var m := ElementTokensParts(t, p, n, q);
      ChildrenAtTokensOf(t, p + 1, n.value, [], n.children, m);
      NodeAtElement(t, p, [] + n.children, m, q);
      AppendNil(n.children, []);
    } else {
      AtIndex(t, p, TokensOf(n), 0);
      assert n == DomNode(TextNode, n.value, []);
    }
  }

  /** Well-formed children followed by their parent's close tag are read back
      in order, and the loop stops at that close tag. */
  lemma {:induction false} ChildrenAtTokensOf(t: seq<Token>, p: nat, tag: string, acc: seq<DomNode>, cs: seq<DomNode>, e: nat)
    requires AllWellFormed(cs)
    requires At(t, p, TokensOfAll(cs)) && e == p + |TokensOfAll(cs)|
    requires e < |t| && t[e].kind == CloseTag && t[e].value == tag
    ensures ChildrenAt(t, p, tag, acc) == (acc + cs, e)
    decreases cs, 0
  {
    if cs == [] {
      AppendNil(acc, cs);
    } else {
      var q := TokensOfAllCons(t, p, cs, e);
      NodeAtTokensOf(t, p, cs[0], q);
      var acc' := acc + [cs[0]];
      ChildrenAtStep(t, p, tag, acc, cs[0], q, acc');
      ChildrenAtTokensOf(t, q, tag, acc', cs[1..], e);
      MoveHead(acc, cs, acc');
    }
  }

  /** Well-formed top-level trees followed by eof or a close tag are read
      back in order. */
  lemma {:induction false} NodesAtTokensOf(t: seq<Token>, p: nat, acc: seq<DomNode>, ns: seq<DomNode>, e: nat)
    requires AllWellFormed(ns)
    requires At(t, p, TokensOfAll(ns)) && e == p + |TokensOfAll(ns)|
    requires EofAt(t, e) || t[e].kind == CloseTag
    ensures NodesAt(t, p, acc) == (acc + ns, e)
    decreases ns
  {
    if ns == [] {
      AppendNil(acc, ns);
    } else {
      var q := TokensOfAllCons(t, p, ns, e);
      NodeAtTokensOf(t, p, ns[0], q);
      var acc' := acc + [ns[0]];
      NodesAtStep(t, p, acc, ns[0], q, acc');
      NodesAtTokensOf(t, q, acc', ns[1..], e);
      MoveHead(acc, ns, acc');
    }
  }

  /** Parsing the tokens of well-formed top-level trees followed by
      END_OF_FILE gives back the only tree, or a "root" element holding them
      all in order. */
  lemma ParseTokensOf(ns: seq<DomNode>)
    requires AllWellFormed(ns)
    ensures |ns| == 1 ==> Parse(TokensOfAll(ns) + [EofToken()]) == ns[0]
    ensures |ns| != 1 ==> Parse(TokensOfAll(ns) + [EofToken()]) == DomNode(ElementNode, "root", ns)
  {
    var t := TokensOfAll(ns) + [EofToken()];
    AtConcat([], TokensOfAll(ns), [EofToken()]);
    assert [] + TokensOfAll(ns) + [EofToken()] == t;
    NodesAtTokensOf(t, 0, [], ns, |TokensOfAll(ns)|);
    AppendNil(ns, []);
  }

  /** A close tag that does not match the open element is read as an element
      of its own name, which then stays open to eof: the tokens of
      `<a></b></a>` give `a` holding `b` holding `a`. */
  lemma StrayCloseTagOpensElement()
    ensures Parse([Token(OpenTag, "a", map[]), Token(CloseTag, "b", map[]), Token(CloseTag, "a", map[]), EofToken()])
         == DomNode(ElementNode, "a", [DomNode(ElementNode, "b", [DomNode(ElementNode, "a", [])])])
  {
    var t := [Token(OpenTag, "a", map[]), Token(CloseTag, "b", map[]), Token(CloseTag, "a", map[]), EofToken()];
    var inner := DomNode(ElementNode, "a", []);
    var mid := DomNode(ElementNode, "b", [inner]);
    var outer := DomNode(ElementNode, "a", [mid]);
    assert [] + [inner] == [inner] && [] + [mid] == [mid] && [] + [outer] == [outer];
    assert ChildrenAt(t, 3, "a", []) == ([], 3);
    assert NodeAt(t, 2) == (inner, 3);
    assert ChildrenAt(t, 3, "b", [inner]) == ([inner], 3);
    assert ChildrenAt(t, 2, "b", []) == ([inner], 3);
    assert NodeAt(t, 1) == (mid, 3);
    assert ChildrenAt(t, 3, "a", [mid]) == ([mid], 3);
    assert ChildrenAt(t, 1, "a", []) == ([mid], 3);
    assert NodeAt(t, 0) == (outer, 3);
    assert NodesAt(t, 3, [outer]) == ([outer], 3);
    assert NodesAt(t, 0, []) == ([outer], 3);
  }
}
