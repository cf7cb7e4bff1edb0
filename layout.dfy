/** Block layout. A box tree is built from the styled tree, leaving out
    text that is only blank, and is then laid out top-down: each element box
    takes its width from the stylesheet or from its containing block, is
    shifted by its margins, and stacks its children vertically inside its
    padding; an element without a specified height is as tall as its
    children plus padding. Box trees are values here: layout returns the
    tree with its dimensions filled in. */
module Layout {
  import opened Common
  import opened Dom
  import opened StyleApplier

  datatype Rect = Rect(x: real, y: real, width: real, height: real)

  datatype DisplayType = Block | Inline | NoDisplay

  /** The containing block the root is laid out in. */
  const InitialContainingBlock: Rect := Rect(0.0, 0.0, 800.0, 600.0)

  /** The property values that read as a length once any `"px"` is taken
      out, each with the length it gives. */
  type Lengths = map<string, real>

  /** `get_px_value`: the length a property gives, or `fallback` when the
      property is not set or does not hold a number. */
  function GetPx(values: map<string, string>, name: string, fallback: real, lengths: Lengths): real {
    if name in values && values[name] in lengths then lengths[values[name]] else fallback
  }

  /** An unset property gives the fallback; a set one gives its length
      when it has one. */
  lemma GetPxCases(values: map<string, string>, name: string, fallback: real, lengths: Lengths)
    ensures name !in values ==> GetPx(values, name, fallback, lengths) == fallback
    ensures name in values && values[name] !in lengths ==> GetPx(values, name, fallback, lengths) == fallback
    ensures name in values && values[name] in lengths ==> GetPx(values, name, fallback, lengths) == lengths[values[name]]
  {
  }

  /** The lengths layout reads from a box's specified values, each 0 when
      unset. */
  datatype BoxStyle = BoxStyle(width: real, height: real, marginLeft: real, marginTop: real,
                               marginBottom: real, padding: real)

  function StyleOf(values: map<string, string>, lengths: Lengths): BoxStyle {
    BoxStyle(GetPx(values, "width", 0.0, lengths), GetPx(values, "height", 0.0, lengths),
             GetPx(values, "margin-left", 0.0, lengths), GetPx(values, "margin-top", 0.0, lengths),
             GetPx(values, "margin-bottom", 0.0, lengths), GetPx(values, "padding", 0.0, lengths))
  }

  // ---------------------------------------------------------------------
  // Which styled children get a box.

  /** The characters a text node may hold and still get no box. */
  predicate IsLayoutSpace(c: char) {
    c == ' ' || c == '\t' || c == '\n' || c == '\r'
  }

  /** A text node with no character outside `IsLayoutSpace`. */
  predicate Skipped(node: StyledNode) {
    node.domNode.kind == TextNode
    && forall i :: 0 <= i < |node.domNode.value| ==> IsLayoutSpace(node.domNode.value[i])
  }

  /** The children that get a box, in order. */
  function Kept(cs: seq<StyledNode>): seq<StyledNode> {
    if cs == [] then []
    else (if Skipped(cs[0]) then [] else [cs[0]]) + Kept(cs[1..])
  }

  lemma KeptStep(cs: seq<StyledNode>, c: nat)
    requires c < |cs|
    ensures Kept(cs[c..]) == (if Skipped(cs[c]) then [] else [cs[c]]) + Kept(cs[c + 1..])
  {
    assert cs[c..][1..] == cs[c + 1..];
  }

  /** Keeping children commutes with concatenation: with `KeptSingle`,
      `Kept` drops exactly the skipped children and keeps the others in
      their order. */
  lemma {:induction false} KeptAppend(a: seq<StyledNode>, b: seq<StyledNode>)
    ensures Kept(a + b) == Kept(a) + Kept(b)
  {
    if a == [] {
      assert a + b == b;
    } else {
      assert (a + b)[0] == a[0];
      assert (a + b)[1..] == a[1..] + b;
      KeptAppend(a[1..], b);
    }
  }

  lemma KeptSingle(c: StyledNode)
    ensures Kept([c]) == if Skipped(c) then [] else [c]
  {
    assert [c][1..] == [];
  }

  /** A child has a box iff it is not blank text. */
  lemma {:induction false} KeptMembers(cs: seq<StyledNode>, c: StyledNode)
    ensures c in Kept(cs) <==> c in cs && !Skipped(c)
  {
    if cs != [] {
      KeptMembers(cs[1..], c);
      assert cs == [cs[0]] + cs[1..];
    }
  }

  // ---------------------------------------------------------------------
  // Box trees as values, and what layout makes of them.

  /** A box: the styled node it stands for, its dimensions once laid out,
      and the boxes of its children. */
  datatype LayoutBox = LayoutBox(styledNode: StyledNode, dimensions: Rect, displayType: DisplayType,
                                 children: seq<LayoutBox>)

  /** `v` is a box tree built from `s`: one box per kept child, in order,
      each referring to its styled node. Dimensions are not constrained. */
  predicate Builds(v: LayoutBox, s: StyledNode) {
    v.styledNode == s
    && |v.children| == |Kept(s.children)|
    && forall i :: 0 <= i < |v.children| ==> Builds(v.children[i], Kept(s.children)[i])
  }

  /** The vertical space a laid-out child takes in its parent. */
  function OuterHeight(child: LayoutBox, lengths: Lengths): real {
    var style := StyleOf(child.styledNode.specifiedValues, lengths);
    style.marginTop + child.dimensions.height + style.marginBottom
  }

  /** `layout` on a box tree value. Boxes of text nodes keep whatever
      dimensions they have. */
  function LaidOut(v: LayoutBox, cb: Rect, lengths: Lengths): LayoutBox
    decreases v, 1
  {
    if v.styledNode.domNode.kind != ElementNode then v
    else Place(v, cb, lengths, Stack(v.children, ContentBlock(v, cb, lengths), lengths, 0, [], 0.0))
  }

  /** The width an element box takes: its own when specified, else its
      containing block's. */
  function BoxWidth(style: BoxStyle, cb: Rect): real {
    if style.width > 0.0 then style.width else cb.width
  }

  /** Where an element box's children go: inside its margins and padding,
      starting with no height. */
  function ContentBlock(v: LayoutBox, cb: Rect, lengths: Lengths): Rect {
    var style := StyleOf(v.styledNode.specifiedValues, lengths);
    Rect(cb.x + style.marginLeft + style.padding, cb.y + style.marginTop + style.padding,
         BoxWidth(style, cb) - 2.0 * style.padding, 0.0)
  }

  /** An element box with its dimensions set, given its laid-out children
      and the height they take. */
  function Place(v: LayoutBox, cb: Rect, lengths: Lengths, stacked: (seq<LayoutBox>, real)): LayoutBox {
    var style := StyleOf(v.styledNode.specifiedValues, lengths);
    var height := if style.height > 0.0 then style.height else stacked.1 + 2.0 * style.padding;
    v.(dimensions := Rect(cb.x + style.marginLeft, cb.y + style.marginTop, BoxWidth(style, cb), height),
       children := stacked.0)
  }

  /** The loop over children in `layout`: children `i..` laid out one below
      the other in the content area, from `height` down; returns the laid
      out children and the content height reached. */
  function Stack(cs: seq<LayoutBox>, content: Rect, lengths: Lengths, i: nat, acc: seq<LayoutBox>, height: real): (seq<LayoutBox>, real)
    decreases cs, 0, |cs| - i
  {
    if i >= |cs| then (acc, height)
    else
      var child := LaidOut(cs[i], Rect(content.x, content.y + height, content.width, 0.0), lengths);
      Stack(cs, content, lengths, i + 1, acc + [child], height + OuterHeight(child, lengths))
  }

  /** The space the first `i` laid-out children take, top to bottom. */
  function Offset(ks: seq<LayoutBox>, i: nat, lengths: Lengths): real
    requires i <= |ks|
  {
    if i == 0 then 0.0 else Offset(ks, i - 1, lengths) + OuterHeight(ks[i - 1], lengths)
  }

  lemma {:induction false} OffsetPrefix(ks: seq<LayoutBox>, k: LayoutBox, i: nat, lengths: Lengths)
    requires i <= |ks|
    ensures Offset(ks + [k], i, lengths) == Offset(ks, i, lengths)
  {
    if i > 0 {
      OffsetPrefix(ks, k, i - 1, lengths);
      assert (ks + [k])[i - 1] == ks[i - 1];
    }
  }

  /** The containing block of the `i`-th child: the content area's left
      edge and width, starting below the children before it. */
  function ChildBlock(content: Rect, ks: seq<LayoutBox>, i: nat, lengths: Lengths): Rect
    requires i <= |ks|
  {
    Rect(content.x, content.y + Offset(ks, i, lengths), content.width, 0.0)
  }

  /** What `Stack` has done after `i` children. */
  ghost predicate Stacked(cs: seq<LayoutBox>, content: Rect, lengths: Lengths, ks: seq<LayoutBox>, n: nat, height: real) {
    n <= |cs| && |ks| == n && height == Offset(ks, n, lengths)
    && forall j {:trigger cs[j]} :: 0 <= j < n ==> ks[j] == LaidOut(cs[j], ChildBlock(content, ks, j, lengths), lengths)
  }

  lemma StackedNext(cs: seq<LayoutBox>, content: Rect, lengths: Lengths, ks: seq<LayoutBox>, i: nat, height: real, k: LayoutBox)
    requires Stacked(cs, content, lengths, ks, i, height) && i < |cs|
    requires k == LaidOut(cs[i], Rect(content.x, content.y + height, content.width, 0.0), lengths)
    ensures Stacked(cs, content, lengths, ks + [k], i + 1, height + OuterHeight(k, lengths))
  {
    var ks' := ks + [k];
    forall j | 0 <= j <= i
      ensures ks'[j] == LaidOut(cs[j], ChildBlock(content, ks', j, lengths), lengths)
    {
      OffsetPrefix(ks, k, j, lengths);
      assert ChildBlock(content, ks', j, lengths) == ChildBlock(content, ks, j, lengths);
    }
    OffsetPrefix(ks, k, i, lengths);
    assert ks'[i] == k;
    assert Offset(ks', i + 1, lengths) == height + OuterHeight(k, lengths);
  }

  lemma StackStep(cs: seq<LayoutBox>, content: Rect, lengths: Lengths, i: nat, acc: seq<LayoutBox>, height: real, k: LayoutBox)
    requires i < |cs| && k == LaidOut(cs[i], Rect(content.x, content.y + height, content.width, 0.0), lengths)
    ensures Stack(cs, content, lengths, i, acc, height)
         == Stack(cs, content, lengths, i + 1, acc + [k], height + OuterHeight(k, lengths))
  {
  }

  lemma {:induction false} StackClosedForm(cs: seq<LayoutBox>, content: Rect, lengths: Lengths, i: nat, acc: seq<LayoutBox>, height: real)
    requires Stacked(cs, content, lengths, acc, i, height)
    ensures var r := Stack(cs, content, lengths, i, acc, height); Stacked(cs, content, lengths, r.0, |cs|, r.1)
    decreases |cs| - i
  {
    if i < |cs| {
      var k := LaidOut(cs[i], Rect(content.x, content.y + height, content.width, 0.0), lengths);
      StackStep(cs, content, lengths, i, acc, height, k);
      StackedNext(cs, content, lengths, acc, i, height, k);
      StackClosedForm(cs, content, lengths, i + 1, acc + [k], height + OuterHeight(k, lengths));
    }
  }

  /** The area a box's children are laid out in: its rectangle less its
      padding on every side, starting with no height. */
  function ContentArea(r: Rect, style: BoxStyle): Rect {
    Rect(r.x + style.padding, r.y + style.padding, r.width - 2.0 * style.padding, 0.0)
  }

  /** Layout of an element box, in closed form: the width rule, the margin
      offsets, each child laid out in a block at the content area's left
      edge and below all earlier children (with their margins), as wide as
      the box minus its padding, and the height rule. */
  lemma LaidOutElement(v: LayoutBox, cb: Rect, lengths: Lengths)
    requires v.styledNode.domNode.kind == ElementNode
    ensures var w := LaidOut(v, cb, lengths);
      var style := StyleOf(v.styledNode.specifiedValues, lengths);
      && w.styledNode == v.styledNode && w.displayType == v.displayType
      && w.dimensions.width == (if style.width > 0.0 then style.width else cb.width)
      && w.dimensions.x == cb.x + style.marginLeft
      && w.dimensions.y == cb.y + style.marginTop
      && |w.children| == |v.children|
      && (forall j {:trigger v.children[j]} :: 0 <= j < |v.children| ==>
            w.children[j] == LaidOut(v.children[j], ChildBlock(ContentArea(w.dimensions, style), w.children, j, lengths), lengths))
      && w.dimensions.height == (if style.height > 0.0 then style.height
                           else Offset(w.children, |v.children|, lengths) + 2.0 * style.padding)
  {
    var style := StyleOf(v.styledNode.specifiedValues, lengths);
    var content := ContentBlock(v, cb, lengths);
    var r := Stack(v.children, content, lengths, 0, [], 0.0);
    StackClosedForm(v.children, content, lengths, 0, [], 0.0);
    var w := LaidOut(v, cb, lengths);
    assert w == Place(v, cb, lengths, r);
    assert w.children == r.0;
    assert ContentArea(w.dimensions, style) == content;
    forall j | 0 <= j < |v.children|
      ensures w.children[j] == LaidOut(v.children[j], ChildBlock(content, w.children, j, lengths), lengths)
    {
      assert Stacked(v.children, content, lengths, r.0, |v.children|, r.1);
      assert v.children[j] == v.children[j];
    }
  }

  /** Boxes of text nodes are left as they are. */
  lemma TextBoxUntouched(v: LayoutBox, cb: Rect, lengths: Lengths)
    requires v.styledNode.domNode.kind != ElementNode
    ensures LaidOut(v, cb, lengths) == v
  {
  }

  /** Layout changes dimensions only: a box tree built from a styled tree
      is still built from it once laid out. */
  lemma {:induction false} LaidOutBuilds(v: LayoutBox, s: StyledNode, cb: Rect, lengths: Lengths)
    requires Builds(v, s)
    ensures Builds(LaidOut(v, cb, lengths), s)
    decreases v
  {
    if v.styledNode.domNode.kind == ElementNode {
      LaidOutElement(v, cb, lengths);
      var w := LaidOut(v, cb, lengths);
      var content := ContentArea(w.dimensions, StyleOf(v.styledNode.specifiedValues, lengths));
      forall j | 0 <= j < |w.children|
        ensures Builds(w.children[j], Kept(s.children)[j])
      {
        LaidOutBuilds(v.children[j], Kept(s.children)[j], ChildBlock(content, w.children, j, lengths), lengths);
      }
    }
  }

  // ---------------------------------------------------------------------
  // Building the box tree.

  /** The box tree of a styled node: a block box per node, over the boxes
      of its children that are not blank text. `unset` stands for the
      dimensions a box has before layout, which nothing initialises. */
  function BoxTree(s: StyledNode, unset: Rect): LayoutBox
    decreases s, 1
  {
    LayoutBox(s, unset, Block, BoxTrees(s.children, 0, unset))
  }

  /** The boxes of children `i..`. */
  function BoxTrees(cs: seq<StyledNode>, i: nat, unset: Rect): seq<LayoutBox>
    decreases cs, 0, |cs| - i
  {
    if i >= |cs| then []
    else (if Skipped(cs[i]) then [] else [BoxTree(cs[i], unset)]) + BoxTrees(cs, i + 1, unset)
  }

  /** The box tree has one box per kept child, in order, at every level. */
  lemma {:induction false} BoxTreeBuilds(s: StyledNode, unset: Rect)
    ensures Builds(BoxTree(s, unset), s)
    decreases s, 1
  {
    BoxTreesBuild(s.children, 0, unset);
    assert s.children[0..] == s.children;
  }

  lemma {:induction false} BoxTreesBuild(cs: seq<StyledNode>, i: nat, unset: Rect)
    requires i <= |cs|
    ensures |BoxTrees(cs, i, unset)| == |Kept(cs[i..])|
    ensures forall j :: 0 <= j < |Kept(cs[i..])| ==> Builds(BoxTrees(cs, i, unset)[j], Kept(cs[i..])[j])
    decreases cs, 0, |cs| - i
  {
    if i < |cs| {
      KeptStep(cs, i);
      BoxTreesBuild(cs, i + 1, unset);
      if !Skipped(cs[i]) {
        BoxTreeBuilds(cs[i], unset);
      }
    }
  }

  /** `build_box_tree`. */
  method BuildBoxTree(styled: StyledNode, unset: Rect) returns (box: LayoutBox)
    ensures box == BoxTree(styled, unset)
    decreases styled
  {
    var children: seq<LayoutBox> := [];
    var c := 0;
    while c < |styled.children|
      invariant 0 <= c <= |styled.children|
      invariant BoxTrees(styled.children, 0, unset) == children + BoxTrees(styled.children, c, unset)
    {
      var child := styled.children[c];
      if !Skipped(child) {
        var sub := BuildBoxTree(child, unset);
        children := children + [sub];
      }
      c := c + 1;
    }
    box := LayoutBox(styled, unset, Block, children);
  }

  // ---------------------------------------------------------------------
  // Laying it out.

  /** `LayoutEngine::layout`: `box` and everything below it laid out in the
      containing block `cb`. */
  method Layout(box: LayoutBox, cb: Rect, lengths: Lengths) returns (laid: LayoutBox)
    ensures laid == LaidOut(box, cb, lengths)
    decreases box, 1
  {
    if box.styledNode.domNode.kind != ElementNode {
      return box;
    }
    var values := box.styledNode.specifiedValues;
    var dimensions := box.dimensions;
    var specifiedWidth := GetPx(values, "width", 0.0, lengths);
    if specifiedWidth > 0.0 {
      dimensions := dimensions.(width := specifiedWidth);
    } else {
      dimensions := dimensions.(width := cb.width);
    }
    dimensions := dimensions.(x := cb.x + GetPx(values, "margin-left", 0.0, lengths));
    dimensions := dimensions.(y := cb.y + GetPx(values, "margin-top", 0.0, lengths));
    var padding := GetPx(values, "padding", 0.0, lengths);
    var contentX := dimensions.x + padding;
    var contentY := dimensions.y + padding;
    var contentWidth := dimensions.width - 2.0 * padding;
    ghost var content := ContentBlock(box, cb, lengths);
    assert content == Rect(contentX, contentY, contentWidth, 0.0);
    var children, contentHeight := LayoutChildren(box.children, content, contentX, contentY, contentWidth, lengths);
    var specifiedHeight := GetPx(values, "height", 0.0, lengths);
    dimensions := dimensions.(height := if specifiedHeight > 0.0 then specifiedHeight else contentHeight + 2.0 * padding);
    laid := box.(dimensions := dimensions, children := children);
    assert laid == Place(box, cb, lengths, (children, contentHeight));
  }

  /** The loop over children in `LayoutEngine::layout`: each child laid
      out in a block at the left of the content area, below the children
      before it; returns the laid-out children and the height they take.
      `content` is the content area as a ghost value, `contentX`,
      `contentY` and `contentWidth` its fields as the caller computed them. */
  method LayoutChildren(cs: seq<LayoutBox>, ghost content: Rect, contentX: real, contentY: real,
                        contentWidth: real, lengths: Lengths)
    returns (children: seq<LayoutBox>, contentHeight: real)
    requires content == Rect(contentX, contentY, contentWidth, 0.0)
    ensures (children, contentHeight) == Stack(cs, content, lengths, 0, [], 0.0)
    decreases cs, 0
  {
    children := [];
    contentHeight := 0.0;
    var i := 0;
    while i < |cs|
      invariant 0 <= i <= |cs|
      invariant Stack(cs, content, lengths, 0, [], 0.0) == Stack(cs, content, lengths, i, children, contentHeight)
    {
      var child := Layout(cs[i], Rect(contentX, contentY + contentHeight, contentWidth, 0.0), lengths);
      StackStep(cs, content, lengths, i, children, contentHeight, child);
      ghost var above := contentHeight;
      contentHeight := contentHeight
        + GetPx(child.styledNode.specifiedValues, "margin-top", 0.0, lengths)
        + child.dimensions.height
        + GetPx(child.styledNode.specifiedValues, "margin-bottom", 0.0, lengths);
      assert contentHeight == above + OuterHeight(child, lengths);
      children := children + [child];
      i := i + 1;
    }
  }

  /** `LayoutEngine::buildLayoutTree`: the box tree of `styledRoot` laid
      out in the initial containing block. */
  method BuildLayoutTree(styledRoot: StyledNode, lengths: Lengths, unset: Rect) returns (root: LayoutBox)
    ensures root == LaidOut(BoxTree(styledRoot, unset), InitialContainingBlock, lengths)
  {
    root := BuildBoxTree(styledRoot, unset);
    root := Layout(root, InitialContainingBlock, lengths);
  }

  /** The laid-out tree still has one box per kept styled node, in order. */
  lemma LayoutTreeBuilds(styledRoot: StyledNode, lengths: Lengths, unset: Rect)
    ensures Builds(LaidOut(BoxTree(styledRoot, unset), InitialContainingBlock, lengths), styledRoot)
  {
    BoxTreeBuilds(styledRoot, unset);
    LaidOutBuilds(BoxTree(styledRoot, unset), styledRoot, InitialContainingBlock, lengths);
  }
}
