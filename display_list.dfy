/** Flattening a laid-out box tree into a display list: one solid
    rectangle per element box, in pre-order, each with its box's dimensions
    and the default colour. */
module DisplayList {
  import opened Dom
  import opened Layout
  import HexColor

  datatype SolidRectCommand = SolidRectCommand(rect: Rect, color: HexColor.Color)

  /** The command a box adds before any of its children's: one for an
      element box, none for a text box. */
  function OwnCommand(box: LayoutBox): seq<SolidRectCommand> {
    if box.styledNode.domNode.kind == ElementNode
    then [SolidRectCommand(box.dimensions, HexColor.DefaultColor)]
    else []
  }

  /** `buildListRecursive` on values: `list` with the commands of `box`'s
      subtree appended. */
  function Emit(list: seq<SolidRectCommand>, box: LayoutBox): seq<SolidRectCommand>
    decreases box, 1
  {
    EmitAll(box.children, 0, list + OwnCommand(box))
  }

  /** The loop over children in `buildListRecursive`, from child `i` on. */
  function EmitAll(boxes: seq<LayoutBox>, i: nat, list: seq<SolidRectCommand>): seq<SolidRectCommand>
    decreases boxes, 0, |boxes| - i
  {
    if i >= |boxes| then list else EmitAll(boxes, i + 1, Emit(list, boxes[i]))
  }

  /** `buildListRecursive`: appends the commands of `box`'s subtree to
      `list`, which the caller passes in and gets back. */
  method BuildListRecursive(list: seq<SolidRectCommand>, box: LayoutBox) returns (result: seq<SolidRectCommand>)
    ensures result == Emit(list, box)
    decreases box
  {
    result := list;
    if box.styledNode.domNode.kind == ElementNode {
      result := result + [SolidRectCommand(box.dimensions, HexColor.DefaultColor)];
    }
    assert result == list + OwnCommand(box);
    var i := 0;
    while i < |box.children|
      invariant 0 <= i <= |box.children|
      invariant EmitAll(box.children, 0, list + OwnCommand(box)) == EmitAll(box.children, i, result)
    {
      result := BuildListRecursive(result, box.children[i]);
      i := i + 1;
    }
  }

  /** `buildDisplayList`. */
  method BuildDisplayList(layoutRoot: LayoutBox) returns (list: seq<SolidRectCommand>)
    ensures list == Paint(ElementRects(layoutRoot))
  {
    list := BuildListRecursive([], layoutRoot);
    EmitPaints([], layoutRoot);
  }

  // ---------------------------------------------------------------------
  // The display list described independently of the traversal.

  /** The dimensions of the element boxes of a tree, in pre-order: a box
      before its descendants, siblings in order. */
  function ElementRects(box: LayoutBox): seq<Rect>
    decreases box, 1
  {
    (if box.styledNode.domNode.kind == ElementNode then [box.dimensions] else [])
    + ElementRectsFrom(box.children, 0)
  }

  function ElementRectsFrom(boxes: seq<LayoutBox>, i: nat): seq<Rect>
    decreases boxes, 0, |boxes| - i
  {
    if i >= |boxes| then [] else ElementRects(boxes[i]) + ElementRectsFrom(boxes, i + 1)
  }

  /** A solid rectangle of the default colour for each rectangle. */
  function Paint(rects: seq<Rect>): (cmds: seq<SolidRectCommand>)
    ensures |cmds| == |rects|
    ensures forall i :: 0 <= i < |rects| ==> cmds[i] == SolidRectCommand(rects[i], HexColor.DefaultColor)
  {
    seq(|rects|, i requires 0 <= i < |rects| => SolidRectCommand(rects[i], HexColor.DefaultColor))
  }

  lemma PaintAppend(a: seq<Rect>, b: seq<Rect>)
    ensures Paint(a + b) == Paint(a) + Paint(b)
  {
  }

  /** The traversal appends exactly the painted pre-order element rects. */
  lemma {:induction false} EmitPaints(list: seq<SolidRectCommand>, box: LayoutBox)
    ensures Emit(list, box) == list + Paint(ElementRects(box))
    decreases box, 1
  {
    var own := if box.styledNode.domNode.kind == ElementNode then [box.dimensions] else [];
    EmitAllPaints(box.children, 0, list + OwnCommand(box));
    PaintAppend(own, ElementRectsFrom(box.children, 0));
  }

  lemma {:induction false} EmitAllPaints(boxes: seq<LayoutBox>, i: nat, list: seq<SolidRectCommand>)
    ensures EmitAll(boxes, i, list) == list + Paint(ElementRectsFrom(boxes, i))
    decreases boxes, 0, |boxes| - i
  {
    if i < |boxes| {
      EmitPaints(list, boxes[i]);
      EmitAllPaints(boxes, i + 1, Emit(list, boxes[i]));
      PaintAppend(ElementRects(boxes[i]), ElementRectsFrom(boxes, i + 1));
    }
  }

  // ---------------------------------------------------------------------
  // Properties of the display list.

  /** The number of element boxes in a tree. */
  function ElementCount(box: LayoutBox): nat
    decreases box, 1
  {
    (if box.styledNode.domNode.kind == ElementNode then 1 else 0) + ElementCountFrom(box.children, 0)
  }

  function ElementCountFrom(boxes: seq<LayoutBox>, i: nat): nat
    decreases boxes, 0, |boxes| - i
  {
    if i >= |boxes| then 0 else ElementCount(boxes[i]) + ElementCountFrom(boxes, i + 1)
  }

  /** One command per element box. */
  lemma {:induction false} ElementRectsCount(box: LayoutBox)
    ensures |ElementRects(box)| == ElementCount(box)
    decreases box, 1
  {
    ElementRectsFromCount(box.children, 0);
  }

  lemma {:induction false} ElementRectsFromCount(boxes: seq<LayoutBox>, i: nat)
    ensures |ElementRectsFrom(boxes, i)| == ElementCountFrom(boxes, i)
    decreases boxes, 0, |boxes| - i
  {
    if i < |boxes| {
      ElementRectsCount(boxes[i]);
      ElementRectsFromCount(boxes, i + 1);
    }
  }

  /** The display list of a tree: the `i`-th command has the `i`-th
      element box's dimensions in pre-order; there are as many commands as
      element boxes, and all are in the default colour. */
  lemma DisplayListContents(root: LayoutBox)
    ensures Emit([], root) == Paint(ElementRects(root))
    ensures |Emit([], root)| == ElementCount(root)
    ensures forall c :: c in Emit([], root) ==> c.color == HexColor.DefaultColor
  {
    EmitPaints([], root);
    ElementRectsCount(root);
  }

  /** An element root's command comes first, ahead of all its
      descendants'; a text root adds no command of its own. */
  lemma RootCommandFirst(root: LayoutBox)
    ensures root.styledNode.domNode.kind == ElementNode ==>
      |Emit([], root)| > 0 && Emit([], root)[0] == SolidRectCommand(root.dimensions, HexColor.DefaultColor)
    ensures root.styledNode.domNode.kind != ElementNode ==>
      Emit([], root) == Paint(ElementRectsFrom(root.children, 0))
  {
    EmitPaints([], root);
  }
}
