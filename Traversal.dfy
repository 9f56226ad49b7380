/** The two traversals over (root node, root region). Neither stores anything
    in the nodes: the forward traversal keeps only the current level, the full
    traversal keeps the whole ancestor stack, so that it can go back up. */
module Traversals {
  import opened BoundingBoxes
  import opened TreeNodes

  /** Descend-only traversal, used to decide how deep an object is placed. */
  class ForwardTreeTraversal {
    var node: Tree
    var region: BoundingBox
    var depth: nat

    constructor ()
      ensures node == Nil && depth == 0
    {
      node := Nil;
      region := BoundingBox(0, 0, 0, 0);
      depth := 0;
    }

    method StartAt(root: Tree, rootRegion: BoundingBox)
      modifies this
      ensures node == root && region == rootRegion && depth == 0
    {
      node, region, depth := root, rootRegion, 0;
    }

    /** One step down into quadrant q (GoTopLeft, GoTopRight, GoBottomRight,
        GoBottomLeft): the region is split, the depth grows by one. */
    method GoTo(q: Quadrant)
      modifies this
      ensures node == Child(old(node), q)
      ensures region == ChildRegion(old(region), q)
      ensures depth == old(depth) + 1
    {
      node := Child(node, q);
      region := ChildRegion(region, q);
      depth := depth + 1;
    }
  }

  /** One level of the full traversal: the node, its region, and which child
      the traversal is positioned at. */
  datatype Frame = Frame(node: Tree, region: BoundingBox, current: ChildPosition)

  /** Every frame below the top records the child that leads to the next frame. */
  ghost predicate Linked(stack: seq<Frame>)
  {
    forall k :: 0 <= k < |stack| - 1 ==>
      && stack[k].current != NoChild
      && stack[k + 1].node == Child(stack[k].node, stack[k].current)
      && stack[k + 1].region == ChildRegion(stack[k].region, stack[k].current)
  }

  /** Bidirectional traversal with an explicit ancestor stack. */
  class FullTreeTraversal {
    var stack: seq<Frame>

    ghost predicate Valid()
      reads this
    {
      |stack| > 0 && Linked(stack)
    }

    constructor ()
      ensures stack == []
    {
      stack := [];
    }

    function GetDepth(): (d: nat)
      reads this
      requires Valid()
      ensures d + 1 == |stack|
    {
      |stack| - 1
    }

    function Top(): Frame
      reads this
      requires Valid()
    {
      stack[|stack| - 1]
    }

    method StartAt(root: Tree, rootRegion: BoundingBox)
      modifies this
      ensures Valid() && stack == [Frame(root, rootRegion, NoChild)]
      ensures GetDepth() == 0
    {
      stack := [Frame(root, rootRegion, NoChild)];
    }

    /** Descends into quadrant q: the level left behind records q, the new
        level starts positioned at its own node. */
    method GoTo(q: Quadrant)
      requires Valid()
      modifies this
      ensures Valid()
      ensures stack == old(stack[..|stack| - 1] + [Top().(current := q)]
                           + [Frame(Child(Top().node, q), ChildRegion(Top().region, q), NoChild)])
      ensures GetDepth() == old(GetDepth()) + 1
      ensures Top() == Frame(Child(old(Top()).node, q), ChildRegion(old(Top()).region, q), NoChild)
      ensures stack[|stack| - 2] == old(Top()).(current := q)
    {
      var top := Top();
      stack := stack[..|stack| - 1] + [top.(current := q)]
               + [Frame(Child(top.node, q), ChildRegion(top.region, q), NoChild)];
    }

    /** Returns to the parent level, which is positioned at the quadrant just left. */
    method GoUp()
      requires Valid() && |stack| > 1
      modifies this
      ensures Valid() && stack == old(stack[..|stack| - 1])
      ensures GetDepth() == old(GetDepth()) - 1
      ensures Top() == old(stack[|stack| - 2])
      ensures Top().current != NoChild
      ensures Child(Top().node, Top().current) == old(Top().node)
      ensures ChildRegion(Top().region, Top().current) == old(Top().region)
    {
      stack := stack[..|stack| - 1];
    }
  }

  /** The assertions of TestForwardTreeTraversal on a 64 x 64 root. */
  method ForwardTraversalScenario()
  {
    var br := Node(Nil, Nil, Nil, Nil, [3]);
    var tr := Node(Nil, Nil, br, Nil, [2]);
    var tl := Node(Nil, tr, Nil, Nil, [1]);
    var bl := Node(Nil, Nil, Nil, Nil, [4]);
    var root := Node(tl, Nil, Nil, bl, [0]);
    var t := new ForwardTreeTraversal();
    t.StartAt(root, BoundingBox(0, 0, 64, 64));
    assert t.depth == 0 && t.node == root && t.region == BoundingBox(0, 0, 64, 64);
    t.GoTo(TopLeft);
    assert t.depth == 1 && t.node == tl && t.region == BoundingBox(0, 0, 32, 32);
    t.GoTo(TopRight);
    assert t.depth == 2 && t.node == tr && t.region == BoundingBox(16, 0, 16, 16);
    t.GoTo(BottomRight);
    assert t.depth == 3 && t.node == br && t.region == BoundingBox(24, 8, 8, 8);
    t.StartAt(root, BoundingBox(0, 0, 64, 64));
    assert t.depth == 0 && t.node == root && t.region == BoundingBox(0, 0, 64, 64);
    t.GoTo(BottomLeft);
    assert t.depth == 1 && t.node == bl && t.region == BoundingBox(0, 32, 32, 32);
  }

  /** The assertions of TestFullTreeTraversal: down four levels, then back up,
      each level reporting the quadrant it was left through. */
  method FullTraversalScenario()
  {
    var bl := Node(Nil, Nil, Nil, Nil, [4]);
    var br := Node(Nil, Nil, Nil, bl, [3]);
    var tr := Node(Nil, Nil, br, Nil, [2]);
    var tl := Node(Nil, tr, Nil, Nil, [1]);
    var root := Node(tl, Nil, Nil, Nil, [0]);
    var t := new FullTreeTraversal();
    t.StartAt(root, BoundingBox(0, 0, 64, 64));
    assert t.GetDepth() == 0 && t.Top().node == root && t.Top().current == NoChild;
    t.GoTo(TopLeft);
    assert t.GetDepth() == 1 && t.Top().node == tl && t.Top().current == NoChild;
    t.GoTo(TopRight);
    assert t.GetDepth() == 2 && t.Top().node == tr && t.Top().current == NoChild;
    t.GoTo(BottomRight);
    assert t.GetDepth() == 3 && t.Top().node == br && t.Top().current == NoChild;
    t.GoTo(BottomLeft);
    assert t.GetDepth() == 4 && t.Top().node == bl && t.Top().current == NoChild;
    t.GoUp();
    assert t.GetDepth() == 3 && t.Top().node == br && t.Top().current == BottomLeft;
    t.GoUp();
    assert t.GetDepth() == 2 && t.Top().node == tr && t.Top().current == BottomRight;
    t.GoUp();
    assert t.GetDepth() == 1 && t.Top().node == tl && t.Top().current == TopRight;
    t.GoUp();
    assert t.GetDepth() == 0 && t.Top().node == root && t.Top().current == TopLeft;
  }

  /** TestBoundingBoxDiscrepancy: on an odd-sized root, visiting three
      siblings through GoUp yields widths and heights that add up exactly. */
  method SplitScenario()
  {
    var root := Node(EmptyNode(), EmptyNode(), EmptyNode(), Nil, []);
    var t := new FullTreeTraversal();
    t.StartAt(root, BoundingBox(10, 10, 17, 19));
    var orig := t.Top().region;
    t.GoTo(TopLeft);
    var tl := t.Top().region;
    t.GoUp();
    t.GoTo(TopRight);
    var tr := t.Top().region;
    t.GoUp();
    t.GoTo(BottomRight);
    var br := t.Top().region;
    t.GoUp();
    assert t.Top().region == orig;
    assert orig.width == tl.width + tr.width;
    assert orig.height == tl.height + br.height;
    assert tr.width == br.width;
    assert tl.height == tr.height;
  }
}
