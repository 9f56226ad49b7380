/** The lazy query iterator: a full traversal plus the position in the current
    node's list. The iterator always rests on a matching object or at the end;
    Next moves to the following match. */
module QueryIterators {
  import opened BoundingBoxes
  import opened TreeNodes
  import opened Traversals
  import opened Queries

  /** The matches still to come from the top level's own list. */
  function TopObjects(qy: Query, boxes: map<ObjectId, BoundingBox>, f: Frame, index: nat): seq<ObjectId>
  {
    if f.current == NoChild && f.node.Node? && index <= |f.node.objects|
    then Filter(qy, boxes, f.node.objects[index..]) else []
  }

  /** The matches still to come from the levels below the top, innermost first. */
  function StackRest(qy: Query, boxes: map<ObjectId, BoundingBox>, frames: seq<Frame>): seq<ObjectId>
  {
    if frames == [] then []
    else
      var f := frames[|frames| - 1];
      ChildrenAfter(qy, boxes, f.node, f.region, f.current) + StackRest(qy, boxes, frames[..|frames| - 1])
  }

  /** Everything the iterator has still to yield from a traversal state. */
  function Pending(qy: Query, boxes: map<ObjectId, BoundingBox>, stack: seq<Frame>, index: nat): seq<ObjectId>
  {
    if stack == [] then []
    else
      var f := stack[|stack| - 1];
      TopObjects(qy, boxes, f, index) + ChildrenAfter(qy, boxes, f.node, f.region, f.current)
      + StackRest(qy, boxes, stack[..|stack| - 1])
  }

  function StackWork(frames: seq<Frame>): nat
  {
    if frames == [] then 0
    else
      var f := frames[|frames| - 1];
      1 + WeightAfter(f.node, f.current) + StackWork(frames[..|frames| - 1])
  }

  /** A bound on the steps left to the traversal. */
  function Work(stack: seq<Frame>, index: nat): nat
  {
    if stack == [] then 0
    else
      var f := stack[|stack| - 1];
      var own := if f.current == NoChild && f.node.Node? && index <= |f.node.objects|
                 then |f.node.objects| - index else 0;
      1 + own + WeightAfter(f.node, f.current) + StackWork(stack[..|stack| - 1])
  }

  /** The iterator rests on a match: the top level's list at index. */
  predicate AtMatch(qy: Query, boxes: map<ObjectId, BoundingBox>, stack: seq<Frame>, index: nat)
  {
    && stack != []
    && var f := stack[|stack| - 1];
    && f.current == NoChild && f.node.Node? && index < |f.node.objects|
    && Matches(qy, boxes, f.node.objects[index])
  }

  /** At a match, the match is the first thing pending, and moving past it
      leaves the rest pending. */
  lemma YieldStep(qy: Query, boxes: map<ObjectId, BoundingBox>, stack: seq<Frame>, index: nat)
    requires AtMatch(qy, boxes, stack, index)
    ensures var objects := stack[|stack| - 1].node.objects;
            Pending(qy, boxes, stack, index) == [objects[index]] + Pending(qy, boxes, stack, index + 1)
  {
    var objects := stack[|stack| - 1].node.objects;
    assert objects[index..][1..] == objects[index + 1..];
  }

  /** Passing over a non-matching object changes nothing pending and costs one step. */
  lemma SkipStep(qy: Query, boxes: map<ObjectId, BoundingBox>, stack: seq<Frame>, index: nat)
    requires stack != [] && !AtMatch(qy, boxes, stack, index)
    requires var f := stack[|stack| - 1];
             f.current == NoChild && f.node.Node? && index < |f.node.objects|
    ensures Pending(qy, boxes, stack, index + 1) == Pending(qy, boxes, stack, index)
    ensures Work(stack, index + 1) < Work(stack, index)
  {
    var f := stack[|stack| - 1];
    var objects := f.node.objects;
    assert TopObjects(qy, boxes, f, index + 1) == TopObjects(qy, boxes, f, index) by {
      assert objects[index..][1..] == objects[index + 1..];
      assert !Matches(qy, boxes, objects[index..][0]);
    }
  }

  lemma StackRestSnoc(qy: Query, boxes: map<ObjectId, BoundingBox>, frames: seq<Frame>, f: Frame)
    ensures StackRest(qy, boxes, frames + [f]) ==
            ChildrenAfter(qy, boxes, f.node, f.region, f.current) + StackRest(qy, boxes, frames)
    ensures StackWork(frames + [f]) == 1 + WeightAfter(f.node, f.current) + StackWork(frames)
  {
    assert (frames + [f])[..|frames|] == frames;
  }

  /** The stack after descending from the top level into child n. */
  function Descended(stack: seq<Frame>, n: Quadrant): seq<Frame>
    requires stack != []
  {
    var f := stack[|stack| - 1];
    stack[..|stack| - 1] + [f.(current := n)] + [Frame(Child(f.node, n), ChildRegion(f.region, n), NoChild)]
  }

  /** Once the top level's own list is done, descending into the next visible
      child keeps what is pending ... */
  lemma DescendPending(qy: Query, boxes: map<ObjectId, BoundingBox>, stack: seq<Frame>, index: nat,
                       n: Quadrant)
    requires stack != []
    requires var f := stack[|stack| - 1];
             f.node.Node? && (f.current != NoChild || index >= |f.node.objects|)
    requires n == NextChild(qy, stack[|stack| - 1].node, stack[|stack| - 1].region, stack[|stack| - 1].current)
    ensures Pending(qy, boxes, Descended(stack, n), 0) == Pending(qy, boxes, stack, index)
  {
    var f := stack[|stack| - 1];
    var prefix := stack[..|stack| - 1];
    var child, cr := Child(f.node, n), ChildRegion(f.region, n);
    var stack' := Descended(stack, n);
    var own := Filter(qy, boxes, child.objects);
    var below := ChildrenAfter(qy, boxes, child, cr, NoChild);
    var siblings := ChildrenAfter(qy, boxes, f.node, f.region, n);
    var rest := StackRest(qy, boxes, prefix);
    assert Pending(qy, boxes, stack', 0) == own + below + (siblings + rest) by {
      assert stack'[..|stack'| - 1] == prefix + [f.(current := n)];
      StackRestSnoc(qy, boxes, prefix, f.(current := n));
      assert child.objects[0..] == child.objects;
    }
    assert Pending(qy, boxes, stack, index) == [] + (own + below + siblings) + rest by {
      NextChildSplits(qy, boxes, f.node, f.region, f.current);
      assert TopObjects(qy, boxes, f, index) == [] by {
        if f.current == NoChild && index <= |f.node.objects| {
          assert f.node.objects[index..] == [];
        }
      }
    }
    Regrouped(own, below, siblings, rest);
  }

  lemma Regrouped(a: seq<ObjectId>, b: seq<ObjectId>, c: seq<ObjectId>, d: seq<ObjectId>)
    ensures a + b + (c + d) == [] + (a + b + c) + d
  {
  }

  /** ... and costs a step. */
  lemma DescendWork(qy: Query, stack: seq<Frame>, index: nat, n: Quadrant)
    requires stack != []
    requires var f := stack[|stack| - 1];
             f.node.Node? && (f.current != NoChild || index >= |f.node.objects|)
    requires n == NextChild(qy, stack[|stack| - 1].node, stack[|stack| - 1].region, stack[|stack| - 1].current)
    ensures Work(Descended(stack, n), 0) < Work(stack, index)
  {
    var f := stack[|stack| - 1];
    var prefix := stack[..|stack| - 1];
    var child := Child(f.node, n);
    var stack' := Descended(stack, n);
    assert stack'[..|stack'| - 1] == prefix + [f.(current := n)];
    StackRestSnoc(qy, map[], prefix, f.(current := n));
    WeightAfterSplits(qy, f.node, f.region, f.current);
    WeightOfNode(child);
  }

  /** With no visible child left, going up keeps what is pending and costs a step. */
  lemma AscendStep(qy: Query, boxes: map<ObjectId, BoundingBox>, stack: seq<Frame>, index: nat, index': nat)
    requires |stack| > 1 && Linked(stack)
    requires var f := stack[|stack| - 1];
             f.node.Node? && (f.current != NoChild || index >= |f.node.objects|)
    requires NextChild(qy, stack[|stack| - 1].node, stack[|stack| - 1].region, stack[|stack| - 1].current) == NoChild
    ensures Pending(qy, boxes, stack[..|stack| - 1], index') == Pending(qy, boxes, stack, index)
    ensures Work(stack[..|stack| - 1], index') < Work(stack, index)
  {
    var f := stack[|stack| - 1];
    var prefix := stack[..|stack| - 1];
    var parent := prefix[|prefix| - 1];
    assert parent == stack[|stack| - 2];
    var rest := ChildrenAfter(qy, boxes, parent.node, parent.region, parent.current)
                + StackRest(qy, boxes, prefix[..|prefix| - 1]);
    assert Pending(qy, boxes, stack, index) == [] + [] + rest by {
      NextChildSplits(qy, boxes, f.node, f.region, f.current);
      assert TopObjects(qy, boxes, f, index) == [] by {
        if f.current == NoChild && index <= |f.node.objects| {
          assert f.node.objects[index..] == [];
        }
      }
      assert stack[..|stack| - 1] == prefix;
    }
    assert Pending(qy, boxes, prefix, index') == [] + rest by {
      assert parent.current != NoChild;
    }
    assert Work(prefix, index') < Work(stack, index) by {
      assert parent.current != NoChild;
      assert stack[..|stack| - 1] == prefix;
    }
    assert [] + [] + rest == rest && [] + rest == rest;
  }

  /** At the root with no visible child left, nothing is pending. */
  lemma FinishStep(qy: Query, boxes: map<ObjectId, BoundingBox>, stack: seq<Frame>, index: nat)
    requires |stack| == 1
    requires var f := stack[0];
             f.node.Node? && (f.current != NoChild || index >= |f.node.objects|)
    requires NextChild(qy, stack[0].node, stack[0].region, stack[0].current) == NoChild
    ensures Pending(qy, boxes, stack, index) == []
  {
    var f := stack[0];
    NextChildSplits(qy, boxes, f.node, f.region, f.current);
    assert TopObjects(qy, boxes, f, index) == [] by {
      if f.current == NoChild && index <= |f.node.objects| {
        assert f.node.objects[index..] == [];
      }
    }
  }

  /** A traversal state the iterator can be in: linked levels over present
      nodes, and an index within the top level's list. */
  ghost predicate StackValid(stack: seq<Frame>, index: nat)
  {
    && |stack| > 0 && Linked(stack)
    && (forall k :: 0 <= k < |stack| ==> stack[k].node.Node?)
    && var f := stack[|stack| - 1];
       f.current == NoChild ==> index <= |f.node.objects|
  }

  lemma DescendValid(stack: seq<Frame>, index: nat, n: Quadrant)
    requires StackValid(stack, index)
    requires Child(stack[|stack| - 1].node, n).Node?
    ensures StackValid(Descended(stack, n), 0)
  {
  }

  lemma AscendValid(stack: seq<Frame>, index: nat)
    requires StackValid(stack, index) && |stack| > 1
    ensures StackValid(stack[..|stack| - 1], index)
  {
    assert stack[|stack| - 2].current != NoChild;
  }

  class QueryIterator {
    const query: Query
    const boxes: map<ObjectId, BoundingBox>
    const traversal: FullTreeTraversal
    var index: nat
    var finished: bool

    /** The traversal is consistent and only ever stands on present nodes. */
    ghost predicate Valid()
      reads this, traversal
    {
      finished || StackValid(traversal.stack, index)
    }

    /** Valid, and resting on a match unless at the end. */
    ghost predicate Positioned()
      reads this, traversal
    {
      Valid() && (finished || AtMatch(query, boxes, traversal.stack, index))
    }

    /** What the iterator has still to yield, in order. */
    ghost function Remaining(): seq<ObjectId>
      reads this, traversal
    {
      if finished then [] else Pending(query, boxes, traversal.stack, index)
    }

    /** Starts a query over a root with the given region. */
    constructor (root: Tree, rootRegion: BoundingBox, boxes: map<ObjectId, BoundingBox>, query: Query)
      ensures Positioned() && fresh(traversal)
      ensures this.query == query && this.boxes == boxes
      ensures Remaining() == QueryOut(query, boxes, root, rootRegion)
    {
      this.query := query;
      this.boxes := boxes;
      traversal := new FullTreeTraversal();
      index := 0;
      finished := true;
      new;
      if Visible(query, root, rootRegion) {
        traversal.StartAt(root, rootRegion);
        finished := false;
        assert root.objects[0..] == root.objects;
        Advance();
      }
    }

    predicate EndOfQuery()
      reads this, traversal
      requires Positioned()
      ensures EndOfQuery() <==> Remaining() == []
    {
      if finished then true
      else YieldStep(query, boxes, traversal.stack, index); false
    }

    function GetCurrent(): (id: ObjectId)
      reads this, traversal
      requires Positioned() && !EndOfQuery()
      ensures Remaining() != [] && id == Remaining()[0]
      ensures Matches(query, boxes, id)
    {
      YieldStep(query, boxes, traversal.stack, index);
      traversal.stack[|traversal.stack| - 1].node.objects[index]
    }

    /** Moves past the current object to the next match. */
    method Next()
      requires Positioned() && !EndOfQuery()
      modifies this, traversal
      ensures Positioned()
      ensures Remaining() == old(Remaining())[1..]
    {
      ghost var current := MovePast();
      ghost var rest := Remaining();
      Advance();
      assert ([current] + rest)[1..] == rest;
    }

    /** Steps the index past the current match. */
    method MovePast() returns (ghost current: ObjectId)
      requires Positioned() && !finished
      modifies this
      ensures Valid() && old(Remaining()) == [current] + Remaining()
    {
      ghost var stack := traversal.stack;
      var i := index;
      current := stack[|stack| - 1].node.objects[i];
      YieldStep(query, boxes, stack, i);
      assert old(Remaining()) == Pending(query, boxes, stack, i);
      index := i + 1;
      assert Remaining() == Pending(query, boxes, stack, i + 1);
    }

    /** Runs the traversal forward until it rests on a match or is exhausted. */
    method Advance()
      requires Valid()
      modifies this, traversal
      ensures Positioned()
      ensures Remaining() == old(Remaining())
    {
      while !finished && !AtMatch(query, boxes, traversal.stack, index)
        invariant Valid()
        invariant Remaining() == old(Remaining())
        decreases if finished then 0 else 1 + Work(traversal.stack, index)
      {
        Step();
      }
    }

    /** Moves into the next visible child n of the top level, whose own list is done. */
    method Descend(n: Quadrant)
      requires !finished && StackValid(traversal.stack, index)
      requires var f := traversal.stack[|traversal.stack| - 1];
               (f.current != NoChild || index >= |f.node.objects|)
               && n == NextChild(query, f.node, f.region, f.current)
      modifies this, traversal
      ensures Valid() && Remaining() == old(Remaining()) && !finished
      ensures Work(traversal.stack, index) < old(Work(traversal.stack, index))
    {
      var stack := traversal.stack;
      DescendPending(query, boxes, stack, index, n);
      DescendWork(query, stack, index, n);
      DescendValid(stack, index, n);
      traversal.GoTo(n);
      index := 0;
    }

    /** One move of the traversal: past a non-matching object, down into the
        next visible child, up to the parent, or to the end. */
    method Step()
      requires !finished && StackValid(traversal.stack, index)
      requires !AtMatch(query, boxes, traversal.stack, index)
      modifies this, traversal
      ensures Valid() && Remaining() == old(Remaining())
      ensures !finished ==> Work(traversal.stack, index) < old(Work(traversal.stack, index))
    {
      var f := traversal.Top();
      if f.current == NoChild && index < |f.node.objects| {
        Skip();
      } else {
        var n := NextChild(query, f.node, f.region, f.current);
        if n != NoChild {
          Descend(n);
        } else {
          Ascend();
        }
      }
    }

    /** Passes over a non-matching object of the top level's own list. */
    method Skip()
      requires !finished && StackValid(traversal.stack, index)
      requires !AtMatch(query, boxes, traversal.stack, index)
      requires var f := traversal.stack[|traversal.stack| - 1];
               f.current == NoChild && index < |f.node.objects|
      modifies this
      ensures Valid() && Remaining() == old(Remaining()) && !finished
      ensures Work(traversal.stack, index) < old(Work(traversal.stack, index))
    {
      SkipStep(query, boxes, traversal.stack, index);
      index := index + 1;
    }

    /** Leaves the top level, none of whose children is left to visit: up to
        the parent, or to the end at the root. */
    method Ascend()
      requires !finished && StackValid(traversal.stack, index)
      requires var f := traversal.stack[|traversal.stack| - 1];
               (f.current != NoChild || index >= |f.node.objects|)
               && NextChild(query, f.node, f.region, f.current) == NoChild
      modifies this, traversal
      ensures Valid() && Remaining() == old(Remaining())
      ensures !finished ==> Work(traversal.stack, index) < old(Work(traversal.stack, index))
    {
      var stack := traversal.stack;
      if |stack| == 1 {
        FinishStep(query, boxes, stack, index);
        finished := true;
      } else {
        AscendStep(query, boxes, stack, index, index);
        AscendValid(stack, index);
        traversal.GoUp();
      }
    }
  }
}
