/** Parts of the container tests of the test driver, replayed against the model:
    each assertion kept here is one of the driver's, proved from the contracts of
    the container alone. Object 0 stands for &objects[0], object 1 for &objects[1];
    `reclaim` is the driver's reclaim_losses switch. */
module ContainerScenarios {
  import opened BoundingBoxes
  import opened TreeNodes
  import opened Queries
  import opened LooseQuadtrees

  /** objects[0] of TestInsertRemove. */
  const O0 := BoundingBox(1000, 1300, 50, 30)

  /** Cleanup when the switch is on; nothing stored changes either way. */
  method MaybeCleanup(lqt: LooseQuadtree, reclaim: bool)
    requires lqt.Valid()
    modifies lqt
    ensures lqt.Valid() && lqt.boxes == old(lqt.boxes)
  {
    if reclaim {
      lqt.ForceCleanup();
    }
  }

  /** The stored box meets the loose root region and does not contain it. */
  predicate Framed(lqt: LooseQuadtree, id: ObjectId)
    reads lqt
    requires lqt.Valid() && id in lqt.boxes
  {
    lqt.GetLooseBoundingBox().Intersects(lqt.boxes[id]) && !lqt.boxes[id].Contains(lqt.GetLooseBoundingBox())
  }

  /** TestInsertRemove, up to its first removal: one object in and out again. */
  method InsertRemoveFirst(reclaim: bool)
  {
    var lqt := new LooseQuadtree();
    MaybeCleanup(lqt, reclaim);
    assert lqt.GetSize() == 0 && lqt.IsEmpty() && !lqt.Contains(0);
    lqt.Insert(0, O0);
    assert lqt.GetSize() == 1 && !lqt.IsEmpty();
    assert lqt.Contains(0) && !lqt.Contains(1);
    assert Framed(lqt, 0);
    lqt.Remove(0);
    assert !lqt.Contains(0) && lqt.GetSize() == 0 && lqt.IsEmpty();
    MaybeCleanup(lqt, reclaim);
  }


  /** TestUpdate, one object: moving it keeps it, alone, in the container. */
  method UpdateOne()
  {
    var lqt := new LooseQuadtree();
    lqt.Insert(0, BoundingBox(1000, 1000, 50, 30));
    lqt.Update(0, BoundingBox(1060, 1000, 50, 30));
    assert lqt.GetSize() == 1 && lqt.Contains(0) && !lqt.Contains(1);
    assert Framed(lqt, 0);
  }

  /** TestMoreTrees, third inner tree: the cleared container is empty and reusable. */
  method ClearReuse()
  {
    var lqt := new LooseQuadtree();
    lqt.Insert(0, O0);
    lqt.Clear();
    assert lqt.IsEmpty() && !lqt.Contains(0);
    lqt.Insert(0, O0);
    assert lqt.GetSize() == 1 && lqt.Contains(0);
  }
}
