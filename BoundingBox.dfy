/** Axis-aligned boxes over the half-open region
    [left, left + width) x [top, top + height), and their predicate algebra. */
module BoundingBoxes {

  datatype BoundingBox = BoundingBox(left: int, top: int, width: int, height: int) {

    /** Sizes are never negative; the structure does not check it. */
    predicate WellFormed() {
      width >= 0 && height >= 0
    }

    function Right(): int { left + width }
    function Bottom(): int { top + height }

    /** The point (x, y) lies in the half-open region. */
    predicate ContainsPoint(x: int, y: int) {
      left <= x && top <= y && x < Right() && y < Bottom()
    }

    /** The other box lies inside this one; far edges may touch. */
    predicate Contains(other: BoundingBox) {
      left <= other.left && top <= other.top &&
      other.Right() <= Right() && other.Bottom() <= Bottom()
    }

    /** The two half-open regions overlap on both axes. */
    predicate Intersects(other: BoundingBox) {
      left < other.Right() && other.left < Right() &&
      top < other.Bottom() && other.top < Bottom()
    }

    /** Both extents are positive, so the region holds at least one point. */
    predicate NonEmpty() {
      width > 0 && height > 0
    }
  }

  /** A box contains itself. */
  lemma ContainsReflexive(a: BoundingBox)
    ensures a.Contains(a)
  {
  }

  lemma ContainsTransitive(a: BoundingBox, b: BoundingBox, c: BoundingBox)
    requires a.Contains(b) && b.Contains(c)
    ensures a.Contains(c)
  {
  }

  /** Two boxes that contain each other are the same box. */
  lemma ContainsAntisymmetric(a: BoundingBox, b: BoundingBox)
    requires a.Contains(b) && b.Contains(a)
    ensures a == b
  {
  }

  /** The half-open point test: the near corner is in, the far corner is out. */
  lemma PointCorners(a: BoundingBox)
    requires a.NonEmpty()
    ensures a.ContainsPoint(a.left, a.top)
    ensures !a.ContainsPoint(a.Right(), a.Bottom())
    ensures a.ContainsPoint(a.Right() - 1, a.Bottom() - 1)
  {
  }

  lemma IntersectsSymmetric(a: BoundingBox, b: BoundingBox)
    ensures a.Intersects(b) <==> b.Intersects(a)
  {
  }

  /** A box intersects itself exactly when it is not empty. */
  lemma IntersectsReflexive(a: BoundingBox)
    requires a.WellFormed()
    ensures a.Intersects(a) <==> a.NonEmpty()
  {
  }

  /** Containment of a non-empty box implies intersection. */
  lemma ContainsImpliesIntersects(a: BoundingBox, b: BoundingBox)
    requires a.Contains(b) && b.NonEmpty()
    ensures a.Intersects(b) && b.Intersects(a)
  {
  }

  /** Boxes that only share an edge or a corner do not intersect. */
  lemma TouchingDoesNotIntersect(a: BoundingBox, b: BoundingBox)
    requires b.left == a.Right() || b.top == a.Bottom()
    ensures !a.Intersects(b) && !b.Intersects(a)
  {
  }

  /** Box containment agrees with containment of every point of the inner box. */
  lemma {:induction false} ContainsByPoints(a: BoundingBox, b: BoundingBox)
    requires b.NonEmpty()
    ensures a.Contains(b) <==>
            (forall x, y :: b.ContainsPoint(x, y) ==> a.ContainsPoint(x, y))
  {
    if !a.Contains(b) {
      if b.left < a.left {
        assert b.ContainsPoint(b.left, b.top) && !a.ContainsPoint(b.left, b.top);
      } else if b.top < a.top {
        assert b.ContainsPoint(b.left, b.top) && !a.ContainsPoint(b.left, b.top);
      } else {
        var x, y := b.Right() - 1, b.Bottom() - 1;
        assert b.ContainsPoint(x, y) && !a.ContainsPoint(x, y);
      }
    }
  }

  /** For non-empty boxes, intersection agrees with the existence of a shared
      point (an empty box lying strictly inside another "intersects" it by the
      formula while sharing no point). */
  lemma {:induction false} IntersectsByPoints(a: BoundingBox, b: BoundingBox)
    requires a.NonEmpty() && b.NonEmpty()
    ensures a.Intersects(b) <==>
            (exists x, y :: a.ContainsPoint(x, y) && b.ContainsPoint(x, y))
  {
    if a.Intersects(b) {
      var x := if a.left < b.left then b.left else a.left;
      var y := if a.top < b.top then b.top else a.top;
      assert a.ContainsPoint(x, y) && b.ContainsPoint(x, y);
    }
  }

  /** Containment is inherited upward: if a inside b and b meets q, then
      anything containing a also meets q (used by query pruning). */
  lemma IntersectsMonotone(outer: BoundingBox, inner: BoundingBox, q: BoundingBox)
    requires outer.Contains(inner) && inner.Intersects(q)
    ensures outer.Intersects(q)
  {
  }

  /** The assertions of TestBoundingBox over its seven boxes. */
  lemma BoundingBoxScenario()
    ensures var big := BoundingBox(100, 100, 200, 50);
            var smallInside := BoundingBox(200, 125, 5, 5);
            var edgeInside := BoundingBox(110, 110, 190, 40);
            var edgeOutside := BoundingBox(300, 150, 20, 5);
            var intersecting1 := BoundingBox(290, 90, 29, 25);
            var intersecting2 := BoundingBox(290, 110, 29, 25);
            var outside := BoundingBox(290, 210, 29, 25);
            && big.ContainsPoint(100, 100) && !big.ContainsPoint(300, 150)
            && big.Contains(big) && big.Contains(smallInside) && !smallInside.Contains(big)
            && big.Contains(edgeInside) && !edgeInside.Contains(big)
            && !big.Contains(edgeOutside) && !edgeOutside.Contains(big)
            && !big.Contains(intersecting1) && !intersecting1.Contains(big)
            && !big.Contains(intersecting2) && !intersecting1.Contains(intersecting2)
            && !big.Contains(outside) && !outside.Contains(big)
            && big.Intersects(big) && big.Intersects(smallInside) && smallInside.Intersects(big)
            && big.Intersects(edgeInside) && edgeInside.Intersects(big)
            && !big.Intersects(edgeOutside) && !edgeOutside.Intersects(big)
            && big.Intersects(intersecting1) && intersecting1.Intersects(big)
            && big.Intersects(intersecting2) && intersecting2.Intersects(big)
            && intersecting1.Intersects(intersecting2)
            && !big.Intersects(outside) && !outside.Intersects(big)
  {
  }
}
