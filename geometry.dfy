/** Plain 2D geometry over exact reals: points, axis-aligned rectangles and the
    overlap test the stage uses to cull nodes of the dynamic layer. */
module Geometry {

  datatype Point = Point(x: real, y: real)

  /** An axis-aligned rectangle given by its top-left corner and its size. */
  datatype Rect = Rect(x: real, y: real, width: real, height: real)

  /** The culling test of the source: four strict comparisons on the two axes.
      For boxes with area this is interval intersection on each axis: the
      larger start lies strictly before the smaller end. */
  predicate Overlaps(box: Rect, r: Rect)
    ensures HasArea(box) && HasArea(r) ==>
              (Overlaps(box, r) <==>
                 Max(box.x, r.x) < Min(box.x + box.width, r.x + r.width) &&
                 Max(box.y, r.y) < Min(box.y + box.height, r.y + r.height))
  {
    box.x + box.width > r.x &&
    box.x < r.x + r.width &&
    box.y + box.height > r.y &&
    box.y < r.y + r.height
  }

  /** `p` lies in the open interior of `r`. */
  predicate StrictlyInside(p: Point, r: Rect)
  {
    r.x < p.x < r.x + r.width && r.y < p.y < r.y + r.height
  }

  /** `p` lies in `r` or on its border. */
  predicate InsideClosed(p: Point, r: Rect)
  {
    r.x <= p.x <= r.x + r.width && r.y <= p.y <= r.y + r.height
  }

  predicate HasArea(r: Rect)
  {
    r.width > 0.0 && r.height > 0.0
  }

  function Min(a: real, b: real): real { if a <= b then a else b }
  function Max(a: real, b: real): real { if a >= b then a else b }

  /** The centre of the common interior of two overlapping boxes. */
  function CommonMidpoint(a: Rect, b: Rect): Point
  {
    Point((Max(a.x, b.x) + Min(a.x + a.width, b.x + b.width)) / 2.0,
          (Max(a.y, b.y) + Min(a.y + a.height, b.y + b.height)) / 2.0)
  }

  /** For boxes with area, the four comparisons hold exactly when the two boxes
      share an interior point: the test is the usual open-rectangle intersection. */
  lemma OverlapsIffSharedInterior(box: Rect, r: Rect)
    requires HasArea(box) && HasArea(r)
    ensures Overlaps(box, r) <==> exists p :: StrictlyInside(p, box) && StrictlyInside(p, r)
  {
    if Overlaps(box, r) {
      var m := CommonMidpoint(box, r);
      assert StrictlyInside(m, box) && StrictlyInside(m, r);
    }
    if exists p :: StrictlyInside(p, box) && StrictlyInside(p, r) {
      var p :| StrictlyInside(p, box) && StrictlyInside(p, r);
      assert Overlaps(box, r);
    }
  }

  /** A box that meets the rectangle only along an edge is not visible. */
  lemma TouchingEdgeNotVisible(box: Rect, r: Rect)
    requires box.x + box.width == r.x || box.x == r.x + r.width ||
             box.y + box.height == r.y || box.y == r.y + r.height
    ensures !Overlaps(box, r)
  {
  }

  /** A box with area whose interior lies inside a rectangle is visible;
      a box entirely to one side of it is not. */
  lemma ContainedBoxVisible(box: Rect, r: Rect)
    requires HasArea(box)
    requires r.x <= box.x && box.x + box.width <= r.x + r.width
    requires r.y <= box.y && box.y + box.height <= r.y + r.height
    ensures Overlaps(box, r)
  {
  }

  lemma SeparatedBoxNotVisible(box: Rect, r: Rect)
    requires box.x + box.width <= r.x || r.x + r.width <= box.x ||
             box.y + box.height <= r.y || r.y + r.height <= box.y
    ensures !Overlaps(box, r)
  {
  }
}
