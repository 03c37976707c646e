/** The stage of the whiteboard: its camera, its size, the dynamic layer's
    nodes, the drag flag, the redraw requests it makes and the debounced resize
    handler, with the event handlers that update them. */
module Canvas {
  import opened Options
  import opened Geometry
  import opened Camera
  import opened Redraw
  import Debounce

  const DebounceDelayMs: nat := 100

  /** A node of the dynamic layer as culling sees it: only its visibility
      flag. Its geometry belongs to the rendering surface; the rectangle the
      surface reports for it (`getClientRect()`) is read afresh at every cull
      and enters the model as a parameter of the zoom. */
  class Shape {
    var visible: bool

    constructor ()
      ensures visible
    {
      visible := true;
    }
  }

  /** No node occurs twice in a layer's child list. */
  predicate Distinct(nodes: seq<Shape>)
  {
    forall i, j :: 0 <= i < j < |nodes| ==> nodes[i] != nodes[j]
  }

  /** The wheel handler's direction: a positive `deltaY` zooms in. */
  function WheelDirection(deltaY: real): (d: real)
    ensures d == 1.0 || d == -1.0
    ensures d > 0.0 <==> deltaY > 0.0
  {
    if deltaY > 0.0 then 1.0 else -1.0
  }

  /** The culling loop: each node's flag becomes the overlap test, against
      `r`, of the rectangle the surface reports for that node (`boxes[k]` for
      `nodes[k]`). */
  method SetVisibility(nodes: seq<Shape>, boxes: seq<Rect>, r: Rect)
    requires |boxes| == |nodes| && Distinct(nodes)
    modifies nodes
    ensures forall k :: 0 <= k < |nodes| ==> nodes[k].visible == Overlaps(boxes[k], r)
  {
    for i := 0 to |nodes|
      invariant forall k :: 0 <= k < i ==> nodes[k].visible == Overlaps(boxes[k], r)
    {
      nodes[i].visible := Overlaps(boxes[i], r);
    }
  }

  class Stage {
    var scale: real            // the zoom level, kept equal to the stage's own scale
    var x: real                // the stage position
    var y: real
    var width: real
    var height: real
    var children: seq<Shape>   // the dynamic layer's nodes
    var isDragging: bool
    var draws: seq<Draw>       // every redraw request made so far, oldest first
    const resizer: Debounce.Debouncer<()>

    ghost predicate Valid()
      reads this, resizer
    {
      InBounds(scale) && Distinct(children) &&
      resizer.Valid() && resizer.delay == DebounceDelayMs
    }

    function Cam(): Camera
      reads this
    {
      Camera(scale, x, y)
    }

    function Drag(): DragView
      reads this
    {
      DragView(isDragging, draws)
    }

    /** `initializeStage` for a window of the given size: identity camera, one
        visible node (the square) in the dynamic layer, one immediate draw of
        that layer, and the resize handler wrapped in a debounce. */
    constructor (width: real, height: real)
      ensures Valid() && fresh(resizer) && resizer.State() == Debounce.Initial(0)
      ensures Cam() == Camera(1.0, 0.0, 0.0) && this.width == width && this.height == height
      ensures |children| == 1 && fresh(children[0]) && children[0].visible
      ensures !isDragging && draws == [Draw(Dynamic)]
    {
      scale := 1.0;
      x, y := 0.0, 0.0;
      this.width, this.height := width, height;
      var square := new Shape();
      children := [square];
      draws := [Draw(Dynamic)];
      isDragging := false;
      resizer := new Debounce.Debouncer(DebounceDelayMs, 0);
    }

    /** `updateZoom(direction, pointer)`: one clamped zoom step about the pointer
        or the stage centre, then the dynamic layer's nodes are culled against
        the new visible rectangle and a batch draw of that layer is requested.
        `boxes[k]` is what `children[k].getClientRect()` reports during the
        cull, after the new scale and position are set. */
    method UpdateZoom(direction: real, pointer: Option<Point>, boxes: seq<Rect>)
      requires Valid() && |boxes| == |children|
      modifies this, children
      ensures Valid()
      ensures Cam() == ZoomCamera(old(Cam()), direction, ZoomCenter(pointer, width, height))
      ensures SceneOf(Cam(), ZoomCenter(pointer, width, height)) ==
              SceneOf(old(Cam()), ZoomCenter(pointer, width, height))
      ensures width == old(width) && height == old(height) && children == old(children)
      ensures isDragging == old(isDragging) && draws == old(draws) + [BatchDraw(Dynamic)]
      ensures forall k :: 0 <= k < |children| ==>
                children[k].visible == Overlaps(boxes[k], VisibleRect(Cam(), width, height))
    {
      var zoomCenter := ZoomCenter(pointer, width, height);
      FocalPointFixed(Cam(), direction, zoomCenter);
      var oldScale, oldX, oldY := scale, x, y;
      var newScale := ClampScale(oldScale * ZoomAmount(direction));
      var mousePointTo := Point((zoomCenter.x - oldX) / oldScale, (zoomCenter.y - oldY) / oldScale);
      var newX, newY := zoomCenter.x - mousePointTo.x * newScale, zoomCenter.y - mousePointTo.y * newScale;
      assert Camera(newScale, newX, newY) == ZoomCamera(Camera(oldScale, oldX, oldY), direction, zoomCenter);
      scale, x, y := newScale, newX, newY;
      var visibleRect := Rect(-x / scale, -y / scale, width / scale, height / scale);
      SetVisibility(children, boxes, visibleRect);
      draws := draws + [BatchDraw(Dynamic)];
    }

    /** The wheel handler. Without a pointer position nothing happens; otherwise
        one zoom step about the pointer, inwards when `deltaY` is positive. */
    method OnWheel(deltaY: real, pointer: Option<Point>, boxes: seq<Rect>)
      requires Valid() && |boxes| == |children|
      modifies this, children
      ensures Valid()
      ensures pointer.None? ==> unchanged(this) && unchanged(children)
      ensures pointer.Some? ==>
                Cam() == ZoomCamera(old(Cam()), WheelDirection(deltaY), pointer.value) &&
                draws == old(draws) + [BatchDraw(Dynamic)]
      ensures width == old(width) && height == old(height) && children == old(children)
      ensures isDragging == old(isDragging)
      ensures pointer.Some? ==> forall k :: 0 <= k < |children| ==>
                children[k].visible == Overlaps(boxes[k], VisibleRect(Cam(), width, height))
    {
      if pointer.None? {
        return;
      }
      var direction := WheelDirection(deltaY);
      UpdateZoom(direction, pointer, boxes);
    }

    method OnDragStart()
      modifies this`isDragging
      ensures Drag() == DragStart(old(Drag()))
    {
      isDragging := true;
    }

    /** One frame callback per move while dragging. */
    method OnDragMove()
      modifies this`draws
      ensures Drag() == DragMove(old(Drag()))
    {
      if isDragging {
        draws := draws + [FrameBatchDraw(Dynamic)];
      }
    }

    method OnDragEnd()
      modifies this`isDragging, this`draws
      ensures Drag() == DragEnd(old(Drag()))
    {
      isDragging := false;
      draws := draws + [BatchDraw(Dynamic)];
    }

    /** The resize callback: the stage takes the window's size and both layers
        are redrawn; camera and nodes are left alone. */
    method Resize(windowWidth: real, windowHeight: real)
      modifies this`width, this`height, this`draws
      ensures width == windowWidth && height == windowHeight
      ensures draws == old(draws) + [BatchDraw(Static), BatchDraw(Dynamic)]
    {
      width := windowWidth;
      height := windowHeight;
      draws := draws + [BatchDraw(Static), BatchDraw(Dynamic)];
    }

    /** A window resize event: a call of the debounced handler, which only
        re-arms its timer. */
    method OnWindowResize()
      requires Valid()
      modifies resizer
      ensures Valid()
      ensures resizer.State() == Debounce.CallStep(DebounceDelayMs, old(resizer.State()), ())
    {
      resizer.Call(());
    }

    /** One millisecond of the host's clock. When the debounced handler's timer
        comes due, the resize callback runs with the window size of that moment. */
    method OnTick(windowWidth: real, windowHeight: real)
      requires Valid()
      modifies resizer, this`width, this`height, this`draws
      ensures Valid()
      ensures resizer.State() == Debounce.TickStep(old(resizer.State()))
      ensures Debounce.SlotDue(old(resizer.State()), old(resizer.now) + 1) ==>
                width == windowWidth && height == windowHeight &&
                draws == old(draws) + [BatchDraw(Static), BatchDraw(Dynamic)]
      ensures !Debounce.SlotDue(old(resizer.State()), old(resizer.now) + 1) ==>
                width == old(width) && height == old(height) && draws == old(draws)
    {
      var fired := resizer.Tick();
      if fired.Some? {
        Resize(windowWidth, windowHeight);
      }
    }
  }

  /** A wheel tick with `deltaY = 120` at the centre of an 800 by 600 stage at
      the identity camera zooms in to 1.1 about that point. */
  lemma WheelScenario()
    ensures ZoomCamera(Camera(1.0, 0.0, 0.0), WheelDirection(120.0), Point(400.0, 300.0))
            == Camera(1.1, -40.0, -30.0)
    ensures VisibleRect(Camera(1.1, -40.0, -30.0), 800.0, 600.0)
            == Rect(400.0 / 11.0, 300.0 / 11.0, 8000.0 / 11.0, 6000.0 / 11.0)
  {
    assert WheelDirection(120.0) == 1.0;
    assert ZoomAmount(1.0) == 1.1 && ClampScale(1.1) == 1.1;
    assert NextScale(1.0, 1.0) == 1.1;
    assert SceneOf(Camera(1.0, 0.0, 0.0), Point(400.0, 300.0)) == Point(400.0, 300.0);
    assert 400.0 - 400.0 * 1.1 == -40.0 && 300.0 - 300.0 * 1.1 == -30.0;
    assert 40.0 / 1.1 == 400.0 / 11.0 && 30.0 / 1.1 == 300.0 / 11.0;
    assert 800.0 / 1.1 == 8000.0 / 11.0 && 600.0 / 1.1 == 6000.0 / 11.0;
  }

  /** A node whose reported rectangle is (1000, 1000, 100, 100) is culled at
      the identity camera on an 800 by 600 stage and shown once the stage is
      moved to (-1000, -1000). */
  lemma CullingScenario()
    ensures !Overlaps(Rect(1000.0, 1000.0, 100.0, 100.0), VisibleRect(Camera(1.0, 0.0, 0.0), 800.0, 600.0))
    ensures Overlaps(Rect(1000.0, 1000.0, 100.0, 100.0),
                     VisibleRect(Camera(1.0, -1000.0, -1000.0), 800.0, 600.0))
  {
  }
}
