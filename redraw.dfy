/** Redraw requests and the drag flag. The rendering surface is an opaque sink:
    the model records, in order, every request the stage makes of it. */
module Redraw {

  datatype Layer = Static | Dynamic

  datatype Draw =
    | Draw(layer: Layer)             // `layer.draw()`: an immediate draw
    | BatchDraw(layer: Layer)        // `layer.batchDraw()`: a redraw request
    | FrameBatchDraw(layer: Layer)   // `requestAnimationFrame(() => layer.batchDraw())`

  /** What the drag handlers read and write: the flag and the request log. */
  datatype DragView = DragView(isDragging: bool, draws: seq<Draw>)

  function DragStart(d: DragView): (r: DragView)
    ensures r.isDragging && r.draws == d.draws
  {
    d.(isDragging := true)
  }

  /** Every move while dragging schedules its own frame callback; there is no
      coalescing of moves that arrive within one frame. */
  function DragMove(d: DragView): (r: DragView)
    ensures r.isDragging == d.isDragging
    ensures d.isDragging ==> r.draws == d.draws + [FrameBatchDraw(Dynamic)]
    ensures !d.isDragging ==> r.draws == d.draws
  {
    if d.isDragging then d.(draws := d.draws + [FrameBatchDraw(Dynamic)]) else d
  }

  /** The drag is over and one batch draw of the dynamic layer is requested. */
  function DragEnd(d: DragView): (r: DragView)
    ensures !r.isDragging
    ensures r.draws == d.draws + [BatchDraw(Dynamic)]
  {
    DragView(false, d.draws + [BatchDraw(Dynamic)])
  }

  /** `n` drag moves in a row. */
  function DragMoves(d: DragView, n: nat): DragView
  {
    if n == 0 then d else DragMove(DragMoves(d, n - 1))
  }

  /** `n` copies of one request. */
  function Repeat(x: Draw, n: nat): (r: seq<Draw>)
    ensures |r| == n && forall i :: 0 <= i < n ==> r[i] == x
  {
    if n == 0 then [] else Repeat(x, n - 1) + [x]
  }

  /** The number of times `x` occurs in a log. */
  function Count(log: seq<Draw>, x: Draw): nat
  {
    if log == [] then 0 else (if log[0] == x then 1 else 0) + Count(log[1..], x)
  }

  lemma {:induction false} CountAppend(a: seq<Draw>, b: seq<Draw>, x: Draw)
    ensures Count(a + b, x) == Count(a, x) + Count(b, x)
    decreases |a|
  {
    if a == [] {
      assert a + b == b;
    } else {
      assert (a + b)[0] == a[0];
      assert (a + b)[1..] == a[1..] + b;
      CountAppend(a[1..], b, x);
    }
  }

  lemma {:induction false} CountRepeat(x: Draw, y: Draw, n: nat)
    ensures Count(Repeat(x, n), y) == if x == y then n else 0
  {
    if n > 0 {
      CountAppend(Repeat(x, n - 1), [x], y);
      CountRepeat(x, y, n - 1);
      assert Count([x], y) == if x == y then 1 else 0 by {
        assert [x][1..] == [];
      }
    }
  }

  /** While dragging, each move adds exactly one frame request and nothing else. */
  lemma {:induction false} MovesWhileDragging(d: DragView, n: nat)
    requires d.isDragging
    ensures DragMoves(d, n) == DragView(true, d.draws + Repeat(FrameBatchDraw(Dynamic), n))
  {
    if n > 0 {
      MovesWhileDragging(d, n - 1);
      assert d.draws + Repeat(FrameBatchDraw(Dynamic), n) ==
             (d.draws + Repeat(FrameBatchDraw(Dynamic), n - 1)) + [FrameBatchDraw(Dynamic)];
    }
  }

  /** Moves with no drag in progress request nothing. */
  lemma {:induction false} MovesWhileIdle(d: DragView, n: nat)
    requires !d.isDragging
    ensures DragMoves(d, n) == d
  {
    if n > 0 {
      MovesWhileIdle(d, n - 1);
    }
  }

  /** A whole drag session: start, `n` moves, end. It requests one frame per move
      and then exactly one batch draw of the dynamic layer, and leaves the flag
      cleared. */
  lemma DragSession(d: DragView, n: nat)
    ensures var r := DragEnd(DragMoves(DragStart(d), n));
            && !r.isDragging
            && r.draws == d.draws + Repeat(FrameBatchDraw(Dynamic), n) + [BatchDraw(Dynamic)]
            && Count(r.draws, BatchDraw(Dynamic)) == Count(d.draws, BatchDraw(Dynamic)) + 1
            && Count(r.draws, FrameBatchDraw(Dynamic)) == Count(d.draws, FrameBatchDraw(Dynamic)) + n
  {
    MovesWhileDragging(DragStart(d), n);
    var rep := Repeat(FrameBatchDraw(Dynamic), n);
    CountAppend(d.draws + rep, [BatchDraw(Dynamic)], BatchDraw(Dynamic));
    CountAppend(d.draws + rep, [BatchDraw(Dynamic)], FrameBatchDraw(Dynamic));
    CountAppend(d.draws, rep, BatchDraw(Dynamic));
    CountAppend(d.draws, rep, FrameBatchDraw(Dynamic));
    CountRepeat(FrameBatchDraw(Dynamic), BatchDraw(Dynamic), n);
    CountRepeat(FrameBatchDraw(Dynamic), FrameBatchDraw(Dynamic), n);
    assert [BatchDraw(Dynamic)][1..] == [];
  }
}
