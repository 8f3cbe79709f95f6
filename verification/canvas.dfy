/** Marquee selection on the canvas: a drag that starts on the background spans a rectangle,
    and releasing it selects every tagged element the rectangle touches. Pointer positions and
    the elements' bounding boxes are parameters. */
module Canvas {
  import opened Wrappers
  import Store

  datatype Point = Point(x: int, y: int)

  /** A box given by its four edges. */
  datatype Rect = Rect(left: int, top: int, right: int, bottom: int)

  /** An element carrying a component id attribute: its bounding box and the attribute's value
      (`None` when it is missing). */
  datatype Tagged = Tagged(box: Rect, id: Option<string>)

  function Min(a: int, b: int): int { if a <= b then a else b }
  function Max(a: int, b: int): int { if a >= b then a else b }
  function Abs(a: int): nat { if a < 0 then -a else a }

  /** The selection box spanned by the two corners: `left = min x`, `top = min y`, and the width
      and height are the absolute differences. */
  function SelectionRect(start: Point, current: Point): (r: Rect)
    ensures r.left <= r.right && r.top <= r.bottom
    ensures r.left == Min(start.x, current.x) && r.right == Max(start.x, current.x)
    ensures r.top == Min(start.y, current.y) && r.bottom == Max(start.y, current.y)
  {
    var left := Min(start.x, current.x);
    var top := Min(start.y, current.y);
    Rect(left, top, left + Abs(current.x - start.x), top + Abs(current.y - start.y))
  }

  /** The box does not depend on which corner the drag started from. */
  lemma SelectionRectSymmetric(a: Point, b: Point)
    ensures SelectionRect(a, b) == SelectionRect(b, a)
  {
  }

  /** The hit test: a box is hit unless it lies wholly to one side of the selection. */
  predicate Intersects(box: Rect, sel: Rect) {
    !(box.right < sel.left || box.left > sel.right || box.bottom < sel.top || box.top > sel.bottom)
  }

  /** For boxes with ordered edges the hit test is overlap of the closed intervals on both axes,
      so boxes that only touch an edge or a corner count as hit; it is symmetric. */
  lemma IntersectsIsOverlap(box: Rect, sel: Rect)
    requires box.left <= box.right && box.top <= box.bottom
    requires sel.left <= sel.right && sel.top <= sel.bottom
    ensures Intersects(box, sel) <==>
              Max(box.left, sel.left) <= Min(box.right, sel.right)
              && Max(box.top, sel.top) <= Min(box.bottom, sel.bottom)
    ensures Intersects(box, sel) <==> Intersects(sel, box)
    ensures box.right == sel.left && box.top <= sel.bottom && sel.top <= box.bottom
            ==> Intersects(box, sel)
  {
  }

  /** A point-sized selection (a click without a drag) hits exactly the boxes containing it. */
  lemma ClickHitsContainingBoxes(box: Rect, p: Point)
    ensures Intersects(box, SelectionRect(p, p)) <==>
              box.left <= p.x <= box.right && box.top <= p.y <= box.bottom
  {
  }

  /** The ids of the hit elements, in document order; an empty or missing attribute adds nothing. */
  function HitIds(elements: seq<Tagged>, sel: Rect): (ids: seq<string>)
    ensures |ids| <= |elements|
    ensures forall id :: id in ids <==>
              exists i :: 0 <= i < |elements| && elements[i].id == Some(id) && id != ""
                          && Intersects(elements[i].box, sel)
  {
    if elements == [] then []
    else
      var k := |elements| - 1;
      var e := elements[k];
      var init := HitIds(elements[..k], sel);
      assert forall i :: 0 <= i < k ==> elements[..k][i] == elements[i];
      if e.id.Some? && e.id.value != "" && Intersects(e.box, sel) then init + [e.id.value] else init
  }

  /** The `forEach` over the tagged elements, pushing each hit id. */
  method CollectHits(elements: seq<Tagged>, sel: Rect) returns (newSelectedIds: seq<string>)
    ensures newSelectedIds == HitIds(elements, sel)
  {
    newSelectedIds := [];
    var i := 0;
    while i < |elements|
      invariant 0 <= i <= |elements|
      invariant newSelectedIds == HitIds(elements[..i], sel)
    {
      var el := elements[i];
      if Intersects(el.box, sel) {
        var id := el.id;
        if id.Some? && id.value != "" {
          newSelectedIds := newSelectedIds + [id.value];
        }
      }
      assert elements[..i + 1][..i] == elements[..i];
      i := i + 1;
    }
    assert elements[..i] == elements;
  }

  /** The canvas's selection state next to the store whose selection it sets. */
  class MarqueeSelection {
    var isSelecting: bool
    var selectionStart: Point
    var selectionCurrent: Point
    const store: Store.BuilderStore

    constructor (s: Store.BuilderStore)
      ensures store == s && !isSelecting
      ensures selectionStart == Point(0, 0) && selectionCurrent == Point(0, 0)
    {
      store := s;
      isSelecting := false;
      selectionStart := Point(0, 0);
      selectionCurrent := Point(0, 0);
    }

    /** A press on the canvas itself or on an element with the canvas class starts a selection
        at `p` and clears the current selection; a press anywhere else is ignored. */
    method HandlePointerDown(targetIsCanvas: bool, targetHasCanvasClass: bool, p: Point)
      modifies this, store
      ensures !targetIsCanvas && !targetHasCanvasClass ==>
                isSelecting == old(isSelecting) && selectionStart == old(selectionStart)
                && selectionCurrent == old(selectionCurrent)
                && store.selectedComponentIds == old(store.selectedComponentIds)
      ensures targetIsCanvas || targetHasCanvasClass ==>
                isSelecting && selectionStart == p && selectionCurrent == p
                && store.selectedComponentIds == []
      ensures store.layout == old(store.layout)
    {
      if !targetIsCanvas && !targetHasCanvasClass {
        return;
      }
      isSelecting := true;
      selectionStart := p;
      selectionCurrent := p;
      store.SelectComponents([]);
    }

    /** While selecting, the moving corner follows the pointer; otherwise nothing happens. */
    method HandlePointerMove(p: Point)
      modifies this
      ensures isSelecting == old(isSelecting) && selectionStart == old(selectionStart)
      ensures selectionCurrent == if old(isSelecting) then p else old(selectionCurrent)
    {
      if !isSelecting {
        return;
      }
      selectionCurrent := p;
    }

    /** Releasing (or leaving the canvas) ends a selection: the ids of the elements the box
        touches become the selection when there is at least one, otherwise the selection is
        kept. Outside a selection nothing happens. */
    method HandlePointerUp(elements: seq<Tagged>)
      modifies this, store
      ensures selectionStart == old(selectionStart) && selectionCurrent == old(selectionCurrent)
      ensures !old(isSelecting) ==>
                !isSelecting && store.selectedComponentIds == old(store.selectedComponentIds)
      ensures old(isSelecting) ==>
                var hits := HitIds(elements, SelectionRect(selectionStart, selectionCurrent));
                !isSelecting
                && store.selectedComponentIds == if hits != [] then hits else old(store.selectedComponentIds)
      ensures store.layout == old(store.layout)
    {
      if !isSelecting {
        return;
      }
      isSelecting := false;
      var selectionRect := SelectionRect(selectionStart, selectionCurrent);
      var newSelectedIds := CollectHits(elements, selectionRect);
      if |newSelectedIds| > 0 {
        store.SelectComponents(newSelectedIds);
      }
    }
  }
}
