/** What happens when a drag ends: the default component a palette item creates, the
    decision that maps (what was dragged, where it was dropped) to exactly one store action,
    and the drag controller that applies it. */
module Placement {
  import opened Wrappers
  import opened Schema
  import Tree
  import Store

  /** A toolbox entry: one of the component types, or one of the two preset flex containers. */
  datatype PaletteItem = Item(t: ComponentType) | FlexRowItem | FlexColItem

  /** What is being dragged: a toolbox entry or a component already on the canvas. */
  datatype Active = PaletteDrag(item: PaletteItem) | ComponentDrag(id: string)

  /** The one store action a drop leads to. */
  datatype DropAction =
    | NoAction
    | RemoveAction(id: string)
    | AddToParentAction(parentId: string, c: Component)
    | InsertAtAction(c: Component, index: int)
    | AppendAction(c: Component)
    | ReorderAction(activeId: string, overId: string)

  const DeleteZone := "delete-zone"
  const CanvasDroppable := "canvas-droppable"

  function ItemType(item: PaletteItem): ComponentType {
    if item.Item? then item.t else ContainerFlexType
  }

  /** The dashed box style of the two preset flex containers. */
  const FlexPresetStyles: Styles := map[
    "width" := SStr("100%"), "paddingTop" := SNum(10), "paddingRight" := SNum(10),
    "paddingBottom" := SNum(10), "paddingLeft" := SNum(10), "borderStyle" := SStr("dashed"),
    "borderWidth" := SNum(1), "borderColor" := SStr("#ccc")]

  /** The dashed box style of a new row or column. */
  const RowColumnStyles: Styles := map[
    "width" := SStr("100%"), "padding" := SNum(10), "borderStyle" := SStr("dashed"),
    "borderWidth" := SNum(1), "borderColor" := SStr("#e5e7eb")]

  function Record(name: string, value: int, sales: int): Value {
    Obj([Field("name", Str(name)), Field("value", Num(value)), Field("sales", Num(sales))])
  }

  /** The sample table a new data view starts with. */
  const SampleData: seq<Value> := [
    Record("Item A", 400, 2400), Record("Item B", 300, 1398),
    Record("Item C", 200, 9800), Record("Item D", 278, 3908)]

  const SampleConfig := ChartConfig(Some("name"), Some(["value"]), None,
                                    Some([TableColumn("name", "Name"), TableColumn("value", "Value")]))

  function DefaultStyles(item: PaletteItem): Styles {
    match item
    case FlexRowItem => FlexPresetStyles
    case FlexColItem => FlexPresetStyles
    case Item(t) =>
      match t
      case HeadingType => map["fontSize" := SNum(32), "fontWeight" := SStr("bold")]
      case DividerType => map["color" := SStr("#e5e7eb")]
      case RowType => RowColumnStyles
      case ColumnType => RowColumnStyles
      case AlertType => map["marginBottom" := SNum(10)]
      case _ => map[]
  }

  function DefaultBody(item: PaletteItem): Body {
    match item
    case FlexRowItem => ContainerFlex([], Some(FlexRow), None, None, Some(10))
    case FlexColItem => ContainerFlex([], Some(FlexColumn), None, None, Some(10))
    case Item(t) =>
      match t
      case HeadingType => Heading("New Heading")
      case TextType => Text("Lorem ipsum dolor sit amet...")
      case MetricCardType => MetricCard("Metric", "000", None)
      case ContainerFlexType => ContainerFlex([], Some(FlexRow), None, None, None)
      case RowType => Row([], Some(10), Some("center"), Some("flex-start"))
      case ColumnType => Column([], Some(10), Some("stretch"))
      case ImageType => Image("https://via.placeholder.com/300x200", Some("Placeholder"), Some(300), Some(200))
      case DividerType => Divider(1)
      case SpacerType => Spacer(20)
      case AlertType => Alert(Info, Some("Info"), "This is an information alert.")
      case DataViewType => DataView(Table, None, SampleData, SampleConfig, None)
  }

  /** The component a palette drop creates: id `<type>-<suffix>` with a random suffix, `order`
      equal to the current number of roots, the item's type with its default fields, no children. */
  function NewComponent(item: PaletteItem, rootCount: nat, suffix: string): (c: Component)
    ensures c.id == TypeTag(ItemType(item)) + "-" + suffix
    ensures c.order == rootCount && c.styles.Some?
    ensures KindOf(c.body) == ItemType(item)
    ensures item == FlexRowItem ==> c.body.direction == Some(FlexRow) && c.body.gap == Some(10)
    ensures item == FlexColItem ==> c.body.direction == Some(FlexColumn) && c.body.gap == Some(10)
    ensures c.body.IsContainer() ==> c.body.children == []
    ensures Tree.NodeIds(c) == {c.id}
  {
    Component(TypeTag(ItemType(item)) + "-" + suffix, rootCount, Some(DefaultStyles(item)), DefaultBody(item))
  }

  /** The decision taken when a drag ends over `over` (`None` when dropped on nothing). */
  function Decide(roots: seq<Component>, active: Active, over: Option<string>, suffix: string): DropAction {
    if over.None? then NoAction
    else if over.value == DeleteZone && active.ComponentDrag? then RemoveAction(active.id)
    else if active.PaletteDrag? then
      var c := NewComponent(active.item, |roots|, suffix);
      if over.value != CanvasDroppable then
        var target := Tree.Find(roots, over.value);
        if target.Some? && target.value.body.IsContainer() then AddToParentAction(over.value, c)
        else
          var overIndex := Store.FindIndex(roots, over.value);
          if overIndex != -1 then InsertAtAction(c, overIndex) else AppendAction(c)
      else AppendAction(c)
    else if active.id != over.value then ReorderAction(active.id, over.value)
    else NoAction
  }

  /** The drop decision table. */
  lemma DecisionTable(roots: seq<Component>, active: Active, over: Option<string>, suffix: string)
    ensures over.None? ==> Decide(roots, active, over, suffix) == NoAction
    ensures over == Some(DeleteZone) && active.ComponentDrag?
            ==> Decide(roots, active, over, suffix) == RemoveAction(active.id)
    ensures active.ComponentDrag? && over.Some? && over.value != DeleteZone
            ==> Decide(roots, active, over, suffix)
                == if over.value == active.id then NoAction else ReorderAction(active.id, over.value)
    ensures active.PaletteDrag? && over.Some? ==>
              var d := Decide(roots, active, over, suffix);
              var c := NewComponent(active.item, |roots|, suffix);
              var target := Tree.Find(roots, over.value);
              var k := Store.FindIndex(roots, over.value);
              (over.value == CanvasDroppable ==> d == AppendAction(c))
              && (over.value != CanvasDroppable && target.Some? && target.value.body.IsContainer()
                  ==> d == AddToParentAction(over.value, c))
              && (over.value != CanvasDroppable && (target.None? || !target.value.body.IsContainer())
                  ==> d == if k != -1 then InsertAtAction(c, k) else AppendAction(c))
  {
  }

  /** The layout a drop action leaves behind. */
  function LayoutAfter(l: Layout, a: DropAction): Layout {
    match a
    case NoAction => l
    case RemoveAction(id) => l.(components := Tree.RemoveDeep(l.components, id))
    case AddToParentAction(parentId, c) => l.(components := Tree.AddToParent(l.components, parentId, c))
    case InsertAtAction(c, index) => l.(components := Store.InsertAt(l.components, c, Some(index)))
    case AppendAction(c) => l.(components := l.components + [c])
    case ReorderAction(activeId, overId) => l.(components := Store.Reorder(l.components, activeId, overId))
  }

  /** The selection a drop action leaves behind. */
  function SelectionAfter(sel: seq<string>, a: DropAction): seq<string> {
    if a.RemoveAction? then Store.FilterOut(sel, a.id) else sel
  }

  lemma {:induction false} IdsAppend(a: seq<Component>, b: seq<Component>)
    ensures Tree.Ids(a + b) == Tree.Ids(a) + Tree.Ids(b)
  {
    if a == [] {
      assert a + b == b;
    } else {
      assert (a + b)[0] == a[0] && (a + b)[1..] == a[1..] + b;
      IdsAppend(a[1..], b);
    }
  }

  lemma {:induction false} IdsIgnoreOrder(a: seq<Component>, b: seq<Component>)
    requires Store.Erase(a) == Store.Erase(b)
    ensures Tree.Ids(a) == Tree.Ids(b)
  {
    if a != [] {
      assert |a| == |Store.Erase(a)| == |b|;
      assert a[0].(order := 0) == Store.Erase(a)[0] == b[0].(order := 0);
      assert Store.Erase(a[1..]) == Store.Erase(a)[1..] == Store.Erase(b)[1..] == Store.Erase(b[1..]);
      IdsIgnoreOrder(a[1..], b[1..]);
    }
  }

  /** Inserting a root adds its id and keeps every other id. */
  lemma InsertAtIds(roots: seq<Component>, c: Component, index: Option<int>)
    ensures Tree.Ids(Store.InsertAt(roots, c, index)) == Tree.Ids(roots) + Tree.Ids([c])
  {
    var k := Store.InsertIndex(|roots|, index);
    var s := roots[..k] + [c] + roots[k..];
    assert Store.Erase(Store.Renumber(s)) == Store.Erase(s);
    IdsIgnoreOrder(Store.Renumber(s), s);
    IdsAppend(roots[..k] + [c], roots[k..]);
    IdsAppend(roots[..k], [c]);
    IdsAppend(roots[..k], roots[k..]);
    assert roots[..k] + roots[k..] == roots;
  }

  /** A palette item dropped anywhere adds exactly one node, the new component, to the tree. */
  lemma PaletteDropAddsOne(l: Layout, item: PaletteItem, over: string, suffix: string)
    requires Tree.Unique(l.components)
    ensures var d := Decide(l.components, PaletteDrag(item), Some(over), suffix);
            var c := NewComponent(item, |l.components|, suffix);
            Tree.Ids(LayoutAfter(l, d).components) == Tree.Ids(l.components) + {c.id}
  {
    var roots := l.components;
    var d := Decide(roots, PaletteDrag(item), Some(over), suffix);
    var c := NewComponent(item, |roots|, suffix);
    match d {
      case AddToParentAction(parentId, _) =>
        Tree.AddIds(roots, parentId, c);
      case InsertAtAction(_, index) =>
        InsertAtIds(roots, c, Some(index));
      case AppendAction(_) =>
        IdsAppend(roots, [c]);
        assert [c][1..] == [];
      case _ =>
    }
  }

  /** The drag state kept by the editor's main layout, next to the store it drives. */
  class DragController {
    var activeSidebarItem: Option<PaletteItem>
    var isDraggingComponent: bool
    const store: Store.BuilderStore

    constructor (s: Store.BuilderStore)
      ensures store == s && activeSidebarItem.None? && !isDraggingComponent
    {
      store := s;
      activeSidebarItem := None;
      isDraggingComponent := false;
    }

    /** A toolbox drag shows its overlay; dragging an existing component shows the delete zone. */
    method HandleDragStart(active: Active)
      modifies this
      ensures active.PaletteDrag? ==> activeSidebarItem == Some(active.item) && !isDraggingComponent
      ensures active.ComponentDrag? ==> activeSidebarItem == old(activeSidebarItem) && isDraggingComponent
    {
      if active.PaletteDrag? {
        activeSidebarItem := Some(active.item);
        isDraggingComponent := false;
      } else {
        isDraggingComponent := true;
      }
    }

    /** Clears the drag state, then performs the one store action the drop decides on. */
    method HandleDragEnd(active: Active, over: Option<string>, suffix: string)
      modifies this, store
      ensures activeSidebarItem.None? && !isDraggingComponent
      ensures var d := Decide(old(store.layout.components), active, over, suffix);
              store.layout == LayoutAfter(old(store.layout), d)
              && store.selectedComponentIds == SelectionAfter(old(store.selectedComponentIds), d)
    {
      activeSidebarItem := None;
      isDraggingComponent := false;
      var d := Decide(store.layout.components, active, over, suffix);
      Perform(d);
    }

    /** The store call behind each drop action. */
    method Perform(d: DropAction)
      modifies store
      ensures store.layout == LayoutAfter(old(store.layout), d)
      ensures store.selectedComponentIds == SelectionAfter(old(store.selectedComponentIds), d)
    {
      match d {
        case NoAction =>
        case RemoveAction(id) => store.RemoveComponent(id);
        case AddToParentAction(parentId, c) => store.AddComponentToParent(parentId, c);
        case InsertAtAction(c, index) => store.InsertComponentAt(c, Some(index));
        case AppendAction(c) => store.AddComponent(c);
        case ReorderAction(activeId, overId) => store.ReorderComponents(activeId, overId);
      }
    }
  }
}
