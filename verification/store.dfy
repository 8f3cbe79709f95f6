/** The builder store: the document being edited (a flat list of root components) and the
    list of selected component ids, with the actions the editor calls on them. */
module Store {
  import opened Wrappers
  import opened Schema
  import Tree

  /** A new document: titled "Untitled Report", A4 portrait, 20 on every margin, no components. */
  const InitialLayout := Layout("Untitled Report", PageSettings(A4, Portrait, Margins(20, 20, 20, 20)),
                                [], None)

  /** The names of the actions the store defines; any other name read off the store is
      `undefined`, and calling it throws. */
  const Actions: set<string> :=
    {"replaceLayout", "updateReportTitle", "addComponent", "insertComponentAt", "removeComponent",
     "updateComponent", "selectComponent", "selectComponents", "toggleSelection",
     "addComponentToParent", "reorderComponents"}

  // ---------------------------------------------------------------------------
  // Root-list operations

  /** `components.findIndex(c => c.id === id)`. */
  function FindIndex(cs: seq<Component>, id: string): (i: int)
    ensures -1 <= i < |cs|
    ensures 0 <= i ==> cs[i].id == id && forall j :: 0 <= j < i ==> cs[j].id != id
    ensures i == -1 <==> forall j :: 0 <= j < |cs| ==> cs[j].id != id
  {
    if cs == [] then -1
    else if cs[0].id == id then 0
    else
      var k := FindIndex(cs[1..], id);
      if k == -1 then -1 else k + 1
  }

  /** Where `insertComponentAt` puts the new root: at the end when no index is given or the
      index is past the last root, otherwise where `splice` starts (a negative index counts
      from the end, and is clamped at 0). */
  function InsertIndex(n: nat, index: Option<int>): (k: nat)
    ensures k <= n
  {
    if index.None? || index.value >= n then n
    else if index.value >= 0 then index.value
    else if n + index.value >= 0 then n + index.value
    else 0
  }

  /** Every root gets its position as its `order`. */
  function Renumber(cs: seq<Component>): seq<Component> {
    seq(|cs|, i requires 0 <= i < |cs| => cs[i].(order := i))
  }

  /** Each root's `order` is its position: the orders are exactly 0 .. n-1. */
  predicate Dense(cs: seq<Component>) {
    forall i :: 0 <= i < |cs| ==> cs[i].order == i
  }

  /** The roots with their `order` fields blanked out. */
  function Erase(cs: seq<Component>): seq<Component> {
    seq(|cs|, i requires 0 <= i < |cs| => cs[i].(order := 0))
  }

  function InsertAt(cs: seq<Component>, c: Component, index: Option<int>): seq<Component> {
    var k := InsertIndex(|cs|, index);
    Renumber(cs[..k] + [c] + cs[k..])
  }

  /** dnd-kit's `arrayMove`: take the element at `from` out and put it back in at `to`. */
  function ArrayMove<T>(s: seq<T>, from: nat, to: nat): (r: seq<T>)
    requires from < |s| && to < |s|
    ensures |r| == |s|
  {
    var rest := s[..from] + s[from + 1..];
    rest[..to] + [s[from]] + rest[to..]
  }

  function Reorder(cs: seq<Component>, activeId: string, overId: string): seq<Component> {
    var from := FindIndex(cs, activeId);
    var to := FindIndex(cs, overId);
    if from == -1 || to == -1 then cs else Renumber(ArrayMove(cs, from, to))
  }

  // ---------------------------------------------------------------------------
  // Selection operations

  /** `ids.filter(x => x !== id)`. */
  function FilterOut(ids: seq<string>, id: string): (r: seq<string>)
    ensures forall x :: x in r <==> x in ids && x != id
    ensures Tree.IsSubseq(r, ids)
    ensures multiset(r) == multiset(ids)[id := 0]
  {
    if ids == [] then []
    else
      assert [ids[0]] + ids[1..] == ids;
      assert multiset(ids) == multiset([ids[0]]) + multiset(ids[1..]);
      if ids[0] == id then
        var r := FilterOut(ids[1..], id);
        Tree.SubseqPrefix(r, [ids[0]], ids[1..]);
        r
      else
        var r := [ids[0]] + FilterOut(ids[1..], id);
        assert r[1..] == FilterOut(ids[1..], id);
        assert multiset(r) == multiset([ids[0]]) + multiset(FilterOut(ids[1..], id));
        r
  }

  /** `toggleSelection`: a selected id is dropped, any other id is appended at the end. */
  function Toggle(ids: seq<string>, id: string): (r: seq<string>)
    ensures id in r <==> id !in ids
    ensures forall x :: x != id ==> (x in r <==> x in ids)
    ensures id !in ids ==> r == ids + [id]
    ensures id in ids ==> r == FilterOut(ids, id) && multiset(r) == multiset(ids)[id := 0]
  {
    if id in ids then FilterOut(ids, id) else ids + [id]
  }

  /** `selectComponent(id)`: `[id]` for a non-empty id, nothing for `null` or `""`. */
  function SelectionFor(id: Option<string>): (r: seq<string>)
    ensures id.None? || id.value == "" ==> r == []
    ensures id.Some? && id.value != "" ==> r == [id.value]
  {
    if id.Some? && id.value != "" then [id.value] else []
  }

  // ---------------------------------------------------------------------------
  // Properties of the root-list and selection operations

  lemma {:induction false} FilterOutAppendAbsent(ids: seq<string>, id: string)
    requires id !in ids
    ensures FilterOut(ids + [id], id) == ids
  {
    if ids == [] {
      assert [] + [id] == [id];
    } else {
      assert (ids + [id])[0] == ids[0] && (ids + [id])[1..] == ids[1..] + [id];
      FilterOutAppendAbsent(ids[1..], id);
      assert [ids[0]] + ids[1..] == ids;
    }
  }

  /** Toggling an unselected id twice gives back the same selection. */
  lemma ToggleTwice(ids: seq<string>, id: string)
    requires id !in ids
    ensures Toggle(Toggle(ids, id), id) == ids
  {
    FilterOutAppendAbsent(ids, id);
  }

  /** Inserting puts the new root at the computed position, keeps every other root with all
      its fields and in its relative order, and leaves the orders dense. Without an index, or
      with one at or past the end, the new root is appended. */
  lemma InsertAtPlacement(cs: seq<Component>, c: Component, index: Option<int>)
    ensures var r := InsertAt(cs, c, index);
            var k := InsertIndex(|cs|, index);
            |r| == |cs| + 1 && Dense(r)
            && r[k] == c.(order := k)
            && Erase(r[..k] + r[k + 1..]) == Erase(cs)
    ensures index.None? || index.value >= |cs| ==> InsertIndex(|cs|, index) == |cs|
    ensures index.Some? && 0 <= index.value < |cs| ==> InsertIndex(|cs|, index) == index.value
  {
    var r := InsertAt(cs, c, index);
    var k := InsertIndex(|cs|, index);
    var s := cs[..k] + [c] + cs[k..];
    assert |r| == |cs| + 1;
    assert r[k] == s[k].(order := k);
    forall i | 0 <= i < |cs|
      ensures Erase(r[..k] + r[k + 1..])[i] == Erase(cs)[i]
    {
      if i < k {
        assert (r[..k] + r[k + 1..])[i] == r[i] && s[i] == cs[i];
      } else {
        assert (r[..k] + r[k + 1..])[i] == r[i + 1] && s[i + 1] == cs[i];
      }
    }
  }

  lemma ArrayMoveShape<T>(s: seq<T>, from: nat, to: nat)
    requires from < |s| && to < |s|
    ensures ArrayMove(s, from, to)[to] == s[from]
    ensures multiset(ArrayMove(s, from, to)) == multiset(s)
  {
    var rest := s[..from] + s[from + 1..];
    assert s == s[..from] + [s[from]] + s[from + 1..];
    assert rest == rest[..to] + rest[to..];
    assert multiset(rest) + multiset{s[from]} == multiset(s);
  }

  lemma EraseArrayMove(cs: seq<Component>, from: nat, to: nat)
    requires from < |cs| && to < |cs|
    ensures Erase(ArrayMove(cs, from, to)) == ArrayMove(Erase(cs), from, to)
  {
    var e := Erase(cs);
    assert Erase(cs[..from] + cs[from + 1..]) == e[..from] + e[from + 1..];
    var rest := cs[..from] + cs[from + 1..];
    assert Erase(rest[..to] + [cs[from]] + rest[to..])
        == Erase(rest)[..to] + [e[from]] + Erase(rest)[to..];
  }

  /** Reordering with an id that is not a root changes nothing. Otherwise the result is a
      permutation of the roots (ignoring `order`) in which the dragged root sits at the target's
      former index, and the orders are dense. */
  lemma ReorderSpec(cs: seq<Component>, activeId: string, overId: string)
    ensures var from := FindIndex(cs, activeId);
            var to := FindIndex(cs, overId);
            var r := Reorder(cs, activeId, overId);
            (from == -1 || to == -1 ==> r == cs)
            && (from != -1 && to != -1 ==>
                  |r| == |cs| && Dense(r) && r[to].id == activeId
                  && multiset(Erase(r)) == multiset(Erase(cs)))
  {
    var from := FindIndex(cs, activeId);
    var to := FindIndex(cs, overId);
    if from != -1 && to != -1 {
      var m := ArrayMove(cs, from, to);
      ArrayMoveShape(cs, from, to);
      ArrayMoveShape(Erase(cs), from, to);
      EraseArrayMove(cs, from, to);
      assert Erase(Renumber(m)) == Erase(m);
    }
  }

  // ---------------------------------------------------------------------------
  // The store

  class BuilderStore {
    var layout: Layout
    var selectedComponentIds: seq<string>

    constructor ()
      ensures layout == InitialLayout && selectedComponentIds == []
    {
      layout := InitialLayout;
      selectedComponentIds := [];
    }

    method ReplaceLayout(l: Layout)
      modifies this
      ensures layout == l
      ensures selectedComponentIds == old(selectedComponentIds)
    {
      layout := l;
    }

    method UpdateReportTitle(title: string)
      modifies this
      ensures layout == old(layout).(title := title)
      ensures selectedComponentIds == old(selectedComponentIds)
    {
      layout := layout.(title := title);
    }

    /** Appends a root; the roots already there, their `order` included, are untouched. */
    method AddComponent(c: Component)
      modifies this
      ensures layout == old(layout).(components := old(layout.components) + [c])
      ensures layout.components[..|old(layout.components)|] == old(layout.components)
      ensures selectedComponentIds == old(selectedComponentIds)
    {
      layout := layout.(components := layout.components + [c]);
      assert layout.components[..|old(layout.components)|] == old(layout.components);
    }

    method InsertComponentAt(c: Component, index: Option<int>)
      modifies this
      ensures layout == old(layout).(components := InsertAt(old(layout.components), c, index))
      ensures Dense(layout.components)
      ensures selectedComponentIds == old(selectedComponentIds)
    {
      var newComponents := layout.components;
      if index.None? || index.value >= |newComponents| {
        newComponents := newComponents + [c];
      } else {
        var k := InsertIndex(|newComponents|, index);
        newComponents := newComponents[..k] + [c] + newComponents[k..];
      }
      assert newComponents == layout.components[..InsertIndex(|layout.components|, index)] + [c]
                              + layout.components[InsertIndex(|layout.components|, index)..];
      layout := layout.(components := Renumber(newComponents));
    }

    /** Removes every node with `id` at any depth, with its subtree, and unselects `id`. */
    method RemoveComponent(id: string)
      modifies this
      ensures layout == old(layout).(components := Tree.RemoveDeep(old(layout.components), id))
      ensures selectedComponentIds == FilterOut(old(selectedComponentIds), id)
      ensures id !in Tree.Ids(layout.components) && id !in selectedComponentIds
    {
      Tree.RemoveLeavesNone(layout.components, id);
      layout := layout.(components := Tree.RemoveDeep(layout.components, id));
      selectedComponentIds := FilterOut(selectedComponentIds, id);
    }

    method UpdateComponent(id: string, updates: Tree.Patch)
      modifies this
      ensures layout == old(layout).(components := Tree.UpdateDeep(old(layout.components), id, updates))
      ensures var f := Tree.Find(old(layout.components), id);
              Tree.Find(layout.components, id) == if f.Some? then Some(Tree.Merge(f.value, updates)) else None
      ensures selectedComponentIds == old(selectedComponentIds)
    {
      Tree.FindAfterUpdate(layout.components, id, updates);
      layout := layout.(components := Tree.UpdateDeep(layout.components, id, updates));
    }

    method SelectComponent(id: Option<string>)
      modifies this
      ensures selectedComponentIds == SelectionFor(id)
      ensures layout == old(layout)
    {
      selectedComponentIds := if id.Some? && id.value != "" then [id.value] else [];
    }

    method SelectComponents(ids: seq<string>)
      modifies this
      ensures selectedComponentIds == ids
      ensures layout == old(layout)
    {
      selectedComponentIds := ids;
    }

    method ToggleSelection(id: string)
      modifies this
      ensures selectedComponentIds == Toggle(old(selectedComponentIds), id)
      ensures layout == old(layout)
    {
      if id in selectedComponentIds {
        selectedComponentIds := FilterOut(selectedComponentIds, id);
      } else {
        selectedComponentIds := selectedComponentIds + [id];
      }
    }

    method AddComponentToParent(parentId: string, c: Component)
      modifies this
      ensures layout == old(layout).(components := Tree.AddToParent(old(layout.components), parentId, c))
      ensures Tree.Find(layout.components, parentId)
              == Tree.AppendedOpt(Tree.Find(old(layout.components), parentId), c)
      ensures selectedComponentIds == old(selectedComponentIds)
    {
      Tree.FindAfterAdd(layout.components, parentId, c);
      layout := layout.(components := Tree.AddToParent(layout.components, parentId, c));
    }

    method ReorderComponents(activeId: string, overId: string)
      modifies this
      ensures layout == old(layout).(components := Reorder(old(layout.components), activeId, overId))
      ensures selectedComponentIds == old(selectedComponentIds)
    {
      var oldIndex := FindIndex(layout.components, activeId);
      var newIndex := FindIndex(layout.components, overId);
      if oldIndex == -1 || newIndex == -1 {
        return;
      }
      layout := layout.(components := Renumber(ArrayMove(layout.components, oldIndex, newIndex)));
    }
  }
}
