/** The properties panel: which view it shows for the current selection, how it looks the
    selected component up, and its delete and style handlers. */
module Panel {
  import opened Wrappers
  import opened Schema
  import Tree
  import Store

  /** What the panel shows. */
  datatype View = EmptyPrompt | MultiSelect(count: nat) | NotFound | Editor(c: Component)

  /** The first page, in page order, whose components hold `id`, searched like `Tree.Find`. */
  function FindInPages(pages: seq<Page>, id: string): (r: Option<Component>)
    ensures r.Some? <==> exists i :: 0 <= i < |pages| && id in Tree.Ids(pages[i].components)
    ensures r.Some? ==> r.value.id == id
  {
    if pages == [] then None
    else
      var found := Tree.Find(pages[0].components, id);
      if found.Some? then found
      else
        var r := FindInPages(pages[1..], id);
        assert forall i :: 0 < i < |pages| ==> pages[i] == pages[1..][i - 1];
        r
  }

  /** Pages are searched in order and the first page holding the id answers. */
  lemma {:induction false} FindInPagesFirstHit(pages: seq<Page>, id: string, i: nat)
    requires i < |pages| && id in Tree.Ids(pages[i].components)
    requires forall j :: 0 <= j < i ==> id !in Tree.Ids(pages[j].components)
    ensures FindInPages(pages, id) == Tree.Find(pages[i].components, id)
  {
    if i > 0 {
      assert id !in Tree.Ids(pages[0].components);
      FindInPagesFirstHit(pages[1..], id, i - 1);
    }
  }

  /** The lookup as the panel writes it: only the document's `pages` are searched, and a
      document without `pages` finds nothing. */
  function FindComponentGlobalAsWritten(l: Layout, id: string): (r: Option<Component>)
    ensures l.pages.None? ==> r.None?
    ensures r.Some? ==> r.value.id == id
  {
    if l.pages.None? then None else FindInPages(l.pages.value, id)
  }

  /** The lookup the panel needs: the root list the store edits, and then any pages a loaded
      document carries. */
  function FindComponentGlobal(l: Layout, id: string): (r: Option<Component>)
    ensures r.Some? ==> r.value.id == id
  {
    var found := Tree.Find(l.components, id);
    if found.Some? then found
    else if l.pages.Some? then FindInPages(l.pages.value, id)
    else None
  }

  /** Only the first selected id is looked up, and only when it is not empty. */
  function SelectedWith(l: Layout, selected: seq<string>, find: (Layout, string) -> Option<Component>)
    : Option<Component>
  {
    if |selected| > 0 && selected[0] != "" then find(l, selected[0]) else None
  }

  function Dispatch(selected: seq<string>, target: Option<Component>): View {
    if |selected| == 0 then EmptyPrompt
    else if |selected| > 1 then MultiSelect(|selected|)
    else if target.None? then NotFound
    else Editor(target.value)
  }

  function PanelViewAsWritten(l: Layout, selected: seq<string>): View {
    Dispatch(selected, SelectedWith(l, selected, FindComponentGlobalAsWritten))
  }

  function PanelView(l: Layout, selected: seq<string>): View {
    Dispatch(selected, SelectedWith(l, selected, FindComponentGlobal))
  }

  /** The panel shows the prompt for no selection, the bulk panel for several ids, and for one
      id either the editor of the first component in pre-order with that id or "not found". */
  lemma PanelDispatch(l: Layout, selected: seq<string>)
    ensures |selected| == 0 ==> PanelView(l, selected) == EmptyPrompt
    ensures |selected| > 1 ==> PanelView(l, selected) == MultiSelect(|selected|)
    ensures |selected| == 1 && selected[0] != "" && selected[0] in Tree.Ids(l.components)
            ==> PanelView(l, selected) == Editor(Tree.Find(l.components, selected[0]).value)
    ensures |selected| == 1 && PanelView(l, selected).Editor?
            ==> PanelView(l, selected).c.id == selected[0]
    ensures |selected| == 1 && (selected[0] == ""
                                || (selected[0] !in Tree.Ids(l.components) && l.pages.None?))
            ==> PanelView(l, selected) == NotFound
  {
  }

  /** Every document the store builds itself has no `pages`, so the panel as written shows
      "not found" for any single selection, even one naming a component on the canvas. */
  lemma SingleSelectionNotFoundAsWritten(l: Layout, id: string)
    requires l.pages.None?
    ensures PanelViewAsWritten(l, [id]) == NotFound
  {
  }

  /** A concrete instance: a heading on a fresh document, selected, is reported not found. */
  lemma SelectedHeadingNotFoundAsWritten()
    ensures var h := Component("heading-x1", 0, None, Heading("New Heading"));
            var l := Store.InitialLayout.(components := [h]);
            Tree.Find(l.components, "heading-x1") == Some(h)
            && PanelViewAsWritten(l, ["heading-x1"]) == NotFound
            && PanelView(l, ["heading-x1"]) == Editor(h)
  {
  }

  /** Which property sections the editor shows. */
  datatype Section = LayoutSection | SpacingSection | TypographySection | AppearanceSection

  function Sections(t: ComponentType): (s: seq<Section>)
    ensures TypographySection in s <==> t in {HeadingType, TextType, MetricCardType}
    ensures |s| >= 3 && s[0] == LayoutSection && s[1] == SpacingSection && s[|s| - 1] == AppearanceSection
    ensures TypographySection in s ==> |s| == 4 && s[2] == TypographySection
    ensures TypographySection !in s ==> |s| == 3
  {
    [LayoutSection, SpacingSection]
    + (if t == HeadingType || t == TextType || t == MetricCardType then [TypographySection] else [])
    + [AppearanceSection]
  }

  /** Removing each id in turn. */
  function RemoveAll(cs: seq<Component>, ids: seq<string>): seq<Component>
    decreases |ids|
  {
    if ids == [] then cs else RemoveAll(Tree.RemoveDeep(cs, ids[0]), ids[1..])
  }

  /** The bulk-delete button, given the actions the store defines: it looks `removeComponents`
      up on the store and calls it. When the store has no such action the call throws before
      the selection is cleared, so neither the document nor the selection changes. */
  function MultiDeleteWith(actions: set<string>, l: Layout, selected: seq<string>): (r: (Layout, seq<string>, bool))
    ensures r.2 <==> "removeComponents" !in actions // the handler throws
    ensures r.2 ==> r.0 == l && r.1 == selected
    ensures !r.2 ==> r.0 == l.(components := RemoveAll(l.components, selected)) && r.1 == []
  {
    if "removeComponents" in actions then (l.(components := RemoveAll(l.components, selected)), [], false)
    else (l, selected, true)
  }

  /** The store defines `removeComponent` but no `removeComponents`. */
  lemma RemoveComponentsUndefined()
    ensures "removeComponents" !in Store.Actions
    ensures "removeComponent" in Store.Actions
  {
  }

  /** The bulk delete as written, against the store's own actions: it always throws, and
      leaves the document and the selection as they were. */
  function MultiDeleteAsWritten(l: Layout, selected: seq<string>): (r: (Layout, seq<string>, bool))
    ensures r.2 && r.0 == l && r.1 == selected
  {
    RemoveComponentsUndefined();
    MultiDeleteWith(Store.Actions, l, selected)
  }

  /** Removing ids never brings one in. */
  lemma {:induction false} RemoveAllShrinks(cs: seq<Component>, ids: seq<string>)
    ensures Tree.Ids(RemoveAll(cs, ids)) <= Tree.Ids(cs)
    decreases |ids|
  {
    if ids != [] {
      Tree.RemoveLeavesNone(cs, ids[0]);
      RemoveAllShrinks(Tree.RemoveDeep(cs, ids[0]), ids[1..]);
    }
  }

  /** Every id in the list is gone afterwards, at any depth. */
  lemma {:induction false} RemoveAllRemoves(cs: seq<Component>, ids: seq<string>, id: string)
    requires id in ids
    ensures id !in Tree.Ids(RemoveAll(cs, ids))
    decreases |ids|
  {
    Tree.RemoveLeavesNone(cs, ids[0]);
    if ids[0] == id {
      RemoveAllShrinks(Tree.RemoveDeep(cs, ids[0]), ids[1..]);
    } else {
      RemoveAllRemoves(Tree.RemoveDeep(cs, ids[0]), ids[1..], id);
    }
  }

  /** A selected component survives the bulk delete as written, where a store that defined
      `removeComponents` would have removed it. */
  lemma MultiDeleteKeepsEverythingAsWritten(l: Layout, selected: seq<string>, id: string)
    requires id in selected && id in Tree.Ids(l.components)
    ensures id in Tree.Ids(MultiDeleteAsWritten(l, selected).0.components)
    ensures id !in Tree.Ids(MultiDeleteWith(Store.Actions + {"removeComponents"}, l, selected).0.components)
  {
    RemoveAllRemoves(l.components, selected, id);
  }

  lemma {:induction false} RemoveAllSnoc(cs: seq<Component>, ids: seq<string>, id: string)
    ensures RemoveAll(cs, ids + [id]) == Tree.RemoveDeep(RemoveAll(cs, ids), id)
    decreases |ids|
  {
    if ids == [] {
      assert [] + [id] == [id];
      assert [id][1..] == [];
    } else {
      assert (ids + [id])[0] == ids[0] && (ids + [id])[1..] == ids[1..] + [id];
      RemoveAllSnoc(Tree.RemoveDeep(cs, ids[0]), ids[1..], id);
    }
  }

  /** The bulk delete the panel means: every selected id is removed, then the selection is
      cleared. Afterwards no node with any of those ids is left at any depth. */
  method DeleteSelected(store: Store.BuilderStore)
    modifies store
    ensures store.layout == old(store.layout).(components :=
              RemoveAll(old(store.layout.components), old(store.selectedComponentIds)))
    ensures forall id :: id in old(store.selectedComponentIds) ==> id !in Tree.Ids(store.layout.components)
    ensures store.selectedComponentIds == []
  {
    var ids := store.selectedComponentIds;
    var i := 0;
    while i < |ids|
      invariant 0 <= i <= |ids|
      invariant store.layout == old(store.layout).(components :=
                  RemoveAll(old(store.layout.components), ids[..i]))
      invariant forall j :: 0 <= j < i ==> ids[j] !in Tree.Ids(store.layout.components)
    {
      ghost var before := store.layout.components;
      store.RemoveComponent(ids[i]);
      Tree.RemoveLeavesNone(before, ids[i]);
      RemoveAllSnoc(old(store.layout.components), ids[..i], ids[i]);
      assert ids[..i + 1] == ids[..i] + [ids[i]];
      i := i + 1;
    }
    assert ids[..i] == ids;
    store.SelectComponent(None);
  }

  /** Deleting the component in the editor removes it (with its subtree) and clears the selection. */
  method HandleDelete(store: Store.BuilderStore, selected: Component)
    modifies store
    ensures store.layout == old(store.layout).(components := Tree.RemoveDeep(old(store.layout.components), selected.id))
    ensures selected.id !in Tree.Ids(store.layout.components)
    ensures store.selectedComponentIds == []
  {
    store.RemoveComponent(selected.id);
    store.SelectComponent(None);
  }

  /** A style edit replaces the selected component's whole `styles` record; with nothing
      selected it does nothing. */
  method HandleStyleChange(store: Store.BuilderStore, selected: Option<Component>, newStyles: Styles)
    modifies store
    ensures selected.None? ==> store.layout == old(store.layout)
    ensures selected.Some? ==>
              store.layout == old(store.layout).(components :=
                Tree.UpdateDeep(old(store.layout.components), selected.value.id, Tree.StylesPatch(newStyles)))
    ensures selected.Some? && selected.value.id in Tree.Ids(old(store.layout.components)) ==>
              var f := Tree.Find(store.layout.components, selected.value.id);
              f.Some? && f.value.styles == Some(newStyles)
    ensures store.selectedComponentIds == old(store.selectedComponentIds)
  {
    if selected.Some? {
      store.UpdateComponent(selected.value.id, Tree.StylesPatch(newStyles));
    }
  }
}
