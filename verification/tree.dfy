/** The component tree and its copy-on-write edits: adding a child under a named
    parent, merging a partial update into a node, and removing a node with its
    subtree. Every edit walks the whole forest and rebuilds the nodes on the path. */
module Tree {
  import opened Wrappers
  import opened Schema

  // ---------------------------------------------------------------------------
  // Views of a forest: its id set, its pre-order, uniqueness of ids

  /** The ids of a node and of everything below it. */
  function NodeIds(c: Component): set<string> {
    {c.id} + (if c.body.IsContainer() then Ids(c.body.children) else {})
  }

  /** The ids of every node of a forest, at any depth. */
  function Ids(cs: seq<Component>): set<string> {
    if cs == [] then {} else NodeIds(cs[0]) + Ids(cs[1..])
  }

  /** A node's own fields: a container is shown with its children cut off. */
  function Strip(c: Component): (r: Component)
    ensures r.id == c.id && KindOf(r.body) == KindOf(c.body)
    ensures !r.body.IsContainer() || r.body.children == []
  {
    if c.body.IsContainer() then c.(body := c.body.(children := [])) else c
  }

  /** Depth-first pre-order of a node's subtree: the node first, then its children's subtrees. */
  function FlatNode(c: Component): seq<Component> {
    [Strip(c)] + (if c.body.IsContainer() then Flat(c.body.children) else [])
  }

  /** Depth-first pre-order of a forest, earlier siblings first, each node's own fields only. */
  function Flat(cs: seq<Component>): seq<Component> {
    if cs == [] then [] else FlatNode(cs[0]) + Flat(cs[1..])
  }

  /** No id occurs twice in the subtree of `c`. */
  predicate NodeUnique(c: Component) {
    c.body.IsContainer() ==> c.id !in Ids(c.body.children) && Unique(c.body.children)
  }

  /** No id occurs twice anywhere in the forest. */
  predicate Unique(cs: seq<Component>) {
    cs == [] || (NodeUnique(cs[0]) && Unique(cs[1..]) && NodeIds(cs[0]) !! Ids(cs[1..]))
  }

  // ---------------------------------------------------------------------------
  // Lookup by id

  function FindNode(c: Component, id: string): (r: Option<Component>)
    ensures r.Some? <==> id in NodeIds(c)
    ensures r.Some? ==> r.value.id == id
  {
    if c.id == id then Some(c)
    else if c.body.IsContainer() then Find(c.body.children, id)
    else None
  }

  /** The first node with `id` in depth-first pre-order; a node is tested before its
      children and earlier siblings before later ones. */
  function Find(cs: seq<Component>, id: string): (r: Option<Component>)
    ensures r.Some? <==> id in Ids(cs)
    ensures r.Some? ==> r.value.id == id
  {
    if cs == [] then None
    else
      var r := FindNode(cs[0], id);
      if r.Some? then r else Find(cs[1..], id)
  }

  /** A linear scan of a flat list for the first entry with `id`. */
  function FirstWithId(ns: seq<Component>, id: string): Option<Component> {
    if ns == [] then None
    else if ns[0].id == id then Some(ns[0])
    else FirstWithId(ns[1..], id)
  }

  function StripOpt(o: Option<Component>): Option<Component> {
    if o.Some? then Some(Strip(o.value)) else None
  }

  lemma {:induction false} FirstWithIdAppend(a: seq<Component>, b: seq<Component>, id: string)
    ensures FirstWithId(a + b, id)
            == if FirstWithId(a, id).Some? then FirstWithId(a, id) else FirstWithId(b, id)
  {
    if a != [] {
      assert (a + b)[0] == a[0];
      assert (a + b)[1..] == a[1..] + b;
      FirstWithIdAppend(a[1..], b, id);
    } else {
      assert a + b == b;
    }
  }

  lemma {:induction false} FindNodeIsFirstInPreorder(c: Component, id: string)
    ensures StripOpt(FindNode(c, id)) == FirstWithId(FlatNode(c), id)
  {
    var kids := if c.body.IsContainer() then Flat(c.body.children) else [];
    FirstWithIdAppend([Strip(c)], kids, id);
    if c.id != id && c.body.IsContainer() {
      FindIsFirstInPreorder(c.body.children, id);
    }
  }

  /** The tree search finds exactly the node a linear scan of the pre-order finds. */
  lemma {:induction false} FindIsFirstInPreorder(cs: seq<Component>, id: string)
    ensures StripOpt(Find(cs, id)) == FirstWithId(Flat(cs), id)
  {
    if cs != [] {
      FindNodeIsFirstInPreorder(cs[0], id);
      FindIsFirstInPreorder(cs[1..], id);
      FirstWithIdAppend(FlatNode(cs[0]), Flat(cs[1..]), id);
    }
  }

  lemma {:induction false} FindNodeWithin(c: Component, id: string)
    requires FindNode(c, id).Some?
    ensures NodeIds(FindNode(c, id).value) <= NodeIds(c)
  {
    if c.id != id {
      FindWithin(c.body.children, id);
    }
  }

  /** A found node's whole subtree lies inside the forest. */
  lemma {:induction false} FindWithin(cs: seq<Component>, id: string)
    requires Find(cs, id).Some?
    ensures NodeIds(Find(cs, id).value) <= Ids(cs)
  {
    if FindNode(cs[0], id).Some? {
      FindNodeWithin(cs[0], id);
    } else {
      FindWithin(cs[1..], id);
    }
  }

  /** The ids of the subtree that `Find` selects, empty when there is none. */
  function Subtree(cs: seq<Component>, id: string): set<string> {
    var f := Find(cs, id);
    if f.Some? then NodeIds(f.value) else {}
  }

  // ---------------------------------------------------------------------------
  // Partial updates

  /** The fields a partial update may carry; an absent field leaves the node's value.
      `id`, the component type and `children` are never part of an update. */
  datatype Patch = Patch(
    order: Option<int>, styles: Option<Styles>,
    content: Option<string>, caption: Option<string>, value: Option<string>,
    trend: Option<Trend>, src: Option<string>, alt: Option<string>,
    width: Option<int>, height: Option<int>, thickness: Option<int>,
    variant: Option<AlertVariant>, title: Option<string>, direction: Option<Direction>,
    alignItems: Option<string>, justifyContent: Option<string>, gap: Option<int>,
    viewType: Option<ViewType>, data: Option<seq<Value>>, config: Option<ChartConfig>,
    formulas: Option<seq<Formula>>)

  const NoChange := Patch(None, None, None, None, None, None, None, None, None, None, None,
                          None, None, None, None, None, None, None, None, None, None)

  function OrElse<T>(first: Option<T>, second: Option<T>): Option<T> {
    if first.Some? then first else second
  }

  /** A patch that sets a field only to a given value. */
  function StylesPatch(s: Styles): Patch { NoChange.(styles := Some(s)) }

  function MergeBody(b: Body, p: Patch): Body {
    match b
    case Heading(content) => Heading(p.content.GetOr(content))
    case Text(content) => Text(p.content.GetOr(content))
    case MetricCard(caption, value, trend) =>
      MetricCard(p.caption.GetOr(caption), p.value.GetOr(value), OrElse(p.trend, trend))
    case ContainerFlex(children, direction, alignItems, justifyContent, gap) =>
      ContainerFlex(children, OrElse(p.direction, direction), OrElse(p.alignItems, alignItems),
                    OrElse(p.justifyContent, justifyContent), OrElse(p.gap, gap))
    case Row(children, gap, alignItems, justifyContent) =>
      Row(children, OrElse(p.gap, gap), OrElse(p.alignItems, alignItems),
          OrElse(p.justifyContent, justifyContent))
    case Column(children, gap, alignItems) =>
      Column(children, OrElse(p.gap, gap), OrElse(p.alignItems, alignItems))
    case Image(src, alt, width, height) =>
      Image(p.src.GetOr(src), OrElse(p.alt, alt), OrElse(p.width, width), OrElse(p.height, height))
    case Divider(thickness) => Divider(p.thickness.GetOr(thickness))
    case Spacer(spacing) => Spacer(p.height.GetOr(spacing))
    case Alert(variant, title, content) =>
      Alert(p.variant.GetOr(variant), OrElse(p.title, title), p.content.GetOr(content))
    case DataView(viewType, title, data, config, formulas) =>
      DataView(p.viewType.GetOr(viewType), OrElse(p.title, title), p.data.GetOr(data),
               p.config.GetOr(config), OrElse(p.formulas, formulas))
  }

  /** `{ ...c, ...p }`: a shallow merge in which every field `p` carries wins. The node keeps
      its id, its kind and its children. */
  function Merge(c: Component, p: Patch): (r: Component)
    ensures r.id == c.id && KindOf(r.body) == KindOf(c.body)
    ensures c.body.IsContainer() ==> r.body.children == c.body.children
    ensures p.styles.Some? ==> r.styles == p.styles
    ensures p.styles.None? ==> r.styles == c.styles
  {
    Component(c.id, p.order.GetOr(c.order), OrElse(p.styles, c.styles), MergeBody(c.body, p))
  }

  /** Two successive updates, the later one winning field by field. */
  function Then(p: Patch, q: Patch): Patch {
    Patch(OrElse(q.order, p.order), OrElse(q.styles, p.styles), OrElse(q.content, p.content),
          OrElse(q.caption, p.caption), OrElse(q.value, p.value), OrElse(q.trend, p.trend),
          OrElse(q.src, p.src), OrElse(q.alt, p.alt), OrElse(q.width, p.width),
          OrElse(q.height, p.height), OrElse(q.thickness, p.thickness),
          OrElse(q.variant, p.variant), OrElse(q.title, p.title),
          OrElse(q.direction, p.direction), OrElse(q.alignItems, p.alignItems),
          OrElse(q.justifyContent, p.justifyContent), OrElse(q.gap, p.gap),
          OrElse(q.viewType, p.viewType), OrElse(q.data, p.data), OrElse(q.config, p.config),
          OrElse(q.formulas, p.formulas))
  }

  /** An update that carries nothing changes nothing, applying the same update twice is
      applying it once, and two updates in a row are one update in which the later wins. */
  lemma MergeLaws(c: Component, p: Patch, q: Patch)
    ensures Merge(c, NoChange) == c
    ensures Merge(Merge(c, p), p) == Merge(c, p)
    ensures Merge(Merge(c, p), q) == Merge(c, Then(p, q))
  {
  }

  lemma StripMerge(c: Component, p: Patch)
    ensures Strip(Merge(c, p)) == Merge(Strip(c), p)
  {
  }

  // ---------------------------------------------------------------------------
  // The three recursive edits

  /** A container with `n` appended to its children; any other node as it is. */
  function Appended(c: Component, n: Component): Component {
    if c.body.IsContainer() then c.(body := c.body.(children := c.body.children + [n])) else c
  }

  function AppendedOpt(o: Option<Component>, n: Component): Option<Component> {
    if o.Some? then Some(Appended(o.value, n)) else None
  }

  function AddNode(c: Component, parentId: string, n: Component): Component {
    if c.id == parentId then Appended(c, n)
    else if c.body.IsContainer() then
      c.(body := c.body.(children := AddToParent(c.body.children, parentId, n)))
    else c
  }

  /** Every node named `parentId` that has children gets `n` as its last child; the search
      does not descend below a node named `parentId`. */
  function AddToParent(cs: seq<Component>, parentId: string, n: Component): (r: seq<Component>)
    ensures |r| == |cs|
  {
    if cs == [] then [] else [AddNode(cs[0], parentId, n)] + AddToParent(cs[1..], parentId, n)
  }

  function UpdateNode(c: Component, id: string, p: Patch): Component {
    if c.id == id then Merge(c, p)
    else if c.body.IsContainer() then
      c.(body := c.body.(children := UpdateDeep(c.body.children, id, p)))
    else c
  }

  /** Every node named `id` is merged with `p`; the search does not descend below it. */
  function UpdateDeep(cs: seq<Component>, id: string, p: Patch): (r: seq<Component>)
    ensures |r| == |cs|
  {
    if cs == [] then [] else [UpdateNode(cs[0], id, p)] + UpdateDeep(cs[1..], id, p)
  }

  function RemoveNode(c: Component, id: string): Component {
    if c.body.IsContainer() then c.(body := c.body.(children := RemoveDeep(c.body.children, id)))
    else c
  }

  /** Drops every node named `id`, at any depth, together with its subtree. */
  function RemoveDeep(cs: seq<Component>, id: string): (r: seq<Component>)
    ensures |r| <= |cs|
    ensures forall i :: 0 <= i < |r| ==> r[i].id != id
  {
    if cs == [] then []
    else if cs[0].id == id then RemoveDeep(cs[1..], id)
    else [RemoveNode(cs[0], id)] + RemoveDeep(cs[1..], id)
  }

  // ---------------------------------------------------------------------------
  // What the edits do

  lemma {:induction false} AbsentIdNodeNoOp(c: Component, id: string, n: Component, p: Patch)
    requires id !in NodeIds(c)
    ensures AddNode(c, id, n) == c && UpdateNode(c, id, p) == c && RemoveNode(c, id) == c
  {
    if c.body.IsContainer() {
      AbsentIdNoOp(c.body.children, id, n, p);
    }
  }

  /** An id that occurs nowhere leaves the forest unchanged under all three edits. */
  lemma {:induction false} AbsentIdNoOp(cs: seq<Component>, id: string, n: Component, p: Patch)
    requires id !in Ids(cs)
    ensures AddToParent(cs, id, n) == cs
    ensures UpdateDeep(cs, id, p) == cs
    ensures RemoveDeep(cs, id) == cs
  {
    if cs != [] {
      AbsentIdNodeNoOp(cs[0], id, n, p);
      AbsentIdNoOp(cs[1..], id, n, p);
      assert [cs[0]] + cs[1..] == cs;
    }
  }

  lemma {:induction false} FindNodeAfterAdd(c: Component, parentId: string, n: Component)
    ensures FindNode(AddNode(c, parentId, n), parentId) == AppendedOpt(FindNode(c, parentId), n)
  {
    if c.id != parentId && c.body.IsContainer() {
      FindAfterAdd(c.body.children, parentId, n);
    }
  }

  /** After adding under `parentId`, looking `parentId` up gives the node found before, now with
      `n` as its last child when it has children, and unchanged when it is a leaf. */
  lemma {:induction false} FindAfterAdd(cs: seq<Component>, parentId: string, n: Component)
    ensures Find(AddToParent(cs, parentId, n), parentId) == AppendedOpt(Find(cs, parentId), n)
  {
    if cs != [] {
      var r := AddToParent(cs, parentId, n);
      assert r[0] == AddNode(cs[0], parentId, n) && r[1..] == AddToParent(cs[1..], parentId, n);
      FindNodeAfterAdd(cs[0], parentId, n);
      FindAfterAdd(cs[1..], parentId, n);
    }
  }

  lemma {:induction false} AddUnderLeafNodeNoOp(c: Component, parentId: string, n: Component)
    requires NodeUnique(c)
    requires FindNode(c, parentId).None? || !FindNode(c, parentId).value.body.IsContainer()
    ensures AddNode(c, parentId, n) == c
  {
    if c.id != parentId && c.body.IsContainer() {
      AddUnderLeafNoOp(c.body.children, parentId, n);
    }
  }

  /** With unique ids, naming a parent that is a leaf or that does not exist changes nothing. */
  lemma {:induction false} AddUnderLeafNoOp(cs: seq<Component>, parentId: string, n: Component)
    requires Unique(cs)
    requires Find(cs, parentId).None? || !Find(cs, parentId).value.body.IsContainer()
    ensures AddToParent(cs, parentId, n) == cs
  {
    if cs != [] {
      AddUnderLeafNodeNoOp(cs[0], parentId, n);
      if FindNode(cs[0], parentId).Some? {
        AbsentIdNoOp(cs[1..], parentId, n, NoChange);
      } else {
        AddUnderLeafNoOp(cs[1..], parentId, n);
      }
      assert [cs[0]] + cs[1..] == cs;
    }
  }

  lemma {:induction false} AddNodeIds(c: Component, parentId: string, n: Component)
    requires NodeUnique(c)
    ensures var f := FindNode(c, parentId);
            NodeIds(AddNode(c, parentId, n))
            == NodeIds(c) + (if f.Some? && f.value.body.IsContainer() then NodeIds(n) else {})
  {
    if c.id == parentId {
      if c.body.IsContainer() {
        AppendIds(c.body.children, n);
      }
    } else if c.body.IsContainer() {
      AddIds(c.body.children, parentId, n);
    }
  }

  /** With unique ids, adding under an existing container adds exactly the new subtree's ids,
      and adding anywhere else adds none. */
  lemma {:induction false} AddIds(cs: seq<Component>, parentId: string, n: Component)
    requires Unique(cs)
    ensures var f := Find(cs, parentId);
            Ids(AddToParent(cs, parentId, n))
            == Ids(cs) + (if f.Some? && f.value.body.IsContainer() then NodeIds(n) else {})
  {
    if cs != [] {
      var r := AddToParent(cs, parentId, n);
      assert r[0] == AddNode(cs[0], parentId, n) && r[1..] == AddToParent(cs[1..], parentId, n);
      AddNodeIds(cs[0], parentId, n);
      if FindNode(cs[0], parentId).Some? {
        AbsentIdNoOp(cs[1..], parentId, n, NoChange);
      } else {
        AddIds(cs[1..], parentId, n);
      }
    }
  }

  lemma {:induction false} AppendIds(cs: seq<Component>, n: Component)
    ensures Ids(cs + [n]) == Ids(cs) + NodeIds(n)
  {
    if cs == [] {
      assert [] + [n] == [n];
      assert [n][1..] == [];
    } else {
      assert (cs + [n])[0] == cs[0];
      assert (cs + [n])[1..] == cs[1..] + [n];
      AppendIds(cs[1..], n);
    }
  }

  /** Marks each entry of a flat list named `id` as merged with `p`. */
  function MergeAt(ns: seq<Component>, id: string, p: Patch): seq<Component> {
    seq(|ns|, i requires 0 <= i < |ns| => if ns[i].id == id then Merge(ns[i], p) else ns[i])
  }

  lemma MergeAtAppend(a: seq<Component>, b: seq<Component>, id: string, p: Patch)
    ensures MergeAt(a + b, id, p) == MergeAt(a, id, p) + MergeAt(b, id, p)
  {
  }

  lemma {:induction false} MergeAtAbsent(ns: seq<Component>, id: string, p: Patch)
    requires FirstWithId(ns, id).None?
    ensures MergeAt(ns, id, p) == ns
  {
    if ns != [] {
      MergeAtAbsent(ns[1..], id, p);
      assert MergeAt(ns, id, p) == MergeAt([ns[0]], id, p) + MergeAt(ns[1..], id, p) by {
        MergeAtAppend([ns[0]], ns[1..], id, p);
        assert [ns[0]] + ns[1..] == ns;
      }
    }
  }

  lemma MergeAtUnmoved(cs: seq<Component>, id: string, p: Patch)
    requires id !in Ids(cs)
    ensures MergeAt(Flat(cs), id, p) == Flat(cs)
  {
    FindIsFirstInPreorder(cs, id);
    MergeAtAbsent(Flat(cs), id, p);
  }

  lemma {:induction false} UpdateNodeFlat(c: Component, id: string, p: Patch)
    requires NodeUnique(c)
    ensures FlatNode(UpdateNode(c, id, p)) == MergeAt(FlatNode(c), id, p)
  {
    var kids := if c.body.IsContainer() then Flat(c.body.children) else [];
    MergeAtAppend([Strip(c)], kids, id, p);
    if c.id == id {
      StripMerge(c, p);
      if c.body.IsContainer() {
        MergeAtUnmoved(c.body.children, id, p);
      }
    } else if c.body.IsContainer() {
      UpdateFlat(c.body.children, id, p);
    }
  }

  /** With unique ids, an update changes exactly the fields it carries on the node named `id`:
      the pre-order of the result is the pre-order before with that one node merged, so every
      other node, every other field and the shape of the tree are as they were. */
  lemma {:induction false} UpdateFlat(cs: seq<Component>, id: string, p: Patch)
    requires Unique(cs)
    ensures Flat(UpdateDeep(cs, id, p)) == MergeAt(Flat(cs), id, p)
  {
    if cs != [] {
      var r := UpdateDeep(cs, id, p);
      assert r[0] == UpdateNode(cs[0], id, p) && r[1..] == UpdateDeep(cs[1..], id, p);
      UpdateNodeFlat(cs[0], id, p);
      UpdateFlat(cs[1..], id, p);
      MergeAtAppend(FlatNode(cs[0]), Flat(cs[1..]), id, p);
    }
  }

  /** After an update, looking the id up gives the merged node. */
  lemma {:induction false} FindAfterUpdate(cs: seq<Component>, id: string, p: Patch)
    ensures var f := Find(cs, id);
            Find(UpdateDeep(cs, id, p), id) == if f.Some? then Some(Merge(f.value, p)) else None
  {
    if cs != [] {
      var r := UpdateDeep(cs, id, p);
      assert r[0] == UpdateNode(cs[0], id, p) && r[1..] == UpdateDeep(cs[1..], id, p);
      if cs[0].id != id && cs[0].body.IsContainer() {
        FindAfterUpdate(cs[0].body.children, id, p);
      }
      FindAfterUpdate(cs[1..], id, p);
    }
  }

  lemma {:induction false} RemoveNodeLeavesNone(c: Component, id: string)
    requires c.id != id
    ensures id !in NodeIds(RemoveNode(c, id))
    ensures NodeIds(RemoveNode(c, id)) <= NodeIds(c)
  {
    if c.body.IsContainer() {
      RemoveLeavesNone(c.body.children, id);
    }
  }

  /** No node named `id` survives removal at any depth, and no id appears that was not there. */
  lemma {:induction false} RemoveLeavesNone(cs: seq<Component>, id: string)
    ensures id !in Ids(RemoveDeep(cs, id))
    ensures Ids(RemoveDeep(cs, id)) <= Ids(cs)
  {
    if cs != [] {
      RemoveLeavesNone(cs[1..], id);
      if cs[0].id != id {
        var r := RemoveDeep(cs, id);
        assert r[0] == RemoveNode(cs[0], id) && r[1..] == RemoveDeep(cs[1..], id);
        RemoveNodeLeavesNone(cs[0], id);
      }
    }
  }

  lemma {:induction false} RemoveNodeExact(c: Component, id: string)
    requires NodeUnique(c) && c.id != id
    ensures NodeIds(RemoveNode(c, id)) == NodeIds(c) - (var f := FindNode(c, id);
                                                        if f.Some? then NodeIds(f.value) else {})
  {
    if c.body.IsContainer() {
      RemoveExact(c.body.children, id);
      if Find(c.body.children, id).Some? {
        FindWithin(c.body.children, id);
      }
    }
  }

  /** With unique ids, removal takes away exactly the ids of the removed node's subtree. */
  lemma {:induction false} RemoveExact(cs: seq<Component>, id: string)
    requires Unique(cs)
    ensures Ids(RemoveDeep(cs, id)) == Ids(cs) - Subtree(cs, id)
  {
    if cs != [] {
      RemoveExact(cs[1..], id);
      if cs[0].id == id {
        assert id in NodeIds(cs[0]);
        assert Find(cs, id) == Some(cs[0]);
        assert Find(cs[1..], id).None?;
        assert RemoveDeep(cs, id) == RemoveDeep(cs[1..], id);
      } else {
        var r := RemoveDeep(cs, id);
        assert r[0] == RemoveNode(cs[0], id) && r[1..] == RemoveDeep(cs[1..], id);
        RemoveNodeExact(cs[0], id);
        if FindNode(cs[0], id).Some? {
          FindNodeWithin(cs[0], id);
        } else if Find(cs[1..], id).Some? {
          FindWithin(cs[1..], id);
        }
      }
    }
  }

  /** `a` is `b` with some entries left out, the rest in their order. */
  predicate IsSubseq<T(==)>(a: seq<T>, b: seq<T>)
    decreases |b|
  {
    if a == [] then true
    else if b == [] then false
    else (a[0] == b[0] && IsSubseq(a[1..], b[1..])) || IsSubseq(a, b[1..])
  }

  lemma {:induction false} SubseqRefl<T>(a: seq<T>)
    ensures IsSubseq(a, a)
  {
    if a != [] {
      SubseqRefl(a[1..]);
    }
  }

  lemma {:induction false} SubseqPrefix<T>(a: seq<T>, x: seq<T>, b: seq<T>)
    requires IsSubseq(a, b)
    ensures IsSubseq(a, x + b)
  {
    if a != [] && x != [] {
      assert (x + b)[1..] == x[1..] + b;
      SubseqPrefix(a, x[1..], b);
    } else if x == [] {
      assert x + b == b;
    }
  }

  lemma {:induction false} SubseqConcat<T>(a1: seq<T>, b1: seq<T>, a2: seq<T>, b2: seq<T>)
    requires IsSubseq(a1, b1) && IsSubseq(a2, b2)
    ensures IsSubseq(a1 + a2, b1 + b2)
    decreases |b1|
  {
    if a1 == [] {
      assert a1 + a2 == a2;
      SubseqPrefix(a2, b1, b2);
    } else {
      assert (a1 + a2)[0] == a1[0] && (a1 + a2)[1..] == a1[1..] + a2;
      assert (b1 + b2)[0] == b1[0] && (b1 + b2)[1..] == b1[1..] + b2;
      if a1[0] == b1[0] && IsSubseq(a1[1..], b1[1..]) {
        SubseqConcat(a1[1..], b1[1..], a2, b2);
      } else {
        SubseqConcat(a1, b1[1..], a2, b2);
      }
    }
  }

  lemma {:induction false} RemoveNodeKeepsOrder(c: Component, id: string)
    ensures IsSubseq(FlatNode(RemoveNode(c, id)), FlatNode(c))
  {
    assert Strip(RemoveNode(c, id)) == Strip(c);
    SubseqRefl([Strip(c)]);
    if c.body.IsContainer() {
      RemoveKeepsOrder(c.body.children, id);
      SubseqConcat([Strip(c)], [Strip(c)], Flat(RemoveDeep(c.body.children, id)), Flat(c.body.children));
    } else {
      assert FlatNode(c) == [Strip(c)] + [];
    }
  }

  /** The surviving nodes keep their own fields and their relative pre-order. */
  lemma {:induction false} RemoveKeepsOrder(cs: seq<Component>, id: string)
    ensures IsSubseq(Flat(RemoveDeep(cs, id)), Flat(cs))
  {
    if cs != [] {
      RemoveKeepsOrder(cs[1..], id);
      if cs[0].id == id {
        SubseqPrefix(Flat(RemoveDeep(cs[1..], id)), FlatNode(cs[0]), Flat(cs[1..]));
      } else {
        var r := RemoveDeep(cs, id);
        assert r[0] == RemoveNode(cs[0], id) && r[1..] == RemoveDeep(cs[1..], id);
        RemoveNodeKeepsOrder(cs[0], id);
        SubseqConcat(FlatNode(RemoveNode(cs[0], id)), FlatNode(cs[0]),
                     Flat(RemoveDeep(cs[1..], id)), Flat(cs[1..]));
      }
    }
  }

  /** The pre-order of a forest with one more root is the old pre-order followed by that root's. */
  lemma {:induction false} FlatSnoc(cs: seq<Component>, n: Component)
    ensures Flat(cs + [n]) == Flat(cs) + FlatNode(n)
  {
    if cs == [] {
      assert cs + [n] == [n];
      assert [n][1..] == [];
    } else {
      assert (cs + [n])[0] == cs[0] && (cs + [n])[1..] == cs[1..] + [n];
      FlatSnoc(cs[1..], n);
    }
  }

  lemma {:induction false} AddNodeKeepsOrder(c: Component, parentId: string, n: Component)
    ensures IsSubseq(FlatNode(c), FlatNode(AddNode(c, parentId, n)))
    decreases c, 1
  {
    var a := AddNode(c, parentId, n);
    assert Strip(a) == Strip(c);
    SubseqRefl([Strip(c)]);
    if c.body.IsContainer() {
      var kids := c.body.children;
      if c.id == parentId {
        FlatSnoc(kids, n);
        SubseqRefl(Flat(kids));
        assert Flat(kids) + [] == Flat(kids);
        SubseqConcat(Flat(kids), Flat(kids), [], FlatNode(n));
        SubseqConcat([Strip(c)], [Strip(c)], Flat(kids), Flat(kids + [n]));
      } else {
        AddKeepsOrder(kids, parentId, n);
        SubseqConcat([Strip(c)], [Strip(c)], Flat(kids), Flat(AddToParent(kids, parentId, n)));
      }
    } else {
      assert a == c;
      SubseqRefl(FlatNode(c));
    }
  }

  /** Adding under a parent leaves every node that was there with its own fields, in the same
      relative pre-order: the old pre-order is a subsequence of the new one. */
  lemma {:induction false} AddKeepsOrder(cs: seq<Component>, parentId: string, n: Component)
    ensures IsSubseq(Flat(cs), Flat(AddToParent(cs, parentId, n)))
    decreases cs, 0
  {
    if cs == [] {
      SubseqRefl(Flat(cs));
    } else {
      var r := AddToParent(cs, parentId, n);
      assert r[0] == AddNode(cs[0], parentId, n) && r[1..] == AddToParent(cs[1..], parentId, n);
      AddNodeKeepsOrder(cs[0], parentId, n);
      AddKeepsOrder(cs[1..], parentId, n);
      SubseqConcat(FlatNode(cs[0]), FlatNode(r[0]), Flat(cs[1..]), Flat(r[1..]));
    }
  }
}
