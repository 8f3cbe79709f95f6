/** The report document schema: component kinds, styles, the typed component
    variants (only the three container kinds own `children`), pages, the document,
    and the plain JavaScript values held in data-view records. */
module Schema {
  import opened Wrappers

  /** The eleven component tags. */
  datatype ComponentType =
    | HeadingType | TextType | MetricCardType | ContainerFlexType | RowType | ColumnType
    | ImageType | DividerType | SpacerType | AlertType | DataViewType

  const AllComponentTypes: seq<ComponentType> := [
    HeadingType, TextType, MetricCardType, ContainerFlexType, RowType, ColumnType,
    ImageType, DividerType, SpacerType, AlertType, DataViewType
  ]

  /** The tag string stored in a component's `type` field. */
  function TypeTag(t: ComponentType): string {
    match t
    case HeadingType => "heading"
    case TextType => "text"
    case MetricCardType => "metric-card"
    case ContainerFlexType => "container-flex"
    case RowType => "row"
    case ColumnType => "column"
    case ImageType => "image"
    case DividerType => "divider"
    case SpacerType => "spacer"
    case AlertType => "alert"
    case DataViewType => "data-view"
  }

  /** Reads a tag string back; anything but the eleven tags is not a component type. */
  function ParseType(s: string): (r: Option<ComponentType>)
    ensures r.Some? ==> TypeTag(r.value) == s
  {
    if s == "heading" then Some(HeadingType)
    else if s == "text" then Some(TextType)
    else if s == "metric-card" then Some(MetricCardType)
    else if s == "container-flex" then Some(ContainerFlexType)
    else if s == "row" then Some(RowType)
    else if s == "column" then Some(ColumnType)
    else if s == "image" then Some(ImageType)
    else if s == "divider" then Some(DividerType)
    else if s == "spacer" then Some(SpacerType)
    else if s == "alert" then Some(AlertType)
    else if s == "data-view" then Some(DataViewType)
    else None
  }

  /** The tag set is exactly the eleven listed tags: every type is listed once, and
      the tag strings name the types one-to-one. */
  lemma TypeTagsExact(t: ComponentType, s: string)
    ensures t in AllComponentTypes && |AllComponentTypes| == 11
    ensures ParseType(TypeTag(t)) == Some(t)
    ensures ParseType(s).Some? <==> exists u :: u in AllComponentTypes && TypeTag(u) == s
  {
    forall u: ComponentType ensures ParseType(TypeTag(u)) == Some(u) {
      TagParses(u);
    }
    if ParseType(s).Some? {
      var u := ParseType(s).value;
      assert u in AllComponentTypes && TypeTag(u) == s;
    }
  }

  lemma TagParses(t: ComponentType)
    ensures ParseType(TypeTag(t)) == Some(t)
  {
  }

  /** A style value: a number of pixels or a CSS-like string such as `"100%"`. */
  datatype StyleValue = SNum(num: int) | SStr(str: string)

  /** The sparse style record (`ComponentStyles`); an absent key inherits the default. */
  type Styles = map<string, StyleValue>

  /** A JavaScript value as it appears in data-view records; numbers are integers. */
  datatype Value =
    | Undefined
    | Null
    | Bool(b: bool)
    | Num(n: int)
    | Str(s: string)
    | Arr(items: seq<Value>)
    | Obj(fields: seq<Field>)

  /** One own property of an object, in insertion order. */
  datatype Field = Field(key: string, val: Value)

  function FieldKeys(fields: seq<Field>): (ks: seq<string>)
    ensures |ks| == |fields|
    ensures forall i :: 0 <= i < |fields| ==> ks[i] == fields[i].key
  {
    if fields == [] then [] else [fields[0].key] + FieldKeys(fields[1..])
  }

  /** `obj[key]` on an own property; `Undefined` when the object has no such key. */
  function FieldValue(fields: seq<Field>, key: string): (v: Value)
    ensures key !in FieldKeys(fields) ==> v == Undefined
  {
    if fields == [] then Undefined
    else if fields[0].key == key then fields[0].val
    else FieldValue(fields[1..], key)
  }

  /** `obj[key] = v`: an existing key keeps its place and takes the new value, a new key
      is appended at the end. */
  function SetField(fields: seq<Field>, key: string, v: Value): (r: seq<Field>)
    ensures key in FieldKeys(fields) ==> FieldKeys(r) == FieldKeys(fields)
    ensures key !in FieldKeys(fields) ==> FieldKeys(r) == FieldKeys(fields) + [key]
    ensures FieldValue(r, key) == v
    ensures forall k :: k != key ==> FieldValue(r, k) == FieldValue(fields, k)
  {
    if fields == [] then [Field(key, v)]
    else if fields[0].key == key then [Field(key, v)] + fields[1..]
    else [fields[0]] + SetField(fields[1..], key, v)
  }

  datatype TrendDirection = Up | Down | Neutral
  datatype Trend = Trend(value: string, direction: TrendDirection)
  datatype Direction = FlexRow | FlexColumn
  datatype ViewType = Table | Bar | Line | Pie
  datatype FormulaKind = Average | Sum | Variance | Min | Max
  datatype Formula = Formula(kind: FormulaKind, key: string, caption: Option<string>)
  datatype TableColumn = TableColumn(key: string, caption: string)
  datatype ChartConfig = ChartConfig(
    xAxisKey: Option<string>,
    yAxisKeys: Option<seq<string>>,
    seriesColors: Option<seq<string>>,
    columns: Option<seq<TableColumn>>)
  datatype AlertVariant = Info | Success | Warning | Error

  /** The kind-specific part of a component. Only `ContainerFlex`, `Row` and `Column`
      declare `children`; every other variant is a leaf. */
  datatype Body =
    | Heading(content: string)
    | Text(content: string)
    | MetricCard(caption: string, value: string, trend: Option<Trend>)
    | ContainerFlex(children: seq<Component>, direction: Option<Direction>,
                    alignItems: Option<string>, justifyContent: Option<string>, gap: Option<int>)
    | Row(children: seq<Component>, gap: Option<int>, alignItems: Option<string>,
          justifyContent: Option<string>)
    | Column(children: seq<Component>, gap: Option<int>, alignItems: Option<string>)
    | Image(src: string, alt: Option<string>, width: Option<int>, height: Option<int>)
    | Divider(thickness: int)
    | Spacer(spacing: int) // the source's `height` field of a spacer
    | Alert(variant: AlertVariant, title: Option<string>, content: string)
    | DataView(viewType: ViewType, title: Option<string>, data: seq<Value>,
               config: ChartConfig, formulas: Option<seq<Formula>>)
  {
    /** `'children' in component`. */
    predicate IsContainer() {
      ContainerFlex? || Row? || Column?
    }
  }

  /** Every component carries an id, a type (its body's variant), an order and optional styles. */
  datatype Component = Component(id: string, order: int, styles: Option<Styles>, body: Body)

  function KindOf(b: Body): (t: ComponentType)
    ensures b.IsContainer() <==> t in {RowType, ColumnType, ContainerFlexType}
  {
    match b
    case Heading(_) => HeadingType
    case Text(_) => TextType
    case MetricCard(_, _, _) => MetricCardType
    case ContainerFlex(_, _, _, _, _) => ContainerFlexType
    case Row(_, _, _, _) => RowType
    case Column(_, _, _) => ColumnType
    case Image(_, _, _, _) => ImageType
    case Divider(_) => DividerType
    case Spacer(_) => SpacerType
    case Alert(_, _, _) => AlertType
    case DataView(_, _, _, _, _) => DataViewType
  }

  datatype PageSize = A4 | Letter
  datatype Orientation = Portrait | Landscape
  datatype Margins = Margins(top: int, bottom: int, left: int, right: int)
  datatype PageSettings = PageSettings(size: PageSize, orientation: Orientation, margins: Margins)
  datatype PageStyles = PageStyles(backgroundColor: Option<string>, backgroundImage: Option<string>,
                                   padding: Option<int>)

  /** A page: an id, a name, optional styles and its ordered root components. */
  datatype Page = Page(id: string, name: string, styles: Option<PageStyles>, components: seq<Component>)

  /** The document object as the builder holds it. The declared document type lists a
      title, page settings and `pages`; the store itself creates and edits a flat root list
      `components` and never a `pages` list, so `pages` is present only when a loaded
      document brought one along. */
  datatype Layout = Layout(title: string, pageSettings: PageSettings,
                           components: seq<Component>, pages: Option<seq<Page>>)
}
