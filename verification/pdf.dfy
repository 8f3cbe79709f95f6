/** The rules the PDF export applies before drawing: which dimensions reach the layout engine,
    which style keys are passed on, when an image is drawn, the alert palette and title, the
    divider, spacer, table and bar-chart fallbacks, and what an empty page shows. The drawing
    itself is not modelled. */
module Pdf {
  import opened Wrappers
  import opened Schema
  import Strings
  import JsValues
  import Statistics

  // ---------------------------------------------------------------------------
  // Dimensions

  /** `sanitizeDimension` as written: a number passes, a string is read with `parseFloat`, so a
      number followed by a unit (`"100%"`, `"12px"`) still gives that number; anything else
      (here: a missing value) gives `undefined` (`None`). */
  function SanitizeDimensionAsWritten(v: Option<StyleValue>): (r: Option<int>)
    ensures v.Some? && v.value.SNum? ==> r == Some(v.value.num)
    ensures v.None? ==> r.None?
  {
    if v.None? then None
    else match v.value
      case SNum(n) => Some(n)
      case SStr(s) => Strings.ParseFloatPrefix(s)
  }

  /** `sanitizeDimension` as its comment describes it: a number passes, a string counts only
      when it is a number as a whole, so units, `"auto"` and blank text give `undefined`. */
  function SanitizeDimension(v: Option<StyleValue>): (r: Option<int>)
    ensures v.Some? && v.value.SNum? ==> r == Some(v.value.num)
    ensures v.None? ==> r.None?
    ensures v.Some? && v.value.SStr? && r.Some? ==>
              !Strings.IsBlank(v.value.str) && Strings.NumberOf(v.value.str) == r
  {
    if v.None? then None
    else match v.value
      case SNum(n) => Some(n)
      case SStr(s) => if Strings.IsBlank(s) then None else Strings.NumberOf(s)
  }

  /** Digits followed by a unit that does not end in white space are left alone by `trim`. */
  lemma TrimOfUnitString(p: string, unit: string)
    requires p != [] && Strings.AllDigits(p)
    requires unit != [] && !Strings.IsSpace(unit[|unit| - 1])
    ensures Strings.Trim(p + unit) == p + unit
  {
    var s := p + unit;
    assert s[0] == p[0] && Strings.IsDigit(s[0]);
    assert !Strings.IsSpace(s[0]);
    assert Strings.TrimStart(s) == s;
    assert s[|s| - 1] == unit[|unit| - 1];
  }

  /** As written, a width of `"<n>%"` reaches the layout engine as `n` points. */
  lemma PercentReadAsPointsAsWritten(n: nat)
    ensures SanitizeDimensionAsWritten(Some(SStr(Strings.NatToString(n) + "%"))) == Some(n)
  {
    Strings.ParseFloatReadsNumberPrefix(n, "%");
  }

  /** `Number` reads digits followed by a unit as NaN, and the text is not blank. */
  lemma UnitStringNotANumber(p: string, unit: string)
    requires p != [] && Strings.AllDigits(p)
    requires unit != [] && !Strings.IsDigit(unit[0]) && !Strings.IsSpace(unit[|unit| - 1])
    ensures !Strings.IsBlank(p + unit)
    ensures Strings.NumberOf(p + unit).None?
  {
    var s := p + unit;
    TrimOfUnitString(p, unit);
    assert s[|p|] == unit[0];
    assert !Strings.AllDigits(s);
    assert s[0] == p[0];
    assert s[0] != '+' && s[0] != '-';
  }

  /** The intended reading: a number followed by a unit is dropped. */
  lemma UnitStringsDropped(n: nat, unit: string)
    requires unit != [] && !Strings.IsDigit(unit[0]) && !Strings.IsSpace(unit[|unit| - 1])
    ensures SanitizeDimension(Some(SStr(Strings.NatToString(n) + unit))).None?
  {
    UnitStringNotANumber(Strings.NatToString(n), unit);
  }

  /** A plain printed number is kept by the intended reading. */
  lemma PlainNumbersKept(n: nat)
    ensures SanitizeDimension(Some(SStr(Strings.NatToString(n)))) == Some(n)
  {
    var p := Strings.NatToString(n);
    assert Strings.TrimStart(p) == p by { assert !Strings.IsSpace(p[0]); }
    assert Strings.TrimEnd(p) == p by { assert !Strings.IsSpace(p[|p| - 1]); }
    assert !Strings.IsBlank(p);
    Strings.NumberOfPrinted(n);
  }

  /** The reading as written agrees with the intended one on plain printed numbers. */
  lemma PlainNumbersKeptAsWritten(n: nat)
    ensures SanitizeDimensionAsWritten(Some(SStr(Strings.NatToString(n)))) == Some(n)
  {
    Strings.ParseFloatReadsNumberPrefix(n, "");
    assert Strings.NatToString(n) + "" == Strings.NatToString(n);
  }

  // ---------------------------------------------------------------------------
  // Styles passed to the PDF renderer

  /** The style keys copied as they are. */
  const CopiedKeys: seq<string> := [
    "paddingTop", "paddingRight", "paddingBottom", "paddingLeft", "marginTop", "marginBottom",
    "fontSize", "fontWeight", "textAlign", "color",
    "backgroundColor", "borderColor", "borderWidth", "borderStyle", "borderRadius"]

  function Lookup(s: Styles, k: string): Option<StyleValue> {
    if k in s then Some(s[k]) else None
  }

  lemma DimensionsNotCopied()
    ensures "width" !in CopiedKeys && "height" !in CopiedKeys
    ensures forall k :: k in CopiedKeys ==> k != "width" && k != "height"
  {
  }

  /** The common style record with its `undefined` entries dropped: the copied keys the
      component sets, plus `width` and `height` when they sanitise to a number. */
  function SanitizedStyles(styles: Option<Styles>): (r: map<string, StyleValue>)
    ensures var s := styles.GetOr(map[]);
            forall k :: k in r <==>
              (k in CopiedKeys && k in s)
              || (k == "width" && SanitizeDimensionAsWritten(Lookup(s, "width")).Some?)
              || (k == "height" && SanitizeDimensionAsWritten(Lookup(s, "height")).Some?)
    ensures var s := styles.GetOr(map[]);
            forall k :: k in r && k != "width" && k != "height" ==> k in s && r[k] == s[k]
  {
    var s := styles.GetOr(map[]);
    DimensionsNotCopied();
    var w := SanitizeDimensionAsWritten(Lookup(s, "width"));
    var h := SanitizeDimensionAsWritten(Lookup(s, "height"));
    map k | k in CopiedKeys + ["width", "height"]
              && ((k in CopiedKeys && k in s) || (k == "width" && w.Some?) || (k == "height" && h.Some?))
      :: if k == "width" then SNum(w.value) else if k == "height" then SNum(h.value) else s[k]
  }

  /** `width` and `height` are passed on as the numbers `parseFloat` reads from them. */
  lemma SanitizedDimensions(styles: Option<Styles>)
    ensures var w := SanitizeDimensionAsWritten(Lookup(styles.GetOr(map[]), "width"));
            var r := SanitizedStyles(styles);
            "width" in r ==> w.Some? && r["width"] == SNum(w.value)
    ensures var h := SanitizeDimensionAsWritten(Lookup(styles.GetOr(map[]), "height"));
            var r := SanitizedStyles(styles);
            "height" in r ==> h.Some? && r["height"] == SNum(h.value)
  {
    var s := styles.GetOr(map[]);
    var w := SanitizeDimensionAsWritten(Lookup(s, "width"));
    var h := SanitizeDimensionAsWritten(Lookup(s, "height"));
    var r := SanitizedStyles(styles);
    DimensionsNotCopied();
    if "width" in r {
      assert w.Some?;
      assert r["width"] == SNum(w.value);
    }
    if "height" in r {
      assert h.Some?;
      assert r["height"] == SNum(h.value);
    }
  }

  /** A percentage width, which every row and column dropped from the toolbox carries,
      reaches the layout engine as that many points. */
  lemma PercentWidthPassedAsWritten(n: nat, styles: Styles)
    requires "width" in styles && styles["width"] == SStr(Strings.NatToString(n) + "%")
    ensures var r := SanitizedStyles(Some(styles));
            "width" in r && r["width"] == SNum(n)
  {
    PercentReadAsPointsAsWritten(n);
    assert Lookup(styles, "width") == Some(SStr(Strings.NatToString(n) + "%"));
    SanitizedDimensions(Some(styles));
  }

  /** Where the two readings part: a number followed by a unit is that number as written and
      `undefined` as intended; on numbers and missing values they agree. */
  lemma ReadingsDiffer(n: nat, unit: string, v: Option<StyleValue>)
    requires unit != [] && !Strings.IsDigit(unit[0]) && !Strings.IsSpace(unit[|unit| - 1])
    ensures var x := Some(SStr(Strings.NatToString(n) + unit));
            SanitizeDimensionAsWritten(x) == Some(n) && SanitizeDimension(x).None?
    ensures (v.None? || v.value.SNum?) ==> SanitizeDimensionAsWritten(v) == SanitizeDimension(v)
  {
    Strings.ParseFloatReadsNumberPrefix(n, unit);
    UnitStringsDropped(n, unit);
  }

  /** A style the component does not mention is never passed on. */
  lemma StylesNeverInvented(styles: Option<Styles>, k: string)
    ensures k !in styles.GetOr(map[]) ==> k !in SanitizedStyles(styles)
  {
  }

  /** The text, past any leading white space, starts with something `parseFloat` cannot
      begin a number with: not a digit, a sign or a decimal point (`"auto"`, `"none"`). */
  predicate StartsNonNumeric(s: string) {
    var t := Strings.TrimStart(s);
    t != [] && !Strings.IsDigit(t[0]) && t[0] != '+' && t[0] != '-' && t[0] != '.'
  }

  /** Such a text is `undefined` under both readings of `sanitizeDimension`. */
  lemma NonNumericDropped(s: string)
    requires StartsNonNumeric(s)
    ensures SanitizeDimensionAsWritten(Some(SStr(s))).None?
    ensures SanitizeDimension(Some(SStr(s))).None?
  {
    var t := Strings.TrimStart(s);
    var u := Strings.TrimEnd(t);
    assert !Strings.IsDigit(t[0]) && !Strings.IsSpace(t[0]);
    assert u != [] && u[0] == t[0];
    assert !Strings.AllDigits(u) by { assert !Strings.IsDigit(u[0]); }
  }

  /** A width that does not start like a number never reaches the layout engine. */
  lemma NonNumericWidthDropped(styles: Styles, w: string)
    requires "width" in styles && styles["width"] == SStr(w) && StartsNonNumeric(w)
    ensures "width" !in SanitizedStyles(Some(styles))
  {
    NonNumericDropped(w);
    assert Lookup(styles, "width") == Some(SStr(w));
    SanitizedDimensions(Some(styles));
  }

  /** `value || fallback` on a style value. */
  function OrStyle(v: Option<StyleValue>, fallback: StyleValue): StyleValue {
    if v.Some? && StyleTruthy(v.value) then v.value else fallback
  }

  /** `value ?? fallback` on a style value. */
  function OrMissing(v: Option<StyleValue>, fallback: StyleValue): StyleValue {
    if v.Some? then v.value else fallback
  }

  function Get(m: map<string, StyleValue>, k: string): Option<StyleValue> {
    if k in m then Some(m[k]) else None
  }

  // ---------------------------------------------------------------------------
  // Images

  /** The sources the PDF renderer accepts: HTTP(S) URLs and data URIs. */
  predicate IsValidImageSrc(src: string) {
    src != "" && (Strings.StartsWith(src, "http://") || Strings.StartsWith(src, "https://")
                  || Strings.StartsWith(src, "data:"))
  }

  const ImageUnavailable := "Image not available in PDF. Use HTTP(S) URLs or data URIs (base64)."

  datatype ImageOut =
    | PdfImage(src: string, width: Option<int>, height: Option<int>)
    | UnavailableBox(message: string)

  /** `sanitizedStyles.x || sanitizeDimension(component.x)`: a styled dimension of 0 falls back. */
  function ImageDimension(styled: Option<StyleValue>, own: Option<int>): Option<int> {
    if styled.Some? && styled.value.SNum? && styled.value.num != 0 then Some(styled.value.num)
    else SanitizeDimensionAsWritten(if own.Some? then Some(SNum(own.value)) else None)
  }

  /** An image with an accepted source is drawn from that source; any other source gives the
      warning box, never nothing. */
  function RenderImage(src: string, width: Option<int>, height: Option<int>, styles: Option<Styles>)
    : (r: ImageOut)
    ensures r.PdfImage? <==> IsValidImageSrc(src)
    ensures r.PdfImage? ==> r.src == src
    ensures r.UnavailableBox? ==> r.message == ImageUnavailable
  {
    if !IsValidImageSrc(src) then UnavailableBox(ImageUnavailable)
    else
      var s := SanitizedStyles(styles);
      PdfImage(src, ImageDimension(Get(s, "width"), width), ImageDimension(Get(s, "height"), height))
  }

  lemma FirstCharDiffers(s: string, prefix: string)
    requires s != [] && prefix != [] && s[0] != prefix[0]
    ensures !Strings.StartsWith(s, prefix)
  {
    if |prefix| <= |s| {
      assert s[..|prefix|][0] == s[0];
    }
  }

  /** Blob URLs, which the editor's own uploads produce, are never drawn. */
  lemma BlobImagesAreBoxed(rest: string, width: Option<int>, height: Option<int>, styles: Option<Styles>)
    ensures RenderImage("blob:" + rest, width, height, styles) == UnavailableBox(ImageUnavailable)
  {
    var s := "blob:" + rest;
    assert s[0] == 'b';
    FirstCharDiffers(s, "http://");
    FirstCharDiffers(s, "https://");
    FirstCharDiffers(s, "data:");
  }

  // ---------------------------------------------------------------------------
  // Alerts

  /** Background, border and text colour of an alert. */
  datatype Palette = Palette(background: string, border: string, text: string)

  const InfoPalette := Palette("#eff6ff", "#bfdbfe", "#1e3a8a")
  const SuccessPalette := Palette("#f0fdf4", "#bbf7d0", "#14532d")
  const WarningPalette := Palette("#fffbeb", "#fde68a", "#78350f")
  const ErrorPalette := Palette("#fef2f2", "#fecaca", "#7f1d1d")

  /** `variant || 'info'`: the variant the alert is drawn as. */
  function EffectiveVariant(variant: string): (v: string)
    ensures v != ""
    ensures variant != "" ==> v == variant
  {
    if variant == "" then "info" else variant
  }

  /** The if-chain over the variant, starting from the info colours. */
  function AlertPalette(variant: string): Palette {
    if variant == "success" then SuccessPalette
    else if variant == "warning" then WarningPalette
    else if variant == "error" then ErrorPalette
    else InfoPalette
  }

  function VariantTag(v: AlertVariant): string {
    match v
    case Info => "info"
    case Success => "success"
    case Warning => "warning"
    case Error => "error"
  }

  /** Success, warning and error each have their own colours on every part of the box, and any
      other variant, a missing one included, is drawn in the info colours. */
  lemma PaletteRules(v: AlertVariant, w: AlertVariant, other: string)
    requires v != w
    requires other != "success" && other != "warning" && other != "error"
    ensures var p := AlertPalette(EffectiveVariant(VariantTag(v)));
            var q := AlertPalette(EffectiveVariant(VariantTag(w)));
            p.background != q.background && p.border != q.border && p.text != q.text
    ensures AlertPalette(EffectiveVariant(other)) == InfoPalette
    ensures AlertPalette(EffectiveVariant("")) == InfoPalette
  {
  }

  /** `title || variant.toUpperCase()`: never empty. */
  function AlertTitle(title: Option<string>, variant: string): (r: string)
    ensures r != ""
    ensures title.Some? && title.value != "" ==> r == title.value
    ensures title.None? || title.value == "" ==> r == Strings.Upper(EffectiveVariant(variant))
  {
    if title.Some? && title.value != "" then title.value else Strings.Upper(EffectiveVariant(variant))
  }

  // ---------------------------------------------------------------------------
  // Divider and spacer

  datatype DividerOut = DividerOut(thickness: int, color: StyleValue, lineStyle: StyleValue,
                                   marginBottom: StyleValue, marginTop: StyleValue)

  /** JavaScript truthiness of a style value. */
  predicate StyleTruthy(v: StyleValue) {
    match v
    case SNum(n) => n != 0
    case SStr(t) => t != ""
  }

  /** The divider's bottom border: thickness `|| 1`, colour and style `||` their defaults, the
      margins `??` 10, so a margin of 0 is kept while an empty colour is replaced. */
  function RenderDivider(thickness: int, styles: Option<Styles>): (r: DividerOut)
    ensures r.thickness != 0
    ensures thickness != 0 ==> r.thickness == thickness
    ensures StyleTruthy(r.color) && StyleTruthy(r.lineStyle)
    ensures var c := Get(SanitizedStyles(styles), "borderColor");
            r.color == (if c.Some? && StyleTruthy(c.value) then c.value else SStr("#e5e7eb"))
    ensures var c := Get(SanitizedStyles(styles), "borderStyle");
            r.lineStyle == (if c.Some? && StyleTruthy(c.value) then c.value else SStr("solid"))
    ensures var s := SanitizedStyles(styles);
            r.marginBottom == (if "marginBottom" in s then s["marginBottom"] else SNum(10))
            && r.marginTop == (if "marginTop" in s then s["marginTop"] else SNum(10))
  {
    var s := SanitizedStyles(styles);
    var t := SanitizeDimensionAsWritten(Some(SNum(thickness))).value;
    DividerOut(if t != 0 then t else 1,
               OrStyle(Get(s, "borderColor"), SStr("#e5e7eb")),
               OrStyle(Get(s, "borderStyle"), SStr("solid")),
               OrMissing(Get(s, "marginBottom"), SNum(10)),
               OrMissing(Get(s, "marginTop"), SNum(10)))
  }

  /** The spacer's height: the styles are spread after its own height, so a numeric `height`
      among them wins; otherwise its own height is kept. */
  function SpacerHeight(spacing: int, styles: Option<Styles>): (h: int)
    ensures var s := SanitizedStyles(styles);
            ("height" in s ==> s["height"] == SNum(h)) && ("height" !in s ==> h == spacing)
  {
    SanitizedDimensions(styles);
    var d := SanitizeDimensionAsWritten(Lookup(styles.GetOr(map[]), "height"));
    if d.Some? then d.value else spacing
  }

  // ---------------------------------------------------------------------------
  // Data views

  /** The table's columns: the configured ones when present (even an empty list), otherwise one
      per key of the first row, each labelled with its key; no rows, or a falsy first row, give
      no columns. */
  function TableColumns(config: ChartConfig, data: seq<Value>): (cols: seq<TableColumn>)
    ensures config.columns.Some? ==> cols == config.columns.value
    ensures config.columns.None? && (|data| == 0 || !JsValues.Truthy(data[0])) ==> cols == []
    ensures config.columns.None? && |data| > 0 && data[0].Obj? ==>
              |cols| == |data[0].fields|
              && forall i :: 0 <= i < |cols| ==> cols[i] == TableColumn(data[0].fields[i].key, data[0].fields[i].key)
  {
    if config.columns.Some? then config.columns.value
    else
      var first := if |data| > 0 then data[0] else Undefined;
      if !JsValues.Truthy(first) then []
      else
        var keys := JsValues.KeysOf(first).value;
        seq(|keys|, i requires 0 <= i < |keys| => TableColumn(keys[i], keys[i]))
  }

  /** What a bar chart draws: nothing for no rows; a throw when a row is `null` or `undefined`;
      otherwise one bar value per row and the positive divisor the bar heights are scaled by. */
  datatype BarChart = NoChart | ChartThrows | Bars(title: string, xKey: string, yKey: string,
                                                    values: seq<int>, safeMax: int)

  /** `keys[i]`, or the property name `undefined` stands for when it is missing. */
  function KeyAt(keys: seq<string>, i: nat): string {
    if i < |keys| then keys[i] else "undefined"
  }

  /** `Number(d[key]) || 0` for a row that can be read. */
  function BarValue(row: Value, key: string): int
    requires !JsValues.Throws(row)
  {
    var n := JsValues.ToNumber(JsValues.Property(row, key).value);
    if n.Some? then n.value else 0
  }

  function BarValues(data: seq<Value>, key: string): (vs: seq<int>)
    requires forall i :: 0 <= i < |data| ==> !JsValues.Throws(data[i])
    ensures |vs| == |data|
  {
    seq(|data|, i requires 0 <= i < |data| => BarValue(data[i], key))
  }

  function BarChartOf(title: Option<string>, data: seq<Value>, config: ChartConfig): (r: BarChart)
    ensures |data| == 0 <==> r.NoChart?
    ensures r.ChartThrows? <==> |data| > 0 && exists i :: 0 <= i < |data| && JsValues.Throws(data[i])
    ensures r.Bars? ==> |r.values| == |data| && r.safeMax > 0
                        && forall v :: v in r.values ==> v <= r.safeMax
    ensures r.Bars? ==> r.safeMax == 1 || r.safeMax in r.values
    ensures r.Bars? ==> r.title == if title.Some? && title.value != "" then title.value else "Bar Chart"
  {
    if |data| == 0 then NoChart
    else if exists i :: 0 <= i < |data| && JsValues.Throws(data[i]) then ChartThrows
    else
      var keys := JsValues.KeysOf(data[0]).value;
      var xKey := if config.xAxisKey.Some? && config.xAxisKey.value != "" then config.xAxisKey.value
                  else KeyAt(keys, 0);
      var ys := config.yAxisKeys.GetOr([]);
      var yKey := if |ys| > 0 && ys[0] != "" then ys[0] else KeyAt(keys, 1);
      var values := BarValues(data, yKey);
      var maxValue := Statistics.MaxOf(values);
      Bars(if title.Some? && title.value != "" then title.value else "Bar Chart",
           xKey, yKey, values, if maxValue > 0 then maxValue else 1)
  }

  /** How a data view is drawn, by view type. */
  datatype DataViewOut = TableOut(columns: seq<TableColumn>, rows: nat) | TableThrows
                       | BarOut(chart: BarChart) | NotImplemented(message: string)

  function ViewTag(v: ViewType): string {
    match v
    case Table => "table"
    case Bar => "bar"
    case Line => "line"
    case Pie => "pie"
  }

  function RenderDataView(viewType: ViewType, title: Option<string>, data: seq<Value>,
                          config: ChartConfig): (r: DataViewOut)
    ensures viewType == Table <==> r.TableOut? || r.TableThrows?
    ensures r.TableThrows? <==>
              viewType == Table && |TableColumns(config, data)| > 0
              && exists i :: 0 <= i < |data| && JsValues.Throws(data[i])
    ensures viewType == Bar <==> r.BarOut?
    ensures r.TableOut? ==> r.columns == TableColumns(config, data) && r.rows == |data|
    ensures r.NotImplemented? ==>
              r.message == "Chart type " + ViewTag(viewType) + " not fully implemented in PDF."
  {
    match viewType
    case Table =>
      var cols := TableColumns(config, data);
      if |cols| > 0 && exists i :: 0 <= i < |data| && JsValues.Throws(data[i]) then TableThrows
      else TableOut(cols, |data|)
    case Bar => BarOut(BarChartOf(title, data, config))
    case _ => NotImplemented("Chart type " + ViewTag(viewType) + " not fully implemented in PDF.")
  }

  // ---------------------------------------------------------------------------
  // Pages

  /** What a page draws: its components, and a placeholder line when it has none. */
  datatype PageOut = PageOut(margins: Margins, components: seq<Component>, placeholder: Option<string>)

  /** `${name || `Page ${index + 1}`} (Boş)`. */
  function EmptyPageLabel(name: string, index: nat): (r: string)
    ensures name != "" ==> r == name + " (Boş)"
    ensures name == "" ==> r == "Page " + Strings.NatToString(index + 1) + " (Boş)"
  {
    (if name != "" then name else "Page " + Strings.NatToString(index + 1)) + " (Boş)"
  }

  /** The pages of the PDF: one per page of the document, with the document's margins; a
      document without `pages` gives a PDF without pages. */
  function PdfPages(l: Layout): (r: seq<PageOut>)
    ensures l.pages.None? ==> r == []
    ensures l.pages.Some? ==> |r| == |l.pages.value|
    ensures l.pages.Some? ==> forall i :: 0 <= i < |r| ==>
              r[i].components == l.pages.value[i].components
              && r[i].margins == l.pageSettings.margins
              && (r[i].placeholder.Some? <==> l.pages.value[i].components == [])
  {
    if l.pages.None? then []
    else
      var ps := l.pages.value;
      seq(|ps|, i requires 0 <= i < |ps| =>
        PageOut(l.pageSettings.margins, ps[i].components,
                if ps[i].components == [] then Some(EmptyPageLabel(ps[i].name, i)) else None))
  }
}
