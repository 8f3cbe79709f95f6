/** The data-view editor: replacing the data from edited JSON or an uploaded JSON or CSV file,
    adding, removing and editing formulas, and setting the chart axes and the view type. Every
    edit reaches the document as one `updateComponent` call on the edited data view. Parsing
    JSON and printing the data back as JSON are parameters. */
module DataViewEditor {
  import opened Wrappers
  import opened Schema
  import Strings
  import Tree
  import Store
  import Statistics

  // ---------------------------------------------------------------------------
  // Data from JSON

  /** The outcome of reading a data table from parsed JSON. */
  datatype DataEdit = Accepted(data: seq<Value>) | Rejected(message: string)

  /** A parsed array is taken as the new data; anything else is refused with `notArray`, and
      text that does not parse (`None`) with `invalid`. */
  function ReadDataJson(parsed: Option<Value>, notArray: string, invalid: string): (r: DataEdit)
    ensures r.Accepted? <==> parsed.Some? && parsed.value.Arr?
    ensures r.Accepted? ==> parsed == Some(Arr(r.data))
    ensures r.Rejected? ==> r.message == if parsed.None? then invalid else notArray
  {
    if parsed.None? then Rejected(invalid)
    else if parsed.value.Arr? then Accepted(parsed.value.items)
    else Rejected(notArray)
  }

  const EditNotArray := "Data must be an array of objects"
  const EditInvalid := "Invalid JSON format"
  const FileNotArray := "JSON must be an array of objects"
  const FileInvalid := "Invalid JSON file"

  // ---------------------------------------------------------------------------
  // Data from CSV

  /** `values[i]?.trim()` converted as the upload does: a missing cell stays `undefined`, a
      cell `Number` reads (the empty cell reads as 0) becomes that number, any other cell stays
      the trimmed text. */
  function Cell(values: seq<string>, i: nat): (v: Value)
    ensures i >= |values| <==> v.Undefined?
    ensures i < |values| && v.Str? ==> v.s == Strings.Trim(values[i])
                                       && Strings.NumberOf(v.s).None?
    ensures i < |values| && v.Num? ==> Some(v.n) == Strings.NumberOf(values[i])
  {
    if i < |values| then
      var t := Strings.Trim(values[i]);
      var n := Strings.NumberOf(t);
      assert Strings.Trim(t) == t by { Strings.TrimEnds(values[i]); }
      if n.Some? then Num(n.value) else Str(t)
    else Undefined
  }

  /** The record of one line: each header in turn is assigned the cell in its column, so a
      repeated header keeps its first position and its last cell. */
  function RecordOf(headers: seq<string>, values: seq<string>): seq<Field> {
    if headers == [] then []
    else
      var k := |headers| - 1;
      SetField(RecordOf(headers[..k], values), headers[k], Cell(values, k))
  }

  /** `i` is the last column under its header. */
  predicate LastOccurrence(headers: seq<string>, i: nat)
    requires i < |headers|
  {
    forall j :: i < j < |headers| ==> headers[j] != headers[i]
  }

  /** A record has exactly the header keys. */
  lemma {:induction false} RecordKeys(headers: seq<string>, values: seq<string>)
    ensures forall h :: h in FieldKeys(RecordOf(headers, values)) <==> h in headers
  {
    if headers != [] {
      var k := |headers| - 1;
      var init := headers[..k];
      RecordKeys(init, values);
      var prev := RecordOf(init, values);
      assert RecordOf(headers, values) == SetField(prev, headers[k], Cell(values, k));
      InitAndLast(headers);
      if headers[k] in FieldKeys(prev) {
        assert FieldKeys(RecordOf(headers, values)) == FieldKeys(prev);
      } else {
        assert FieldKeys(RecordOf(headers, values)) == FieldKeys(prev) + [headers[k]];
      }
    }
  }

  /** Each header holds the cell of the last column under it. */
  lemma {:induction false} RecordValue(headers: seq<string>, values: seq<string>, i: nat)
    requires i < |headers| && LastOccurrence(headers, i)
    ensures FieldValue(RecordOf(headers, values), headers[i]) == Cell(values, i)
  {
    var k := |headers| - 1;
    var init := headers[..k];
    var prev := RecordOf(init, values);
    var r := SetField(prev, headers[k], Cell(values, k));
    assert RecordOf(headers, values) == r;
    if i == k {
      assert FieldValue(r, headers[k]) == Cell(values, k);
    } else {
      assert headers[k] != headers[i];
      assert LastOccurrence(init, i) by {
        forall j | i < j < |init| ensures init[j] != init[i] {
          assert init[j] == headers[j] && init[i] == headers[i];
        }
      }
      RecordValue(init, values, i);
      assert init[i] == headers[i];
      assert FieldValue(r, headers[i]) == FieldValue(prev, headers[i]);
    }
  }

  lemma InitAndLast<T>(s: seq<T>)
    requires s != []
    ensures s[..|s| - 1] + [s[|s| - 1]] == s
  {
  }

  /** No header repeats an earlier one. */
  predicate Distinct(hs: seq<string>) {
    hs == [] || (Distinct(hs[..|hs| - 1]) && hs[|hs| - 1] !in hs[..|hs| - 1])
  }

  /** With distinct headers the keys come in header order. */
  lemma {:induction false} RecordKeyOrder(headers: seq<string>, values: seq<string>)
    requires Distinct(headers)
    ensures FieldKeys(RecordOf(headers, values)) == headers
  {
    if headers != [] {
      var k := |headers| - 1;
      var init := headers[..k];
      InitAndLast(headers);
      RecordKeyOrder(init, values);
      var prev := RecordOf(init, values);
      assert headers[k] !in FieldKeys(prev);
      assert RecordOf(headers, values) == SetField(prev, headers[k], Cell(values, k));
    }
  }

  /** `line.split(',')` followed by one assignment per header, as the upload's `forEach` does. */
  method BuildRecord(headers: seq<string>, line: string) returns (obj: seq<Field>)
    ensures obj == RecordOf(headers, Strings.Split(line, ','))
  {
    var values := Strings.Split(line, ',');
    obj := [];
    var i := 0;
    while i < |headers|
      invariant 0 <= i <= |headers|
      invariant obj == RecordOf(headers[..i], values)
    {
      obj := SetField(obj, headers[i], Cell(values, i));
      assert headers[..i + 1][..i] == headers[..i];
      i := i + 1;
    }
    assert headers[..i] == headers;
  }

  /** The lines that hold something besides white space, in order. */
  function NonBlank(lines: seq<string>): (r: seq<string>)
    ensures |r| <= |lines|
    ensures forall l :: l in r <==> l in lines && !Strings.IsBlank(l)
  {
    if lines == [] then []
    else
      var k := |lines| - 1;
      var init := NonBlank(lines[..k]);
      assert forall l :: l in lines <==> l in lines[..k] || l == lines[k] by {
        InitAndLast(lines);
      }
      if Strings.IsBlank(lines[k]) then init else init + [lines[k]]
  }

  /** Appending a line appends it to the non-blank lines exactly when it is not blank. */
  lemma NonBlankSnoc(lines: seq<string>, l: string)
    ensures NonBlank(lines + [l]) == NonBlank(lines) + if Strings.IsBlank(l) then [] else [l]
  {
    assert (lines + [l])[..|lines|] == lines;
  }

  /** The same step read on prefixes of one list of lines. */
  lemma NonBlankPrefix(lines: seq<string>, i: nat)
    requires i < |lines|
    ensures NonBlank(lines[..i + 1]) == NonBlank(lines[..i]) + if Strings.IsBlank(lines[i]) then [] else [lines[i]]
  {
    assert lines[..i + 1] == lines[..i] + [lines[i]];
    NonBlankSnoc(lines[..i], lines[i]);
  }

  /** The trimmed header names: the first line split on commas. */
  function Headers(content: string): (hs: seq<string>)
    ensures |hs| >= 1
  {
    var lines := Strings.Split(content, '\n');
    var raw := Strings.Split(lines[0], ',');
    seq(|raw|, i requires 0 <= i < |raw| => Strings.Trim(raw[i]))
  }

  /** One record per row. */
  function Records(headers: seq<string>, rows: seq<string>): (data: seq<Value>)
    ensures |data| == |rows|
  {
    seq(|rows|, j requires 0 <= j < |rows| => Obj(RecordOf(headers, Strings.Split(rows[j], ','))))
  }

  lemma RecordsSnoc(headers: seq<string>, rows: seq<string>, line: string)
    ensures Records(headers, rows + [line])
            == Records(headers, rows) + [Obj(RecordOf(headers, Strings.Split(line, ',')))]
  {
  }

  /** The records of a CSV text: one per non-blank line after the first. */
  function CsvData(content: string): (data: seq<Value>)
    ensures |data| == |NonBlank(Strings.Split(content, '\n')[1..])|
  {
    var lines := Strings.Split(content, '\n');
    var rows := NonBlank(lines[1..]);
    Records(Headers(content), rows)
  }

  /** The CSV branch of the upload: lines split on `\n`, header from the first line, one record
      per non-blank later line. */
  method ParseCsv(content: string) returns (data: seq<Value>)
    ensures data == CsvData(content)
  {
    var lines := Strings.Split(content, '\n');
    var raw := Strings.Split(lines[0], ',');
    var headers := seq(|raw|, i requires 0 <= i < |raw| => Strings.Trim(raw[i]));
    var body := lines[1..];
    data := [];
    var i := 0;
    while i < |body|
      invariant 0 <= i <= |body|
      invariant data == Records(headers, NonBlank(body[..i]))
    {
      var line := body[i];
      NonBlankPrefix(body, i);
      if !Strings.IsBlank(line) {
        var obj := BuildRecord(headers, line);
        RecordsSnoc(headers, NonBlank(body[..i]), line);
        data := data + [Obj(obj)];
      }
      i := i + 1;
    }
    assert body[..i] == body;
    assert headers == Headers(content);
  }

  /** Every CSV record is an object whose keys are exactly the trimmed headers, and no record
      comes from a blank line. */
  lemma CsvShape(content: string)
    ensures var data := CsvData(content);
            forall j :: 0 <= j < |data| ==>
              data[j].Obj? && forall h :: h in FieldKeys(data[j].fields) <==> h in Headers(content)
  {
    var lines := Strings.Split(content, '\n');
    var rows := NonBlank(lines[1..]);
    forall j | 0 <= j < |rows|
      ensures forall h :: h in FieldKeys(RecordOf(Headers(content), Strings.Split(rows[j], ','))) <==> h in Headers(content)
    {
      RecordKeys(Headers(content), Strings.Split(rows[j], ','));
    }
  }

  /** An uploaded file: its name and its text. */
  datatype UploadedFile = UploadedFile(name: string, content: string)

  predicate EndsWith(s: string, suffix: string) {
    |suffix| <= |s| && s[|s| - |suffix|..] == suffix
  }

  // ---------------------------------------------------------------------------
  // Formulas and chart settings

  /** `handleAddFormula`: an average over the first data key (or the empty key) labelled
      `Average` is appended; an absent list counts as empty. */
  function AddedFormula(formulas: Option<seq<Formula>>, keys: seq<string>): (r: seq<Formula>)
    ensures |r| == |formulas.GetOr([])| + 1 && r[..|r| - 1] == formulas.GetOr([])
    ensures r[|r| - 1].kind == Average && r[|r| - 1].caption == Some("Average")
    ensures r[|r| - 1].key == if keys == [] then "" else keys[0]
  {
    formulas.GetOr([]) + [Formula(Average, if keys == [] then "" else keys[0], Some("Average"))]
  }

  /** `list.splice(index, 1)`: a negative index counts from the end (clamped at 0), an index at
      or past the end removes nothing. */
  function Splice<T>(list: seq<T>, index: int): seq<T> {
    var start := if index < 0 then (if |list| + index < 0 then 0 else |list| + index) else index;
    if start >= |list| then list else list[..start] + list[start + 1..]
  }

  /** `removeFormula(index)`. */
  function RemovedFormula(formulas: Option<seq<Formula>>, index: int): (r: seq<Formula>)
    ensures 0 <= index < |formulas.GetOr([])| ==>
              |r| == |formulas.GetOr([])| - 1
              && (forall j :: 0 <= j < index ==> r[j] == formulas.GetOr([])[j])
              && (forall j :: index <= j < |r| ==> r[j] == formulas.GetOr([])[j + 1])
    ensures index >= |formulas.GetOr([])| ==> r == formulas.GetOr([])
    ensures index < 0 && |formulas.GetOr([])| > 0 ==> |r| == |formulas.GetOr([])| - 1
  {
    Splice(formulas.GetOr([]), index)
  }

  /** Removing the formula just added gives back the list before the addition. */
  lemma AddThenRemove(formulas: Option<seq<Formula>>, keys: seq<string>)
    ensures var added := AddedFormula(formulas, keys);
            RemovedFormula(Some(added), |added| - 1) == formulas.GetOr([])
            && RemovedFormula(Some(added), -1) == formulas.GetOr([])
  {
  }

  /** The field a formula edit sets. */
  datatype FormulaEdit = SetKind(kind: FormulaKind) | SetKey(key: string) | SetCaption(caption: string)

  /** `{ ...f, [field]: value }`: the named field is set, the other two are kept. */
  function Edited(f: Formula, e: FormulaEdit): (r: Formula)
    ensures e.SetKind? ==> r.kind == e.kind && r.key == f.key && r.caption == f.caption
    ensures e.SetKey? ==> r.key == e.key && r.kind == f.kind && r.caption == f.caption
    ensures e.SetCaption? ==> r.caption == Some(e.caption) && r.kind == f.kind && r.key == f.key
  {
    match e
    case SetKind(k) => f.(kind := k)
    case SetKey(k) => f.(key := k)
    case SetCaption(c) => f.(caption := Some(c))
  }

  /** `updateFormula(index, field, value)`, for an index of the shown list. */
  function UpdatedFormula(formulas: Option<seq<Formula>>, index: nat, e: FormulaEdit): (r: seq<Formula>)
    requires index < |formulas.GetOr([])|
    ensures |r| == |formulas.GetOr([])|
    ensures r[index] == Edited(formulas.GetOr([])[index], e)
    ensures forall j :: 0 <= j < |r| && j != index ==> r[j] == formulas.GetOr([])[j]
  {
    formulas.GetOr([])[index := Edited(formulas.GetOr([])[index], e)]
  }

  /** Choosing the X axis sets `xAxisKey` and keeps the rest of the configuration. */
  function WithXAxis(config: ChartConfig, key: string): (r: ChartConfig)
    ensures r.xAxisKey == Some(key)
    ensures r.yAxisKeys == config.yAxisKeys && r.seriesColors == config.seriesColors
            && r.columns == config.columns
  {
    config.(xAxisKey := Some(key))
  }

  /** Choosing the Y axis makes `yAxisKeys` the one chosen key and keeps the rest. */
  function WithYAxis(config: ChartConfig, key: string): (r: ChartConfig)
    ensures r.yAxisKeys == Some([key])
    ensures r.xAxisKey == config.xAxisKey && r.seriesColors == config.seriesColors
            && r.columns == config.columns
  {
    config.(yAxisKeys := Some([key]))
  }

  /** Setting the two axes in either order gives the same configuration, and setting an axis
      again replaces the earlier choice. */
  lemma AxesIndependent(config: ChartConfig, x: string, y: string, x2: string)
    ensures WithYAxis(WithXAxis(config, x), y) == WithXAxis(WithYAxis(config, y), x)
    ensures WithXAxis(WithXAxis(config, x), x2) == WithXAxis(config, x2)
  {
  }

  function DataPatch(data: seq<Value>): Tree.Patch { Tree.NoChange.(data := Some(data)) }
  function FormulasPatch(fs: seq<Formula>): Tree.Patch { Tree.NoChange.(formulas := Some(fs)) }
  function ConfigPatch(c: ChartConfig): Tree.Patch { Tree.NoChange.(config := Some(c)) }
  function ViewTypePatch(v: ViewType): Tree.Patch { Tree.NoChange.(viewType := Some(v)) }

  /** A data-only patch applied to a data view replaces its data and nothing else. */
  lemma DataPatchReplacesData(c: Component, data: seq<Value>)
    requires c.body.DataView?
    ensures var r := Tree.Merge(c, DataPatch(data));
            r.body.DataView? && r.body.data == data
            && r == c.(body := c.body.(data := data))
  {
  }

  // ---------------------------------------------------------------------------
  // The control

  /** The editor's local state next to the store its edits go to: the JSON text shown and the
      error shown under it. */
  class DataViewControl {
    var localJson: string
    var jsonError: Option<string>
    const store: Store.BuilderStore

    /** `shown` is the data printed as JSON. */
    constructor (s: Store.BuilderStore, shown: string)
      ensures store == s && localJson == shown && jsonError.None?
    {
      store := s;
      localJson := shown;
      jsonError := None;
    }

    /** `handleJsonChange`: an array replaces the data and clears the error, and the effect
        that follows a change of the data re-prints the new data over the typed text (`show`
        is `JSON.stringify` with two-space indentation); anything else keeps the typed text
        and only sets the error. */
    method HandleJsonChange(c: Component, text: string, parsed: Option<Value>, show: seq<Value> -> string)
      requires c.body.DataView?
      modifies this, store
      ensures var d := ReadDataJson(parsed, EditNotArray, EditInvalid);
              (d.Accepted? ==>
                 store.layout == old(store.layout).(components :=
                   Tree.UpdateDeep(old(store.layout.components), c.id, DataPatch(d.data)))
                 && localJson == show(d.data) && jsonError.None?)
              && (d.Rejected? ==> store.layout == old(store.layout) && localJson == text
                                  && jsonError == Some(d.message))
      ensures store.selectedComponentIds == old(store.selectedComponentIds)
    {
      localJson := text;
      var d := ReadDataJson(parsed, EditNotArray, EditInvalid);
      if d.Accepted? {
        store.UpdateComponent(c.id, DataPatch(d.data));
        jsonError := None;
        localJson := show(d.data);
      } else {
        jsonError := Some(d.message);
      }
    }

    /** The upload's `onload`: a `.json` file is read like typed JSON (shown re-printed when it
        is accepted), a `.csv` file always replaces the data, any other file and no file do
        nothing. */
    method HandleFileUpload(c: Component, file: Option<UploadedFile>,
                            parse: string -> Option<Value>, show: seq<Value> -> string)
      requires c.body.DataView?
      modifies this, store
      ensures file.None? || !(EndsWith(file.value.name, ".json") || EndsWith(file.value.name, ".csv")) ==>
                store.layout == old(store.layout) && localJson == old(localJson)
                && jsonError == old(jsonError)
      ensures file.Some? && EndsWith(file.value.name, ".json") ==>
                var d := ReadDataJson(parse(file.value.content), FileNotArray, FileInvalid);
                (d.Accepted? ==>
                   store.layout == old(store.layout).(components :=
                     Tree.UpdateDeep(old(store.layout.components), c.id, DataPatch(d.data)))
                   && localJson == show(d.data) && jsonError.None?)
                && (d.Rejected? ==> store.layout == old(store.layout) && localJson == old(localJson)
                                    && jsonError == Some(d.message))
      ensures file.Some? && !EndsWith(file.value.name, ".json") && EndsWith(file.value.name, ".csv") ==>
                var data := CsvData(file.value.content);
                store.layout == old(store.layout).(components :=
                  Tree.UpdateDeep(old(store.layout.components), c.id, DataPatch(data)))
                && localJson == show(data) && jsonError.None?
      ensures store.selectedComponentIds == old(store.selectedComponentIds)
    {
      if file.None? {
        return;
      }
      var f := file.value;
      if EndsWith(f.name, ".json") {
        var d := ReadDataJson(parse(f.content), FileNotArray, FileInvalid);
        if d.Accepted? {
          localJson := show(d.data);
          store.UpdateComponent(c.id, DataPatch(d.data));
          jsonError := None;
        } else {
          jsonError := Some(d.message);
        }
      } else if EndsWith(f.name, ".csv") {
        var data := ParseCsv(f.content);
        localJson := show(data);
        store.UpdateComponent(c.id, DataPatch(data));
        jsonError := None;
      }
    }

    /** `handleAddFormula`, with the keys of the current data (the editor only shows for data
        whose keys can be read). */
    method HandleAddFormula(c: Component)
      requires c.body.DataView? && Statistics.KeysFromData(c.body.data).Some?
      modifies store
      ensures store.layout == old(store.layout).(components :=
                Tree.UpdateDeep(old(store.layout.components), c.id,
                  FormulasPatch(AddedFormula(c.body.formulas, Statistics.KeysFromData(c.body.data).value))))
      ensures store.selectedComponentIds == old(store.selectedComponentIds)
    {
      var keys := Statistics.KeysFromData(c.body.data).value;
      store.UpdateComponent(c.id, FormulasPatch(AddedFormula(c.body.formulas, keys)));
    }

    /** `removeFormula(index)`. */
    method RemoveFormula(c: Component, index: int)
      requires c.body.DataView?
      modifies store
      ensures store.layout == old(store.layout).(components :=
                Tree.UpdateDeep(old(store.layout.components), c.id,
                  FormulasPatch(RemovedFormula(c.body.formulas, index))))
      ensures store.selectedComponentIds == old(store.selectedComponentIds)
    {
      store.UpdateComponent(c.id, FormulasPatch(RemovedFormula(c.body.formulas, index)));
    }

    /** `updateFormula(index, field, value)` for a shown formula. */
    method UpdateFormula(c: Component, index: nat, e: FormulaEdit)
      requires c.body.DataView? && index < |c.body.formulas.GetOr([])|
      modifies store
      ensures store.layout == old(store.layout).(components :=
                Tree.UpdateDeep(old(store.layout.components), c.id,
                  FormulasPatch(UpdatedFormula(c.body.formulas, index, e))))
      ensures store.selectedComponentIds == old(store.selectedComponentIds)
    {
      store.UpdateComponent(c.id, FormulasPatch(UpdatedFormula(c.body.formulas, index, e)));
    }

    /** The four view-type buttons. */
    method SetViewType(c: Component, v: ViewType)
      requires c.body.DataView?
      modifies store
      ensures store.layout == old(store.layout).(components :=
                Tree.UpdateDeep(old(store.layout.components), c.id, ViewTypePatch(v)))
      ensures store.selectedComponentIds == old(store.selectedComponentIds)
    {
      store.UpdateComponent(c.id, ViewTypePatch(v));
    }

    /** The X-axis selector. */
    method SetXAxis(c: Component, key: string)
      requires c.body.DataView?
      modifies store
      ensures store.layout == old(store.layout).(components :=
                Tree.UpdateDeep(old(store.layout.components), c.id, ConfigPatch(WithXAxis(c.body.config, key))))
      ensures store.selectedComponentIds == old(store.selectedComponentIds)
    {
      store.UpdateComponent(c.id, ConfigPatch(WithXAxis(c.body.config, key)));
    }

    /** The Y-axis selector. */
    method SetYAxis(c: Component, key: string)
      requires c.body.DataView?
      modifies store
      ensures store.layout == old(store.layout).(components :=
                Tree.UpdateDeep(old(store.layout.components), c.id, ConfigPatch(WithYAxis(c.body.config, key))))
      ensures store.selectedComponentIds == old(store.selectedComponentIds)
    {
      store.UpdateComponent(c.id, ConfigPatch(WithYAxis(c.body.config, key)));
    }
  }
}
