# Report builder core in Dafny

This project models the core of a low-code report builder: a drag-and-drop editor in which a
report is a tree of components (headings, text, metric cards, images, dividers, spacers,
alerts, data views and the three containers `row`, `column` and `container-flex`, the only
kinds that own an ordered `children` list). The model covers:

- the builder store, which holds the document as a flat list of root components together
  with the list of selected ids;
- the copy-on-write tree edits behind the store: add under a parent, deep update and deep
  remove;
- the drop decision taken when a drag ends, and the default component a toolbox item creates;
- the properties panel: its tree lookup, what it shows for a selection, and its delete and
  style handlers;
- the Word export (the paragraphs written) and import (the components built from the
  converted HTML);
- the data-view editor (JSON and CSV data, formulas, chart axes) and the statistics shown
  under a data view;
- the rules the PDF export applies before drawing: dimension sanitising, style filtering,
  image sources, alert palettes, divider, spacer, table, bar-chart and page fallbacks;
- marquee selection on the canvas;
- the header bar: export file names, the import acceptance rule, publishing and the feedback
  dialog.

Modules follow the program's files:

| module | file |
|---|---|
| `Schema` | the document schema |
| `Tree` | the recursive store helpers and the panel's pre-order search |
| `Store` | the store and its actions |
| `Placement` | `handleDragEnd` |
| `Panel` | the properties panel |
| `Docx` | Word export and import |
| `DataViewEditor` | the data-view editor |
| `Statistics` | the statistics helpers |
| `Pdf` | the PDF renderer's rules |
| `Canvas` | marquee selection |
| `Header` | the header bar |

`Strings` and `JsValues` hold the JavaScript string and value semantics the others rely on:
`trim`, `split`, `toLowerCase`, `Number`, `parseFloat`, property reads that throw on `null`,
`Object.keys` and truthiness.

Stateful parts are classes. Each class has the source's fields, `modifies` clauses, and
contracts that tie the new state to pure functions:

- `Store.BuilderStore` holds `layout` and `selectedComponentIds`.
- `Placement.DragController` holds the drag state.
- `Canvas.MarqueeSelection` holds the marquee state.
- `DataViewEditor.DataViewControl` holds the JSON text and the error.
- `Header.HeaderControl` holds the header state and the key-value storage.

The properties of those pure functions are proved as lemmas.

Random ids, image fetching, the HTML parser, `JSON.parse`/`JSON.stringify`, pointer
positions and element boxes are parameters.

## Model

| member | source | states |
|---|---|---|
| Schema.ParseType | src/types/schema.ts:2-13 | a tag string is read back only to the type whose tag it is |
| Schema.TypeTagsExact | src/types/schema.ts:2-13 | there are exactly eleven component types; every tag parses back to its type, and a string parses exactly when it is one of the eleven tags |
| Schema.TagParses | src/types/schema.ts:2-13 | tag then parse is the identity on component types |
| Schema.KindOf | src/types/schema.ts:72-130 | a body owns `children` exactly when its kind is row, column or container-flex; every other kind is a leaf |
| Schema.FieldKeys | src/components/properties/DataViewControl.tsx:68-73 | an object's keys are its own properties in insertion order, one per field |
| Schema.FieldValue | src/utils/data-processing.ts:5 | reading a key the object does not have gives `undefined` |
| Schema.SetField | src/components/properties/DataViewControl.tsx:71 | `obj[h] = v` keeps an existing key in its place or appends a new one; the key then reads `v`, and every other key reads as before |
| JsValues.Property | src/utils/data-processing.ts:5 | `item[key]` throws exactly on `null`/`undefined`; on an object it reads the own property or `undefined` |
| JsValues.KeysOf | src/utils/data-processing.ts:31 | `Object.keys` throws exactly where a property read throws; on an object it gives the field keys in order |
| Strings.TrimStart | src/components/properties/DataViewControl.tsx:65 | the result is a suffix of the input, only white space was cut, and it does not start with white space |
| Strings.TrimEnd | src/components/properties/DataViewControl.tsx:65 | the result is a prefix of the input, only white space was cut, and it does not end with white space |
| Strings.TrimEnds | src/components/properties/DataViewControl.tsx:65 | a trimmed string is empty or starts and ends with a non-space |
| Strings.BlankIffAllSpace | src/components/properties/DataViewControl.tsx:66 | `l.trim()` is falsy exactly when every character is white space |
| Strings.Split | src/components/properties/DataViewControl.tsx:64 | `split` on one character gives at least one piece, and no piece holds the separator |
| Strings.JoinSplit | src/components/properties/DataViewControl.tsx:64 | joining the pieces of a split gives the text back |
| Strings.SplitJoin | src/components/properties/DataViewControl.tsx:64 | splitting a join of separator-free pieces gives the pieces back |
| Strings.SplitAfterPiece | src/components/properties/DataViewControl.tsx:67 | a separator-free piece followed by the separator splits off as the first piece |
| Strings.Lower | src/components/layout/Header.tsx:46 | lower-casing keeps the length, and each character is its lower-case form: A-Z become a-z, every other character stays |
| Strings.Upper | src/lib/pdf-generator.tsx:198 | upper-casing keeps the length, and each character is its upper-case form: a-z become A-Z, every other character stays |
| Strings.NatToString | src/lib/pdf-generator.tsx:356 | `String(n)` is a non-empty digit string without a leading zero whose value is `n` |
| Strings.LeadingDigits | src/lib/pdf-generator.tsx:21 | the longest digit prefix: a prefix of digits followed by a non-digit or the end |
| Strings.ParseFloatReadsNumberPrefix | src/lib/pdf-generator.tsx:21 | `parseFloat` reads a printed number back even when a unit follows it |
| Strings.NumberOfPrinted | src/components/properties/DataViewControl.tsx:71 | `Number` reads a printed number back |
| Tree.Find | src/components/layout/PropertiesPanel.tsx:23-33 | the search finds a node exactly when the id occurs at any depth, and the node found carries that id |
| Tree.FindIsFirstInPreorder | src/components/layout/PropertiesPanel.tsx:23-33 | the tree search returns the same node as a linear scan of the depth-first pre-order (a node before its children, earlier siblings first) |
| Tree.FindWithin | src/components/layout/MainLayout.tsx:147-156 | the subtree of a found node lies inside the forest |
| Tree.Strip | src/components/layout/PropertiesPanel.tsx:27 | a node's own fields keep its id and kind, with children cut off |
| Tree.Merge | src/store/useBuilderStore.ts:50 | the shallow merge keeps the id, the kind and the children, and `styles` comes from the patch when the patch carries it |
| Tree.MergeLaws | src/store/useBuilderStore.ts:50 | an empty patch changes nothing, the same patch twice is the patch once, and two patches compose field by field with the later one winning |
| Tree.AddToParent | src/store/useBuilderStore.ts:25-44 | adding under a parent keeps the number of roots |
| Tree.AddKeepsOrder | src/store/useBuilderStore.ts:25-44 | adding under a parent leaves every node that was there with its own fields and in the same relative pre-order: the old pre-order is a subsequence of the new one |
| Tree.AddNodeKeepsOrder | src/store/useBuilderStore.ts:30-41 | the same for one subtree: the node, and every descendant, keep their fields and order whether or not the parent is found inside it |
| Tree.FlatSnoc | src/store/useBuilderStore.ts:32-35 | appending a child at the end of a container's children appends that child's subtree at the end of their pre-order |
| Tree.AbsentIdNoOp | src/store/useBuilderStore.ts:25-73 | an id that occurs nowhere leaves the forest unchanged under add, update and remove |
| Tree.FindAfterAdd | src/store/useBuilderStore.ts:25-44 | afterwards the parent is the node found before, with the new node as its last child when it is a container |
| Tree.AddUnderLeafNoOp | src/store/useBuilderStore.ts:27-35 | with unique ids, a parent that is a leaf or is missing leaves the forest unchanged |
| Tree.AddIds | src/store/useBuilderStore.ts:25-44 | with unique ids, adding under an existing container adds exactly the new subtree's ids, and otherwise no id changes |
| Tree.AppendIds | src/store/useBuilderStore.ts:100 | appending a root adds exactly its subtree's ids |
| Tree.UpdateDeep | src/store/useBuilderStore.ts:47-60 | a deep update keeps the number of roots |
| Tree.UpdateFlat | src/store/useBuilderStore.ts:47-60 | with unique ids, the pre-order after the update is the pre-order before it with only the entry named `id` merged: every other node is unchanged and the order is kept |
| Tree.MergeAtUnmoved | src/store/useBuilderStore.ts:47-60 | an update naming an id that is absent leaves every node as it is |
| Tree.FindAfterUpdate | src/store/useBuilderStore.ts:139-145 | after an update, looking the id up gives the node found before, merged with the patch |
| Tree.RemoveDeep | src/store/useBuilderStore.ts:63-73 | removal never grows the root list, and no remaining root carries the id |
| Tree.RemoveLeavesNone | src/store/useBuilderStore.ts:63-73 | no node with the id survives at any depth, and no id appears that was not there |
| Tree.RemoveExact | src/store/useBuilderStore.ts:63-73 | with unique ids, the removed ids are exactly those of the removed node's subtree |
| Tree.RemoveKeepsOrder | src/store/useBuilderStore.ts:63-73 | the surviving nodes keep their fields and their relative pre-order |
| Store.FindIndex | src/store/useBuilderStore.ts:170-171 | `findIndex` is the first root position with the id, or -1 exactly when no root has it |
| Store.InsertIndex | src/store/useBuilderStore.ts:109-113 | the insert position never lies past the end |
| Store.ArrayMove | src/store/useBuilderStore.ts:175 | moving an element keeps the length |
| Store.FilterOut | src/store/useBuilderStore.ts:136 | the filter keeps exactly the other ids, in their order and with their multiplicity: a subsequence whose multiset is the input's with `id` removed |
| Store.Toggle | src/store/useBuilderStore.ts:151-158 | a selected id is filtered out (every copy of it, the rest kept in order); an unselected id is appended at the end; no other id's membership changes |
| Store.SelectionFor | src/store/useBuilderStore.ts:147 | selecting `null` or `""` empties the selection, and any other id becomes the whole selection |
| Store.FilterOutAppendAbsent | src/store/useBuilderStore.ts:136 | filtering out an id just appended gives the list back |
| Store.ToggleTwice | src/store/useBuilderStore.ts:151-158 | toggling an unselected id twice gives the same selection back |
| Store.InsertAtPlacement | src/store/useBuilderStore.ts:104-128 | the new root lands at the given index when that index is in range, and at the end otherwise; it carries its position as `order`; orders are dense; the other roots keep their relative order and all their other fields |
| Store.ArrayMoveShape | src/store/useBuilderStore.ts:175 | the moved element ends at the target index, and the result is a permutation |
| Store.EraseArrayMove | src/store/useBuilderStore.ts:175-177 | renumbering does not interfere with the move: apart from `order`, the result is the moved list |
| Store.ReorderSpec | src/store/useBuilderStore.ts:168-185 | an id that is not a root changes nothing; otherwise `activeId` lands at `overId`'s former index, orders are dense, and the roots are a permutation of the old ones apart from `order` |
| Store.BuilderStore.constructor | src/store/useBuilderStore.ts:78-87 | a new store holds the untitled A4 document with no components and an empty selection |
| Store.BuilderStore.ReplaceLayout | src/store/useBuilderStore.ts:89 | the document is replaced and the selection is kept |
| Store.BuilderStore.UpdateReportTitle | src/store/useBuilderStore.ts:91-94 | only the title changes |
| Store.BuilderStore.AddComponent | src/store/useBuilderStore.ts:96-102 | the component is appended; the existing roots, their `order` included, are untouched |
| Store.BuilderStore.InsertComponentAt | src/store/useBuilderStore.ts:104-128 | the roots become the insertion described by `InsertAtPlacement`; orders are dense; the selection is kept |
| Store.BuilderStore.RemoveComponent | src/store/useBuilderStore.ts:130-137 | the node and its subtree are gone at any depth, and the id is no longer selected |
| Store.BuilderStore.UpdateComponent | src/store/useBuilderStore.ts:139-145 | every node with the id is merged with the update; looking the id up afterwards gives the merged node |
| Store.BuilderStore.SelectComponent | src/store/useBuilderStore.ts:147 | the selection becomes `[id]`, or empty for `null`/`""`; the document is kept |
| Store.BuilderStore.SelectComponents | src/store/useBuilderStore.ts:149 | the selection becomes the given ids; the document is kept |
| Store.BuilderStore.ToggleSelection | src/store/useBuilderStore.ts:151-158 | the selection is toggled; the document is kept |
| Store.BuilderStore.AddComponentToParent | src/store/useBuilderStore.ts:160-166 | the node is added under the parent; the parent found afterwards has it as its last child |
| Store.BuilderStore.ReorderComponents | src/store/useBuilderStore.ts:168-185 | the roots become the reordering described by `ReorderSpec`; the selection is kept |
| Placement.NewComponent | src/components/layout/MainLayout.tsx:76-134 | the id is `<type>-<suffix>`; `order` is the root count; the kind is the item's; the flex presets get row or column direction with gap 10; containers start empty; the node is alone in its subtree |
| Placement.DecisionTable | src/components/layout/MainLayout.tsx:55-185 | with no target there is no action; a component dropped on the delete zone is removed; a component dropped elsewhere is reordered, or left alone when dropped on itself; a toolbox item goes under a container found anywhere, at the index of a root non-container, or at the end |
| Placement.InsertAtIds | src/components/layout/MainLayout.tsx:171-175 | inserting a root adds its id and keeps every other id |
| Placement.PaletteDropAddsOne | src/components/layout/MainLayout.tsx:137-180 | with unique ids, a toolbox drop anywhere adds exactly the new component's id to the tree |
| Placement.DragController.constructor | src/components/layout/MainLayout.tsx:25-26 | no toolbox item is active and no component is being dragged |
| Placement.DragController.HandleDragStart | src/components/layout/MainLayout.tsx:42-53 | a toolbox drag records the item; a component drag shows the delete zone |
| Placement.DragController.HandleDragEnd | src/components/layout/MainLayout.tsx:55-185 | the drag state is cleared, and the document and selection become those of the one decided action |
| Placement.DragController.Perform | src/components/layout/MainLayout.tsx:63-184 | each decided action has the effect of its store call on document and selection |
| Panel.FindInPages | src/components/layout/PropertiesPanel.tsx:36-43 | a hit exactly when some page holds the id; the node carries that id |
| Panel.FindInPagesFirstHit | src/components/layout/PropertiesPanel.tsx:38-41 | pages are searched in order, and the first page holding the id answers |
| Panel.FindComponentGlobalAsWritten | src/components/layout/PropertiesPanel.tsx:36-43 | as written, a document without `pages` finds nothing |
| Panel.FindComponentGlobal | src/components/layout/PropertiesPanel.tsx:36-43 | the corrected lookup answers only with a node carrying the id |
| Panel.PanelDispatch | src/components/layout/PropertiesPanel.tsx:46-101 | no selection gives the prompt; several ids give the bulk panel with their count; one id on the canvas gives the editor of its first pre-order match; an empty or missing id gives "not found" |
| Panel.SingleSelectionNotFoundAsWritten | src/components/layout/PropertiesPanel.tsx:37 | as written, any single selection in a document without `pages` gives "not found" |
| Panel.SelectedHeadingNotFoundAsWritten | src/components/layout/PropertiesPanel.tsx:95-101 | a heading on a fresh document is found by the tree search and shown by the corrected panel, but reported "not found" as written |
| Panel.Sections | src/components/layout/PropertiesPanel.tsx:310-324 | the panel shows layout, then spacing, then typography exactly for heading, text and metric card, then appearance last: four sections with typography third when it appears, three otherwise |
| Panel.MultiDeleteAsWritten | src/components/layout/PropertiesPanel.tsx:81-84 | as written, against the store's own actions, the bulk delete throws and leaves the document and the selection as they were |
| Panel.MultiDeleteKeepsEverythingAsWritten | src/components/layout/PropertiesPanel.tsx:81-84 | any selected component survives the bulk delete as written, while a store that defined `removeComponents` would remove it at any depth |
| Panel.MultiDeleteWith | src/components/layout/PropertiesPanel.tsx:81-84 | the bulk delete throws exactly when the store lacks `removeComponents`, and then changes nothing; otherwise every selected id is removed and the selection is cleared |
| Panel.RemoveComponentsUndefined | src/store/useBuilderStore.ts:6-22 | the store's actions include `removeComponent` but not `removeComponents` |
| Panel.RemoveAllShrinks | src/components/layout/PropertiesPanel.tsx:81-84 | removing a list of ids never brings an id in |
| Panel.RemoveAllRemoves | src/components/layout/PropertiesPanel.tsx:81-84 | every id in the list is gone afterwards, at any depth |
| Panel.RemoveAllSnoc | src/components/layout/PropertiesPanel.tsx:81-84 | removing a list of ids then one more is removing the longer list |
| Panel.DeleteSelected | src/components/layout/PropertiesPanel.tsx:81-84 | corrected bulk delete: every selected id is gone at any depth, and the selection is empty |
| Panel.HandleDelete | src/components/layout/PropertiesPanel.tsx:103-106 | the component and its subtree are gone, and the selection is empty |
| Panel.HandleStyleChange | src/components/layout/PropertiesPanel.tsx:52-56 | the selected node's whole `styles` record is replaced and nothing else changes; with nothing selected the document is kept |
| Docx.Paragraphs | src/lib/docx-utils.ts:51-128 | component paragraphs are only body headings, text or images |
| Docx.ParagraphsAppend | src/lib/docx-utils.ts:54 | the paragraphs of consecutive lists are concatenated in order |
| Docx.ParagraphsAtMostNodes | src/lib/docx-utils.ts:54-127 | at most one paragraph is written per node of the tree |
| Docx.SkippedNodes | src/lib/docx-utils.ts:77-125 | an image without a source or whose fetch fails, and a flex container, contribute nothing |
| Docx.NoHeadingInBody | src/lib/docx-utils.ts:25-35 | after a page heading, a page's own paragraphs hold no page heading |
| Docx.PageBreaks | src/lib/docx-utils.ts:23-31 | the first page heading carries no page break, and every later one carries one |
| Docx.OneHeadingPerPage | src/lib/docx-utils.ts:23-31 | there is exactly one page heading per page |
| Docx.ProcessComponents | src/lib/docx-utils.ts:51-128 | the loop pushes exactly the list's paragraphs after the existing ones |
| Docx.ProcessComponent | src/lib/docx-utils.ts:55-126 | one node pushes exactly its own paragraphs |
| Docx.ExportDocx | src/lib/docx-utils.ts:9-36 | the paragraphs are the title (`'Rapor'` when empty) followed by each page's heading and body; a document without `pages` throws |
| Docx.ElementRules | src/lib/docx-utils.ts:167-216 | H1-H6 become headings with the text; a P with an image becomes an image with alt defaulting to "Imported Image"; a P becomes text unless it is blank; a TABLE becomes prefixed text unless it is blank; an IMG always becomes an image with its own source and the defaulted alt; other tags give nothing |
| Docx.Parsed | src/lib/docx-utils.ts:160-220 | at most one component per element; each takes the next fresh id and empty styles, and is a heading, text or image |
| Docx.ParsedPrefix | src/lib/docx-utils.ts:167-217 | element order is kept: the components of a prefix are a prefix of the components |
| Docx.ParseHtml | src/lib/docx-utils.ts:160-220 | the loop builds exactly the specified component list |
| Statistics.NumericValues | src/utils/data-processing.ts:5 | the map throws exactly when some row is `null`/`undefined`; otherwise the values are exactly the rows' numeric readings, none invented |
| Statistics.NumericValuesSnoc | src/utils/data-processing.ts:5 | appending a row: a row that cannot be read makes the read throw; otherwise its number, when it has one, comes after the numbers of the rows before it, in order |
| Statistics.MinOf | src/utils/data-processing.ts:16 | the minimum is a member no greater than any member |
| Statistics.MaxOf | src/utils/data-processing.ts:18 | the maximum is a member no smaller than any member |
| Statistics.SumAtLeast | src/utils/data-processing.ts:8 | a lower bound on every value bounds the sum by n times it |
| Statistics.SumAtMost | src/utils/data-processing.ts:8 | an upper bound on every value bounds the sum by n times it |
| Statistics.SumBetween | src/utils/data-processing.ts:8-18 | the sum lies between n times the minimum and n times the maximum |
| Statistics.SquaredDistances | src/utils/data-processing.ts:20-22 | a sum of squared distances from any point is never negative |
| Statistics.VarianceNonNegative | src/utils/data-processing.ts:19-23 | the variance numerator is never negative |
| Statistics.StatRules | src/utils/data-processing.ts:10-26 | `sum` is the total; `min`/`max` are members bounding every value; `average` lies between them; `variance` is non-negative; an unknown type gives 0 |
| Statistics.StatsEdgeCases | src/utils/data-processing.ts:2-6 | no rows or no numeric value gives 0; a `null`/`undefined` row throws; otherwise the statistic of the numeric values |
| Statistics.KeysFromFirstRecord | src/utils/data-processing.ts:29-32 | no data gives no keys; otherwise the keys depend on the first record only and are its keys |
| DataViewEditor.ReadDataJson | src/components/properties/DataViewControl.tsx:25-39 | accepted exactly when the text parses to an array, which becomes the data; otherwise the not-array or the invalid-JSON message |
| DataViewEditor.Cell | src/components/properties/DataViewControl.tsx:70-71 | a missing cell stays `undefined`; a cell that reads as a number becomes that number; any other cell becomes its trimmed text |
| DataViewEditor.RecordKeys | src/components/properties/DataViewControl.tsx:68-73 | a record has exactly the header keys |
| DataViewEditor.RecordValue | src/components/properties/DataViewControl.tsx:69-72 | each header holds the cell of the last column under it |
| DataViewEditor.RecordKeyOrder | src/components/properties/DataViewControl.tsx:68-73 | with distinct headers the keys come in header order |
| DataViewEditor.BuildRecord | src/components/properties/DataViewControl.tsx:67-73 | the `forEach` builds exactly the record of the split line |
| DataViewEditor.NonBlank | src/components/properties/DataViewControl.tsx:66 | the filter keeps exactly the non-blank lines |
| DataViewEditor.NonBlankSnoc | src/components/properties/DataViewControl.tsx:66 | appending a line appends it to the kept lines exactly when it is not blank, so the kept lines stay in order |
| DataViewEditor.NonBlankPrefix | src/components/properties/DataViewControl.tsx:66 | the kept lines of a prefix one line longer gain that line exactly when it is not blank |
| DataViewEditor.Headers | src/components/properties/DataViewControl.tsx:65 | there is always at least one header |
| DataViewEditor.Records | src/components/properties/DataViewControl.tsx:66-74 | one record per row |
| DataViewEditor.CsvData | src/components/properties/DataViewControl.tsx:64-74 | one record per non-blank line after the first |
| DataViewEditor.ParseCsv | src/components/properties/DataViewControl.tsx:62-74 | the CSV branch builds exactly the specified records |
| DataViewEditor.CsvShape | src/components/properties/DataViewControl.tsx:64-74 | every record is an object whose keys are exactly the trimmed headers |
| DataViewEditor.AddedFormula | src/components/properties/DataViewControl.tsx:83-88 | an average labelled "Average" over the first data key (or "") is appended, and a missing list counts as empty |
| DataViewEditor.RemovedFormula | src/components/properties/DataViewControl.tsx:90-94 | an index in range drops exactly that entry and keeps the others in order; an index past the end changes nothing; a negative index drops one entry |
| DataViewEditor.AddThenRemove | src/components/properties/DataViewControl.tsx:83-94 | removing the formula just added gives the list back |
| DataViewEditor.Edited | src/components/properties/DataViewControl.tsx:98 | the named field is set and the other two are kept |
| DataViewEditor.UpdatedFormula | src/components/properties/DataViewControl.tsx:96-100 | only entry `index` changes, and only in the named field |
| DataViewEditor.WithXAxis | src/components/properties/DataViewControl.tsx:156 | `xAxisKey` is set and the rest of the configuration is kept |
| DataViewEditor.WithYAxis | src/components/properties/DataViewControl.tsx:172 | `yAxisKeys` becomes the one chosen key and the rest is kept |
| DataViewEditor.AxesIndependent | src/components/properties/DataViewControl.tsx:156-172 | the two axes can be set in either order, and the last X axis set wins |
| DataViewEditor.DataPatchReplacesData | src/components/properties/DataViewControl.tsx:31 | a data update replaces a data view's data and nothing else |
| DataViewEditor.DataViewControl.constructor | src/components/properties/DataViewControl.tsx:15-16 | the text shows the data and there is no error |
| DataViewEditor.DataViewControl.HandleJsonChange | src/components/properties/DataViewControl.tsx:21-39 | an array replaces the data, clears the error, and the data-change effect shows it re-printed; anything else keeps the typed text, sets the error and leaves the document alone |
| DataViewEditor.DataViewControl.HandleFileUpload | src/components/properties/DataViewControl.tsx:41-81 | no file or another extension does nothing; a `.json` file follows the JSON rule and shows the data re-printed; a `.csv` file replaces the data with its records |
| DataViewEditor.DataViewControl.HandleAddFormula | src/components/properties/DataViewControl.tsx:83-88 | the data view's formulas become the list with the new average appended |
| DataViewEditor.DataViewControl.RemoveFormula | src/components/properties/DataViewControl.tsx:90-94 | the data view's formulas become the spliced list |
| DataViewEditor.DataViewControl.UpdateFormula | src/components/properties/DataViewControl.tsx:96-100 | the data view's formulas become the list with one field of one entry set |
| DataViewEditor.DataViewControl.SetViewType | src/components/properties/DataViewControl.tsx:132-143 | the data view's view type is set |
| DataViewEditor.DataViewControl.SetXAxis | src/components/properties/DataViewControl.tsx:156 | the data view's configuration gets the X axis |
| DataViewEditor.DataViewControl.SetYAxis | src/components/properties/DataViewControl.tsx:172 | the data view's configuration gets the one Y axis |
| Canvas.SelectionRect | src/components/layout/Canvas.tsx:52-55 | the box runs from the smaller to the larger coordinate on each axis, so it is never negative |
| Canvas.SelectionRectSymmetric | src/components/layout/Canvas.tsx:52-55 | the box does not depend on which corner the drag started from |
| Canvas.IntersectsIsOverlap | src/components/layout/Canvas.tsx:70-73 | the hit test is closed-interval overlap on both axes; it is symmetric, and touching edges count |
| Canvas.ClickHitsContainingBoxes | src/components/layout/Canvas.tsx:70-73 | a point-sized box hits exactly the boxes containing the point |
| Canvas.HitIds | src/components/layout/Canvas.tsx:67-79 | the ids collected are exactly the non-empty ids of hit elements |
| Canvas.CollectHits | src/components/layout/Canvas.tsx:67-79 | the `forEach` collects exactly those ids in document order |
| Canvas.MarqueeSelection.constructor | src/components/layout/Canvas.tsx:17-19 | not selecting, both corners at the origin |
| Canvas.MarqueeSelection.HandlePointerDown | src/components/layout/Canvas.tsx:21-40 | a press on another target is ignored; a press on the background starts a selection at the point and clears the selection |
| Canvas.MarqueeSelection.HandlePointerMove | src/components/layout/Canvas.tsx:42-45 | the moving corner follows the pointer only while selecting |
| Canvas.MarqueeSelection.HandlePointerUp | src/components/layout/Canvas.tsx:47-84 | outside a selection nothing happens; otherwise selecting ends, and the hit ids replace the selection when there is at least one |
| Pdf.SanitizeDimensionAsWritten | src/lib/pdf-generator.tsx:17-26 | as written, a number passes unchanged and a missing value gives `undefined` |
| Pdf.SanitizeDimension | src/lib/pdf-generator.tsx:17-26 | corrected: a number passes unchanged, a missing value gives `undefined`, and a string is kept only when it is a whole number |
| Pdf.TrimOfUnitString | src/lib/pdf-generator.tsx:21 | digits followed by a unit are left alone by `trim` |
| Pdf.PercentReadAsPointsAsWritten | src/lib/pdf-generator.tsx:21-22 | as written, `"<n>%"` reaches the layout engine as `n` |
| Pdf.UnitStringNotANumber | src/lib/pdf-generator.tsx:24 | digits followed by a unit are not blank and are not a number |
| Pdf.UnitStringsDropped | src/lib/pdf-generator.tsx:24-25 | corrected: a number followed by a unit gives `undefined` |
| Pdf.PlainNumbersKept | src/lib/pdf-generator.tsx:21-22 | corrected: a printed number is read back |
| Pdf.PlainNumbersKeptAsWritten | src/lib/pdf-generator.tsx:21-22 | as written, a printed number is read back, agreeing with the corrected reading |
| Pdf.SanitizedStyles | src/lib/pdf-generator.tsx:72-104 | the filtered style map has exactly the copied keys the component sets, plus width and height when `parseFloat` reads a number from them, and copied values are unchanged |
| Pdf.SanitizedDimensions | src/lib/pdf-generator.tsx:97-98 | width and height are passed on as the numbers `parseFloat` reads from them |
| Pdf.PercentWidthPassedAsWritten | src/lib/pdf-generator.tsx:97-104 | a width of `"<n>%"` stays in the filtered map as `n` points |
| Pdf.ReadingsDiffer | src/lib/pdf-generator.tsx:17-26 | a number followed by a unit is that number as written and `undefined` as intended; on numbers and missing values the two readings agree |
| Pdf.StylesNeverInvented | src/lib/pdf-generator.tsx:102-104 | a style the component does not set never appears |
| Pdf.NonNumericDropped | src/lib/pdf-generator.tsx:17-26 | a text whose first non-blank character is not a digit, a sign or a decimal point (`"auto"`) is `undefined` under both readings |
| Pdf.NonNumericWidthDropped | src/lib/pdf-generator.tsx:97-104 | such a width never reaches the filtered map |
| Pdf.RenderImage | src/lib/pdf-generator.tsx:205-249 | an image is drawn exactly when its source starts with `http://`, `https://` or `data:`, and from that source; otherwise the "not available" box is drawn, never nothing |
| Pdf.FirstCharDiffers | src/lib/pdf-generator.tsx:210-214 | a different first character rules out a prefix |
| Pdf.BlobImagesAreBoxed | src/lib/pdf-generator.tsx:209-233 | blob URLs always give the box |
| Pdf.EffectiveVariant | src/lib/pdf-generator.tsx:168 | the variant drawn is never empty, and is the given one when present |
| Pdf.PaletteRules | src/lib/pdf-generator.tsx:168-185 | success, warning and error each get their own background, border and text colour; any other or missing variant gets the info colours |
| Pdf.AlertTitle | src/lib/pdf-generator.tsx:198 | the heading is never empty: the title when present, the variant in capitals otherwise |
| Pdf.RenderDivider | src/lib/pdf-generator.tsx:250-261 | the thickness is never 0 and is the given one when non-zero; colour and line style are the styled ones when truthy and their defaults otherwise, so never falsy; the margins are the styled ones, 0 included, or 10 when missing |
| Pdf.SpacerHeight | src/lib/pdf-generator.tsx:263 | a styled height that `parseFloat` reads overrides the spacer's own height, which is kept otherwise |
| Pdf.TableColumns | src/lib/pdf-generator.tsx:269 | configured columns win; otherwise one column per key of a first object row, or none for no rows or a falsy first row |
| Pdf.BarValues | src/lib/pdf-generator.tsx:298 | one bar value per row |
| Pdf.BarChartOf | src/lib/pdf-generator.tsx:294-308 | no rows draws nothing; a `null`/`undefined` row throws; otherwise one bar per row, with a positive divisor bounding every value that is 1 or the largest value; the title falls back to "Bar Chart" |
| Pdf.RenderDataView | src/lib/pdf-generator.tsx:266-329 | a table throws exactly when it has columns and some row is `null`/`undefined`, and otherwise has the computed columns and one row per record; bar charts are drawn as such; line and pie give the "not fully implemented" notice |
| Pdf.EmptyPageLabel | src/lib/pdf-generator.tsx:354-358 | the placeholder names the page, or numbers it from 1 when it has no name |
| Pdf.PdfPages | src/lib/pdf-generator.tsx:335-363 | no `pages` gives no PDF page; otherwise one page per document page with the document margins, with a placeholder exactly when the page is empty |
| Header.ReplaceRuns | src/components/layout/Header.tsx:46 | replacing white-space runs leaves no white space and never lengthens the text |
| Header.ReplaceRunsNoUpper | src/components/layout/Header.tsx:46 | replacing runs brings in no capital letter |
| Header.ReplaceRunsFixed | src/components/layout/Header.tsx:46 | a text without white space is left as it is |
| Header.LeadingRun | src/components/layout/Header.tsx:46 | a leading run becomes one underscore and the rest is rewritten on its own |
| Header.RunBecomesOneUnderscore | src/components/layout/Header.tsx:46 | a space-free word followed by a run is kept, with the run as one underscore, and the rest is rewritten on its own |
| Header.Interleave | src/components/layout/Header.tsx:46 | words interleaved with runs start with the first word |
| Header.RunsBecomeUnderscores | src/components/layout/Header.tsx:46 | space-free words separated by any number of white-space runs come out joined by single underscores |
| Header.SlugStem | src/components/layout/Header.tsx:46 | the file-name stem holds no white space and no upper-case letter, is no longer than the title, and a title without white space is only lower-cased |
| Header.LowerFixed | src/components/layout/Header.tsx:46 | lower-casing a text without capitals changes nothing |
| Header.SlugStemIdempotent | src/components/layout/Header.tsx:46 | applying the slug rule to a stem gives the stem back |
| Header.PdfFileName | src/components/layout/Header.tsx:46 | the PDF file name is the title's stem followed by `.pdf`, with no upper-case letter and no white space |
| Header.JsonFileName | src/components/layout/Header.tsx:66 | the JSON file name is the title's stem followed by `.json`, with no upper-case letter and no white space |
| Header.ExportNamesShareStem | src/components/layout/Header.tsx:46-66 | the two exports share their stem and never collide |
| Header.ImportDecision | src/components/layout/Header.tsx:79-88 | an unparseable file fails; a value is imported exactly when it and its `components` are truthy, and it is imported as parsed |
| Header.ImportShapes | src/components/layout/Header.tsx:79-88 | an object without a `components` key or with a falsy one is refused, any list is refused, and an object whose `components` is a list, even an empty one, is taken |
| Header.PublishKey | src/components/layout/Header.tsx:98 | the key is `report_` followed by the route |
| Header.PublishKeyInjective | src/components/layout/Header.tsx:98 | different routes get different keys |
| Header.PublishTouchesOneKey | src/components/layout/Header.tsx:99 | publishing leaves every other route's stored report alone |
| Header.HeaderControl.constructor | src/components/layout/Header.tsx:24-29 | not generating, the dialog closed, no route and the feedback closed |
| Header.HeaderControl.ShowFeedback | src/components/layout/Header.tsx:31-33 | the dialog opens with the given content, and nothing else changes |
| Header.HeaderControl.SetFeedbackOpen | src/components/layout/Header.tsx:190 | opening or closing keeps the dialog's content |
| Header.HeaderControl.HandleTitleEdit | src/components/layout/Header.tsx:125 | editing the title renames the report |
| Header.HeaderControl.HandleDownload | src/components/layout/Header.tsx:35-58 | generation ends either way; success offers the pages under the PDF file name and reports success, and failure reports the error |
| Header.HeaderControl.HandleExportJSON | src/components/layout/Header.tsx:60-70 | the export is named after the title's stem, and nothing in the editor changes |
| Header.HeaderControl.HandleImportJSON | src/components/layout/Header.tsx:72-93 | no file does nothing; an accepted document replaces the current one and reports success; a refused or unparseable file reports its error and keeps the document |
| Header.HeaderControl.SetPublishPath | src/components/layout/Header.tsx:169 | only the route changes |
| Header.HeaderControl.HandlePublish | src/components/layout/Header.tsx:95-109 | an empty route does nothing; otherwise the document is stored under the route's key, the dialog closes, and success names the route |

## Left out

- Rendering: the JSX of the editor, of the canvas renderers, of the toolbox and of the PDF
  and Word documents is left out. Their only logic, the rules above, is modelled.
- Style controls (spacing, typography, appearance, layout, colour input): each is a
  one-key override of the `styles` record. That override reaches the store through the
  panel's whole-`styles` update (`Panel.HandleStyleChange`).
- Browser and network I/O is left out: `fetch`, `localStorage`, `FileReader`, Blob
  downloads, the authentication and Supabase code. An image fetch is a function from source
  to optional bytes. The key-value storage is a `map` field. The read file's text, its
  parse and the serialised document are parameters (`parsed`, `asLayout`, `serialized`,
  `show`). `rendered` says whether PDF rendering succeeded.
- Randomness: the random suffix of a new component's id and the import's fresh ids are
  parameters (`suffix`, `uuid`).
- Floating point:
  - numbers are integers;
  - `Number` and `parseFloat` are restricted to integer literals and integer prefixes;
  - average and variance are exact quotients (`Statistics.Stat.Ratio`);
  - bar heights (a division) are not computed.
- Case mapping covers the ASCII letters only. `Object.keys` ordering of integer-like keys
  before other keys is not modelled: keys come in insertion order.
- Tree.Merge: a patch field that the node's kind does not have is dropped, whereas the
  JavaScript spread would add it to the node. The id and the kind are never changed by an
  update.
- The raster export (DOM screenshots and paging in jsPDF) and the persistence middleware
  are left out. Only `layout` is persisted, not the selection; the model has no storage for
  the store.
- The unknown-type `default` branches of the PDF renderer and of the Word export cannot
  arise, because a component's kind is one of the eleven datatype constructors.
- Docx.ProcessComponent: the `catch` branch that writes "[Görsel Yüklenemedi: …]" is left
  out. The fetch helper catches its own errors and answers `null`, so the branch is reached
  only when the `docx` constructors (`Uint8Array`, `ImageRun`, `Paragraph`,
  src/lib/docx-utils.ts:83-97) throw on the fetched bytes; the model does not represent
  those constructors.
- Pdf.PdfPages: the drawing itself (sizes, paddings, fonts) is left out. The store's
  documents have no `pages`, so their PDF has no page at all.
- Docx.ExportDocx: a document without `pages` throws (`None`). This is what the store's
  own documents are.
- DataViewEditor.DataViewControl.UpdateFormula: requires an index of the shown list. The
  editor only offers those; an index past the end would create a sparse entry.
- DataViewEditor.DataViewControl.HandleAddFormula: requires that the first data row can be
  read. The editor computes the keys while rendering, so its absence would already have
  thrown.
- Placement: a toolbox item dropped on the delete zone is appended like a drop on the
  canvas, because the delete-zone branch only applies to existing components.
- Store: the store has no multi-page operations, cross-page moves, page-capacity checks or
  legacy-shape migration, and neither has the model. `order` is re-derived only by
  insert-at and reorder.

## Findings

The PDF pipeline (`Pdf.SanitizedStyles` and the renderers built on it) follows the code as
written. The corrected sanitiser, `Pdf.SanitizeDimension`, is stated beside it, and
`Pdf.ReadingsDiffer` shows where the two readings part.

| source | as written | input that shows it | evidently intended | confidence | as-written member | corrected member |
|---|---|---|---|---|---|---|
| src/components/layout/PropertiesPanel.tsx:36-43 | the lookup searches only `layout.pages`, which the store never sets, so it finds nothing | a fresh document with one heading `heading-x1` at the root, selected | the editor of the selected heading | high, not executed | Panel.SelectedHeadingNotFoundAsWritten | Panel.PanelDispatch |
| src/components/layout/PropertiesPanel.tsx:81-84 | the bulk delete calls `removeComponents`, which the store does not define, so it throws before anything is removed or unselected | two roots `text-a` and `text-b`, both selected, then "delete all" | both removed and the selection cleared | high, not executed | Panel.MultiDeleteKeepsEverythingAsWritten | Panel.DeleteSelected |
| src/lib/pdf-generator.tsx:17-26 | `parseFloat` reads `"100%"` as 100, so a percentage reaches the layout engine as points, although the comment says such strings give `undefined` | a width of `"100%"`, which every row and column dropped from the toolbox carries (src/components/layout/MainLayout.tsx:131-132) | `undefined` (width left to the layout engine) | medium, not executed | Pdf.PercentWidthPassedAsWritten | Pdf.UnitStringsDropped |
