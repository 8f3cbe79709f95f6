/** The header bar: the file names of the PDF and JSON exports, the rule that decides whether
    an imported file replaces the document, publishing to a route, and the feedback dialog.
    Parsing, serialising, the browser's storage and downloads are parameters or left out. */
module Header {
  import opened Wrappers
  import opened Schema
  import Strings
  import JsValues
  import Store
  import Pdf

  // ---------------------------------------------------------------------------
  // File names

  /** `s.replace(/\s+/g, '_')`: each maximal run of white space becomes one underscore. */
  function ReplaceRuns(s: string): (r: string)
    ensures |r| <= |s|
    ensures forall i :: 0 <= i < |r| ==> !Strings.IsSpace(r[i])
    decreases |s|
  {
    if s == [] then []
    else if Strings.IsSpace(s[0]) then "_" + ReplaceRuns(Strings.TrimStart(s[1..]))
    else [s[0]] + ReplaceRuns(s[1..])
  }

  predicate NoUpper(s: string) {
    forall i :: 0 <= i < |s| ==> !('A' <= s[i] <= 'Z')
  }

  /** Replacing runs brings in no upper-case letter. */
  lemma {:induction false} ReplaceRunsNoUpper(s: string)
    requires NoUpper(s)
    ensures NoUpper(ReplaceRuns(s))
    decreases |s|
  {
    if s != [] {
      if Strings.IsSpace(s[0]) {
        var rest := Strings.TrimStart(s[1..]);
        assert rest == s[1..][|s[1..]| - |rest|..];
        assert NoUpper(rest);
        ReplaceRunsNoUpper(rest);
      } else {
        assert NoUpper(s[1..]);
        ReplaceRunsNoUpper(s[1..]);
      }
    }
  }

  /** A text without white space is left as it is. */
  lemma {:induction false} ReplaceRunsFixed(s: string)
    requires forall i :: 0 <= i < |s| ==> !Strings.IsSpace(s[i])
    ensures ReplaceRuns(s) == s
  {
    if s != [] {
      ReplaceRunsFixed(s[1..]);
      assert [s[0]] + s[1..] == s;
    }
  }

  /** White space followed by a text that does not start with white space trims to that text. */
  lemma {:induction false} TrimStartPastSpaces(ws: string, b: string)
    requires Strings.AllSpace(ws)
    requires b == [] || !Strings.IsSpace(b[0])
    ensures Strings.TrimStart(ws + b) == b
  {
    if ws == [] {
      assert ws + b == b;
    } else {
      assert (ws + b)[0] == ws[0];
      assert (ws + b)[1..] == ws[1..] + b;
      TrimStartPastSpaces(ws[1..], b);
    }
  }

  predicate NoSpace(s: string) {
    forall i :: 0 <= i < |s| ==> !Strings.IsSpace(s[i])
  }

  /** A leading run of white space becomes one underscore, and the rest is handled on its own. */
  lemma LeadingRun(ws: string, b: string)
    requires b == [] || !Strings.IsSpace(b[0])
    requires ws != [] && Strings.AllSpace(ws)
    ensures ReplaceRuns(ws + b) == "_" + ReplaceRuns(b)
  {
    var s := ws + b;
    assert s[0] == ws[0];
    assert s[1..] == ws[1..] + b;
    TrimStartPastSpaces(ws[1..], b);
  }

  /** A word, then a run of white space: the word is kept, the run becomes a single underscore,
      and what follows is handled on its own. */
  lemma {:induction false} RunBecomesOneUnderscore(a: string, ws: string, b: string)
    requires NoSpace(a)
    requires b == [] || !Strings.IsSpace(b[0])
    requires ws != [] && Strings.AllSpace(ws)
    ensures ReplaceRuns(a + ws + b) == a + "_" + ReplaceRuns(b)
  {
    if a == [] {
      assert a + ws + b == ws + b;
      LeadingRun(ws, b);
      assert a + "_" + ReplaceRuns(b) == "_" + ReplaceRuns(b);
    } else {
      var s := a + ws + b;
      assert s[0] == a[0] && !Strings.IsSpace(s[0]);
      assert s[1..] == a[1..] + ws + b;
      RunBecomesOneUnderscore(a[1..], ws, b);
      assert ReplaceRuns(s) == [a[0]] + ReplaceRuns(s[1..]);
      assert a + "_" + ReplaceRuns(b) == [a[0]] + (a[1..] + "_" + ReplaceRuns(b));
    }
  }

  /** Words with runs of white space between them: `words[0] + runs[0] + words[1] + ...`. */
  function Interleave(words: seq<string>, runs: seq<string>): (r: string)
    requires |words| == |runs| + 1
    ensures |words[0]| <= |r| && r[..|words[0]|] == words[0]
    decreases |runs|
  {
    if runs == [] then words[0]
    else words[0] + runs[0] + Interleave(words[1..], runs[1..])
  }

  /** The whole `/\s+/g` rule: words separated by runs of white space come out joined by single
      underscores, however many runs there are; a trailing run gives a trailing underscore. */
  lemma {:induction false} RunsBecomeUnderscores(words: seq<string>, runs: seq<string>)
    requires |words| == |runs| + 1
    requires forall i :: 0 <= i < |words| ==> NoSpace(words[i])
    requires forall i :: 0 < i < |runs| ==> words[i] != []
    requires forall i :: 0 <= i < |runs| ==> runs[i] != [] && Strings.AllSpace(runs[i])
    ensures ReplaceRuns(Interleave(words, runs)) == Strings.Join(words, '_')
    decreases |runs|
  {
    if runs == [] {
      ReplaceRunsFixed(words[0]);
    } else {
      var rest := Interleave(words[1..], runs[1..]);
      assert rest == [] || !Strings.IsSpace(rest[0]) by {
        if |runs| > 1 {
          assert words[1] != [] && rest[0] == words[1][0];
        } else {
          assert rest == words[1];
        }
      }
      RunBecomesOneUnderscore(words[0], runs[0], rest);
      RunsBecomeUnderscores(words[1..], runs[1..]);
    }
  }

  /** The stem of the export file names: the title lower-cased, white-space runs replaced.
      A title without white space is only lower-cased. */
  function SlugStem(title: string): (stem: string)
    ensures forall i :: 0 <= i < |stem| ==> !Strings.IsSpace(stem[i])
    ensures NoUpper(stem)
    ensures |stem| <= |title|
    ensures (forall i :: 0 <= i < |title| ==> !Strings.IsSpace(title[i])) ==> stem == Strings.Lower(title)
  {
    var low := Strings.Lower(title);
    ReplaceRunsNoUpper(low);
    if forall i :: 0 <= i < |title| ==> !Strings.IsSpace(title[i]) then
      ReplaceRunsFixed(low);
      ReplaceRuns(low)
    else
      ReplaceRuns(low)
  }

  /** Lower-casing a text with no upper-case letter changes nothing. */
  lemma LowerFixed(s: string)
    requires NoUpper(s)
    ensures Strings.Lower(s) == s
  {
    assert forall i :: 0 <= i < |s| ==> Strings.Lower(s)[i] == Strings.LowerChar(s[i]) == s[i];
  }

  /** Applying the slug rule to a stem gives the stem back. */
  lemma SlugStemIdempotent(title: string)
    ensures SlugStem(SlugStem(title)) == SlugStem(title)
  {
    var low := Strings.Lower(title);
    var stem := ReplaceRuns(low);
    assert NoUpper(low);
    ReplaceRunsNoUpper(low);
    LowerFixed(stem);
    ReplaceRunsFixed(stem);
  }

  /** The name the PDF download is saved under: the stem, then `.pdf`. */
  function PdfFileName(title: string): (name: string)
    ensures |name| == |SlugStem(title)| + 4
    ensures name[..|name| - 4] == SlugStem(title) && name[|name| - 4..] == ".pdf"
    ensures NoUpper(name)
    ensures forall i :: 0 <= i < |name| ==> !Strings.IsSpace(name[i])
  {
    SlugStem(title) + ".pdf"
  }

  /** The name the JSON export is saved under: the stem, then `.json`. */
  function JsonFileName(title: string): (name: string)
    ensures |name| == |SlugStem(title)| + 5
    ensures name[..|name| - 5] == SlugStem(title) && name[|name| - 5..] == ".json"
    ensures NoUpper(name)
    ensures forall i :: 0 <= i < |name| ==> !Strings.IsSpace(name[i])
  {
    SlugStem(title) + ".json"
  }

  /** The two exports of one title share their stem and differ only in the extension. */
  lemma ExportNamesShareStem(title: string)
    ensures PdfFileName(title)[..|PdfFileName(title)| - 4] == JsonFileName(title)[..|JsonFileName(title)| - 5]
    ensures PdfFileName(title) != JsonFileName(title)
  {
    var p := PdfFileName(title);
    var j := JsonFileName(title);
    assert p[..|p| - 4] == SlugStem(title);
    assert j[..|j| - 5] == SlugStem(title);
    assert |p| != |j|;
  }

  // ---------------------------------------------------------------------------
  // Importing a document

  datatype ImportOutcome = Imported(json: Value) | InvalidFormat | ParseFailed

  /** `json && json.components`: a truthy value whose `components` property is truthy is taken;
      text that does not parse (`None`) fails, anything else is an invalid format. */
  function ImportDecision(parsed: Option<Value>): (r: ImportOutcome)
    ensures r.ParseFailed? <==> parsed.None?
    ensures r.Imported? <==>
              parsed.Some? && JsValues.Truthy(parsed.value)
              && JsValues.Truthy(JsValues.Property(parsed.value, "components").value)
    ensures r.Imported? ==> parsed == Some(r.json)
  {
    if parsed.None? then ParseFailed
    else
      var json := parsed.value;
      if JsValues.Truthy(json) && JsValues.Truthy(JsValues.Property(json, "components").value)
      then Imported(json)
      else InvalidFormat
  }

  /** Which parsed values are taken: an object without a `components` key, or whose
      `components` is falsy, is refused; any list is refused, since a list has no such property;
      an object whose `components` is a list, even an empty one, is taken. */
  lemma ImportShapes(fields: seq<Field>, items: seq<Value>)
    ensures "components" !in FieldKeys(fields) ==> ImportDecision(Some(Obj(fields))) == InvalidFormat
    ensures !JsValues.Truthy(FieldValue(fields, "components")) ==>
              ImportDecision(Some(Obj(fields))) == InvalidFormat
    ensures FieldValue(fields, "components").Arr? ==> ImportDecision(Some(Obj(fields))).Imported?
    ensures ImportDecision(Some(Arr(items))) == InvalidFormat
  {
    assert JsValues.Property(Arr(items), "components") == Some(Undefined) by {
      assert JsValues.IndexOf("components").None? by {
        assert !Strings.IsDigit("components"[0]);
      }
    }
  }

  // ---------------------------------------------------------------------------
  // Publishing

  /** The storage key a report is published under. */
  function PublishKey(path: string): (key: string)
    ensures Strings.StartsWith(key, "report_") && key[7..] == path
  {
    "report_" + path
  }

  /** Different routes are stored under different keys. */
  lemma PublishKeyInjective(p: string, q: string)
    requires PublishKey(p) == PublishKey(q)
    ensures p == q
  {
    assert p == PublishKey(p)[7..];
  }

  // ---------------------------------------------------------------------------
  // The header's state

  datatype FeedbackKind = SuccessFeedback | ErrorFeedback | InfoFeedback

  /** The feedback dialog: whether it is open, its title, its message and its kind. */
  datatype Feedback = Feedback(open: bool, title: string, message: string, kind: FeedbackKind)

  const Closed := Feedback(false, "", "", InfoFeedback)

  /** The header's own state next to the store it drives and the browser's key-value storage. */
  class HeaderControl {
    var isGenerating: bool
    var publishDialogOpen: bool
    var publishPath: string
    var feedback: Feedback
    var storage: map<string, string>
    const store: Store.BuilderStore

    constructor (s: Store.BuilderStore, stored: map<string, string>)
      ensures store == s && storage == stored
      ensures !isGenerating && !publishDialogOpen && publishPath == "" && feedback == Closed
    {
      store := s;
      storage := stored;
      isGenerating := false;
      publishDialogOpen := false;
      publishPath := "";
      feedback := Closed;
    }

    /** `showFeedback(title, message, kind)`: opens the dialog with that content. */
    method ShowFeedback(title: string, message: string, kind: FeedbackKind)
      modifies this
      ensures feedback == Feedback(true, title, message, kind)
      ensures isGenerating == old(isGenerating) && publishDialogOpen == old(publishDialogOpen)
      ensures publishPath == old(publishPath) && storage == old(storage)
    {
      feedback := Feedback(true, title, message, kind);
    }

    /** Closing the feedback dialog keeps its content. */
    method SetFeedbackOpen(open: bool)
      modifies this
      ensures feedback == old(feedback).(open := open)
      ensures isGenerating == old(isGenerating) && publishDialogOpen == old(publishDialogOpen)
      ensures publishPath == old(publishPath) && storage == old(storage)
    {
      feedback := feedback.(open := open);
    }

    /** Editing the title field renames the report. */
    method HandleTitleEdit(title: string)
      modifies store
      ensures store.layout == old(store.layout).(title := title)
      ensures store.selectedComponentIds == old(store.selectedComponentIds)
    {
      store.UpdateReportTitle(title);
    }

    /** Generates the PDF of the current document and downloads it under the title's file
        name. `rendered` says whether generation succeeded; on success the pages drawn and the
        file name are returned and success is reported, otherwise an error is reported. */
    method HandleDownload(rendered: bool) returns (download: Option<(string, seq<Pdf.PageOut>)>)
      modifies this
      ensures !isGenerating
      ensures rendered ==>
                download == Some((PdfFileName(store.layout.title), Pdf.PdfPages(store.layout)))
                && feedback == Feedback(true, "Success", "PDF generated and downloaded successfully.", SuccessFeedback)
      ensures !rendered ==>
                download.None?
                && feedback == Feedback(true, "Error",
                     "Failed to generate PDF. Please check that all images are valid URLs.", ErrorFeedback)
      ensures publishDialogOpen == old(publishDialogOpen) && publishPath == old(publishPath)
      ensures storage == old(storage)
    {
      isGenerating := true;
      if rendered {
        download := Some((PdfFileName(store.layout.title), Pdf.PdfPages(store.layout)));
        ShowFeedback("Success", "PDF generated and downloaded successfully.", SuccessFeedback);
      } else {
        download := None;
        ShowFeedback("Error", "Failed to generate PDF. Please check that all images are valid URLs.", ErrorFeedback);
      }
      isGenerating := false;
    }

    /** The JSON export's file name; nothing in the editor changes. */
    method HandleExportJSON() returns (fileName: string)
      ensures fileName == JsonFileName(store.layout.title)
      ensures Strings.StartsWith(fileName, SlugStem(store.layout.title))
    {
      fileName := JsonFileName(store.layout.title);
      assert fileName[..|SlugStem(store.layout.title)|] == SlugStem(store.layout.title);
    }

    /** Reads a chosen file: no file does nothing; an accepted document replaces the current
        one (`asLayout` is the document the parsed value describes) and success is reported;
        otherwise the document is kept and the matching error is reported. */
    method HandleImportJSON(hasFile: bool, parsed: Option<Value>, asLayout: Layout)
      modifies this, store
      ensures !hasFile ==> feedback == old(feedback) && store.layout == old(store.layout)
      ensures hasFile ==>
                match ImportDecision(parsed)
                case Imported(_) =>
                  store.layout == asLayout
                  && feedback == Feedback(true, "Success", "Layout imported successfully.", SuccessFeedback)
                case InvalidFormat =>
                  store.layout == old(store.layout)
                  && feedback == Feedback(true, "Error", "Invalid layout JSON format.", ErrorFeedback)
                case ParseFailed =>
                  store.layout == old(store.layout)
                  && feedback == Feedback(true, "Error", "Failed to parse JSON file.", ErrorFeedback)
      ensures store.selectedComponentIds == old(store.selectedComponentIds)
      ensures isGenerating == old(isGenerating) && publishDialogOpen == old(publishDialogOpen)
      ensures publishPath == old(publishPath) && storage == old(storage)
    {
      if !hasFile {
        return;
      }
      var decision := ImportDecision(parsed);
      match decision {
        case Imported(_) =>
          store.ReplaceLayout(asLayout);
          ShowFeedback("Success", "Layout imported successfully.", SuccessFeedback);
        case InvalidFormat =>
          ShowFeedback("Error", "Invalid layout JSON format.", ErrorFeedback);
        case ParseFailed =>
          ShowFeedback("Error", "Failed to parse JSON file.", ErrorFeedback);
      }
    }

    /** Typing in the route field. */
    method SetPublishPath(path: string)
      modifies this
      ensures publishPath == path
      ensures feedback == old(feedback) && storage == old(storage)
      ensures isGenerating == old(isGenerating) && publishDialogOpen == old(publishDialogOpen)
    {
      publishPath := path;
    }

    /** Publishing with an empty route does nothing. Otherwise the serialised document
        (`serialized`) is stored under the route's key, every other key is kept, the dialog
        closes and the route is reported. */
    method HandlePublish(serialized: string)
      modifies this
      ensures publishPath == old(publishPath) && isGenerating == old(isGenerating)
      ensures old(publishPath) == "" ==>
                storage == old(storage) && publishDialogOpen == old(publishDialogOpen)
                && feedback == old(feedback)
      ensures old(publishPath) != "" ==>
                storage == old(storage)[PublishKey(publishPath) := serialized]
                && !publishDialogOpen
                && feedback == Feedback(true, "Published Successfully",
                                        "Your report is now live at /" + publishPath, SuccessFeedback)
    {
      if publishPath == "" {
        return;
      }
      var key := PublishKey(publishPath);
      storage := storage[key := serialized];
      publishDialogOpen := false;
      feedback := Feedback(true, "Published Successfully", "Your report is now live at /" + publishPath,
                           SuccessFeedback);
    }
  }

  /** Publishing stores the document under its route and leaves every other route alone. */
  lemma PublishTouchesOneKey(storage: map<string, string>, path: string, other: string, serialized: string)
    requires other != path
    ensures var after := storage[PublishKey(path) := serialized];
            PublishKey(path) in after && after[PublishKey(path)] == serialized
            && (PublishKey(other) in after <==> PublishKey(other) in storage)
            && (PublishKey(other) in storage ==> after[PublishKey(other)] == storage[PublishKey(other)])
  {
    if PublishKey(other) == PublishKey(path) {
      PublishKeyInjective(other, path);
    }
  }
}
