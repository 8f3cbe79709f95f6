/** Word export and import. Export turns the document into a flat list of paragraphs: a title,
    then per page a page-name heading followed by the paragraphs of its components, rows and
    columns being flattened in order. Import turns the top-level HTML elements of a converted
    Word file into components, at most one per element. Fetching images and the HTML parser
    are parameters. */
module Docx {
  import opened Wrappers
  import opened Schema
  import Strings
  import Tree

  type Bytes = seq<bv8>

  /** The paragraphs the export writes. */
  datatype Paragraph =
    | TitlePara(text: string)                                 // document title, centred
    | PageHeading(text: string, pageBreakBefore: bool)        // heading level 1
    | HeadingPara(text: string)                               // heading level 2
    | TextPara(text: string)
    | ImagePara(data: Bytes)                                  // 400 x 400, centred

  /** `layout.title || 'Rapor'`. */
  function TitleText(title: string): string {
    if title == "" then "Rapor" else title
  }

  /** The paragraphs of a forest: a heading or a text node gives one paragraph, an image with a
      source whose fetch returns bytes gives one, rows and columns give their children's
      paragraphs in order, and every other kind gives nothing. */
  function Paragraphs(cs: seq<Component>, fetch: string -> Option<Bytes>): (ps: seq<Paragraph>)
    ensures forall p :: p in ps ==> p.HeadingPara? || p.TextPara? || p.ImagePara?
  {
    if cs == [] then [] else NodeParagraphs(cs[0], fetch) + Paragraphs(cs[1..], fetch)
  }

  function NodeParagraphs(c: Component, fetch: string -> Option<Bytes>): (ps: seq<Paragraph>)
    ensures forall p :: p in ps ==> p.HeadingPara? || p.TextPara? || p.ImagePara?
  {
    match c.body
    case Heading(content) => [HeadingPara(content)]
    case Text(content) => [TextPara(content)]
    case Image(src, _, _, _) =>
      if src != "" && fetch(src).Some? then [ImagePara(fetch(src).value)] else []
    case Row(children, _, _, _) => Paragraphs(children, fetch)
    case Column(children, _, _) => Paragraphs(children, fetch)
    case _ => []
  }

  lemma {:induction false} ParagraphsAppend(a: seq<Component>, b: seq<Component>,
                                            fetch: string -> Option<Bytes>)
    ensures Paragraphs(a + b, fetch) == Paragraphs(a, fetch) + Paragraphs(b, fetch)
  {
    if a == [] {
      assert a + b == b;
    } else {
      assert (a + b)[0] == a[0] && (a + b)[1..] == a[1..] + b;
      ParagraphsAppend(a[1..], b, fetch);
    }
  }

  /** Export writes at most one paragraph per node of the tree. */
  lemma {:induction false} ParagraphsAtMostNodes(cs: seq<Component>, fetch: string -> Option<Bytes>)
    ensures |Paragraphs(cs, fetch)| <= |Tree.Flat(cs)|
  {
    if cs != [] {
      ParagraphsAtMostNodes(cs[1..], fetch);
      if cs[0].body.Row? || cs[0].body.Column? {
        ParagraphsAtMostNodes(cs[0].body.children, fetch);
      }
    }
  }

  /** An image whose fetch fails contributes nothing, and neither does a flex container. */
  lemma SkippedNodes(c: Component, rest: seq<Component>, fetch: string -> Option<Bytes>)
    requires c.body.ContainerFlex? || (c.body.Image? && (c.body.src == "" || fetch(c.body.src).None?))
    ensures Paragraphs([c] + rest, fetch) == Paragraphs(rest, fetch)
  {
    assert ([c] + rest)[0] == c && ([c] + rest)[1..] == rest;
  }

  /** The paragraphs of the pages, the title excluded. The first page's heading has no page
      break; every later one starts a new page. */
  function PagesParagraphs(pages: seq<Page>, fetch: string -> Option<Bytes>): seq<Paragraph> {
    if pages == [] then []
    else
      var last := pages[|pages| - 1];
      PagesParagraphs(pages[..|pages| - 1], fetch)
      + [PageHeading(last.name, |pages| > 1)] + Paragraphs(last.components, fetch)
  }

  /** The whole export; `None` when the document has no `pages` list, where the export throws. */
  function DocxParagraphs(l: Layout, fetch: string -> Option<Bytes>): Option<seq<Paragraph>> {
    if l.pages.None? then None
    else Some([TitlePara(TitleText(l.title))] + PagesParagraphs(l.pages.value, fetch))
  }

  /** Past the page heading, the paragraphs of a page hold no page heading. */
  lemma NoHeadingInBody(a: seq<Paragraph>, h: Paragraph, body: seq<Paragraph>)
    requires forall p :: p in body ==> p.HeadingPara? || p.TextPara? || p.ImagePara?
    ensures forall k :: |a| < k < |a + [h] + body| ==> !(a + [h] + body)[k].PageHeading?
  {
    forall k | |a| < k < |a + [h] + body|
      ensures !(a + [h] + body)[k].PageHeading?
    {
      assert (a + [h] + body)[k] == body[k - |a| - 1];
      assert body[k - |a| - 1] in body;
    }
  }

  /** The first page heading carries no page break and every later page heading carries one. */
  lemma {:induction false} PageBreaks(pages: seq<Page>, fetch: string -> Option<Bytes>)
    ensures var ps := PagesParagraphs(pages, fetch);
            (pages != [] ==> ps[0] == PageHeading(pages[0].name, false))
            && (forall j :: 0 < j < |ps| && ps[j].PageHeading? ==> ps[j].pageBreakBefore)
  {
    if pages != [] {
      var init := pages[..|pages| - 1];
      var last := pages[|pages| - 1];
      PageBreaks(init, fetch);
      var a := PagesParagraphs(init, fetch);
      var body := Paragraphs(last.components, fetch);
      var ps := a + [PageHeading(last.name, |pages| > 1)] + body;
      assert PagesParagraphs(pages, fetch) == ps;
      NoHeadingInBody(a, PageHeading(last.name, |pages| > 1), body);
      if init == [] {
        assert pages[0] == last;
      } else {
        assert init[0] == pages[0];
      }
      forall j | 0 < j < |ps| && ps[j].PageHeading?
        ensures ps[j].pageBreakBefore
      {
        if j < |a| {
          assert ps[j] == a[j];
        } else if j == |a| {
          assert init != [];
        }
      }
    }
  }

  /** The positions of the page headings in a paragraph list. */
  function HeadingPositions(ps: seq<Paragraph>): set<nat> {
    set j: nat | j < |ps| && ps[j].PageHeading?
  }

  /** There is exactly one page heading per page. */
  lemma {:induction false} OneHeadingPerPage(pages: seq<Page>, fetch: string -> Option<Bytes>)
    ensures |HeadingPositions(PagesParagraphs(pages, fetch))| == |pages|
  {
    if pages != [] {
      var init := pages[..|pages| - 1];
      var last := pages[|pages| - 1];
      OneHeadingPerPage(init, fetch);
      var a := PagesParagraphs(init, fetch);
      var body := Paragraphs(last.components, fetch);
      var ps := a + [PageHeading(last.name, |pages| > 1)] + body;
      assert PagesParagraphs(pages, fetch) == ps;
      NoHeadingInBody(a, PageHeading(last.name, |pages| > 1), body);
      var headsA := HeadingPositions(a);
      var heads := HeadingPositions(ps);
      forall j: nat | j in heads ensures j in headsA + {|a|} {
        if j < |a| {
          assert ps[j] == a[j];
        }
      }
      forall j: nat | j in headsA + {|a|} ensures j in heads {
        if j < |a| {
          assert ps[j] == a[j];
        }
      }
      assert heads == headsA + {|a|};
      assert |a| !in headsA;
    }
  }

  /** `processComponents`: walks the list, pushing each node's paragraphs onto `docChildren`. */
  method ProcessComponents(cs: seq<Component>, fetch: string -> Option<Bytes>, docChildren: seq<Paragraph>)
    returns (out: seq<Paragraph>)
    ensures out == docChildren + Paragraphs(cs, fetch)
    decreases cs, 1
  {
    out := docChildren;
    var i := 0;
    while i < |cs|
      invariant 0 <= i <= |cs|
      invariant out == docChildren + Paragraphs(cs[..i], fetch)
    {
      var component := cs[i];
      out := ProcessComponent(component, fetch, out);
      assert cs[..i + 1] == cs[..i] + [component];
      ParagraphsAppend(cs[..i], [component], fetch);
      assert [component][1..] == [];
      i := i + 1;
    }
    assert cs[..i] == cs;
  }

  /** One step of `processComponents`: the paragraphs one node pushes. */
  method ProcessComponent(component: Component, fetch: string -> Option<Bytes>, docChildren: seq<Paragraph>)
    returns (out: seq<Paragraph>)
    ensures out == docChildren + NodeParagraphs(component, fetch)
    decreases component, 0
  {
    out := docChildren;
    match component.body {
      case Heading(content) =>
        out := out + [HeadingPara(content)];
      case Text(content) =>
        out := out + [TextPara(content)];
      case Image(src, _, _, _) =>
        if src != "" {
          var imageBuffer := fetch(src);
          if imageBuffer.Some? {
            out := out + [ImagePara(imageBuffer.value)];
          }
        }
      case Row(children, _, _, _) =>
        out := ProcessComponents(children, fetch, out);
      case Column(children, _, _) =>
        out := ProcessComponents(children, fetch, out);
      case _ =>
    }
  }

  /** `exportToDocx` up to packing the document: the title paragraph, then per page its
      heading (with a page break when paragraphs beyond the title already exist) and its
      components' paragraphs. `None` stands for the throw on a document without `pages`. */
  method ExportDocx(l: Layout, fetch: string -> Option<Bytes>) returns (r: Option<seq<Paragraph>>)
    ensures r == DocxParagraphs(l, fetch)
    ensures r.Some? ==> r.value[0] == TitlePara(TitleText(l.title))
  {
    if l.pages.None? {
      return None;
    }
    var pages := l.pages.value;
    var docChildren := [TitlePara(TitleText(l.title))];
    var i := 0;
    while i < |pages|
      invariant 0 <= i <= |pages|
      invariant docChildren == [TitlePara(TitleText(l.title))] + PagesParagraphs(pages[..i], fetch)
      invariant i > 0 ==> |docChildren| > 1
    {
      var page := pages[i];
      docChildren := docChildren + [PageHeading(page.name, |docChildren| > 1)];
      docChildren := ProcessComponents(page.components, fetch, docChildren);
      assert pages[..i + 1][..i] == pages[..i];
      i := i + 1;
    }
    assert pages[..i] == pages;
    r := Some(docChildren);
  }

  // ---------------------------------------------------------------------------
  // Import

  /** The `src` and `alt` attributes of an image element. */
  datatype ImageAttrs = ImageAttrs(src: string, alt: string)

  /** A top-level element of the converted HTML: its tag name (upper case), its text content,
      and for an `IMG` element its own attributes (`None` reads as both attributes empty), for
      any other element those of the first `img` inside it. */
  datatype Element = Element(tag: string, text: string, image: Option<ImageAttrs>)

  predicate IsHeadingTag(tag: string) {
    |tag| == 2 && tag[0] == 'H' && '1' <= tag[1] <= '6'
  }

  const TablePrefix := "[Tablo Verisi]: "

  function ImportedImage(a: ImageAttrs): Body {
    Image(a.src, Some(if a.alt == "" then "Imported Image" else a.alt), None, None)
  }

  /** The body an element turns into, if any. */
  function ElementBody(el: Element): Option<Body> {
    if IsHeadingTag(el.tag) then Some(Heading(el.text))
    else if el.tag == "P" then
      if el.image.Some? then Some(ImportedImage(el.image.value))
      else if !Strings.IsBlank(el.text) then Some(Text(el.text))
      else None
    else if el.tag == "TABLE" then
      if !Strings.IsBlank(el.text) then Some(Text(TablePrefix + el.text)) else None
    else if el.tag == "IMG" then Some(ImportedImage(el.image.GetOr(ImageAttrs("", ""))))
    else None
  }

  /** The import rules element by element. */
  lemma ElementRules(el: Element)
    ensures IsHeadingTag(el.tag) ==> ElementBody(el) == Some(Heading(el.text))
    ensures el.tag == "P" && el.image.Some? ==>
              (ElementBody(el).Some? && ElementBody(el).value.Image?
               && ElementBody(el).value.alt == Some(if el.image.value.alt == "" then "Imported Image"
                                                    else el.image.value.alt))
    ensures el.tag == "P" && el.image.None? ==>
              ElementBody(el) == if Strings.AllSpace(el.text) then None else Some(Text(el.text))
    ensures el.tag == "TABLE" ==>
              ElementBody(el) == if Strings.AllSpace(el.text) then None
                                 else Some(Text("[Tablo Verisi]: " + el.text))
    ensures el.tag == "IMG" ==>
              var a := el.image.GetOr(ImageAttrs("", ""));
              ElementBody(el) == Some(Image(a.src, Some(if a.alt == "" then "Imported Image" else a.alt),
                                            None, None))
    ensures !IsHeadingTag(el.tag) && el.tag !in {"P", "TABLE", "IMG"} ==> ElementBody(el).None?
  {
    Strings.BlankIffAllSpace(el.text);
  }

  /** The components made from `els`; the k-th component made gets the k-th fresh id. */
  function Parsed(els: seq<Element>, uuid: nat -> string): (cs: seq<Component>)
    ensures |cs| <= |els|
    ensures forall j :: 0 <= j < |cs| ==>
              cs[j].id == uuid(j) && cs[j].styles == Some(map[])
              && (cs[j].body.Heading? || cs[j].body.Text? || cs[j].body.Image?)
  {
    if els == [] then []
    else
      var prev := Parsed(els[..|els| - 1], uuid);
      var b := ElementBody(els[|els| - 1]);
      if b.Some? then prev + [Component(uuid(|prev|), 0, Some(map[]), b.value)] else prev
  }

  /** Element order is kept: the components of a longer element list extend those of any
      prefix of it. */
  lemma {:induction false} ParsedPrefix(els: seq<Element>, k: nat, uuid: nat -> string)
    requires k <= |els|
    ensures |Parsed(els[..k], uuid)| <= |Parsed(els, uuid)|
    ensures Parsed(els[..k], uuid) == Parsed(els, uuid)[..|Parsed(els[..k], uuid)|]
    decreases |els|
  {
    if k < |els| {
      var init := els[..|els| - 1];
      assert init[..k] == els[..k];
      ParsedPrefix(init, k, uuid);
      assert Parsed(els, uuid)[..|Parsed(init, uuid)|] == Parsed(init, uuid);
    } else {
      assert els[..k] == els;
    }
  }

  /** `parseHtmlToComponents`: one pass over the elements, pushing at most one component each. */
  method ParseHtml(els: seq<Element>, uuid: nat -> string) returns (components: seq<Component>)
    ensures components == Parsed(els, uuid)
  {
    components := [];
    var i := 0;
    while i < |els|
      invariant 0 <= i <= |els|
      invariant components == Parsed(els[..i], uuid)
    {
      var el := els[i];
      var b := ElementBody(el);
      if b.Some? {
        components := components + [Component(uuid(|components|), 0, Some(map[]), b.value)];
      }
      assert els[..i + 1][..i] == els[..i];
      i := i + 1;
    }
    assert els[..i] == els;
  }
}
