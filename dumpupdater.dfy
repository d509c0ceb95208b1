/** dumpUpdater.js: render the whole history of a live thread as one HTML
    document: a header built from the thread's about record, one line per update
    in fetch order, and a footer that is written only when the loop ends without
    an error. */
module DumpUpdater {
  import opened Values
  import opened Text
  import opened Sanitizer
  import opened Records
  import opened Output
  import opened Pages

  /** `USE_TERSE`: the script picks the short tag names. */
  const UseTerse := true

  /** `TAG_DICT`: the element name of an update and of its parts. */
  datatype TagNames = TagNames(update: string, timestamp: string, text: string, author: string)

  function TagDict(terse: bool): TagNames
  {
    if terse then TagNames("up", "ts", "tx", "auth")
    else TagNames("update", "timestamp", "text", "author")
  }

  /** The element every update is rendered as. */
  const UpdateTag := TagDict(UseTerse).update

  /** The parts of the `about` record (`info.data`) the header reads. */
  datatype ThreadInfo = ThreadInfo(title: JsVal, description: JsVal, resources: JsVal)

  /** The opening of the document, up to `<body>`: the title, a stylesheet that
      lays out updates as table rows, and the archive page's own stylesheet and
      script. */
  function HeadText(liveId: string, title: JsVal): string
  {
    HeadLines(liveId, title) + HeadClose
  }

  /** The lines of the head template before `</head>`. */
  function HeadLines(liveId: string, title: JsVal): string
  {
    Lines([
      "<!DOCTYPE html>\n",
      "<html>\n",
      "<head>\n",
      "\t<meta charset=\"UTF-8\">\n",
      "\t<title>" + Display(title) + " | Reddit Live Updater #" + liveId + "</title>\n",
      "\t<style> \n",
      "\t\tupdates { display: table; } \n",
      "\t\tupdates > " + UpdateTag + " { display: table-row; }\n",
      "\t\tupdates > " + UpdateTag + "::before { content: attr(ts); display: table-cell; }\n",
      "\t\tupdates > " + UpdateTag + " > div { display: table-cell; }\n",
      "\t\tupdates > " + UpdateTag + "[striken] > div { text-decoration: line-through; }\n",
      "\t\tupdates > " + UpdateTag + "::after { content: '/u/'attr(auth); display: table-cell; } \n",
      "\t\tbody::before { content: 'Loading'; display:none; }\n",
      "\t</style>\n",
      "\t<link rel=\"stylesheet\" href=\"dumpedUpdates.css\" />\n",
      "\t<script src=\"dumpedUpdates.js\"></script>\n"])
  }

  /** The last line of the head template. */
  const HeadClose := "</head>\n<body>"

  /** A multi-line template literal as the concatenation of its lines, each
      ending in its newline. */
  function Lines(ls: seq<string>): string
  {
    if ls == [] then "" else ls[0] + Lines(ls[1..])
  }

  /** The `<header>` line, with the thread's unescaped description. */
  function BannerText(liveId: string, title: JsVal, description: string): string
  {
    "\t<header><h3>Updater archive for #" + liveId + "</h3><h1>" + Display(title) + "</h1><h2>" +
    UnescapeHtml(description) + "</h2></header>"
  }

  /** The `<aside>` line: the resources, unescaped, with one pass of newline
      removal after tags, and with absolute links. */
  function AsideText(resources: string): string
  {
    "\t<aside>" + EscapeReddit(ReplaceAll(UnescapeHtml(resources), ">\n", ">")) + "</aside>"
  }

  function UpdatesOpen(liveId: string): string
  {
    "\t<updates id=\"" + liveId + "\">"
  }

  const Footer := "\t</updates>\n\t<style>body::before { content: none; }</style>\n</body>\n</html>"

  /** The attribute the renderer would add to a retracted update. */
  const StrikenAttr := "striken=\"true\""

  /** The attribute list of an update's element: id, timestamp and author (a falsy
      author as empty), then the retraction marker when `update.stroken` is truthy. */
  function Attributes(u: Update): seq<string>
  {
    var author := if Truthy(u.author) then u.author else Str("");
    var attrs := ["id=\"" + Display(u.id) + "\"", "ts=\"" + Display(u.timestamp) + "\"",
                  "auth=\"" + Display(author) + "\""];
    if Truthy(Property(u, DumpFlag, "stroken")) then attrs + [StrikenAttr] else attrs
  }

  /** `attrs.join(' ')`. */
  function JoinSpace(xs: seq<string>): string
  {
    if xs == [] then ""
    else if |xs| == 1 then xs[0]
    else xs[0] + " " + JoinSpace(xs[1..])
  }

  /** Two passes of `.replace(/>\n/g, '>')`. */
  function CollapseNewlines(s: string): string
  {
    ReplaceAll(ReplaceAll(s, ">\n", ">"), ">\n", ">")
  }

  /** The body pipeline: unescape, collapse newlines after tags twice, make links
      absolute, and drop the first `class="md"` of a `div`. */
  function CleanBody(body: string): string
  {
    ReplaceFirst(EscapeReddit(CollapseNewlines(UnescapeHtml(body))), "div class=\"md\"", "div")
  }

  /** The line of one update whose body is the string `body`. */
  function RecordText(u: Update, body: string): string
  {
    Element(u, CleanBody(body))
  }

  /** The element of update `u` around the already cleaned `content`. */
  function Element(u: Update, content: string): string
  {
    "\t\t<" + UpdateTag + " " + JoinSpace(Attributes(u)) + ">" + content + "</" + UpdateTag + ">"
  }

  /** The chunk written for an update whose body is a string. */
  function RecordChunk(u: Update): string
    requires u.body.Str?
  {
    Line(RecordText(u, u.body.s))
  }

  /** `chunks` are the lines of the first `|chunks|` updates of `us`, one each, in order. */
  predicate LinesOf(us: seq<Update>, chunks: seq<string>)
  {
    |chunks| <= |us| &&
    forall i :: 0 <= i < |chunks| ==> us[i].body.Str? && chunks[i] == RecordChunk(us[i])
  }

  /** The record lines the render loop writes for `us`, stopping at the first
      update whose body is no string. */
  function RenderRecords(us: seq<Update>): (r: Run)
    ensures LinesOf(us, r.chunks)
    ensures r.failure == None ==> |r.chunks| == |us|
    ensures r.failure != None ==>
              r.failure == Some(NotAString) && |r.chunks| < |us| && !us[|r.chunks|].body.Str?
  {
    if us == [] then Run([], None)
    else
      var prev := RenderRecords(us[..|us| - 1]);
      LinesOfLonger(us[..|us| - 1], us, prev.chunks);
      if prev.failure.Some? then prev
      else if us[|us| - 1].body.Str? then
        LinesOfSnoc(us, prev.chunks);
        Run(prev.chunks + [RecordChunk(us[|us| - 1])], None)
      else
        Run(prev.chunks, Some(NotAString))
  }

  /** Lines of a prefix of the updates are lines of the updates. */
  lemma LinesOfLonger(us: seq<Update>, vs: seq<Update>, chunks: seq<string>)
    requires us <= vs && LinesOf(us, chunks)
    ensures LinesOf(vs, chunks)
  {
    forall i | 0 <= i < |chunks|
      ensures vs[i].body.Str? && chunks[i] == RecordChunk(vs[i])
    {
      assert vs[i] == us[i];
    }
  }

  /** The lines of all updates but the last, and then the last one's. */
  lemma LinesOfSnoc(us: seq<Update>, chunks: seq<string>)
    requires LinesOf(us, chunks) && |chunks| == |us| - 1 && us[|us| - 1].body.Str?
    ensures LinesOf(us, chunks + [RecordChunk(us[|us| - 1])])
  {
    var c := chunks + [RecordChunk(us[|us| - 1])];
    forall i | 0 <= i < |c|
      ensures us[i].body.Str? && c[i] == RecordChunk(us[i])
    {
      if i < |chunks| {
        assert c[i] == chunks[i];
      }
    }
  }

  /** The header lines, up to the opening `<updates>` element. */
  function HeaderRun(liveId: string, info: ThreadInfo): Run
  {
    var head := [Line(HeadText(liveId, info.title))];
    if !info.description.Str? then Run(head, Some(NotAString))
    else
      var banner := head + [Line(BannerText(liveId, info.title, info.description.s))];
      if !info.resources.Str? then Run(banner, Some(NotAString))
      else Run(banner + [Line(AsideText(info.resources.s)), Line(UpdatesOpen(liveId))], None)
  }

  /** What the pagination loop and the footer write after the header. */
  function BodyRun(pages: seq<Page>): Run
    requires HasStop(pages)
  {
    var records := RenderRecords(Fetched(pages));
    if records.failure.Some? then records
    else match pages[StopIndex(pages)]
      case Err(e) => Run(records.chunks, Some(e))
      case Ok(_) => Run(records.chunks + [Line(Footer)], None)
  }

  /** Everything the `try` block writes, and the error it ends with, when the
      successive `getNextPage` results are `pages`. */
  function DocumentRun(liveId: string, info: ThreadInfo, pages: seq<Page>): Run
    requires HasStop(pages)
  {
    var header := HeaderRun(liveId, info);
    if header.failure.Some? then header
    else
      var body := BodyRun(pages);
      Run(header.chunks + body.chunks, body.failure)
  }

  /** The body of the script after `getInfo` succeeded: open the writer, run the
      `try` block, and close the writer in `finally` whatever happened. */
  method DumpUpdates(liveId: string, outFile: Option<string>, info: ThreadInfo, pages: seq<Page>)
    returns (out: Writer, failure: Option<Failure>)
    requires HasStop(pages)
    ensures fresh(out) && out.toStdout == (outFile == None || outFile.value == "")
    ensures out.written == DocumentRun(liveId, info, pages).chunks
    ensures failure == DocumentRun(liveId, info, pages).failure
    ensures out.ended == !out.toStdout
  {
    out := new Writer(outFile);
    failure := WriteDocument(out, liveId, info, pages);
    out.Close();
  }

  /** The `try` block: header, the pagination loop with one line per update, and
      the footer. */
  method WriteDocument(out: Writer, liveId: string, info: ThreadInfo, pages: seq<Page>)
    returns (failure: Option<Failure>)
    requires HasStop(pages)
    modifies out`written
    ensures out.written == old(out.written) + DocumentRun(liveId, info, pages).chunks
    ensures failure == DocumentRun(liveId, info, pages).failure
  {
    ghost var start := out.written;
    ghost var header := HeaderRun(liveId, info);
    failure := WriteHeader(out, liveId, info);
    if failure.Some? {
      return;
    }
    failure := WriteBody(out, pages);
    WrittenInTurn(start, header.chunks, BodyRun(pages).chunks);
  }

  /** The lines before the pagination loop. */
  method WriteHeader(out: Writer, liveId: string, info: ThreadInfo) returns (failure: Option<Failure>)
    modifies out`written
    ensures out.written == old(out.written) + HeaderRun(liveId, info).chunks
    ensures failure == HeaderRun(liveId, info).failure
  {
    out.Println(HeadText(liveId, info.title));
    if !info.description.Str? {
      return Some(NotAString);
    }
    out.Println(BannerText(liveId, info.title, info.description.s));
    if !info.resources.Str? {
      return Some(NotAString);
    }
    out.Println(AsideText(info.resources.s));
    out.Println(UpdatesOpen(liveId));
    failure := None;
  }

  /** The pagination loop, then the footer. */
  method WriteBody(out: Writer, pages: seq<Page>) returns (failure: Option<Failure>)
    requires HasStop(pages)
    modifies out`written
    ensures out.written == old(out.written) + BodyRun(pages).chunks
    ensures failure == BodyRun(pages).failure
  {
    ghost var header := out.written;
    var i := 0;
    while true
      invariant i <= StopIndex(pages)
      invariant RenderRecords(Flatten(pages[..i])).failure == None
      invariant out.written == header + RenderRecords(Flatten(pages[..i])).chunks
      decreases StopIndex(pages) - i
    {
      var page := pages[i];
      if page.Err? {
        ThrownPage(pages, i);
        return Some(page.error);
      }
      if page.value == [] {
        EmptyPage(pages, i);
        break;
      }
      FlattenSnoc(pages, i);
      var ok := WriteRecords(out, header, Flatten(pages[..i]), page.value);
      if !ok {
        FailingPage(pages, i);
        return Some(NotAString);
      }
      i := i + 1;
    }
    out.Println(Footer);
    assert (header + RenderRecords(Fetched(pages)).chunks) + [Line(Footer)] ==
           header + (RenderRecords(Fetched(pages)).chunks + [Line(Footer)]);
    failure := None;
  }

  /** A thrown page before any failed record ends the body with that error. */
  lemma ThrownPage(pages: seq<Page>, i: nat)
    requires HasStop(pages) && i <= StopIndex(pages) && pages[i].Err?
    requires RenderRecords(Flatten(pages[..i])).failure == None
    ensures i == StopIndex(pages)
    ensures BodyRun(pages) == Run(RenderRecords(Flatten(pages[..i])).chunks, Some(pages[i].error))
  {
  }

  /** An empty page before any failed record ends the loop, and the footer follows. */
  lemma EmptyPage(pages: seq<Page>, i: nat)
    requires HasStop(pages) && i <= StopIndex(pages) && pages[i] == Ok([])
    requires RenderRecords(Flatten(pages[..i])).failure == None
    ensures i == StopIndex(pages)
    ensures BodyRun(pages) == Run(RenderRecords(Fetched(pages)).chunks + [Line(Footer)], None)
  {
  }

  /** A record that fails on a page before the stop decides the whole body. */
  lemma FailingPage(pages: seq<Page>, i: nat)
    requires HasStop(pages) && i <= StopIndex(pages) && !Stops(pages[i])
    requires RenderRecords(Flatten(pages[..i + 1])).failure.Some?
    ensures BodyRun(pages) == RenderRecords(Flatten(pages[..i + 1]))
  {
    FailureReachesStop(pages, i);
  }

  /** The failed rendering of the pages up to `i` is the rendering of all pages
      before the stop. */
  lemma FailureReachesStop(pages: seq<Page>, i: nat)
    requires HasStop(pages) && i <= StopIndex(pages) && !Stops(pages[i])
    requires RenderRecords(Flatten(pages[..i + 1])).failure.Some?
    ensures RenderRecords(Fetched(pages)) == RenderRecords(Flatten(pages[..i + 1]))
  {
    var n := StopIndex(pages);
    BeforeStop(pages, i);
    FlattenPrefix(pages, i + 1, n);
    RenderRecordsSticky(Flatten(pages[..i + 1]), Flatten(pages[..n]));
  }

  /** A page that does not stop the loop lies before the one that does. */
  lemma BeforeStop(pages: seq<Page>, i: nat)
    requires HasStop(pages) && i <= StopIndex(pages) && !Stops(pages[i])
    ensures i < StopIndex(pages)
  {
  }

  /** The `for (let update of updates)` loop over one page: one line per update,
      until a body that is no string makes `unescapeHtml` throw. `done` are the
      updates of the earlier pages. */
  method WriteRecords(out: Writer, ghost header: seq<string>, ghost done: seq<Update>, updates: seq<Update>)
    returns (ok: bool)
    requires RenderRecords(done).failure == None
    requires out.written == header + RenderRecords(done).chunks
    modifies out`written
    ensures out.written == header + RenderRecords(done + updates).chunks
    ensures ok <==> RenderRecords(done + updates).failure == None
  {
    assert done + updates[..0] == done;
    for j := 0 to |updates|
      invariant RenderRecords(done + updates[..j]).failure == None
      invariant out.written == header + RenderRecords(done + updates[..j]).chunks
    {
      var u := updates[j];
      if !u.body.Str? {
        FailingRecord(done, updates, j);
        return false;
      }
      WriteRecord(out, header, done, updates, j);
    }
    assert updates[..|updates|] == updates;
    ok := true;
  }

  /** The body of the loop for an update whose body is a string: render it and
      print the line. */
  method WriteRecord(out: Writer, ghost header: seq<string>, ghost done: seq<Update>, updates: seq<Update>, j: nat)
    requires j < |updates| && updates[j].body.Str?
    requires RenderRecords(done + updates[..j]).failure == None
    requires out.written == header + RenderRecords(done + updates[..j]).chunks
    modifies out`written
    ensures RenderRecords(done + updates[..j + 1]).failure == None
    ensures out.written == header + RenderRecords(done + updates[..j + 1]).chunks
  {
    var u := updates[j];
    var line := RecordText(u, u.body.s);
    ghost var prev := RenderRecords(done + updates[..j]).chunks;
    out.Println(line);
    NextUpdate(done, updates, j);
    RenderRecordsSnoc(done + updates[..j], u);
    WrittenInTurn(header, prev, [Line(line)]);
  }

  /** An update whose body is no string, after lines that all rendered, ends the
      rendering of the whole page with NotAString. */
  lemma FailingRecord(done: seq<Update>, updates: seq<Update>, j: nat)
    requires j < |updates| && !updates[j].body.Str?
    requires RenderRecords(done + updates[..j]).failure == None
    ensures RenderRecords(done + updates) == Run(RenderRecords(done + updates[..j]).chunks, Some(NotAString))
  {
    NextUpdate(done, updates, j);
    RenderRecordsSnoc(done + updates[..j], updates[j]);
    RenderRecordsSticky(done + updates[..j + 1], done + updates);
  }

  /** One more update: its line is added unless an earlier one failed, or it is
      the one that fails. */
  lemma RenderRecordsSnoc(us: seq<Update>, u: Update)
    ensures var prev := RenderRecords(us);
            RenderRecords(us + [u]) ==
              if prev.failure.Some? then prev
              else if u.body.Str? then Run(prev.chunks + [RecordChunk(u)], None)
              else Run(prev.chunks, Some(NotAString))
  {
    assert (us + [u])[..|us|] == us;
  }

  /** The fetched updates of an earlier stretch of pages begin those of a later one. */
  lemma {:induction false} FlattenPrefix(pages: seq<Page>, m: nat, n: nat)
    requires m <= n <= |pages|
    ensures Flatten(pages[..m]) <= Flatten(pages[..n])
    decreases n
  {
    if m < n {
      FlattenPrefix(pages, m, n - 1);
      assert pages[..n][..n - 1] == pages[..n - 1];
    }
  }

  /** Once a record fails to render, no later update changes what is written. */
  lemma {:induction false} RenderRecordsSticky(us: seq<Update>, vs: seq<Update>)
    requires us <= vs && RenderRecords(us).failure.Some?
    ensures RenderRecords(vs) == RenderRecords(us)
    decreases |vs|
  {
    if |vs| > |us| {
      RenderRecordsSticky(us, vs[..|vs| - 1]);
    } else {
      assert us == vs;
    }
  }

  /** The retraction marker is never emitted: `makeUpdate` produces no `stroken`
      property, so every update gets exactly the id, timestamp and author
      attributes, and a falsy author renders as `auth=""`. */
  lemma NeverStriken(u: Update)
    ensures |Attributes(u)| == 3 && StrikenAttr !in Attributes(u)
    ensures Attributes(u)[0] == "id=\"" + Display(u.id) + "\""
    ensures Attributes(u)[1] == "ts=\"" + Display(u.timestamp) + "\""
    ensures Truthy(u.author) ==> Attributes(u)[2] == "auth=\"" + Display(u.author) + "\""
    ensures !Truthy(u.author) ==> Attributes(u)[2] == "auth=\"\""
  {
    var attrs := Attributes(u);
    assert attrs[0][0] == 'i' && attrs[1][0] == 't' && attrs[2][0] == 'a';
  }

  /** Only two passes remove newlines after a tag: of three newlines after `>`,
      one is left. */
  lemma ThirdNewlineSurvives(t: string)
    requires '>' !in t
    ensures CollapseNewlines(">\n\n\n" + t) == ">\n" + t
  {
    var t1 := "\n" + t;
    var t2 := "\n" + t1;
    ThreeNewlines(t);
    assert '>' !in t1 && '>' !in t2;
    OneTagNewline(t2);
    TagThenNewline(t1);
    OneTagNewline(t1);
    TagThenNewline(t);
  }

  /** Regrouping for ThirdNewlineSurvives. Stated on its own because the same
      step written as an assert inside that lemma, next to the ReplaceAll facts,
      is expensive to prove. */
  lemma ThreeNewlines(t: string)
    ensures ">\n\n\n" + t == ">\n" + ("\n" + ("\n" + t))
  {
  }

  /** Regrouping for ThirdNewlineSurvives, kept apart for the same reason. */
  lemma TagThenNewline(t: string)
    ensures ">" + ("\n" + t) == ">\n" + t
  {
  }

  /** `>` and a newline followed by text without `>`: one pass removes that newline. */
  lemma OneTagNewline(t: string)
    requires '>' !in t
    ensures ReplaceAll(">\n" + t, ">\n", ">") == ">" + t
  {
    LeadingMatch(">\n", t, ">");
    AbsentByFirstChar(t, ">\n");
    ReplaceAllAbsent(t, ">\n", ">");
  }

  /** The chunk ends like the footer's `</html>` line: its third-to-last
      character is `l`. This is no property of the output; it exists only to
      prove that no header or record line equals the footer (HeaderNotFooter,
      RecordsNotFooter), which is cheaper than comparing whole lines. */
  predicate FooterLike(c: string)
  {
    |c| >= 3 && c[|c| - 3] == 'l'
  }

  /** The second-to-last character of a text decides whether its line looks like
      the footer. */
  lemma LineEnd(x: string, lit: string)
    requires |lit| >= 2
    ensures FooterLike(Line(x + lit)) <==> lit[|lit| - 2] == 'l'
  {
    var s := x + lit;
    assert s[|s| - 2] == lit[|lit| - 2];
    assert Line(s)[|Line(s)| - 3] == s[|s| - 2];
  }

  lemma ElementNotFooter(u: Update, content: string)
    ensures !FooterLike(Line(Element(u, content)))
  {
    LineEnd("\t\t<" + UpdateTag + " " + JoinSpace(Attributes(u)) + ">" + content + "</", UpdateTag + ">");
  }

  lemma RecordChunkNotFooter(u: Update)
    requires u.body.Str?
    ensures !FooterLike(RecordChunk(u))
  {
    ElementNotFooter(u, CleanBody(u.body.s));
  }

  /** No header line can be taken for the footer. */
  lemma HeaderNotFooter(liveId: string, info: ThreadInfo)
    ensures Line(Footer) !in HeaderRun(liveId, info).chunks
  {
    FooterIsFooterLike();
    HeadNotFooter(liveId, info.title);
    if info.description.Str? {
      BannerNotFooter(liveId, info.title, info.description.s);
      if info.resources.Str? {
        AsideNotFooter(info.resources.s);
        OpenNotFooter(liveId);
      }
    }
  }

  lemma FooterIsFooterLike()
    ensures FooterLike(Line(Footer))
  {
    assert Line(Footer)[|Line(Footer)| - 3] == 'l';
  }

  lemma HeadNotFooter(liveId: string, title: JsVal)
    ensures !FooterLike(Line(HeadText(liveId, title)))
  {
    LineEnd(HeadLines(liveId, title), HeadClose);
  }

  lemma OpenNotFooter(liveId: string)
    ensures !FooterLike(Line(UpdatesOpen(liveId)))
  {
    LineEnd("\t<updates id=\"" + liveId, "\">");
  }

  lemma BannerNotFooter(liveId: string, title: JsVal, description: string)
    ensures !FooterLike(Line(BannerText(liveId, title, description)))
  {
    LineEnd("\t<header><h3>Updater archive for #" + liveId + "</h3><h1>" + Display(title) + "</h1><h2>" +
            UnescapeHtml(description), "</h2></header>");
  }

  lemma AsideNotFooter(resources: string)
    ensures !FooterLike(Line(AsideText(resources)))
  {
    LineEnd("\t<aside>" + EscapeReddit(ReplaceAll(UnescapeHtml(resources), ">\n", ">")), "</aside>");
  }

  /** No record line can be taken for the footer. */
  lemma RecordsNotFooter(us: seq<Update>)
    ensures forall c :: c in RenderRecords(us).chunks ==> !FooterLike(c)
  {
    var chunks := RenderRecords(us).chunks;
    forall i | 0 <= i < |chunks|
      ensures !FooterLike(chunks[i])
    {
      RecordChunkNotFooter(us[i]);
    }
  }

  /** The footer is written exactly when the `try` block completes: on success the
      document ends with it, and after an error no line of the output is the footer. */
  lemma FooterOnlyOnSuccess(liveId: string, info: ThreadInfo, pages: seq<Page>)
    requires HasStop(pages)
    ensures var r := DocumentRun(liveId, info, pages);
            && (r.failure == None ==> r.chunks != [] && r.chunks[|r.chunks| - 1] == Line(Footer))
            && (r.failure != None ==> Line(Footer) !in r.chunks)
  {
    HeaderNotFooter(liveId, info);
    BodyFooterOnlyOnSuccess(pages);
  }

  /** The same for what the loop and the footer write. */
  lemma BodyFooterOnlyOnSuccess(pages: seq<Page>)
    requires HasStop(pages)
    ensures var r := BodyRun(pages);
            && (r.failure == None ==> r.chunks != [] && r.chunks[|r.chunks| - 1] == Line(Footer))
            && (r.failure != None ==> Line(Footer) !in r.chunks)
  {
    FooterIsFooterLike();
    RecordsNotFooter(Fetched(pages));
  }

  /** With no update at all the document is the header, an empty `<updates>`
      element and the footer. */
  lemma NoUpdatesDocument(liveId: string, info: ThreadInfo, pages: seq<Page>)
    requires pages != [] && pages[0] == Ok([])
    requires info.description.Str? && info.resources.Str?
    ensures HasStop(pages)
    ensures DocumentRun(liveId, info, pages) ==
            Run([Line(HeadText(liveId, info.title)),
                 Line(BannerText(liveId, info.title, info.description.s)),
                 Line(AsideText(info.resources.s)),
                 Line(UpdatesOpen(liveId)),
                 Line(Footer)], None)
  {
    EmptyFirstPage(pages);
  }

  /** The loop and the footer complete exactly when every fetched body is a string
      and the loop ended on an empty page. */
  lemma BodyCompleteIff(pages: seq<Page>)
    requires HasStop(pages)
    ensures var us := Fetched(pages);
            BodyRun(pages).failure == None <==>
              (forall i :: 0 <= i < |us| ==> us[i].body.Str?) && pages[StopIndex(pages)].Ok?
  {
    var us := Fetched(pages);
    var records := RenderRecords(us);
    if records.failure != None {
      assert !us[|records.chunks|].body.Str?;
    }
  }

  /** After a complete loop: exactly one line per fetched update in fetch order,
      then the footer. */
  lemma BodyLines(pages: seq<Page>)
    requires HasStop(pages) && BodyRun(pages).failure == None
    ensures var r := BodyRun(pages);
            var us := Fetched(pages);
            |r.chunks| == |us| + 1 &&
            (forall i :: 0 <= i < |us| ==> r.chunks[i] == RecordChunk(us[i])) &&
            r.chunks[|us|] == Line(Footer)
  {
  }

  /** A document is complete exactly when the header renders and so do the loop
      and the footer; it is then the four header lines followed by them. */
  lemma CompleteDocument(liveId: string, info: ThreadInfo, pages: seq<Page>)
    requires HasStop(pages)
    ensures var r := DocumentRun(liveId, info, pages);
            r.failure == None <==>
              info.description.Str? && info.resources.Str? && BodyRun(pages).failure == None
    ensures var r := DocumentRun(liveId, info, pages);
            r.failure == None ==>
              |r.chunks| == 4 + |BodyRun(pages).chunks| &&
              r.chunks[3] == Line(UpdatesOpen(liveId)) &&
              r.chunks[4..] == BodyRun(pages).chunks
  {
    var header := HeaderRun(liveId, info);
    if header.failure == None {
      var h, b := header.chunks, BodyRun(pages).chunks;
      assert |h| == 4 && (h + b)[3] == h[3] && (h + b)[4..] == b;
    }
  }
}
