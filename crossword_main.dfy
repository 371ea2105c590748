/**
 * The download loop of the crossword downloader's `main`: log in, then walk
 * the chain of daily pages, fetching each page and its pdf, writing the pdf
 * to the output folder and following the page's "Play next puzzle." link,
 * until the chain ends, a fatal status arrives, the login turns out to have
 * failed, or MAX_PUZZLES files have been written.
 *
 * The network is replaced by what it answers: one `Page` per pass of the
 * loop, in order. The HTML parser is replaced by the href lists it would
 * return for the two `find_all` filters.
 */
module CrosswordMain {
  import opened Wrappers
  import opened Storage
  import opened Calendar
  import opened DateText
  import opened Crossword

  /** What the server and the parser give one pass of the loop. */
  datatype Page = Page(
    status: int,             // status of `session.get(page_url)`
    text: string,            // `page.text`
    pdfHrefs: seq<string>,   // hrefs of `<a target="_new">`, in document order
    pdfStatus: int,          // status of `session.get(pdf_url)`
    pdf: Bytes,              // `pdf.content`
    nextHrefs: seq<string>)  // hrefs of `<a title="Play next puzzle.">`, in document order

  /**
   * The variables of `main` that outlive one pass, the files written so far,
   * and every URL requested with GET, in order.
   */
  datatype Loop = Loop(
    numPuzzles: nat,
    date: Date,
    pageUrl: string,
    pdfUrl: Option<string>,  // `pdf_url`, unbound until a page has a target=_new link
    files: FileStore,
    gets: seq<string>)

  /** Why the program stops. */
  datatype Halt =
    | FatalStatus(code: int) // `error_check` called `exit(code)`
    | LoginFailed            // sample marker on the first page: `exit(1)`
    | NoMorePuzzles          // no next link, or it leads back to this page: `exit(0)`
    | CapReached             // MAX_PUZZLES files written: the loop ends
    | DateOverflow           // `date_obj += ONE_DAY` past `date.max`: OverflowError
    | BadNextDate            // `date_from_url(next_page_url)` raised ValueError
    | PdfUrlUnbound          // no target=_new link yet: `pdf_url` is unbound

  /** The process exit status for each way of stopping. */
  function ExitStatus(h: Halt): int {
    match h
    case FatalStatus(c) => c
    case LoginFailed => 1
    case NoMorePuzzles => 0
    case CapReached => 0
    case DateOverflow => 1
    case BadNextDate => 1
    case PdfUrlUnbound => 1
  }

  /** The result of one pass: go round again, or stop. */
  datatype Next = Again(state: Loop) | Stop(state: Loop, halt: Halt)

  /** The result of a run: the final state, and why it stopped (`None`: still running). */
  datatype Outcome = Outcome(state: Loop, halt: Option<Halt>)

  function Last<T>(s: seq<T>): T
    requires |s| > 0
  {
    s[|s| - 1]
  }

  /** `str.find(sub) > -1`. */
  predicate Contains(text: string, sub: string)
    decreases |text|
  {
    |sub| <= |text| && (text[..|sub|] == sub || Contains(text[1..], sub))
  }

  /** The file a day's puzzle is written to. */
  function PdfFileName(folder: string, d: Date): (name: string)
    requires IsValid(d)
    ensures |name| == |folder| + 17
    ensures name[..|folder| + 5] == folder + "tmdcp" && name[|name| - 4..] == ".pdf"
  {
    folder + "tmdcp" + FormatCompact(d) + ".pdf"
  }

  /** `date_obj += ONE_DAY; continue`. */
  function Advance(s: Loop): (n: Next)
    requires IsValid(s.date)
    ensures n.Again? <==> s.date != MAX_DATE
    ensures n.Again? ==> n.state == s.(date := NextDay(s.date)) && IsValid(n.state.date)
    ensures n.Stop? ==> n.state == s && n.halt == DateOverflow
  {
    var next := NextDay(s.date);
    if IsValid(next) then Again(s.(date := next)) else Stop(s, DateOverflow)
  }

  /**
   * One pass of the body of `while num_puzzles < MAX_PUZZLES` (lines 95-148
   * of the source), in three stages: the page, the pdf, the write and the
   * next link.
   */
  function Step(folder: string, s: Loop, p: Page): (n: Next)
    requires IsValid(s.date)
    ensures IsValid(n.state.date)
    ensures n.state.numPuzzles == s.numPuzzles || n.state.numPuzzles == s.numPuzzles + 1
    ensures s.files.Keys <= n.state.files.Keys
  {
    var pageUrl := UrlFromDate(s.date);
    var s1 := s.(pageUrl := pageUrl, gets := s.gets + [pageUrl]);
    match ErrorCheck(p.status)
    case Exit(code) => Stop(s1, FatalStatus(code))
    case Skip => Advance(s1)
    case _ =>
      if s.numPuzzles == 0 && Contains(p.text, SAMPLE_MSG) then Stop(s1, LoginFailed)
      else FetchPdf(folder, s1, p)
  }

  /** Lines 113-121: pick the pdf link (the last one wins) and fetch it. */
  function FetchPdf(folder: string, s: Loop, p: Page): (n: Next)
    requires IsValid(s.date)
    ensures IsValid(n.state.date)
    ensures n.state.numPuzzles == s.numPuzzles || n.state.numPuzzles == s.numPuzzles + 1
    ensures s.files.Keys <= n.state.files.Keys
  {
    var pdfUrl := if |p.pdfHrefs| > 0 then Some(Last(p.pdfHrefs)) else s.pdfUrl;
    if pdfUrl.None? then Stop(s, PdfUrlUnbound)
    else
      var s2 := s.(pdfUrl := pdfUrl, gets := s.gets + [pdfUrl.value]);
      match ErrorCheck(p.pdfStatus)
      case Exit(code) => Stop(s2, FatalStatus(code))
      case Skip => Advance(s2)
      case _ => SavePdf(folder, s2, p)
  }

  /** Lines 124-141: write the pdf, then follow the next link (the last one wins). */
  function SavePdf(folder: string, s: Loop, p: Page): (n: Next)
    requires IsValid(s.date)
    ensures IsValid(n.state.date)
    ensures n.state.numPuzzles == s.numPuzzles + 1
    ensures n.state.files == s.files[PdfFileName(folder, s.date) := p.pdf]
  {
    var s3 := s.(files := s.files[PdfFileName(folder, s.date) := p.pdf], numPuzzles := s.numPuzzles + 1);
    if |p.nextHrefs| == 0 then Stop(s3, NoMorePuzzles)
    else
      var nextUrl := URL_ROOT + Last(p.nextHrefs);
      if s.pageUrl == nextUrl then Stop(s3, NoMorePuzzles)
      else
        var s4 := s3.(pageUrl := nextUrl);
        match DateFromUrl(nextUrl)
        case None => Stop(s4, BadNextDate)
        case Some(d) => Again(s4.(date := d))
  }

  /** The loop from state `s`, consuming one page per pass. */
  function Run(folder: string, s: Loop, pages: seq<Page>): Outcome
    requires IsValid(s.date)
    decreases |pages|
  {
    if s.numPuzzles >= MAX_PUZZLES then Outcome(s, Some(CapReached))
    else if pages == [] then Outcome(s, None)
    else
      match Step(folder, s, pages[0])
      case Stop(t, h) => Outcome(t, Some(h))
      case Again(t) => Run(folder, t, pages[1..])
  }

  /** The state before the first pass; `page_url` is not yet bound. */
  function Start(start: Date, files: FileStore): Loop {
    Loop(0, start, "", None, files, [])
  }

  /**
   * `main` after the prompts: the login POST is checked with `error_check`
   * (a 500 there is ignored), then the loop runs.
   */
  function Session(loginStatus: int, start: Date, folder: string, files: FileStore, pages: seq<Page>): Outcome
    requires IsValid(start)
  {
    match ErrorCheck(loginStatus)
    case Exit(code) => Outcome(Start(start, files), Some(FatalStatus(code)))
    case _ => Run(folder, Start(start, files), pages)
  }

  /**
   * One pass of the loop body of `main` as the source writes it, on the
   * variables of `s`.
   */
  method Pass(folder: string, s: Loop, page: Page) returns (n: Next)
    requires IsValid(s.date)
    ensures n == Step(folder, s, page)
  {
    var pageUrl := UrlFromDate(s.date);
    var t := s.(pageUrl := pageUrl, gets := s.gets + [pageUrl]);
    var action := ErrorCheck(page.status);
    if action.Exit? {
      return Stop(t, FatalStatus(action.code));
    }
    if action == Skip {
      var next := NextDay(t.date);
      if !IsValid(next) {
        return Stop(t, DateOverflow);
      }
      return Again(t.(date := next));
    }
    if s.numPuzzles == 0 && Contains(page.text, SAMPLE_MSG) {
      return Stop(t, LoginFailed);
    }
    n := PassPdf(folder, t, page);
  }

  /** Lines 113-121 as the source writes them. */
  method PassPdf(folder: string, s: Loop, page: Page) returns (n: Next)
    requires IsValid(s.date)
    ensures n == FetchPdf(folder, s, page)
  {
    // Every target=_new link overwrites `pdf_url`, so the last one wins (lines 113-114).
    var pdfUrl := s.pdfUrl;
    for j := 0 to |page.pdfHrefs|
      invariant pdfUrl == if j == 0 then s.pdfUrl else Some(page.pdfHrefs[j - 1])
    {
      pdfUrl := Some(page.pdfHrefs[j]);
    }
    if pdfUrl.None? {
      return Stop(s, PdfUrlUnbound);
    }
    var t := s.(pdfUrl := pdfUrl, gets := s.gets + [pdfUrl.value]);
    var action := ErrorCheck(page.pdfStatus);
    if action.Exit? {
      return Stop(t, FatalStatus(action.code));
    }
    if action == Skip {
      var next := NextDay(t.date);
      if !IsValid(next) {
        return Stop(t, DateOverflow);
      }
      return Again(t.(date := next));
    }
    n := PassSave(folder, t, page);
  }

  /** Lines 124-141 as the source writes them. */
  method PassSave(folder: string, s: Loop, page: Page) returns (n: Next)
    requires IsValid(s.date)
    ensures n == SavePdf(folder, s, page)
  {
    var t := s.(files := s.files[PdfFileName(folder, s.date) := page.pdf], numPuzzles := s.numPuzzles + 1);
    // Every next link overwrites `next_page_url`, so the last one wins (lines 130-132).
    var nextPageUrl := "";
    for j := 0 to |page.nextHrefs|
      invariant j > 0 ==> nextPageUrl == URL_ROOT + page.nextHrefs[j - 1]
    {
      nextPageUrl := URL_ROOT + page.nextHrefs[j];
    }
    if |page.nextHrefs| == 0 || s.pageUrl == nextPageUrl {
      return Stop(t, NoMorePuzzles);
    }
    t := t.(pageUrl := nextPageUrl);
    var nextDate := DateFromUrl(nextPageUrl);
    if nextDate.None? {
      return Stop(t, BadNextDate);
    }
    return Again(t.(date := nextDate.value));
  }

  /**
   * `main` after the prompts, over the given responses: the login check, then
   * `while num_puzzles < MAX_PUZZLES`. `files` is the output folder before the run.
   */
  method Download(loginStatus: int, start: Date, folder: string, files: FileStore, pages: seq<Page>)
    returns (o: Outcome)
    requires IsValid(start)
    ensures o == Session(loginStatus, start, folder, files, pages)
  {
    var s := Start(start, files);
    var login := ErrorCheck(loginStatus);
    if login.Exit? {
      return Outcome(s, Some(FatalStatus(login.code)));
    }

    var i := 0;
    while s.numPuzzles < MAX_PUZZLES
      invariant 0 <= i <= |pages|
      invariant IsValid(s.date)
      invariant Run(folder, s, pages[i..]) == Session(loginStatus, start, folder, files, pages)
      decreases |pages| - i
    {
      if i == |pages| {
        return Outcome(s, None);
      }
      assert pages[i..][0] == pages[i] && pages[i..][1..] == pages[i + 1..];
      var n := Pass(folder, s, pages[i]);
      i := i + 1;
      if n.Stop? {
        return Outcome(n.state, Some(n.halt));
      }
      s := n.state;
    }
    return Outcome(s, Some(CapReached));
  }
}
