/** What one pass and a whole run of the crossword download loop guarantee. */
module CrosswordProps {
  import opened Wrappers
  import opened Storage
  import opened Calendar
  import opened DateText
  import opened Crossword
  import opened CrosswordMain

  /** A 500 on the page moves on by exactly one day, writing nothing and counting nothing. */
  lemma PageErrorSkipsOneDay(folder: string, s: Loop, p: Page)
    requires IsValid(s.date) && p.status == 500 && s.date != MAX_DATE
    ensures var n := Step(folder, s, p);
            && n.Again?
            && n.state.date == NextDay(s.date)
            && n.state.numPuzzles == s.numPuzzles
            && n.state.files == s.files
            && n.state.gets == s.gets + [UrlFromDate(s.date)]
  {
  }

  /** A 500 on the pdf moves on by exactly one day, writing nothing and counting nothing. */
  lemma PdfErrorSkipsOneDay(folder: string, s: Loop, p: Page)
    requires IsValid(s.date) && 200 <= p.status <= 299 && p.pdfStatus == 500 && s.date != MAX_DATE
    requires !(s.numPuzzles == 0 && Contains(p.text, SAMPLE_MSG))
    requires |p.pdfHrefs| > 0
    ensures var n := Step(folder, s, p);
            && n.Again?
            && n.state.date == NextDay(s.date)
            && n.state.numPuzzles == s.numPuzzles
            && n.state.files == s.files
            && n.state.gets == s.gets + [UrlFromDate(s.date), Last(p.pdfHrefs)]
  {
  }

  /** A skip on `date.max` cannot add a day: the run stops on the overflow. */
  lemma SkipOnLastDateOverflows(folder: string, s: Loop, p: Page)
    requires s.date == MAX_DATE && p.status == 500
    ensures Step(folder, s, p) == Stop(s.(pageUrl := UrlFromDate(s.date), gets := s.gets + [UrlFromDate(s.date)]), DateOverflow)
  {
  }

  /**
   * A pass whose page and pdf both succeed writes exactly one file, named
   * after the current date, counts it, fetches the last target=_new link, and
   * then either stops normally (no next link, or it leads back to this page)
   * or moves to the date of the last next link.
   */
  lemma SuccessfulPassWritesOneFile(folder: string, s: Loop, p: Page)
    requires IsValid(s.date) && 200 <= p.status <= 299 && 200 <= p.pdfStatus <= 299
    requires !(s.numPuzzles == 0 && Contains(p.text, SAMPLE_MSG))
    requires |p.pdfHrefs| > 0
    ensures var n := Step(folder, s, p);
            var pageUrl := UrlFromDate(s.date);
            && n.state.files == s.files[PdfFileName(folder, s.date) := p.pdf]
            && n.state.files.Keys == s.files.Keys + {PdfFileName(folder, s.date)}
            && n.state.numPuzzles == s.numPuzzles + 1
            && n.state.pdfUrl == Some(Last(p.pdfHrefs))
            && n.state.gets == s.gets + [pageUrl, Last(p.pdfHrefs)]
            && (n == Stop(n.state, NoMorePuzzles) <==>
                  |p.nextHrefs| == 0 || URL_ROOT + Last(p.nextHrefs) == pageUrl)
            && (n.Again? <==>
                  |p.nextHrefs| > 0 && URL_ROOT + Last(p.nextHrefs) != pageUrl
                  && DateFromUrl(URL_ROOT + Last(p.nextHrefs)).Some?)
            && (n.Again? ==> n.state.date == DateFromUrl(URL_ROOT + Last(p.nextHrefs)).value
                             && n.state.pageUrl == URL_ROOT + Last(p.nextHrefs))
  {
    var pageUrl := UrlFromDate(s.date);
    var s1 := s.(pageUrl := pageUrl, gets := s.gets + [pageUrl]);
    var s2 := s1.(pdfUrl := Some(Last(p.pdfHrefs)), gets := s1.gets + [Last(p.pdfHrefs)]);
    assert Step(folder, s, p) == FetchPdf(folder, s1, p);
    assert FetchPdf(folder, s1, p) == SavePdf(folder, s2, p);
    SavePdfNext(folder, s2, p);
  }

  /** After the write, a pass stops normally or follows the last next link. */
  lemma SavePdfNext(folder: string, s: Loop, p: Page)
    requires IsValid(s.date)
    ensures var n := SavePdf(folder, s, p);
            && n.state.pdfUrl == s.pdfUrl && n.state.gets == s.gets
            && (n == Stop(n.state, NoMorePuzzles) <==>
                  |p.nextHrefs| == 0 || URL_ROOT + Last(p.nextHrefs) == s.pageUrl)
            && (n.Again? <==>
                  |p.nextHrefs| > 0 && URL_ROOT + Last(p.nextHrefs) != s.pageUrl
                  && DateFromUrl(URL_ROOT + Last(p.nextHrefs)).Some?)
            && (n.Again? ==> n.state.date == DateFromUrl(URL_ROOT + Last(p.nextHrefs)).value
                             && n.state.pageUrl == URL_ROOT + Last(p.nextHrefs))
  {
  }

  /** The sample-marker check only applies to pages that load before the first puzzle is written. */
  lemma LoginCheckOnlyOnFirstPuzzle(folder: string, s: Loop, p: Page, text: string)
    requires IsValid(s.date) && s.numPuzzles > 0
    ensures Step(folder, s, p) == Step(folder, s, p.(text := text))
  {
  }

  /** On any page that loads before the first puzzle is written, the sample marker stops the run with a login failure. */
  lemma SampleMarkerMeansLoginFailed(folder: string, s: Loop, p: Page)
    requires IsValid(s.date) && s.numPuzzles == 0 && 200 <= p.status <= 299
    requires Contains(p.text, SAMPLE_MSG)
    ensures Step(folder, s, p).Stop? && Step(folder, s, p).halt == LoginFailed
    ensures ExitStatus(LoginFailed) == 1
  {
  }

  /** A page status other than 500 and outside 2xx stops the run with that status. */
  lemma FatalStatusStops(folder: string, s: Loop, p: Page)
    requires IsValid(s.date) && p.status != 500 && !(200 <= p.status <= 299)
    ensures Step(folder, s, p).Stop? && Step(folder, s, p).halt == FatalStatus(p.status)
    ensures ExitStatus(Step(folder, s, p).halt) == p.status
    ensures Step(folder, s, p).state.files == s.files
  {
  }

  /** A pdf status other than 500 and outside 2xx stops the run with that status, before anything is written. */
  lemma PdfFatalStatusStops(folder: string, s: Loop, p: Page)
    requires IsValid(s.date) && 200 <= p.status <= 299
    requires !(s.numPuzzles == 0 && Contains(p.text, SAMPLE_MSG))
    requires |p.pdfHrefs| > 0 || s.pdfUrl.Some?
    requires p.pdfStatus != 500 && !(200 <= p.pdfStatus <= 299)
    ensures Step(folder, s, p).Stop? && Step(folder, s, p).halt == FatalStatus(p.pdfStatus)
    ensures ExitStatus(Step(folder, s, p).halt) == p.pdfStatus
    ensures Step(folder, s, p).state.files == s.files
    ensures Step(folder, s, p).state.numPuzzles == s.numPuzzles
  {
  }

  /**
   * A pass that reaches the pdf fetch with no target=_new link on its page
   * and no `pdf_url` from an earlier page stops on the unbound name, with
   * exit status 1 and nothing written, after requesting only the page.
   */
  lemma PdfUrlUnboundStops(folder: string, s: Loop, p: Page)
    requires IsValid(s.date) && s.pdfUrl.None? && 200 <= p.status <= 299
    requires !(s.numPuzzles == 0 && Contains(p.text, SAMPLE_MSG))
    requires p.pdfHrefs == []
    ensures Step(folder, s, p) == Stop(s.(pageUrl := UrlFromDate(s.date), gets := s.gets + [UrlFromDate(s.date)]), PdfUrlUnbound)
    ensures ExitStatus(PdfUrlUnbound) == 1
  {
  }

  /** In particular, a first page that loads without a target=_new link ends the session there. */
  lemma FirstPageWithoutPdfLinkHalts(loginStatus: int, start: Date, folder: string, files: FileStore, pages: seq<Page>)
    requires IsValid(start) && (loginStatus == 500 || 200 <= loginStatus <= 299)
    requires pages != [] && 200 <= pages[0].status <= 299 && !Contains(pages[0].text, SAMPLE_MSG)
    requires pages[0].pdfHrefs == []
    ensures Session(loginStatus, start, folder, files, pages).halt == Some(PdfUrlUnbound)
    ensures Session(loginStatus, start, folder, files, pages).state.files == files
  {
    PdfUrlUnboundStops(folder, Start(start, files), pages[0]);
  }

  /** `sub` occurs in `text` starting at index `i`. */
  predicate OccursAt(text: string, sub: string, i: int) {
    0 <= i <= |text| - |sub| && text[i..i + |sub|] == sub
  }

  /** `text.find(sub) > -1`: `sub` occurs in `text` at some position. */
  lemma {:induction false} ContainsIffOccurs(text: string, sub: string)
    ensures Contains(text, sub) <==> exists i :: OccursAt(text, sub, i)
    decreases |text|
  {
    if |sub| > |text| {
      assert forall i :: !OccursAt(text, sub, i);
    } else if text[..|sub|] == sub {
      assert OccursAt(text, sub, 0);
    } else {
      ContainsIffOccurs(text[1..], sub);
      if exists i :: OccursAt(text, sub, i) {
        var i :| OccursAt(text, sub, i);
        assert i > 0;
        assert text[1..][i - 1..i - 1 + |sub|] == text[i..i + |sub|];
        assert OccursAt(text[1..], sub, i - 1);
      }
      if exists i :: OccursAt(text[1..], sub, i) {
        var i :| OccursAt(text[1..], sub, i);
        assert text[1..][i..i + |sub|] == text[i + 1..i + 1 + |sub|];
        assert OccursAt(text, sub, i + 1);
      }
    }
  }

  /** Different days are written to different files. */
  lemma PdfFileNameInjective(folder: string, a: Date, b: Date)
    requires IsValid(a) && IsValid(b) && PdfFileName(folder, a) == PdfFileName(folder, b)
    ensures a == b
  {
    var k := |folder| + 5;
    var fa, fb := FormatCompact(a), FormatCompact(b);
    assert PdfFileName(folder, a)[k..k + 8] == fa;
    assert PdfFileName(folder, b)[k..k + 8] == fb;
    CompactDigits(a);
    CompactDigits(b);
  }

  /** The fields of `%Y%m%d` give back the year, month and day. */
  lemma CompactDigits(d: Date)
    requires IsValid(d)
    ensures var f := FormatCompact(d);
            && FourDigitValue(f) == d.year
            && 10 * DigitValue(f[4]) + DigitValue(f[5]) == d.month
            && 10 * DigitValue(f[6]) + DigitValue(f[7]) == d.day
  {
    var y, m, dd := Pad4(d.year), Pad2(d.month), Pad2(d.day);
    var f := FormatCompact(d);
    assert f[..4] == y && f[4..6] == m && f[6..] == dd;
    assert f[0] == y[0] && f[1] == y[1] && f[2] == y[2] && f[3] == y[3];
    assert f[4] == m[0] && f[5] == m[1] && f[6] == dd[0] && f[7] == dd[1];
  }

  /** A 500 on the login POST is reported and ignored: the loop runs as if it were a 200. */
  lemma LoginServerErrorIgnored(start: Date, folder: string, files: FileStore, pages: seq<Page>)
    requires IsValid(start)
    ensures Session(500, start, folder, files, pages) == Session(200, start, folder, files, pages)
  {
  }

  /** The loop never writes more than MAX_PUZZLES files. */
  lemma {:induction false} RunRespectsCap(folder: string, s: Loop, pages: seq<Page>)
    requires IsValid(s.date) && s.numPuzzles <= MAX_PUZZLES
    ensures Run(folder, s, pages).state.numPuzzles <= MAX_PUZZLES
    ensures Run(folder, s, pages).halt == Some(CapReached) ==> Run(folder, s, pages).state.numPuzzles == MAX_PUZZLES
    decreases |pages|
  {
    if s.numPuzzles < MAX_PUZZLES && pages != [] {
      match Step(folder, s, pages[0])
      case Stop(t, h) =>
      case Again(t) => RunRespectsCap(folder, t, pages[1..]);
    }
  }

  /**
   * Files are only ever added, and no more new files appear than puzzles are
   * counted (a day may be written twice when a next link leads back).
   */
  lemma {:induction false} RunCountsItsFiles(folder: string, s: Loop, pages: seq<Page>)
    requires IsValid(s.date)
    ensures var o := Run(folder, s, pages);
            && s.files.Keys <= o.state.files.Keys
            && s.numPuzzles <= o.state.numPuzzles
            && |o.state.files.Keys - s.files.Keys| <= o.state.numPuzzles - s.numPuzzles
    decreases |pages|
  {
    if s.numPuzzles < MAX_PUZZLES && pages != [] {
      var n := Step(folder, s, pages[0]);
      StepWritesAtMostOne(folder, s, pages[0]);
      if n.Again? {
        RunCountsItsFiles(folder, n.state, pages[1..]);
        NewKeysCompose(s.files.Keys, n.state.files.Keys, Run(folder, n.state, pages[1..]).state.files.Keys);
      }
    }
  }

  lemma NewKeysCompose(a: set<string>, b: set<string>, c: set<string>)
    requires a <= b <= c
    ensures |c - a| == |c - b| + |b - a|
  {
    assert c - a == (c - b) + (b - a);
    assert (c - b) !! (b - a);
  }

  /** Every file a run adds is the pdf of some valid day. */
  lemma {:induction false} RunWritesOnlyPuzzleFiles(folder: string, s: Loop, pages: seq<Page>, k: string)
    requires IsValid(s.date)
    requires k in Run(folder, s, pages).state.files && k !in s.files
    ensures exists d :: IsValid(d) && k == PdfFileName(folder, d)
    decreases |pages|
  {
    if s.numPuzzles < MAX_PUZZLES && pages != [] {
      var n := Step(folder, s, pages[0]);
      StepWritesAtMostOne(folder, s, pages[0]);
      if k in n.state.files {
        assert k == PdfFileName(folder, s.date);
      } else {
        RunWritesOnlyPuzzleFiles(folder, n.state, pages[1..], k);
      }
    }
  }

  /** One pass adds at most the pdf of the current day, and counts it when it does. */
  lemma StepWritesAtMostOne(folder: string, s: Loop, p: Page)
    requires IsValid(s.date)
    ensures var n := Step(folder, s, p);
            && n.state.files.Keys <= s.files.Keys + {PdfFileName(folder, s.date)}
            && (n.state.files.Keys != s.files.Keys ==> n.state.numPuzzles == s.numPuzzles + 1)
            && |n.state.files.Keys - s.files.Keys| <= n.state.numPuzzles - s.numPuzzles
  {
    var n := Step(folder, s, p);
    var k := PdfFileName(folder, s.date);
    StepFiles(folder, s, p);
    if n.state.numPuzzles != s.numPuzzles {
      var D := n.state.files.Keys - s.files.Keys;
      assert D <= {k};
      assert |D| <= |{k}|;
    }
  }

  /** A pass leaves the files alone, or writes the current day's pdf and counts it. */
  lemma StepFiles(folder: string, s: Loop, p: Page)
    requires IsValid(s.date)
    ensures var n := Step(folder, s, p);
            if n.state.numPuzzles == s.numPuzzles then n.state.files == s.files
            else n.state.files == s.files[PdfFileName(folder, s.date) := p.pdf]
  {
  }

  /**
   * The page for 2011-05-08 answers 500: the loop moves on to 2011-05-09
   * without writing a file, after requesting exactly that day's page.
   */
  lemma SkipScenario(folder: string, s: Loop, p: Page)
    requires s.date == Date(2011, 5, 8) && p.status == 500
    ensures var n := Step(folder, s, p);
            && n.Again? && n.state.date == Date(2011, 5, 9) && n.state.files == s.files
            && n.state.gets == s.gets + [URL_ROOT + DAILY_COMMUTER + "2011/05/08"]
  {
    ScenarioDateText();
    PageErrorSkipsOneDay(folder, s, p);
  }

  /** 2011-05-08 written with `%Y/%m/%d`. */
  lemma ScenarioDateText()
    ensures FormatSlashed(Date(2011, 5, 8)) == "2011/05/08"
  {
    assert DigitChar(2) == '2' && DigitChar(0) == '0' && DigitChar(1) == '1';
    assert DigitChar(5) == '5' && DigitChar(8) == '8';
    assert Pad4(2011) == "2011";
    assert Pad2(5) == "05" && Pad2(8) == "08";
  }
}
