/**
 * The archive downloader: remove leftover temporary files from the data
 * folder, then walk the catalog's anchors in document order; for each one
 * whose `<yyyymmdd>.txt` is not there yet, download the zip, extract its
 * `studies.txt` under that name and delete the zip. A failure is reported
 * and the walk goes on with the next anchor; a keyboard interrupt ends it.
 *
 * The catalog page and its parsing are replaced by the anchor sequence they
 * yield; each anchor carries what the network answers for it and where, if
 * anywhere, the user presses control-C while it is processed.
 */
module AactDownloads {
  import opened Wrappers
  import opened Storage

  const URL := "https://aact.ctti-clinicaltrials.org"
  const FOLDER := "E:/MattM/Step1-Read_Files/data/"
  const STUDIES := "studies.txt"

  // ------------------------------------------------------------------ names

  /** The characters Python's `str.strip()` removes (those for which `str.isspace()` holds). */
  predicate IsSpace(c: char) {
    c == ' ' || '\t' <= c <= '\r' || '\U{1c}' <= c <= '\U{1f}' || c == '\U{85}' || c == '\U{a0}'
    || c == '\U{1680}' || '\U{2000}' <= c <= '\U{200a}' || c == '\U{2028}' || c == '\U{2029}'
    || c == '\U{202f}' || c == '\U{205f}' || c == '\U{3000}'
  }

  function StripLeading(s: string): string {
    if s != [] && IsSpace(s[0]) then StripLeading(s[1..]) else s
  }

  function StripTrailing(s: string): string {
    if s != [] && IsSpace(s[|s| - 1]) then StripTrailing(s[..|s| - 1]) else s
  }

  /** `s.strip()`. */
  function Strip(s: string): string {
    StripTrailing(StripLeading(s))
  }

  /** `strip()` removes exactly a run of whitespace at the start. */
  lemma {:induction false} StripLeadingShape(s: string)
    ensures var r := StripLeading(s);
            && |r| <= |s| && r == s[|s| - |r|..]
            && (forall i :: 0 <= i < |s| - |r| ==> IsSpace(s[i]))
            && (r == [] || !IsSpace(r[0]))
    decreases |s|
  {
    if s != [] && IsSpace(s[0]) {
      StripLeadingShape(s[1..]);
    }
  }

  /** `strip()` removes exactly a run of whitespace at the end. */
  lemma {:induction false} StripTrailingShape(s: string)
    ensures var r := StripTrailing(s);
            && |r| <= |s| && r == s[..|r|]
            && (forall i :: |r| <= i < |s| ==> IsSpace(s[i]))
            && (r == [] || !IsSpace(r[|r| - 1]))
    decreases |s|
  {
    if s != [] && IsSpace(s[|s| - 1]) {
      StripTrailingShape(s[..|s| - 1]);
    }
  }

  /** The file name is the anchor text without surrounding whitespace, and begins and ends with a non-space. */
  lemma StripShape(s: string)
    ensures var r, i := Strip(s), |s| - |StripLeading(s)|;
            && 0 <= i <= i + |r| <= |s| && r == s[i..i + |r|]
            && (forall k :: 0 <= k < i || i + |r| <= k < |s| ==> IsSpace(s[k]))
            && (r == [] || (!IsSpace(r[0]) && !IsSpace(r[|r| - 1])))
  {
    var l := StripLeading(s);
    StripLeadingShape(s);
    StripTrailingShape(l);
    var r, i := Strip(s), |s| - |l|;
    assert r == s[i..i + |r|];
    forall k | i + |r| <= k < |s| ensures IsSpace(s[k]) {
      assert s[k] == l[k - i];
    }
  }

  /** `s.split("_")[0]`: everything before the first underscore. */
  function Stem(s: string): (r: string)
    ensures |r| <= |s| && r == s[..|r|]
    ensures '_' !in r
    ensures |r| < |s| ==> s[|r|] == '_'
  {
    if s == [] || s[0] == '_' then [] else [s[0]] + Stem(s[1..])
  }

  /**
   * `file_name = anchor.getText().strip()`: the source's name for the stripped
   * anchor text, which both paths below are built from; `Strip` is the string
   * operation itself.
   */
  function FileName(text: string): string {
    Strip(text)
  }

  /** `destination = FOLDER + yyyymmdd + ".txt"`, with `yyyymmdd = file_name.split("_")[0]`. */
  function Destination(text: string): string {
    FOLDER + Stem(FileName(text)) + ".txt"
  }

  /** Where the downloaded zip is written: `FOLDER + file_name`. */
  function ZipPath(text: string): string {
    FOLDER + FileName(text)
  }

  /** The temporary zip is never the destination, so deleting it keeps the extracted file. */
  lemma ZipPathIsNotDestination(text: string)
    ensures ZipPath(text) != Destination(text)
  {
    var name, stem := FileName(text), Stem(FileName(text));
    if |stem| < |name| {
      // At the end of the stem the zip path has its underscore, the destination its dot.
      var k := |FOLDER| + |stem|;
      assert ZipPath(text)[k] == name[|stem|] == '_';
      assert Destination(text)[k] == '.';
    } else {
      assert |Destination(text)| == |ZipPath(text)| + 4;
    }
  }

  /** The stem of a name is what precedes its first underscore. */
  lemma {:induction false} StemBeforeUnderscore(prefix: string, rest: string)
    requires '_' !in prefix && rest != [] && rest[0] == '_'
    ensures Stem(prefix + rest) == prefix
  {
    if prefix != [] {
      assert (prefix + rest)[1..] == prefix[1..] + rest;
      StemBeforeUnderscore(prefix[1..], rest);
    }
  }

  /** The catalog entry `20230101_clinical.zip` is saved as `20230101.txt`. */
  lemma DestinationExample()
    ensures Destination("20230101_clinical.zip") == FOLDER + "20230101" + ".txt"
  {
    ExampleNameIsStripped();
    ExampleStem();
  }

  lemma ExampleNameIsStripped()
    ensures FileName("20230101_clinical.zip") == "20230101_clinical.zip"
  {
    assert StripLeading("20230101_clinical.zip") == "20230101_clinical.zip";
    assert StripTrailing("20230101_clinical.zip") == "20230101_clinical.zip";
  }

  lemma ExampleStem()
    ensures Stem("20230101_clinical.zip") == "20230101"
  {
    assert "20230101_clinical.zip" == "20230101" + "_clinical.zip";
    assert '_' !in "20230101";
    StemBeforeUnderscore("20230101", "_clinical.zip");
  }

  // --------------------------------------------------------------- clean-up

  /** The path is a file directly in FOLDER (no further separator). */
  predicate InFolder(p: string) {
    |p| > |FOLDER| && p[..|FOLDER|] == FOLDER && '/' !in p[|FOLDER|..] && '\\' !in p[|FOLDER|..]
  }

  /**
   * A match of `glob.glob(FOLDER + "*.zip")`: a file directly in FOLDER whose
   * name ends in `.zip` and, as glob skips hidden files, does not start with a dot.
   */
  predicate IsZipInFolder(p: string) {
    InFolder(p) && p[|FOLDER|] != '.' && |p| >= |FOLDER| + 4 && p[|p| - 4..] == ".zip"
  }

  /** A file the start-up clean-up removes. */
  predicate IsTemporary(p: string) {
    IsZipInFolder(p) || p == FOLDER + STUDIES
  }

  /** The folder once the temporary files are gone. */
  function WithoutTemporaries(fs: FileStore): FileStore {
    map p | p in fs && !IsTemporary(p) :: fs[p]
  }

  /**
   * Lines 56-61: list the temporary files, then remove them one by one.
   * Afterwards none is left and every other file is untouched.
   */
  method Cleanup(fs: FileStore) returns (r: FileStore)
    ensures forall p :: p in r ==> !IsTemporary(p)
    ensures forall p :: p in fs && !IsTemporary(p) ==> p in r && r[p] == fs[p]
    ensures r.Keys <= fs.Keys
    ensures r == WithoutTemporaries(fs)
  {
    var fileList := set p | p in fs && IsTemporary(p);
    r := fs;
    while fileList != {}
      invariant fileList <= r.Keys <= fs.Keys
      invariant forall p :: p in r ==> r[p] == fs[p]
      invariant forall p :: p in fs && !IsTemporary(p) ==> p in r
      invariant forall p :: p in r && IsTemporary(p) ==> p in fileList
      decreases fileList
    {
      var filePath :| filePath in fileList;
      r := r - {filePath};  // removed from the folder (line 59)
      fileList := fileList - {filePath};
    }
  }

  // -------------------------------------------------------------- one anchor

  /** What `requests.get(file_url)` answers. */
  datatype Response =
    | Refused  // the request raises, or `raise_for_status()` does
    | Delivered(content: Bytes, members: Option<map<string, Bytes>>)  // `None`: not a zip file

  /** Where control-C reaches the processing of an anchor, if it does. */
  datatype Interrupt = NoInterrupt | BeforeFetch | DuringFetch | AfterZipWrite | AfterExtract

  /** One `<a>` of the catalog, with the answers the outside world gives for it. */
  datatype Anchor = Anchor(text: string, href: Option<string>, response: Response, interrupt: Interrupt)

  /** What came of a request that was sent. */
  datatype FetchResult =
    | Saved            // extracted to the destination, zip deleted
    | HttpError        // the request or `raise_for_status()` raised
    | ZipNotWritable   // `file_name` is empty, so the zip path is the folder itself
    | NotAZip          // `ZipFile(...)` raised: the zip stays behind
    | NoStudiesMember  // `getinfo("studies.txt")` raised KeyError: the zip stays behind
    | Interrupted      // control-C after the request was sent

  /** What happened to one anchor. */
  datatype Report =
    | AlreadyPresent          // the destination exists: nothing requested
    | NoHref                  // `URL + None` raised TypeError before any request
    | InterruptedBeforeFetch  // control-C before any request
    | Fetched(url: string, result: FetchResult)

  predicate IsInterrupt(r: Report) {
    r == InterruptedBeforeFetch || (r.Fetched? && r.result == Interrupted)
  }

  datatype Visited = Visited(store: FileStore, report: Report)

  /** The `try` body of the anchor loop (lines 81-107) and its two handlers. */
  function Visit(fs: FileStore, a: Anchor): Visited {
    if a.interrupt == BeforeFetch then Visited(fs, InterruptedBeforeFetch)
    else if Destination(a.text) in fs then Visited(fs, AlreadyPresent)
    else if a.href.None? then Visited(fs, NoHref)
    else
      var url := URL + a.href.value;
      if a.interrupt == DuringFetch then Visited(fs, Fetched(url, Interrupted))
      else match a.response
        case Refused => Visited(fs, Fetched(url, HttpError))
        case Delivered(content, members) =>
          if FileName(a.text) == [] then Visited(fs, Fetched(url, ZipNotWritable))
          else Unpack(fs[ZipPath(a.text) := content], a, url)
  }

  /** Lines 101-105, once the zip is written: extract `studies.txt` as the destination, delete the zip. */
  function Unpack(withZip: FileStore, a: Anchor, url: string): Visited
    requires a.response.Delivered?
  {
    var members := a.response.members;
    if a.interrupt == AfterZipWrite then Visited(withZip, Fetched(url, Interrupted))
    else if members.None? then Visited(withZip, Fetched(url, NotAZip))
    else if STUDIES !in members.value then Visited(withZip, Fetched(url, NoStudiesMember))
    else
      var extracted := withZip[Destination(a.text) := members.value[STUDIES]];
      if a.interrupt == AfterExtract then Visited(extracted, Fetched(url, Interrupted))
      else Visited(extracted - {ZipPath(a.text)}, Fetched(url, Saved))
  }

  /** The anchor loop body as the source writes it. */
  method ProcessAnchor(fs: FileStore, anchor: Anchor) returns (store: FileStore, report: Report)
    ensures Visited(store, report) == Visit(fs, anchor)
  {
    store := fs;
    if anchor.interrupt == BeforeFetch {
      return store, InterruptedBeforeFetch;
    }
    var fileName := Strip(anchor.text);
    var yyyymmdd := Stem(fileName);
    var destination := FOLDER + yyyymmdd + ".txt";
    if destination in store {
      return store, AlreadyPresent;
    }
    if anchor.href.None? {
      return store, NoHref;
    }
    var fileUrl := URL + anchor.href.value;
    if anchor.interrupt == DuringFetch {
      return store, Fetched(fileUrl, Interrupted);
    }
    if anchor.response.Refused? {
      return store, Fetched(fileUrl, HttpError);
    }
    if fileName == [] {
      return store, Fetched(fileUrl, ZipNotWritable);
    }
    store := store[FOLDER + fileName := anchor.response.content];
    if anchor.interrupt == AfterZipWrite {
      return store, Fetched(fileUrl, Interrupted);
    }
    var members := anchor.response.members;
    if members.None? {
      return store, Fetched(fileUrl, NotAZip);
    }
    if STUDIES !in members.value {
      return store, Fetched(fileUrl, NoStudiesMember);
    }
    store := store[destination := members.value[STUDIES]];
    if anchor.interrupt == AfterExtract {
      return store, Fetched(fileUrl, Interrupted);
    }
    store := store - {FOLDER + fileName};
    report := Fetched(fileUrl, Saved);
  }

  // ------------------------------------------------------------ the anchor loop

  datatype Run = Run(store: FileStore, reports: seq<Report>)

  /** `for anchor in anchor_list`, stopping after an interrupt. */
  function RunAnchors(fs: FileStore, anchors: seq<Anchor>): Run
    decreases |anchors|
  {
    if anchors == [] then Run(fs, [])
    else
      var v := Visit(fs, anchors[0]);
      if IsInterrupt(v.report) then Run(v.store, [v.report])
      else
        var rest := RunAnchors(v.store, anchors[1..]);
        Run(rest.store, [v.report] + rest.reports)
  }

  /** Lines 80-112 as the source writes them. */
  method DownloadAll(fs: FileStore, anchors: seq<Anchor>) returns (store: FileStore, reports: seq<Report>)
    ensures Run(store, reports) == RunAnchors(fs, anchors)
  {
    store, reports := fs, [];
    var i := 0;
    while i < |anchors|
      invariant 0 <= i <= |anchors|
      invariant RunAnchors(fs, anchors)
                == Run(RunAnchors(store, anchors[i..]).store, reports + RunAnchors(store, anchors[i..]).reports)
    {
      assert anchors[i..][0] == anchors[i] && anchors[i..][1..] == anchors[i + 1..];
      ghost var before, done := store, reports;
      var report;
      store, report := ProcessAnchor(store, anchors[i]);
      reports := reports + [report];
      if IsInterrupt(report) {
        assert RunAnchors(before, anchors[i..]) == Run(store, [report]);
        break;
      }
      ghost var rest := RunAnchors(store, anchors[i + 1..]);
      assert RunAnchors(before, anchors[i..]) == Run(rest.store, [report] + rest.reports);
      assert done + ([report] + rest.reports) == reports + rest.reports;
      i := i + 1;
    }
    if i == |anchors| {
      assert anchors[i..] == [];
    }
  }

  /** The whole script after the catalog is read: clean up, then the anchor loop. */
  method Script(fs: FileStore, anchors: seq<Anchor>) returns (store: FileStore, reports: seq<Report>)
    ensures Run(store, reports) == RunAnchors(WithoutTemporaries(fs), anchors)
  {
    var cleaned := Cleanup(fs);
    store, reports := DownloadAll(cleaned, anchors);
  }
}
