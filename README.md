# Crossword and clinical-trials downloaders, modelled in Dafny

This project models the two scripts at the heart of the repository:

- `crossword_puzzles.py` logs into www.puzzlesociety.com. It walks the chain of
  "daily commuter" pages from a start date the user enters, and writes each day's
  puzzle pdf to an output folder as `tmdcp<yyyymmdd>.pdf`. It follows each page's
  "Play next puzzle." link. It skips a page or a pdf that answers status 500 by
  moving on one day. It exits on any other non-2xx status. It stops when the
  chain ends, when a page loads showing the sample-only marker before any
  puzzle has been written (the login failed), or after 10000 puzzles.
- `aact_downloads.py` first removes leftover `*.zip` files and `studies.txt`
  from its data folder. It then goes through the catalog's anchors in document
  order. For each anchor whose `<yyyymmdd>.txt` is missing, it downloads the zip,
  extracts `studies.txt` under that name and deletes the zip. A failed anchor is
  reported and the loop goes on; a keyboard interrupt ends the loop.

The model is organised in modules:

- `Calendar` (calendar.dfy) stands in for Python's `datetime.date`:
  - valid years are 1 to 9999;
  - a day is added as `+ timedelta(days=1)`, and adding one to `date.max` gives
    the invalid date on which Python raises OverflowError;
  - `toordinal` and `weekday` follow Python, with Monday as 0.
- `DateText` (date_text.dfy) holds `strftime` for `%Y/%m/%d` and `%Y%m%d`, and
  `strptime` for `%Y/%m/%d`:
  - four digits for `%Y`;
  - the first matching alternative of the regular expressions CPython uses for
    `%m` (`1[0-2]|0[1-9]|[1-9]`) and `%d` (`3[01]|[12]\d|0[1-9]|[1-9]| [1-9]`);
  - the "unconverted data remains" rule;
  - the final validity check.
- `Crossword` (crossword.dfy) holds the pure helpers of the crossword script:
  - `error_check`;
  - the URL and date codecs;
  - one accepted attempt of each of the prompts `get_start_date` and
    `get_folder`.
- `CrosswordMain` (crossword_main.dfy) holds the loop of `main`:
  - as specification functions: `Step`, `FetchPdf`, `SavePdf`, `Run` and
    `Session`;
  - as imperative methods proved equal to them: `Pass`, `PassPdf`, `PassSave`
    and `Download`. `PassPdf` and `PassSave` hold the two `for` loops over
    links, and `Download` holds the `while` loop.
  - The network and the HTML parser are replaced by one `Page` value per pass.
  - The output folder is a map from path to bytes.
  - Every GET is logged in the state.
- `AactDownloads` (aact_downloads.dfy) holds the archive script:
  - file naming, with `strip()`, `split("_")[0]` and the destination and zip
    paths;
  - the clean-up method;
  - one anchor as a function (`Visit`, `Unpack`) and as a method
    (`ProcessAnchor`);
  - the anchor loop as a function (`RunAnchors`) and as a method
    (`DownloadAll`), and the whole `Script`.
  - Each anchor carries what the server answers for it, and the point, if any,
    at which the user presses control-C.
- `CrosswordProps` (crossword_props.dfy) and `AactProps` (aact_props.dfy) hold
  the lemmas about single passes and about whole runs.
- `Wrappers` (wrappers.dfy) and `Storage` (storage.dfy) are small shared modules:
  `Option` and `Result`, bytes, and the file store.

The `pdf_url` variable of the crossword loop keeps its value from one pass to
the next. A page without a `target=_new` link therefore fetches the previous
page's pdf again and writes it under the current date. On the first page, such
a page raises NameError, because `pdf_url` is still unbound. The model keeps
this behaviour of the code, rather than requiring every page to carry a pdf
link.

## Model

| member | source | states |
|---|---|---|
| Calendar.NextDay | crossword_puzzles.py:101 | `date_obj += ONE_DAY`: from a valid date the result is strictly later, and it is a valid date exactly when the input is not `date.max` (otherwise Python raises OverflowError) |
| Calendar.IsValid | crossword_puzzles.py:195-196 | the dates a `date` object can hold: years 1..9999, months 1..12, days up to the month's length. It has no `ensures`; `NextDay` and the round-trip lemmas state its properties |
| Calendar.Before | crossword_puzzles.py:202 | Python's `<` on dates, lexicographic on (year, month, day). It has no `ensures`; `NextDay`, `NextDayIsImmediate` and `NextDayMonotone` state its properties |
| Calendar.NotAfter | crossword_puzzles.py:202 | Python's `<=` on dates. It has no `ensures`; `NextDayIsImmediate`, `NextDayMonotone` and `StartDateProperties` state its properties |
| Calendar.Ordinal | crossword_puzzles.py:209 | `date.toordinal()`, with 0001-01-01 as day 1. It has no `ensures`; `OrdinalOfNextDay` states that it counts days |
| Calendar.Weekday | crossword_puzzles.py:209 | `date.weekday()` is between 0 and 6 |
| Calendar.OrdinalOfNextDay | crossword_puzzles.py:101 | adding a day raises `toordinal()` by exactly one, across month and year ends and leap days |
| Calendar.DaysBeforeNextYear | crossword_puzzles.py:101 | the days before year y+1 are those before y plus the 365 or 366 days of y, by the Gregorian leap rule |
| Calendar.WeekdayOfNextDay | crossword_puzzles.py:209-210 | the weekday of the next day is the following weekday, so Sunday (6) is followed by Monday (0) |
| Calendar.NextDayIsImmediate | crossword_puzzles.py:101 | no valid date lies strictly between a date and the next day |
| Calendar.NextDayMonotone | crossword_puzzles.py:196-210 | adding a day preserves `<=` between valid dates |
| Calendar.MaxDateIsFriday | crossword_puzzles.py:209-210 | `date.max` (9999-12-31) is a Friday, so moving a valid Sunday start date on by a day never overflows |
| DateText.Pad2 | crossword_puzzles.py:272 | the zero-padded `%m` and `%d` fields are two digits whose value is the number |
| DateText.Pad4 | crossword_puzzles.py:272 | the zero-padded `%Y` field is four digits whose value is the year |
| DateText.FormatSlashed | crossword_puzzles.py:272 | `strftime('%Y/%m/%d')` is ten characters with slashes at positions 4 and 7 |
| DateText.FormatCompact | crossword_puzzles.py:124 | `strftime('%Y%m%d')` is eight digits |
| DateText.MatchMonth | crossword_puzzles.py:298 | the `%m` pattern takes one or two characters and yields 1..12; a two-character match is the padded spelling of its value, and every padded month is matched in full |
| DateText.MatchDay | crossword_puzzles.py:298 | the `%d` pattern takes one or two characters and yields 1..31; a two-character match that does not start with a space is the padded spelling of its value |
| DateText.MatchPaddedMonth | crossword_puzzles.py:298 | a zero-padded month is matched in full, whatever follows it |
| DateText.MatchPaddedDay | crossword_puzzles.py:298 | a zero-padded day is matched in full |
| DateText.ParseSlashed | crossword_puzzles.py:298 | `strptime(s, '%Y/%m/%d').date()` gives a valid date, or ValueError (`None`) |
| DateText.ParseTenCharacters | crossword_puzzles.py:298 | a string `yyyy/mm/dd` whose fields match in full parses to that date exactly when the date is valid |
| DateText.ParseFormatSlashed | crossword_puzzles.py:272-298 | round trip: parsing the `%Y/%m/%d` spelling of a valid date gives the date back |
| DateText.FormatParseSlashed | crossword_puzzles.py:272-298 | converse round trip: a ten-character string that parses, and whose day does not start with a space, is the canonical spelling of its date |
| DateText.Pad4Digits | crossword_puzzles.py:272 | any four digits are the padded spelling of their value |
| Crossword.ErrorCheck | crossword_puzzles.py:154-182 | 500 gives SKIP; any other status outside 2xx calls `exit(status)` with that status; 201..299 gives CONTINUE; 200 gives None (each case in both directions) |
| Crossword.UrlFromDate | crossword_puzzles.py:262-272 | a page URL ends in the ten-character `%Y/%m/%d` spelling of its date |
| Crossword.DateFromString | crossword_puzzles.py:288-298 | a string that converts gives a valid date |
| Crossword.LastTen | crossword_puzzles.py:285 | `url[-10:]` is the last ten characters, or the whole string when it is shorter |
| Crossword.DateFromUrl | crossword_puzzles.py:275-285 | a URL that converts gives a valid date |
| Crossword.DateFromUrlFromDate | crossword_puzzles.py:262-285 | `date_from_url(url_from_date(d)) == d` for every valid date |
| Crossword.UrlFromDateInjective | crossword_puzzles.py:262-272 | different dates have different page URLs |
| Crossword.AcceptStartDate | crossword_puzzles.py:195-208 | an entry is accepted exactly when tomorrow exists, it parses, and it lies between 2001-10-29 and tomorrow inclusive; the accepted value is the parsed date; an entry is reported as not in format exactly when it does not parse |
| Crossword.SkipSunday | crossword_puzzles.py:209-212 | the start date moves to the next day exactly when it is a Sunday, and otherwise stays |
| Crossword.StartDate | crossword_puzzles.py:185-212 | `get_start_date()` for one accepted entry: the accepted date, moved past a Sunday. It has no `ensures`; `StartDateProperties` states its properties |
| Crossword.StartDateProperties | crossword_puzzles.py:185-212 | the entered date lies in range; the start date is valid, never a Sunday, and either the entered date or (for a Sunday only) the day after; it lies between 2001-10-29 and the day after tomorrow |
| Crossword.AcceptFolder | crossword_puzzles.py:225-232 | a folder is accepted exactly when it is non-empty, a directory and writable; it is refused as "not a folder" exactly when it is empty or not a directory |
| Crossword.NormaliseFolder | crossword_puzzles.py:233-235 | the folder ends with `/`; it is unchanged exactly when it already did, and otherwise gets one `/` appended |
| Crossword.NormaliseFolderIdempotent | crossword_puzzles.py:233-235 | normalising twice is normalising once |
| Crossword.Folder | crossword_puzzles.py:215-235 | `get_folder()` returns a path ending in `/`, the entered path or that path with `/` appended, exactly when the entered path is accepted |
| CrosswordMain.Step | crossword_puzzles.py:93-148 | a pass keeps the date valid, counts at most one puzzle and removes no file |
| CrosswordMain.FetchPdf | crossword_puzzles.py:112-121 | the pdf half of a pass keeps the date valid, counts at most one puzzle and removes no file |
| CrosswordMain.SavePdf | crossword_puzzles.py:123-141 | writing a pdf counts it and stores the pdf bytes under `tmdcp<yyyymmdd>.pdf` for the current date |
| CrosswordMain.Advance | crossword_puzzles.py:99-102 | `date_obj += ONE_DAY; continue`: the loop goes on, with only the date changed to the next day, exactly when the date is not `date.max`; otherwise it stops on the overflow, with the state unchanged |
| CrosswordMain.Contains | crossword_puzzles.py:106 | `str.find(sub) > -1`. It has no `ensures`; `ContainsIffOccurs` states that it holds exactly when `sub` occurs somewhere in the text |
| CrosswordMain.PdfFileName | crossword_puzzles.py:124 | `folder + 'tmdcp' + yyyymmdd + '.pdf'`: 17 characters longer than the folder, starting with the folder and `tmdcp` and ending in `.pdf`; `PdfFileNameInjective` states that different days give different names |
| CrosswordMain.ExitStatus | crossword_puzzles.py:109-137 | the process status of each way of stopping: the status itself for `exit(status)`, 1 for a failed login and for uncaught exceptions, 0 for the end of the chain and for the cap. It has no `ensures`; the stop lemmas state the status of each halt |
| CrosswordMain.Run | crossword_puzzles.py:93-151 | the `while num_puzzles < MAX_PUZZLES` loop, one page per pass. It has no `ensures`; `Download` is proved equal to it, and `RunRespectsCap`, `RunCountsItsFiles` and `RunWritesOnlyPuzzleFiles` state its properties |
| CrosswordMain.Session | crossword_puzzles.py:75-151 | `main` after the prompts: the login check, then the loop. It has no `ensures`; `Download` is proved equal to it, and `LoginServerErrorIgnored` and `FirstPageWithoutPdfLinkHalts` state its properties |
| CrosswordMain.Pass | crossword_puzzles.py:95-110 | the imperative pass body computes exactly `Step` |
| CrosswordMain.PassPdf | crossword_puzzles.py:112-121 | the `for link in ...: pdf_url = ...` loop and the pdf fetch compute exactly `FetchPdf` (the last link wins, and without a link the previous `pdf_url` is kept) |
| CrosswordMain.PassSave | crossword_puzzles.py:123-141 | the write and the next-link loop compute exactly `SavePdf` |
| CrosswordMain.Download | crossword_puzzles.py:75-151 | the `while num_puzzles < MAX_PUZZLES` loop, after the login check, computes exactly `Session` |
| CrosswordProps.PageErrorSkipsOneDay | crossword_puzzles.py:98-102 | a 500 on a page moves on by exactly one day, writing and counting nothing, after requesting only that page |
| CrosswordProps.PdfErrorSkipsOneDay | crossword_puzzles.py:113-121 | a 500 on the pdf moves on by exactly one day, writing nothing, after requesting the page and the last target=_new link |
| CrosswordProps.SkipOnLastDateOverflows | crossword_puzzles.py:99-101 | a skip on `date.max` stops the run on OverflowError |
| CrosswordProps.SuccessfulPassWritesOneFile | crossword_puzzles.py:113-141 | with page and pdf both 2xx, one file named after the date is written and counted; the pass stops normally exactly when there is no next link or it leads back to the page, and moves to the date of the last next link exactly when that link converts |
| CrosswordProps.SavePdfNext | crossword_puzzles.py:129-141 | after the write, the pass stops normally or follows the last next link, in both directions |
| CrosswordProps.LoginCheckOnlyOnFirstPuzzle | crossword_puzzles.py:106-109 | once a puzzle is counted, the page text no longer matters |
| CrosswordProps.SampleMarkerMeansLoginFailed | crossword_puzzles.py:106-109 | the sample marker on any 2xx page that loads before the first puzzle is written stops the run with exit status 1 |
| CrosswordProps.FatalStatusStops | crossword_puzzles.py:170-174 | a page status other than 500 and outside 2xx stops the run with that status |
| CrosswordProps.PdfFatalStatusStops | crossword_puzzles.py:117-118 | a pdf status other than 500 and outside 2xx stops the run with that status (line 174), with nothing written and nothing counted |
| CrosswordProps.PdfUrlUnboundStops | crossword_puzzles.py:113-117 | a pass with no target=_new link and no earlier `pdf_url` stops on the unbound name with exit status 1, after requesting only the page |
| CrosswordProps.FirstPageWithoutPdfLinkHalts | crossword_puzzles.py:113-117 | a session whose first page loads without a target=_new link ends there on the unbound `pdf_url`, with no file written |
| CrosswordProps.ContainsIffOccurs | crossword_puzzles.py:106 | `page_html.find(SAMPLE_MSG) > -1` holds exactly when the marker occurs at some position of the text |
| CrosswordProps.PdfFileNameInjective | crossword_puzzles.py:124 | two valid dates with the same pdf file name in the same folder are the same date |
| CrosswordProps.CompactDigits | crossword_puzzles.py:124 | the digits of `%Y%m%d` give back the year, the month and the day |
| CrosswordProps.LoginServerErrorIgnored | crossword_puzzles.py:82-84 | a 500 answer to the login POST runs exactly like a 200 |
| CrosswordProps.RunRespectsCap | crossword_puzzles.py:93-151 | a run never counts more than MAX_PUZZLES, and stopping at the cap means exactly MAX_PUZZLES were counted |
| CrosswordProps.RunCountsItsFiles | crossword_puzzles.py:93-148 | a run only adds files, and adds no more new files than it counts puzzles |
| CrosswordProps.RunWritesOnlyPuzzleFiles | crossword_puzzles.py:124-127 | every file a run adds is the pdf name of some valid date |
| CrosswordProps.StepWritesAtMostOne | crossword_puzzles.py:123-127 | a pass adds at most the current day's pdf, and counts it when it adds it |
| CrosswordProps.StepFiles | crossword_puzzles.py:123-127 | a pass leaves the files alone when it counts nothing, and otherwise stores the pdf under the current day's name |
| CrosswordProps.SkipScenario | crossword_puzzles.py:46-48 | the page for 2011-05-08 answering 500 leads to 2011-05-09 with no file written, after requesting `/daily-commuter/2011/05/08` |
| CrosswordProps.ScenarioDateText | crossword_puzzles.py:272 | 2011-05-08 is spelled `2011/05/08` |
| AactDownloads.StripLeadingShape | aact_downloads.py:82 | the leading half of `strip()` removes exactly a prefix of whitespace, stopping at a non-space |
| AactDownloads.StripTrailingShape | aact_downloads.py:82 | the trailing half of `strip()` removes exactly a suffix of whitespace, stopping at a non-space |
| AactDownloads.StripShape | aact_downloads.py:82 | the file name is a slice of the anchor text with only whitespace around it, and it begins and ends with a non-space |
| AactDownloads.Strip | aact_downloads.py:82 | `str.strip()`. It has no `ensures`; `StripShape` states what it removes |
| AactDownloads.FileName | aact_downloads.py:82 | `file_name = anchor.getText().strip()`. It has no `ensures`; `StripShape` and `ExampleNameIsStripped` state its properties |
| AactDownloads.Destination | aact_downloads.py:84-85 | `FOLDER + yyyymmdd + ".txt"`. It has no `ensures`; `ZipPathIsNotDestination` and `DestinationExample` state its properties |
| AactDownloads.ZipPath | aact_downloads.py:97 | the zip is written to `FOLDER + file_name`. It has no `ensures`; `ZipPathIsNotDestination` states that it is never the destination |
| AactDownloads.Stem | aact_downloads.py:84 | `split("_")[0]` is a prefix without `_` that stops at the first `_` or at the end |
| AactDownloads.StemBeforeUnderscore | aact_downloads.py:84 | the stem of `p + "_" + r` is `p` when `p` has no underscore |
| AactDownloads.ZipPathIsNotDestination | aact_downloads.py:85-105 | an anchor's temporary zip path is never its destination, so deleting the zip keeps the extracted file |
| AactDownloads.DestinationExample | aact_downloads.py:82-85 | the catalog entry `20230101_clinical.zip` is saved as `FOLDER + "20230101" + ".txt"` |
| AactDownloads.ExampleNameIsStripped | aact_downloads.py:82 | the name `20230101_clinical.zip` has nothing to strip |
| AactDownloads.ExampleStem | aact_downloads.py:84 | the stem of `20230101_clinical.zip` is `20230101` |
| AactDownloads.IsZipInFolder | aact_downloads.py:56 | a match of `glob.glob(FOLDER + "*.zip")`: a non-hidden file directly in the folder whose name ends in `.zip`. It has no `ensures`; `Cleanup` states what removing the matches does |
| AactDownloads.IsTemporary | aact_downloads.py:56 | the files the clean-up lists: the `*.zip` matches and `FOLDER + "studies.txt"`. It has no `ensures`; `Cleanup` states its properties |
| AactDownloads.WithoutTemporaries | aact_downloads.py:56-61 | the folder with the listed files removed. It has no `ensures`; `Cleanup` is proved equal to it and to have removed exactly the temporaries |
| AactDownloads.Cleanup | aact_downloads.py:56-61 | afterwards no temporary file (a non-hidden `*.zip` directly in the folder, or `studies.txt`) is left, every other file is untouched, nothing is added |
| AactDownloads.Visit | aact_downloads.py:81-112 | the loop body with its two handlers: the already-present check, the request, the zip write and, through `Unpack`, the extraction and deletion. It has no `ensures`; `ProcessAnchor` is proved equal to it, and the `AactProps` lemmas on one anchor state its properties |
| AactDownloads.Unpack | aact_downloads.py:101-105 | extract `studies.txt` as the destination, then delete the zip. It has no `ensures`; `UnpackTouchesOnlyItsPaths` and `SavedAnchorLeavesOnlyDestination` state its properties |
| AactDownloads.RunAnchors | aact_downloads.py:80-112 | `for anchor in anchor_list`, ending after a keyboard interrupt. It has no `ensures`; `DownloadAll` is proved equal to it, and the `AactProps` loop lemmas state its properties |
| AactDownloads.ProcessAnchor | aact_downloads.py:81-112 | the imperative loop body computes exactly `Visit` |
| AactDownloads.DownloadAll | aact_downloads.py:80-112 | the imperative anchor loop computes exactly `RunAnchors` |
| AactDownloads.Script | aact_downloads.py:56-114 | the script is the clean-up followed by the anchor loop |
| AactProps.PresentDestinationIsSkipped | aact_downloads.py:86-88 | an anchor whose destination exists is not requested and changes nothing |
| AactProps.SavedAnchorLeavesOnlyDestination | aact_downloads.py:91-105 | after a saved anchor the destination holds the zip's `studies.txt`, the zip is gone, and no other file was added, removed or changed |
| AactProps.SavedExactlyWhen | aact_downloads.py:81-112 | an anchor is saved exactly when there is no interrupt, no destination yet, an href, a non-empty name, a delivered zip and a `studies.txt` member |
| AactProps.FailedAnchorCreatesNoDestination | aact_downloads.py:108-112 | a failed anchor creates no destination, leaves at most its zip behind and changes no other file |
| AactProps.RefusedRequestChangesNothing | aact_downloads.py:93-95 | a refused request is reported with the requested URL and changes nothing |
| AactProps.VisitTouchesOnlyItsPaths | aact_downloads.py:81-107 | one anchor changes no file except its zip and its destination, and removes nothing but its zip |
| AactProps.UnpackTouchesOnlyItsPaths | aact_downloads.py:101-105 | extraction and deletion change no file except the destination and the zip |
| AactProps.RunAnchorsStep | aact_downloads.py:80-112 | after an anchor that is not interrupted, the loop goes on with the next anchor on the folder it left |
| AactProps.RunKeepsOtherFiles | aact_downloads.py:80-112 | a file that is no anchor's temporary zip survives the loop unchanged |
| AactProps.InterruptEndsTheLoop | aact_downloads.py:108-110 | every anchor gets a report unless an interrupt came, and an interrupt is always the last report |
| AactProps.ProcessedInDocumentOrder | aact_downloads.py:80 | the report on anchor j is what processing it does to the folder the anchors before it left |
| AactProps.RerunWhenAllPresent | aact_downloads.py:86-88 | when every destination exists, a re-run requests nothing and leaves the folder as it is |
| AactProps.PresentIsNotRequested | aact_downloads.py:86-88 | an anchor whose destination is present is not requested, unless an earlier anchor writes its zip at that path |
| AactProps.SavedStaysSaved | aact_downloads.py:80-112 | a saved destination is still there at the end of the loop, unless some anchor writes its zip at that path |
| AactProps.ResumeSkipsSavedAnchors | aact_downloads.py:36-38 | provided no anchor's zip path is another anchor's destination and no destination is a temporary file (`NoClash`): resuming after an interrupted run does not request an anchor that the first run saved under the same name |
| AactProps.ResumeKeepsSavedFiles | aact_downloads.py:36-38 | provided no anchor's zip path is another anchor's destination and no destination is a temporary file (`NoClash`): a destination the first run saved is still in the folder after a second run's clean-up and anchor loop, with the same contents |

## Left out

- HTTP, the HTML parser and the sessions are left out. Each pass of the
  crossword loop instead receives a `Page` value (statuses, text, the hrefs of
  the two `find_all` filters, the pdf bytes), and each archive anchor carries its
  response.
- The catalog fetch at aact_downloads.py:64-77 is not modelled: the request,
  the parse, and the IndexError when there are fewer than four `select` tags.
  The loop starts from the resulting anchor sequence.
- `print` output is not modelled: progress lines, messages, and the traceback
  printed by the generic handler at aact_downloads.py:111-112.
- `sleep(1)` is not modelled.
- `get_login_credentials` reads the terminal and is not modelled. The login
  POST is reduced to its status code.
- The prompt loops of `get_start_date` and `get_folder` are not modelled. Each
  is reduced to one accepted attempt (`AcceptStartDate`, `AcceptFolder`);
  retrying is the user's side.
- The clock is a parameter: `date.today()` is passed in as `today`.
- The file system's answers are parameters: `os.path.isdir` and
  `os.access(.., W_OK)` arrive as booleans.
- Directories are not modelled: `os.path.exists(destination)` is true only for
  files in the store.
- The exit status is the argument of SystemExit (or 1 for an uncaught
  exception). The operating system truncates it to 8 bits; that truncation is
  not modelled.
- DateText.ParseSlashed: digits are ASCII only. Python's `\d` in the `%Y`,
  `%m` and `%d` patterns also accepts other Unicode decimal digits.
- DateText.FormatSlashed: years below 1000 are zero-padded to four digits.
  Some C libraries do not pad `%Y`; the crossword dates never fall there.
- AactDownloads.IsZipInFolder: `glob` is matched case-sensitively, and its
  other special cases are left out.
- AactDownloads.Unpack: `ZipFile.extract` writes the member under its renamed
  name `<yyyymmdd>.txt`. Its sanitising of member names and a partially
  written file are not modelled. A write either completes or does not happen.
- AactDownloads.Visit: an `href` attribute missing from the anchor is modelled
  as `URL + None`, which raises TypeError. A control-C that arrives while the
  generic `except` handler runs is not modelled.
- AactProps.ResumeSkipsSavedAnchors, AactProps.ResumeKeepsSavedFiles: both
  assume `NoClash`: no anchor's temporary zip path is another anchor's
  destination, and no destination is a temporary file. Catalog names of the
  form `yyyymmdd_*.zip` satisfy both. Without these assumptions the
  promises fail, for two reasons:
  - a later zip could overwrite a saved destination;
  - an anchor named `studies_2023.zip` is saved as `FOLDER + "studies.txt"`,
    which the next run's clean-up deletes.
- AactDownloads, AactProps: paths are compared as exact strings. The data
  folder is a Windows path, where `os.path.exists` and file identity ignore
  case; the keys of the file store do not.
- CrosswordMain.Page: only href values can be represented, and every GET
  returns a status. A `target=_new` or "Play next puzzle." link with no
  `href` is not modelled. In the source, `link.get('href')` is then `None`.
  `session.get(url=None)` raises at crossword_puzzles.py:117, and
  `URL_ROOT + None` raises TypeError at crossword_puzzles.py:132. Both end the
  run with status 1.
- CrosswordMain.Page: a crossword GET that raises (a connection error, say)
  is not modelled either; it would end the run with status 1.
  The archive side does model both cases: `Anchor.href` is an `Option`, and
  `Refused` covers a request that raises.
- `beautiful_mitre.py` and `setup.py` are not part of this model.
