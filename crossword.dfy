/**
 * The helper functions of the crossword downloader: the HTTP status
 * classifier `error_check`, the URL/date codecs `url_from_date`,
 * `date_from_url` and `date_from_string`, and the validation halves of the
 * prompts `get_start_date` and `get_folder` (one attempt each; the prompting
 * loop around them retries until an attempt succeeds).
 */
module Crossword {
  import opened Wrappers
  import opened Calendar
  import opened DateText

  const URL_ROOT := "https://www.puzzlesociety.com"
  const DAILY_COMMUTER := "/daily-commuter/"
  const SAMPLE_MSG := "Sample Only. Become a Puzzle Society member to play"
  const MAX_PUZZLES := 10000

  /** The first date the site has a puzzle for. */
  const FIRST_DATE := Date(2001, 10, 29)

  // ---------------------------------------------------------------- error_check

  /**
   * What `error_check` does with a status code: returns SKIP, calls
   * `exit(code)`, returns CONTINUE, or returns None.
   */
  datatype Action = Skip | Exit(code: int) | Continue | NoAction

  /**
   * `error_check(status_code, url)`. The source tests `status_code // 100 != 2`;
   * Python's floor division and Dafny's Euclidean division agree for the
   * positive divisor 100, so `/` is used as is.
   */
  function ErrorCheck(status: int): (a: Action)
    ensures a == Skip <==> status == 500
    ensures a.Exit? <==> status != 500 && !(200 <= status <= 299)
    ensures a.Exit? ==> a.code == status
    ensures a == Continue <==> 201 <= status <= 299
    ensures a == NoAction <==> status == 200
  {
    if status == 500 then Skip
    else if status / 100 != 2 then Exit(status)
    else if status != 200 then Continue
    else NoAction
  }

  // ------------------------------------------------------------- URL and dates

  /** `url_from_date(date_obj)`. */
  function UrlFromDate(d: Date): (url: string)
    requires IsValid(d)
    ensures |url| > 10 && url[|url| - 10..] == FormatSlashed(d)
  {
    URL_ROOT + DAILY_COMMUTER + FormatSlashed(d)
  }

  /**
   * `date_from_string(date_string)`; `None` is the ValueError it raises. The
   * source names this helper separately from the `strptime` call it wraps, and
   * so does the model: the parsing itself is `DateText.ParseSlashed`.
   */
  function DateFromString(s: string): (r: Option<Date>)
    ensures r.Some? ==> IsValid(r.value)
  {
    ParseSlashed(s)
  }

  /** Python's `s[-10:]`: the last ten characters, or all of a shorter string. */
  function LastTen(s: string): (t: string)
    ensures |t| == if |s| < 10 then |s| else 10
    ensures s == s[..|s| - |t|] + t
  {
    if |s| <= 10 then s else s[|s| - 10..]
  }

  /** `date_from_url(url)`: the date spelled by the URL's last ten characters. */
  function DateFromUrl(url: string): (r: Option<Date>)
    ensures r.Some? ==> IsValid(r.value)
  {
    DateFromString(LastTen(url))
  }

  /** The page URL of a date leads back to that date. */
  lemma DateFromUrlFromDate(d: Date)
    requires IsValid(d)
    ensures DateFromUrl(UrlFromDate(d)) == Some(d)
  {
    ParseFormatSlashed(d);
  }

  /** Two dates with the same page URL are the same date. */
  lemma UrlFromDateInjective(a: Date, b: Date)
    requires IsValid(a) && IsValid(b) && UrlFromDate(a) == UrlFromDate(b)
    ensures a == b
  {
    DateFromUrlFromDate(a);
    DateFromUrlFromDate(b);
  }

  // ------------------------------------------------------------- get_start_date

  /** Why one start-date attempt does not give a date. */
  datatype StartDateError =
    | TomorrowOverflows  // `date.today() + ONE_DAY` raises OverflowError before any prompt
    | NotInFormat        // `date_from_string` raised ValueError: prompt again
    | OutOfRange         // parsed, but not between the first date and tomorrow: prompt again

  /**
   * One pass of the prompt loop in `get_start_date`: the entered date is kept
   * when it parses and lies between FIRST_DATE and `today + 1` inclusive.
   */
  function AcceptStartDate(input: string, today: Date): (r: Result<Date, StartDateError>)
    requires IsValid(today)
    ensures r.Ok? <==>
              today != MAX_DATE && DateFromString(input).Some?
              && NotAfter(FIRST_DATE, DateFromString(input).value)
              && NotAfter(DateFromString(input).value, NextDay(today))
    ensures r.Ok? ==> r.value == DateFromString(input).value
    ensures r == Err(NotInFormat) <==> today != MAX_DATE && DateFromString(input).None?
  {
    var lastDate := NextDay(today);
    if !IsValid(lastDate) then Err(TomorrowOverflows)
    else match DateFromString(input)
      case None => Err(NotInFormat)
      case Some(d) =>
        if NotAfter(FIRST_DATE, d) && NotAfter(d, lastDate) then Ok(d) else Err(OutOfRange)
  }

  /** The tail of `get_start_date`: a Sunday start moves on to the Monday. */
  function SkipSunday(d: Date): (r: Date)
    requires IsValid(d)
    ensures r == d || r == NextDay(d)
    ensures r == NextDay(d) <==> Weekday(d) == SUNDAY
  {
    if Weekday(d) == SUNDAY then NextDay(d) else d
  }

  /** `get_start_date()` for an attempt that is accepted, with the clock read as `today`. */
  function StartDate(input: string, today: Date): (r: Result<Date, StartDateError>)
    requires IsValid(today)
  {
    match AcceptStartDate(input, today)
    case Err(e) => Err(e)
    case Ok(d) => Ok(SkipSunday(d))
  }

  /**
   * What `get_start_date` promises: the start date is valid and never a
   * Sunday, it is the entered date or (only for a Sunday) the day after, and
   * it is at most two days after today.
   */
  lemma StartDateProperties(input: string, today: Date)
    requires IsValid(today) && StartDate(input, today).Ok?
    ensures var d := DateFromString(input).value;
            var r := StartDate(input, today).value;
            && NotAfter(FIRST_DATE, d) && NotAfter(d, NextDay(today))
            && IsValid(r) && Weekday(r) != SUNDAY
            && (r == d || (r == NextDay(d) && Weekday(d) == SUNDAY))
            && NotAfter(FIRST_DATE, r)
            && NotAfter(r, NextDay(NextDay(today)))
  {
    var d := DateFromString(input).value;
    var r := StartDate(input, today).value;
    assert IsValid(NextDay(today));
    if Weekday(d) == SUNDAY {
      MaxDateIsFriday();
      assert d != MAX_DATE;
      WeekdayOfNextDay(d);
      NextDayMonotone(d, NextDay(today));
    } else {
      assert NotAfter(NextDay(today), NextDay(NextDay(today)));
    }
  }

  // ----------------------------------------------------------------- get_folder

  /** Why one folder attempt is refused. */
  datatype FolderError = NotAFolder | NotWritable

  /**
   * The checks of one pass of the prompt loop in `get_folder`. `isDir` and
   * `writable` are the answers of `os.path.isdir` and `os.access(.., W_OK)`;
   * `os.path.isdir('')` is always false, so the empty path is refused however
   * the oracle answers.
   */
  function AcceptFolder(folder: string, isDir: bool, writable: bool): (r: Result<string, FolderError>)
    ensures r.Ok? <==> folder != "" && isDir && writable
    ensures r.Ok? ==> r.value == folder
    ensures r == Err(NotAFolder) <==> folder == "" || !isDir
  {
    if folder == "" || !isDir then Err(NotAFolder)
    else if !writable then Err(NotWritable)
    else Ok(folder)
  }

  /** The tail of `get_folder`: append `/` unless the path already ends with one. */
  function NormaliseFolder(folder: string): (r: string)
    requires folder != ""
    ensures r != "" && r[|r| - 1] == '/'
    ensures r == folder <==> folder[|folder| - 1] == '/'
    ensures r != folder ==> r == folder + "/"
  {
    if folder[|folder| - 1] != '/' then folder + "/" else folder
  }

  /** Normalising an already normalised folder changes nothing. */
  lemma NormaliseFolderIdempotent(folder: string)
    requires folder != ""
    ensures NormaliseFolder(NormaliseFolder(folder)) == NormaliseFolder(folder)
  {
  }

  /** `get_folder()` for an attempt that is accepted. */
  function Folder(folder: string, isDir: bool, writable: bool): (r: Result<string, FolderError>)
    ensures r.Ok? <==> AcceptFolder(folder, isDir, writable).Ok?
    ensures r.Ok? ==> r.value != "" && r.value[|r.value| - 1] == '/'
    ensures r.Ok? ==> r.value == folder || r.value == folder + "/"
  {
    match AcceptFolder(folder, isDir, writable)
    case Err(e) => Err(e)
    case Ok(f) => Ok(NormaliseFolder(f))
  }
}
