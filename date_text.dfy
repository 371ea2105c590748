/**
 * The two date formats the crossword downloader uses:
 * `strftime('%Y/%m/%d')` for page URLs, `strftime('%Y%m%d')` for file names,
 * and `datetime.strptime(s, '%Y/%m/%d').date()` for reading dates back.
 *
 * Python's `_strptime` turns '%Y/%m/%d' into the regular expression
 * `(\d\d\d\d)/(1[0-2]|0[1-9]|[1-9])/(3[01]|[12]\d|0[1-9]|[1-9]| [1-9])`,
 * takes the first match at the start of the string, raises ValueError when
 * there is none or when characters are left over, and raises ValueError again
 * when the numbers do not form a valid date. `None` below is that ValueError.
 */
module DateText {
  import opened Wrappers
  import opened Calendar

  predicate IsDigit(c: char) {
    '0' <= c <= '9'
  }

  function DigitValue(c: char): (n: int)
    requires IsDigit(c)
    ensures 0 <= n <= 9
  {
    c as int - '0' as int
  }

  function DigitChar(n: int): (c: char)
    requires 0 <= n <= 9
    ensures IsDigit(c) && DigitValue(c) == n
  {
    (n + '0' as int) as char
  }

  /** A zero-padded two-digit field (`%m`, `%d`). */
  function Pad2(n: int): (s: string)
    requires 0 <= n <= 99
    ensures |s| == 2 && IsDigit(s[0]) && IsDigit(s[1])
    ensures 10 * DigitValue(s[0]) + DigitValue(s[1]) == n
  {
    [DigitChar(n / 10), DigitChar(n % 10)]
  }

  /** A zero-padded four-digit year (`%Y`). */
  function Pad4(n: int): (s: string)
    requires 0 <= n <= 9999
    ensures |s| == 4 && IsDigit(s[0]) && IsDigit(s[1]) && IsDigit(s[2]) && IsDigit(s[3])
    ensures FourDigitValue(s) == n
  {
    var s := [DigitChar(n / 1000), DigitChar(n / 100 % 10), DigitChar(n / 10 % 10), DigitChar(n % 10)];
    assert FourDigitValue(s) == n by { DecimalDigits(n); }
    s
  }

  lemma DecimalDigits(n: int)
    requires 0 <= n <= 9999
    ensures 1000 * (n / 1000) + 100 * (n / 100 % 10) + 10 * (n / 10 % 10) + n % 10 == n
  {
    var q1, q2, q3 := n / 10, n / 100, n / 1000;
    assert n == 10 * q1 + n % 10;
    assert q1 == 10 * (q1 / 10) + q1 % 10;
    assert q1 / 10 == q2;
    assert q2 == 10 * (q2 / 10) + q2 % 10;
    assert q2 / 10 == q3;
    assert q1 % 10 == n / 10 % 10;
  }

  function FourDigitValue(s: string): int
    requires |s| >= 4 && IsDigit(s[0]) && IsDigit(s[1]) && IsDigit(s[2]) && IsDigit(s[3])
  {
    1000 * DigitValue(s[0]) + 100 * DigitValue(s[1]) + 10 * DigitValue(s[2]) + DigitValue(s[3])
  }

  /** `d.strftime('%Y/%m/%d')`. */
  function FormatSlashed(d: Date): (s: string)
    requires IsValid(d)
    ensures |s| == 10 && s[4] == '/' && s[7] == '/'
  {
    Pad4(d.year) + "/" + Pad2(d.month) + "/" + Pad2(d.day)
  }

  /** `d.strftime('%Y%m%d')`. */
  function FormatCompact(d: Date): (s: string)
    requires IsValid(d)
    ensures |s| == 8 && forall i :: 0 <= i < 8 ==> IsDigit(s[i])
  {
    Pad4(d.year) + Pad2(d.month) + Pad2(d.day)
  }

  /**
   * The first alternative of `1[0-2]|0[1-9]|[1-9]` that matches at the start
   * of `s`: the month and the number of characters it took.
   */
  function MatchMonth(s: string): (r: Option<(int, int)>)
    ensures r.Some? ==> 1 <= r.value.0 <= 12 && 1 <= r.value.1 <= 2 && r.value.1 <= |s|
    ensures r.Some? && r.value.1 == 2 ==> s[..2] == Pad2(r.value.0)
    ensures (|s| >= 2 && s[..2] in {"01", "02", "03", "04", "05", "06", "07", "08", "09", "10", "11", "12"})
            ==> r.Some? && r.value.1 == 2
  {
    if |s| >= 2 && s[0] == '1' && '0' <= s[1] <= '2' then Some((10 + DigitValue(s[1]), 2))
    else if |s| >= 2 && s[0] == '0' && '1' <= s[1] <= '9' then Some((DigitValue(s[1]), 2))
    else if |s| >= 1 && '1' <= s[0] <= '9' then Some((DigitValue(s[0]), 1))
    else None
  }

  /**
   * The first alternative of `3[01]|[12]\d|0[1-9]|[1-9]| [1-9]` that matches
   * at the start of `s`: the day and the number of characters it took.
   */
  function MatchDay(s: string): (r: Option<(int, int)>)
    ensures r.Some? ==> 1 <= r.value.0 <= 31 && 1 <= r.value.1 <= 2 && r.value.1 <= |s|
    ensures r.Some? && r.value.1 == 2 && s[0] != ' ' ==> s[..2] == Pad2(r.value.0)
  {
    if |s| >= 2 && s[0] == '3' && (s[1] == '0' || s[1] == '1') then Some((30 + DigitValue(s[1]), 2))
    else if |s| >= 2 && (s[0] == '1' || s[0] == '2') && IsDigit(s[1]) then Some((10 * DigitValue(s[0]) + DigitValue(s[1]), 2))
    else if |s| >= 2 && s[0] == '0' && '1' <= s[1] <= '9' then Some((DigitValue(s[1]), 2))
    else if |s| >= 1 && '1' <= s[0] <= '9' then Some((DigitValue(s[0]), 1))
    else if |s| >= 2 && s[0] == ' ' && '1' <= s[1] <= '9' then Some((DigitValue(s[1]), 2))
    else None
  }

  /** `datetime.strptime(s, '%Y/%m/%d').date()`, with `None` for ValueError. */
  function ParseSlashed(s: string): (r: Option<Date>)
    ensures r.Some? ==> IsValid(r.value)
  {
    if |s| < 5 || !(IsDigit(s[0]) && IsDigit(s[1]) && IsDigit(s[2]) && IsDigit(s[3])) || s[4] != '/' then None
    else
      match MatchMonth(s[5..])
      case None => None
      case Some((month, k)) =>
        var rest := s[5 + k..];
        if |rest| == 0 || rest[0] != '/' then None
        else
          match MatchDay(rest[1..])
          case None => None
          case Some((day, j)) =>
            if j != |rest| - 1 then None  // "unconverted data remains"
            else
              var d := Date(FourDigitValue(s), month, day);
              if IsValid(d) then Some(d) else None
  }

  /** Formatting a date and reading it back gives the same date. */
  lemma ParseFormatSlashed(d: Date)
    requires IsValid(d)
    ensures ParseSlashed(FormatSlashed(d)) == Some(d)
  {
    var s := FormatSlashed(d);
    var mm, dd := Pad2(d.month), Pad2(d.day);
    assert s[..4] == Pad4(d.year);
    assert s[5..] == mm + "/" + dd;
    MatchPaddedMonth(d.month, "/" + dd);
    assert s[8..] == dd;
    MatchPaddedDay(d.day);
    ParseTenCharacters(s, d.month, d.day);
  }

  /** How a ten-character string parses once both fields are known to match in full. */
  lemma ParseTenCharacters(s: string, month: int, day: int)
    requires |s| == 10 && IsDigit(s[0]) && IsDigit(s[1]) && IsDigit(s[2]) && IsDigit(s[3])
    requires s[4] == '/' && s[7] == '/'
    requires MatchMonth(s[5..]) == Some((month, 2)) && MatchDay(s[8..]) == Some((day, 2))
    ensures ParseSlashed(s) == if IsValid(Date(FourDigitValue(s), month, day))
                               then Some(Date(FourDigitValue(s), month, day)) else None
  {
    assert s[7..][1..] == s[8..];
  }

  /** A zero-padded month is matched in full by the `%m` pattern. */
  lemma MatchPaddedMonth(m: int, t: string)
    requires 1 <= m <= 12
    ensures MatchMonth(Pad2(m) + t) == Some((m, 2))
  {
    var s := Pad2(m) + t;
    assert s[..2] == Pad2(m);
  }

  /** A zero-padded day is matched in full by the `%d` pattern. */
  lemma MatchPaddedDay(day: int)
    requires 1 <= day <= 31
    ensures MatchDay(Pad2(day)) == Some((day, 2))
  {
  }

  /**
   * Conversely, a ten-character string that parses is the canonical spelling
   * of its date, unless its day is written with a leading space (" 5"), which
   * the `%d` pattern also accepts.
   */
  lemma FormatParseSlashed(s: string)
    requires |s| == 10 && s[8] != ' ' && ParseSlashed(s).Some?
    ensures FormatSlashed(ParseSlashed(s).value) == s
  {
    var d := ParseSlashed(s).value;
    var m := MatchMonth(s[5..]).value;
    assert m.1 == 2;
    var rest := s[7..];
    var dd := MatchDay(rest[1..]).value;
    assert dd.1 == 2;
    assert s[..4] == Pad4(d.year) by {
      Pad4Digits(s[..4]);
    }
    assert s[5..7] == Pad2(d.month);
    assert s[8..] == Pad2(d.day);
    assert s == s[..4] + "/" + s[5..7] + "/" + s[8..];
  }

  /** Four digits are the zero-padded spelling of their value. */
  lemma Pad4Digits(s: string)
    requires |s| == 4 && IsDigit(s[0]) && IsDigit(s[1]) && IsDigit(s[2]) && IsDigit(s[3])
    ensures Pad4(FourDigitValue(s)) == s
  {
    var n := FourDigitValue(s);
    var a, b, c, e := DigitValue(s[0]), DigitValue(s[1]), DigitValue(s[2]), DigitValue(s[3]);
    assert n / 1000 == a;
    assert n / 100 == 10 * a + b;
    assert n / 10 == 100 * a + 10 * b + c;
    assert n / 100 % 10 == b;
    assert n / 10 % 10 == c;
    assert n % 10 == e;
    assert Pad4(n)[0] == s[0] && Pad4(n)[1] == s[1] && Pad4(n)[2] == s[2] && Pad4(n)[3] == s[3];
  }
}
