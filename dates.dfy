/**
 * The check-in/check-out validation of the booking rules
 * (`BookingDomainImpl.validateDates`) and the calendar dates it parses in the
 * ISO 8601 complete extended format YYYY-MM-DD, as `LocalDate.parse` reads
 * them with a strict resolver.
 */
module BookingDates {
  import opened Wrappers
  import opened Guard

  /** A calendar date of the proleptic Gregorian calendar. */
  datatype Date = Date(year: int, month: int, day: int)

  predicate IsLeapYear(y: int) {
    y % 4 == 0 && (y % 100 != 0 || y % 400 == 0)
  }

  function DaysInMonth(y: int, m: int): (n: int)
    requires 1 <= m <= 12
    ensures 28 <= n <= 31
    ensures n == 29 <==> m == 2 && IsLeapYear(y)
  {
    if m == 2 then (if IsLeapYear(y) then 29 else 28)
    else if m == 4 || m == 6 || m == 9 || m == 11 then 30
    else 31
  }

  /** A date with a four-digit year, a month of the year and a day of that month. */
  predicate ValidDate(d: Date) {
    && 0 <= d.year <= 9999
    && 1 <= d.month <= 12
    && 1 <= d.day <= DaysInMonth(d.year, d.month)
  }

  predicate IsDigit(c: char) {
    '0' <= c <= '9'
  }

  predicate AllDigits(s: string) {
    forall i | 0 <= i < |s| :: IsDigit(s[i])
  }

  /** The value of a string of decimal digits, most significant first. */
  function Number(s: string): (n: nat)
    requires AllDigits(s)
  {
    if s == [] then 0
    else Number(s[..|s| - 1]) * 10 + (s[|s| - 1] as int - '0' as int)
  }

  function Pow10(k: nat): (p: nat)
    ensures p >= 1
  {
    if k == 0 then 1 else 10 * Pow10(k - 1)
  }

  /** The last `width` decimal digits of `n`, with leading zeros. */
  function Pad(n: nat, width: nat): (s: string)
    ensures |s| == width
    ensures AllDigits(s)
  {
    if width == 0 then ""
    else Pad(n / 10, width - 1) + [(('0' as int) + n % 10) as char]
  }

  /** Digits, a hyphen, two digits, a hyphen, two digits. */
  predicate Shaped(s: string) {
    && |s| == 10
    && s[4] == '-' && s[7] == '-'
    && AllDigits(s[..4]) && AllDigits(s[5..7]) && AllDigits(s[8..])
  }

  /** `LocalDate.parse`: `None` is the DateTimeParseException. */
  function ParseDate(s: string): (r: Option<Date>)
    ensures r.Some? ==> ValidDate(r.value) && Shaped(s)
  {
    if !Shaped(s) then None
    else
      var d := Date(Number(s[..4]), Number(s[5..7]), Number(s[8..]));
      if ValidDate(d) then Some(d) else None
  }

  /** The ISO 8601 text of a date: `LocalDate.toString` for years 0000 to 9999. */
  function FormatDate(d: Date): (s: string)
    requires ValidDate(d)
    ensures Shaped(s)
  {
    Pad(d.year, 4) + "-" + Pad(d.month, 2) + "-" + Pad(d.day, 2)
  }

  /** `LocalDate.isBefore`: earlier year, or same year and earlier month, or same month and earlier day. */
  predicate Before(a: Date, b: Date) {
    || a.year < b.year
    || (a.year == b.year && a.month < b.month)
    || (a.year == b.year && a.month == b.month && a.day < b.day)
  }

  lemma {:induction false} NumberOfPad(n: nat, width: nat)
    ensures Number(Pad(n, width)) == n % Pow10(width)
  {
    if width > 0 {
      NumberOfPad(n / 10, width - 1);
      var s := Pad(n, width);
      assert s[..|s| - 1] == Pad(n / 10, width - 1);
      assert (n / 10) % Pow10(width - 1) * 10 + n % 10 == n % Pow10(width) by {
        DivModPow10(n, width);
      }
    }
  }

  lemma DivModPow10(n: nat, width: nat)
    requires width > 0
    ensures (n / 10) % Pow10(width - 1) * 10 + n % 10 == n % Pow10(width)
  {
    var q := n / 10;
    var p := Pow10(width - 1);
    assert Pow10(width) == 10 * p;
    var a := q / p;
    var b := q % p;
    assert n == (a * p + b) * 10 + n % 10;
    assert n == a * (10 * p) + (b * 10 + n % 10);
    assert 0 <= b * 10 + n % 10 < 10 * p;
    ModUnique(n, 10 * p, a, b * 10 + n % 10);
  }

  lemma ModUnique(n: int, m: int, a: int, r: int)
    requires m > 0 && 0 <= r < m && n == a * m + r
    ensures n % m == r
  {
    var q, s := n / m, n % m;
    assert (q - a) * m == r - s;
    if q - a >= 1 {
      MulAtLeast(q - a, m);
    } else if a - q >= 1 {
      MulAtLeast(a - q, m);
    }
  }

  lemma {:induction false} MulAtLeast(k: int, m: int)
    requires k >= 1 && m > 0
    ensures k * m >= m
  {
    if k > 1 {
      MulAtLeast(k - 1, m);
    }
  }

  lemma {:induction false} PadOfNumber(s: string)
    requires AllDigits(s)
    ensures Pad(Number(s), |s|) == s
  {
    if s != [] {
      var init := s[..|s| - 1];
      var n := Number(s);
      var d := s[|s| - 1] as int - '0' as int;
      assert n / 10 == Number(init) && n % 10 == d;
      PadOfNumber(init);
    }
  }

  lemma {:induction false} NumberBelow(s: string)
    requires AllDigits(s)
    ensures Number(s) < Pow10(|s|)
  {
    if s != [] {
      NumberBelow(s[..|s| - 1]);
    }
  }

  /** Parsing the text of a valid date gives the date back. */
  lemma {:induction false} ParseFormat(d: Date)
    requires ValidDate(d)
    ensures ParseDate(FormatDate(d)) == Some(d)
  {
    FormattedFields(d);
  }

  /** Each field of the text of a valid date reads back as that field. */
  lemma FormattedFields(d: Date)
    requires ValidDate(d)
    ensures var s := FormatDate(d);
      && Number(s[..4]) == d.year && Number(s[5..7]) == d.month && Number(s[8..]) == d.day
  {
    SliceFields(Pad(d.year, 4), Pad(d.month, 2), Pad(d.day, 2));
    PadReadsBack(d.year, 4);
    PadReadsBack(d.month, 2);
    PadReadsBack(d.day, 2);
  }

  /** A number with at most `width` digits reads back from its padded text. */
  lemma PadReadsBack(n: nat, width: nat)
    requires n < Pow10(width)
    ensures Number(Pad(n, width)) == n
  {
    NumberOfPad(n, width);
  }

  /** The three fields of a date text sit at fixed offsets. */
  lemma SliceFields(y: string, m: string, d: string)
    requires |y| == 4 && |m| == 2 && |d| == 2
    ensures var s := y + "-" + m + "-" + d; s[..4] == y && s[5..7] == m && s[8..] == d
  {
  }

  /** A string that parses is the canonical text of its date: parsing is injective. */
  lemma {:induction false} FormatParse(s: string)
    requires ParseDate(s).Some?
    ensures FormatDate(ParseDate(s).value) == s
  {
    PadOfNumber(s[..4]);
    PadOfNumber(s[5..7]);
    PadOfNumber(s[8..]);
    var t := FormatDate(ParseDate(s).value);
    assert t[..4] == s[..4] && t[5..7] == s[5..7] && t[8..] == s[8..];
    assert t == t[..4] + "-" + t[5..7] + "-" + t[8..];
    assert s == s[..4] + "-" + s[5..7] + "-" + s[8..];
  }

  /** `isBefore` is a strict order: no date is before itself, and it chains. */
  lemma BeforeIsStrictOrder(a: Date, b: Date, c: Date)
    ensures !Before(a, a)
    ensures Before(a, b) && Before(b, c) ==> Before(a, c)
    ensures Before(a, b) ==> !Before(b, a)
  {
  }

  const TogetherMessage: string := "checkIn and checkOut must be provided together"
  const FormatMessage: string := "invalid date format. Expected yyyy-MM-dd"
  const OrderMessage: string := "checkIn must be before checkOut"

  /**
   * `validateDates`: both dates missing (null or blank) is accepted; one
   * without the other is refused; otherwise both must parse, and check-in
   * must be strictly before check-out.
   */
  function ValidateDates(checkIn: Option<string>, checkOut: Option<string>): (r: Result<()>)
    ensures r.Err? ==> r.error.Invalid?
    ensures !HasText(checkIn) && !HasText(checkOut) ==> r.Ok?
    ensures HasText(checkIn) != HasText(checkOut) ==> r == Err(Invalid(TogetherMessage))
    ensures HasText(checkIn) && HasText(checkOut) ==>
      (r.Ok? <==> ParseDate(checkIn.value).Some? && ParseDate(checkOut.value).Some?
                  && Before(ParseDate(checkIn.value).value, ParseDate(checkOut.value).value))
    ensures HasText(checkIn) && HasText(checkOut) ==>
      (r == Err(Invalid(FormatMessage)) <==> ParseDate(checkIn.value).None? || ParseDate(checkOut.value).None?)
    ensures HasText(checkIn) && HasText(checkOut) ==>
      ParseDate(checkIn.value).Some? && ParseDate(checkOut.value).Some?
      && !Before(ParseDate(checkIn.value).value, ParseDate(checkOut.value).value) ==>
      r == Err(Invalid(OrderMessage))
  {
    var hasCheckIn := checkIn.Some? && !Blank(checkIn.value);
    var hasCheckOut := checkOut.Some? && !Blank(checkOut.value);
    if !hasCheckIn && !hasCheckOut then Ok(())
    else if hasCheckIn != hasCheckOut then Err(Invalid(TogetherMessage))
    else
      match (ParseDate(checkIn.value), ParseDate(checkOut.value))
      case (Some(arrival), Some(departure)) =>
        if !Before(arrival, departure) then Err(Invalid(OrderMessage)) else Ok(())
      case _ => Err(Invalid(FormatMessage))
  }

  /** A stay that starts and ends on the same day is refused with the ordering message. */
  lemma {:induction false} SameDayRefused(s: string)
    requires ParseDate(s).Some?
    ensures ValidateDates(Some(s), Some(s)) == Err(Invalid(OrderMessage))
  {
    assert !Blank(s) by { assert !IsWhitespace(s[0]); }
    BeforeIsStrictOrder(ParseDate(s).value, ParseDate(s).value, ParseDate(s).value);
  }

  /** Three stays around the new year: the same day and a reversed pair are refused, an ordered pair is accepted. */
  lemma OrderedStayExamples()
    ensures ValidateDates(Some("2025-01-02"), Some("2025-01-02")) == Err(Invalid(OrderMessage))
    ensures ValidateDates(Some("2025-01-02"), Some("2025-01-01")) == Err(Invalid(OrderMessage))
    ensures ValidateDates(Some("2025-01-01"), Some("2025-01-02")).Ok?
  {
    FirstOfJanuary();
    SecondOfJanuary();
    assert !IsWhitespace("2025-01-01"[0]);
    assert !IsWhitespace("2025-01-02"[0]);
  }

  lemma FirstOfJanuary()
    ensures ParseDate("2025-01-01") == Some(Date(2025, 1, 1))
  {
    YearText();
    JanuaryText();
    assert FormatDate(Date(2025, 1, 1)) == "2025-01-01";
    ParseFormat(Date(2025, 1, 1));
  }

  lemma SecondOfJanuary()
    ensures ParseDate("2025-01-02") == Some(Date(2025, 1, 2))
  {
    YearText();
    JanuaryText();
    SecondText();
    assert FormatDate(Date(2025, 1, 2)) == "2025-01-02";
    ParseFormat(Date(2025, 1, 2));
  }

  lemma YearText()
    ensures Pad(2025, 4) == "2025"
  {
  }

  lemma JanuaryText()
    ensures Pad(1, 2) == "01"
  {
  }

  lemma SecondText()
    ensures Pad(2, 2) == "02"
  {
  }

  /** Both dates absent or blank: the booking has no stay and is accepted. */
  lemma NoStayAccepted(checkIn: Option<string>, checkOut: Option<string>)
    requires checkIn.None? || Blank(checkIn.value)
    requires checkOut.None? || Blank(checkOut.value)
    ensures ValidateDates(checkIn, checkOut) == Ok(())
  {
  }
}
