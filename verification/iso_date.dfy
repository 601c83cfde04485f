/** `LocalDate.format(DateTimeFormatter.ISO_DATE)`: the year padded to four
    digits (a '+' before years above 9999), then "-MM-dd". */
module IsoDates {
  import opened Text

  datatype Date = Date(year: nat, month: nat, day: nat)

  /** The month and day ranges a `LocalDate` enforces. */
  predicate ValidDate(d: Date) {
    1 <= d.month <= 12 && 1 <= d.day <= 31
  }

  function Zeros(k: nat): (r: string)
    ensures |r| == k && forall i :: 0 <= i < k ==> r[i] == '0'
  {
    seq(k, i => '0')
  }

  /** The decimal digits of `n`, zero-padded on the left to `width`. */
  function Pad(n: nat, width: nat): (r: string)
    ensures |r| >= width
    ensures |NatToString(n)| <= width ==> |r| == width
    ensures forall i :: 0 <= i < |r| ==> '0' <= r[i] <= '9'
  {
    var digits := NatToString(n);
    if |digits| < width then Zeros(width - |digits|) + digits else digits
  }

  function FormatIsoDate(d: Date): (r: string)
    requires ValidDate(d)
    ensures |r| >= 10 && r[|r| - 6] == '-' && r[|r| - 3] == '-'
    ensures d.year <= 9999 <==> '0' <= r[0] <= '9'
  {
    NatToStringWidth(d.year);
    NatToStringWidth(d.month);
    NatToStringWidth(d.day);
    var r := YearText(d.year) + "-" + Pad(d.month, 2) + "-" + Pad(d.day, 2);
    Fields(YearText(d.year), Pad(d.month, 2), Pad(d.day, 2));
    r
  }

  function YearText(year: nat): (r: string)
    ensures |r| >= 4
    ensures year <= 9999 <==> '0' <= r[0] <= '9'
  {
    NatToStringWidth(year);
    if year > 9999 then "+" + NatToString(year) else Pad(year, 4)
  }

  /** Where the three fields sit in "year-MM-dd". */
  lemma Fields(year: string, month: string, day: string)
    requires |month| == 2 && |day| == 2
    ensures var s := year + "-" + month + "-" + day;
      && |s| == |year| + 6
      && s[|s| - 6] == '-' && s[|s| - 3] == '-'
      && s[..|s| - 6] == year && s[|s| - 5..|s| - 3] == month && s[|s| - 2..] == day
      && (year != [] ==> s[0] == year[0])
  {
  }

  /** A number above 9999 has at least five digits, and one up to 99 at most two. */
  lemma {:induction false} NatToStringWidth(n: nat)
    ensures n > 9999 ==> |NatToString(n)| >= 5
    ensures n <= 99 ==> |NatToString(n)| <= 2
    decreases n
  {
    if n >= 10 {
      NatToStringWidth(n / 10);
      if n > 9999 {
        NatToStringWidth(n / 10);
        assert n / 10 > 999;
        LongerAbove(n / 10);
      }
    }
  }

  lemma {:induction false} LongerAbove(n: nat)
    requires n > 999
    ensures |NatToString(n)| >= 4
  {
    assert n / 10 > 99 && n / 100 > 9;
    assert NatToString(n) == NatToString(n / 10) + [DigitChar(n % 10)];
    assert NatToString(n / 10) == NatToString(n / 100) + [DigitChar((n / 10) % 10)];
    assert NatToString(n / 100) == NatToString(n / 1000) + [DigitChar((n / 100) % 10)];
  }

  // ---------------------------------------------------------------------
  // Reading a formatted date back

  function DigitValue(c: char): int {
    c as int - '0' as int
  }

  /** The value of a string of decimal digits. */
  function DecimalValue(s: string): int {
    if s == [] then 0 else 10 * DecimalValue(s[..|s| - 1]) + DigitValue(s[|s| - 1])
  }

  /** Reads "[+]yyyy-MM-dd" back into its fields. */
  function ParseIsoDate(s: string): (d: Date)
    requires |s| >= 10
  {
    var yearText := s[..|s| - 6];
    var digits := if yearText != [] && yearText[0] == '+' then yearText[1..] else yearText;
    Date(Natural(DecimalValue(digits)), Natural(DecimalValue(s[|s| - 5..|s| - 3])),
         Natural(DecimalValue(s[|s| - 2..])))
  }

  function Natural(n: int): nat {
    if n < 0 then 0 else n
  }

  lemma {:induction false} DecimalOfNat(n: nat)
    ensures DecimalValue(NatToString(n)) == n
    decreases n
  {
    if n >= 10 {
      var s := NatToString(n);
      assert s[..|s| - 1] == NatToString(n / 10);
      DecimalOfNat(n / 10);
    }
  }

  lemma {:induction false} DecimalLeadingZeros(k: nat, s: string)
    ensures DecimalValue(Zeros(k) + s) == DecimalValue(s)
    decreases |s|
  {
    if s == [] {
      ZerosAreZero(k);
      assert Zeros(k) + s == Zeros(k);
    } else {
      assert (Zeros(k) + s)[..|Zeros(k) + s| - 1] == Zeros(k) + s[..|s| - 1];
      DecimalLeadingZeros(k, s[..|s| - 1]);
    }
  }

  lemma {:induction false} ZerosAreZero(k: nat)
    ensures DecimalValue(Zeros(k)) == 0
    decreases k
  {
    if k > 0 {
      assert Zeros(k)[..k - 1] == Zeros(k - 1);
      ZerosAreZero(k - 1);
    }
  }

  lemma PadValue(n: nat, width: nat)
    ensures DecimalValue(Pad(n, width)) == n
  {
    DecimalOfNat(n);
    var digits := NatToString(n);
    if |digits| < width {
      DecimalLeadingZeros(width - |digits|, digits);
    }
  }

  lemma ParseFields(year: string, month: string, day: string)
    requires |year| >= 4 && |month| == 2 && |day| == 2
    ensures ParseIsoDate(year + "-" + month + "-" + day)
      == Date(Natural(DecimalValue(if year[0] == '+' then year[1..] else year)),
              Natural(DecimalValue(month)), Natural(DecimalValue(day)))
  {
    Fields(year, month, day);
  }

  /** Formatting a date and reading it back gives the date. */
  lemma IsoDateRoundTrip(d: Date)
    requires ValidDate(d)
    ensures ParseIsoDate(FormatIsoDate(d)) == d
  {
    var year := YearText(d.year);
    NatToStringWidth(d.month);
    NatToStringWidth(d.day);
    var month := Pad(d.month, 2);
    var day := Pad(d.day, 2);
    assert FormatIsoDate(d) == year + "-" + month + "-" + day;
    ParseFields(year, month, day);
    PadValue(d.month, 2);
    PadValue(d.day, 2);
    if d.year > 9999 {
      assert year[1..] == NatToString(d.year);
      DecimalOfNat(d.year);
    } else {
      PadValue(d.year, 4);
    }
  }
}
