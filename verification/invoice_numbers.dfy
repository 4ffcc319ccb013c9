/** Invoice numbers `INV-<YYYYMMDD>-NNNN` (InvoiceController::generateInvoiceNumber).

    The next number is computed from today's date and the latest invoice
    number that starts with today's prefix: its last four characters are read
    back with PHP's `intval`, one is added, and the result is written with
    `str_pad(…, 4, '0', STR_PAD_LEFT)`. The PHP string primitives involved are
    modelled here on `string` (`seq<char>`). */
module InvoiceNumbers {
  import opened Outcomes

  predicate IsDigit(c: char) {
    '0' <= c <= '9'
  }

  predicate AllDigits(s: string) {
    forall i :: 0 <= i < |s| ==> IsDigit(s[i])
  }

  /** The white space PHP skips in front of a numeric string:
      space, tab, line feed, carriage return, vertical tab, form feed. */
  predicate IsNumericSpace(c: char) {
    c == ' ' || c == '\t' || c == '\n' || c == '\r' || c == '\U{B}' || c == '\U{C}'
  }

  function DigitValue(c: char): (d: nat)
    requires IsDigit(c)
    ensures d < 10
  {
    c as int - '0' as int
  }

  function DigitChar(d: nat): (c: char)
    requires d < 10
    ensures IsDigit(c) && DigitValue(c) == d
  {
    (d + '0' as int) as char
  }

  /** The number a string of decimal digits denotes, most significant first;
      leading zeros are allowed. */
  function DigitsValue(s: string): nat
    requires AllDigits(s)
  {
    if s == [] then 0 else DigitsValue(s[..|s| - 1]) * 10 + DigitValue(s[|s| - 1])
  }

  /** The decimal representation of a natural number, as PHP writes an int:
      no leading zeros, and reading it back gives the number. */
  function NatToString(n: nat): (s: string)
    ensures AllDigits(s) && 1 <= |s|
    ensures DigitsValue(s) == n
    ensures n > 0 ==> s[0] != '0'
    ensures n < 10 ==> |s| == 1
    ensures n < 100 ==> |s| <= 2
    ensures n < 1000 ==> |s| <= 3
    ensures n < 10000 ==> |s| <= 4
  {
    if n < 10 then [DigitChar(n)]
    else
      var front := NatToString(n / 10);
      var s := front + [DigitChar(n % 10)];
      assert s[..|s| - 1] == front;
      s
  }

  /** PHP's conversion of an int to a string: a '-' for a negative number,
      then the digits of its magnitude. */
  function IntToString(n: int): (s: string)
    ensures 1 <= |s|
    ensures s[0] == '-' <==> n < 0
    ensures n >= 0 ==> AllDigits(s) && DigitsValue(s) == n
    ensures n < 0 ==> AllDigits(s[1..]) && DigitsValue(s[1..]) == -n
    ensures n > 0 ==> s[0] != '0'
    ensures n < 0 ==> s[1] != '0'
  {
    if n < 0 then
      var digits := NatToString(-n);
      assert ("-" + digits)[1..] == digits;
      "-" + digits
    else NatToString(n)
  }

  /** `str_pad($s, $width, $c, STR_PAD_LEFT)`: `s` unchanged when it is at
      least `width` long, otherwise `c` repeated in front up to `width`. */
  function PadLeft(s: string, width: nat, c: char): (r: string)
    ensures |r| == if |s| >= width then |s| else width
    ensures r[|r| - |s|..] == s
    ensures forall i :: 0 <= i < |r| - |s| ==> r[i] == c
  {
    if |s| >= width then s else seq(width - |s|, _ => c) + s
  }

  /** `substr($s, -4)`: the last four characters, or all of `s` when it is
      shorter (PHP 8 clamps the start to the beginning of the string). */
  function LastFour(s: string): (r: string)
    ensures |s| >= 4 ==> |r| == 4 && s[..|s| - 4] + r == s
    ensures |s| < 4 ==> r == s
  {
    if |s| >= 4 then s[|s| - 4..] else s
  }

  lemma LastFourOfSuffix(head: string, tail: string)
    requires |tail| == 4
    ensures LastFour(head + tail) == tail
  {
  }

  /** White space skipped by `intval`. */
  function SkipSpace(s: string): (r: string)
    ensures |r| <= |s| && r == s[|s| - |r|..]
    ensures r == [] || !IsNumericSpace(r[0])
  {
    if |s| > 0 && IsNumericSpace(s[0]) then SkipSpace(s[1..]) else s
  }

  /** The longest run of digits at the front of `s`. */
  function LeadingDigits(s: string): (r: string)
    ensures AllDigits(r) && r <= s
    ensures r == s || !IsDigit(s[|r|])
  {
    if |s| > 0 && IsDigit(s[0]) then [s[0]] + LeadingDigits(s[1..]) else []
  }

  /** PHP's `intval` on a string in base 10: leading white space, an optional
      sign, then as many digits as follow; 0 when there are none. */
  function Intval(s: string): (r: int)
    ensures s == [] ==> r == 0
    ensures s != [] && !IsNumericSpace(s[0]) && !IsDigit(s[0]) && s[0] != '-' && s[0] != '+' ==> r == 0
  {
    var t := SkipSpace(s);
    if |t| > 0 && t[0] == '-' then -(DigitsValue(LeadingDigits(t[1..])) as int)
    else if |t| > 0 && t[0] == '+' then DigitsValue(LeadingDigits(t[1..]))
    else DigitsValue(LeadingDigits(t))
  }

  /** On a string of digits `intval` gives the number the digits denote. */
  lemma IntvalOfDigits(s: string)
    requires AllDigits(s)
    ensures Intval(s) == DigitsValue(s)
  {
    if s != [] {
      assert IsDigit(s[0]);
      assert !IsNumericSpace(s[0]) && s[0] != '-' && s[0] != '+';
    }
    assert SkipSpace(s) == s;
    assert LeadingDigits(s) == s;
  }

  /** Leading white space is skipped. */
  lemma IntvalSkipsSpace(c: char, s: string)
    requires IsNumericSpace(c)
    ensures Intval([c] + s) == Intval(s)
  {
  }

  /** What may follow a digit run for `intval` to stop there: nothing, or a
      character that cannot continue a decimal number. A '.', 'e' or 'E'
      could start a fraction or an exponent, which PHP 8 reads as a float
      first (`intval("1e03")` is 1000); those are excluded. */
  predicate EndsDigitRun(rest: string) {
    rest == [] || (!IsDigit(rest[0]) && rest[0] != '.' && rest[0] != 'e' && rest[0] != 'E')
  }

  /** A sign in front of a digit run: '-' negates its value, '+' keeps it,
      and what follows the run is ignored. */
  lemma IntvalSigned(d: string, rest: string)
    requires AllDigits(d) && EndsDigitRun(rest)
    ensures Intval("-" + d + rest) == -(DigitsValue(d) as int)
    ensures Intval("+" + d + rest) == DigitsValue(d)
  {
    LeadingDigitsOfPrefix(d, rest);
    SignedRun('-', d, rest);
    SignedRun('+', d, rest);
  }

  lemma SignedRun(sign: char, d: string, rest: string)
    requires sign == '-' || sign == '+'
    requires AllDigits(d) && LeadingDigits(d + rest) == d
    ensures SkipSpace([sign] + d + rest) == [sign] + d + rest
    ensures ([sign] + d + rest)[1..] == d + rest
  {
    var t := [sign] + d + rest;
    assert t[0] == sign;
    NoSpaceToSkip(t);
    assert t[1..] == d + rest;
  }

  lemma NoSpaceToSkip(t: string)
    requires t != [] && !IsNumericSpace(t[0])
    ensures SkipSpace(t) == t
  {
  }

  /** Reading stops at the first character that cannot continue the
      number: what follows it is ignored. */
  lemma {:induction false} IntvalStopsAtNonDigit(d: string, rest: string)
    requires AllDigits(d) && d != []
    requires EndsDigitRun(rest)
    ensures Intval(d + rest) == DigitsValue(d)
  {
    assert IsDigit((d + rest)[0]);
    assert SkipSpace(d + rest) == d + rest;
    LeadingDigitsOfPrefix(d, rest);
  }

  lemma {:induction false} LeadingDigitsOfPrefix(d: string, rest: string)
    requires AllDigits(d)
    requires rest == [] || !IsDigit(rest[0])
    ensures LeadingDigits(d + rest) == d
  {
    if d != [] {
      assert (d + rest)[1..] == d[1..] + rest;
      LeadingDigitsOfPrefix(d[1..], rest);
    } else {
      assert d + rest == rest;
    }
  }

  /** `intval` reads back every int as PHP writes it. */
  lemma IntvalOfIntToString(n: int)
    ensures Intval(IntToString(n)) == n
  {
    if n < 0 {
      var digits := NatToString(-n);
      assert IntToString(n) == "-" + digits + [];
      IntvalSigned(digits, []);
    } else {
      IntvalOfDigits(IntToString(n));
    }
  }

  /** `'INV-' . date('Ymd')`, with today's date passed in as `today`. */
  function DatePrefix(today: string): string {
    "INV-" + today
  }

  /** The invoice number with sequence number `n`:
      prefix, '-', and `n` left-padded with '0' to at least four characters. */
  function Format(today: string, n: int): (r: string)
    ensures DatePrefix(today) <= DatePrefix(today) + "-" <= r
    ensures 0 <= n <= 9999 ==> |r| == |DatePrefix(today)| + 5
    ensures 0 <= n <= 9999 ==>
      AllDigits(r[|DatePrefix(today)| + 1..]) && DigitsValue(r[|DatePrefix(today)| + 1..]) == n
  {
    var head := DatePrefix(today) + "-";
    var padded := PadLeft(IntToString(n), 4, '0');
    if 0 <= n <= 9999 then
      var digits := NatToString(n);
      assert padded == seq(4 - |digits|, _ => '0') + digits;
      LeadingZerosIgnored(4 - |digits|, digits);
      assert (head + padded)[|head|..] == padded;
      head + padded
    else head + padded
  }

  /** generateInvoiceNumber, given today's date and the latest invoice number
      sharing today's prefix (None when there is none today). */
  function Next(today: string, latest: Option<string>): (r: string)
    ensures DatePrefix(today) + "-" <= r
  {
    match latest
    case None => Format(today, 1)
    case Some(last) => Format(today, Intval(LastFour(last)) + 1)
  }

  /** Zeros in front of a digit string do not change its value. */
  lemma {:induction false} LeadingZerosIgnored(k: nat, d: string)
    requires AllDigits(d)
    ensures AllDigits(seq(k, _ => '0') + d)
    ensures DigitsValue(seq(k, _ => '0') + d) == DigitsValue(d)
  {
    var z := seq(k, _ => '0');
    if d == [] {
      assert z + d == z;
      ZerosAreZero(k);
    } else {
      var front := d[..|d| - 1];
      assert (z + d)[..|z + d| - 1] == z + front;
      LeadingZerosIgnored(k, front);
    }
  }

  lemma {:induction false} ZerosAreZero(k: nat)
    ensures AllDigits(seq(k, _ => '0'))
    ensures DigitsValue(seq(k, _ => '0')) == 0
  {
    if k > 0 {
      assert seq(k, _ => '0')[..k - 1] == seq(k - 1, _ => '0');
      ZerosAreZero(k - 1);
    }
  }

  /** The four-digit suffix of a formatted number reads back as its
      sequence number, for every sequence number from 0 to 9999. */
  lemma SuffixRoundTrip(today: string, n: int)
    requires 0 <= n <= 9999
    ensures Intval(LastFour(Format(today, n))) == n
  {
    var head := DatePrefix(today) + "-";
    var r := Format(today, n);
    var padded := r[|head|..];
    assert r == head + padded;
    IntvalOfDigits(padded);
    LastFourOfSuffix(head, padded);
  }

  /** Within 0..9999 distinct sequence numbers give distinct invoice numbers. */
  lemma FormatInjective(today: string, m: int, n: int)
    requires 0 <= m <= 9999 && 0 <= n <= 9999
    ensures Format(today, m) == Format(today, n) ==> m == n
  {
  }

  /** Without a number for today the sequence starts at 0001. */
  lemma FirstOfTheDay(today: string)
    ensures Next(today, None) == DatePrefix(today) + "-0001"
  {
    assert PadLeft(IntToString(1), 4, '0') == "0001";
  }

  /** After `…-n` the generated number is `…-(n+1)`, as long as `n` fits in
      the four-digit suffix; after `…-9999` this is the five-digit `…-10000`. */
  lemma NextAfterFormatted(today: string, n: int)
    requires 0 <= n <= 9999
    ensures Next(today, Some(Format(today, n))) == Format(today, n + 1)
  {
    SuffixRoundTrip(today, n);
  }

  lemma TenThousandWritten()
    ensures IntToString(10000) == "10000"
  {
    assert DigitChar(0) == '0' && DigitChar(1) == '1';
    assert NatToString(1) == "1";
    assert NatToString(10) == "1" + "0" == "10";
    assert NatToString(100) == "10" + "0" == "100";
    assert NatToString(1000) == "100" + "0" == "1000";
    assert NatToString(10000) == "1000" + "0" == "10000";
  }

  lemma FourZerosReadAsZero()
    ensures Intval("0000") == 0
  {
    ZerosAreZero(4);
    assert seq(4, _ => '0') == "0000";
    IntvalOfDigits("0000");
  }

  lemma TenThousandFormatted(today: string)
    ensures Format(today, 10000) == DatePrefix(today) + "-10000"
  {
    TenThousandWritten();
    var head := DatePrefix(today);
    assert PadLeft("10000", 4, '0') == "10000";
    assert head + "-" + "10000" == head + "-10000";
  }

  /** The overflow at 9999: the number after `…-9999` is `…-10000`. */
  lemma NextAfterLast(today: string)
    ensures Next(today, Some(Format(today, 9999))) == DatePrefix(today) + "-10000"
  {
    NextAfterFormatted(today, 9999);
    TenThousandFormatted(today);
  }

  /** ... and the last four characters of `…-10000` are `0000`, which read
      back as 0, so the number after it is `…-0001` again: the day's first
      number, which is already taken. */
  lemma OverflowWrapsToFirst(today: string)
    ensures Next(today, Some(DatePrefix(today) + "-10000")) == Next(today, None)
  {
    var head := DatePrefix(today);
    var big := head + "-10000";
    assert big == (head + "-1") + "0000";
    LastFourOfSuffix(head + "-1", "0000");
    FourZerosReadAsZero();
    assert Intval(LastFour(big)) + 1 == 1;
  }

  /** The worked example: after `INV-20240601-0007` comes `INV-20240601-0008`. */
  lemma NextExample()
    ensures Next("20240601", Some("INV-20240601-0007")) == "INV-20240601-0008"
  {
    var head := DatePrefix("20240601");
    assert head == "INV-20240601";
    assert DigitChar(7) == '7' && DigitChar(8) == '8';
    assert PadLeft(IntToString(7), 4, '0') == "000" + "7" == "0007";
    assert PadLeft(IntToString(8), 4, '0') == "000" + "8" == "0008";
    assert Format("20240601", 7) == head + "-" + "0007" == "INV-20240601-0007";
    assert Format("20240601", 8) == head + "-" + "0008" == "INV-20240601-0008";
    NextAfterFormatted("20240601", 7);
  }
}
