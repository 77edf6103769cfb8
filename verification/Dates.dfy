/** Calendar dates as the cost tables store them: text in year-month-day form,
    what the usage parsers accept, and why comparing the text compares the dates. */
module Dates {
  import opened Wrappers
  import opened Decimal

  datatype Date = Date(year: int, month: int, day: int)

  function DaysIn(year: int, month: int): int {
    if month == 2 then (if year % 4 == 0 && (year % 100 != 0 || year % 400 == 0) then 29 else 28)
    else if month in {4, 6, 9, 11} then 30 else 31
  }

  predicate IsValid(d: Date) {
    1 <= d.month <= 12 && 1 <= d.day <= DaysIn(d.year, d.month)
  }

  /** Years that take four digits. */
  predicate IsUsual(d: Date) {
    IsValid(d) && 0 <= d.year <= 9999
  }

  predicate NotAfter(a: Date, b: Date) {
    a.year < b.year
    || (a.year == b.year && (a.month < b.month || (a.month == b.month && a.day <= b.day)))
  }

  /** Signed, zero-padded rendering of one part. */
  function Padded(n: int, width: nat): string {
    if n < 0 then "-" + Pad(Digits(-n), width) else Pad(Digits(n), width)
  }

  function Format(d: Date): string {
    Padded(d.year, 4) + "-" + Padded(d.month, 2) + "-" + Padded(d.day, 2)
  }

  /** Strict parsing of the ten-character form. */
  function Parse(s: string): Option<Date> {
    if |s| == 10 && IsDigits(s[..4]) && s[4] == '-' && IsDigits(s[5..7]) && s[7] == '-' && IsDigits(s[8..]) then
      var d := Date(Value(s[..4]), Value(s[5..7]), Value(s[8..]));
      if IsValid(d) then Some(d) else None
    else None
  }

  // ----- Fixed width

  lemma TwoDigits(n: nat)
    requires n < 100
    ensures Padded(n, 2) == [Digit(n / 10), Digit(n % 10)]
  {
    if n < 10 {
      var wide := "0" + Digits(n);
      assert Pad(Digits(n), 2) == Pad(wide, 2) == wide;
      assert wide == [Digit(0), Digit(n)];
    } else {
      assert Digits(n / 10) == [Digit(n / 10)];
    }
  }

  lemma ThreeDigits(n: nat)
    requires 100 <= n < 1000
    ensures Digits(n) == [Digit(n / 100), Digit(n / 10 % 10), Digit(n % 10)]
  {
    assert Digits(n / 10) == Digits(n / 100) + [Digit(n / 10 % 10)];
  }

  lemma FourDigits(n: nat)
    requires n < 10000
    ensures |Padded(n, 4)| == 4
  {
    if n < 10 {
      assert Pad(Digits(n), 4) == Pad("0" + Digits(n), 4) == Pad("0" + ("0" + Digits(n)), 4)
          == Pad("0" + ("0" + ("0" + Digits(n))), 4);
    } else if n < 100 {
      assert |Digits(n)| == 2;
      assert Pad(Digits(n), 4) == Pad("0" + Digits(n), 4) == Pad("0" + ("0" + Digits(n)), 4);
    } else if n < 1000 {
      ThreeDigits(n);
      assert Pad(Digits(n), 4) == Pad("0" + Digits(n), 4);
    } else {
      ThreeDigits(n / 10);
    }
  }

  lemma PaddedIsDigits(n: nat, width: nat)
    ensures IsDigits(Padded(n, width)) && Value(Padded(n, width)) == n
  {
    ValueOfDigits(n);
    ValueOfPad(Digits(n), width);
  }

  lemma PadWidth(s: string, width: nat)
    ensures |Pad(s, width)| == if |s| < width then width else |s|
    decreases width - |s|
  {
    if |s| < width {
      PadWidth("0" + s, width);
    }
  }

  /** A smaller number never has more digits. */
  lemma {:induction false} DigitsGrow(m: nat, n: nat)
    requires m <= n
    ensures |Digits(m)| <= |Digits(n)|
  {
    if m >= 10 {
      DigitsGrow(m / 10, n / 10);
    }
  }

  lemma YearWidth(n: nat)
    ensures |Padded(n, 4)| == 4 <==> n < 10000
    ensures |Padded(n, 4)| >= 4
  {
    PadWidth(Digits(n), 4);
    if n >= 10000 {
      DigitsGrow(1000, n / 10);
      ThreeDigits(100);
      assert Digits(1000) == Digits(100) + [Digit(0)];
    } else {
      FourDigits(n);
    }
  }

  /** A rendered valid date parses, and then back to itself, exactly when its year takes four digits. */
  lemma ParseFormat(d: Date)
    requires IsValid(d)
    ensures Parse(Format(d)) == if IsUsual(d) then Some(d) else None
    ensures |Format(d)| == 10 <==> IsUsual(d)
  {
    TwoDigits(d.month);
    TwoDigits(d.day);
    if d.year < 0 {
      PadWidth(Digits(-d.year), 4);
    } else {
      YearWidth(d.year);
    }
    if IsUsual(d) {
      ParseUsual(d);
    }
  }

  lemma ParseUsual(d: Date)
    requires IsUsual(d)
    ensures Parse(Format(d)) == Some(d)
  {
    FourDigits(d.year);
    TwoDigits(d.month);
    TwoDigits(d.day);
    PaddedIsDigits(d.year, 4);
    PaddedIsDigits(d.month, 2);
    PaddedIsDigits(d.day, 2);
    var s := Format(d);
    assert s[..4] == Padded(d.year, 4);
    assert s[5..7] == Padded(d.month, 2);
    assert s[8..] == Padded(d.day, 2);
  }

  // ----- The order of the text

  /** Byte order, as SQL compares text. */
  predicate TextLe(a: string, b: string) {
    a == "" || (b != "" && (a[0] < b[0] || (a[0] == b[0] && TextLe(a[1..], b[1..]))))
  }

  lemma {:induction false} TextLeReflexive(a: string)
    ensures TextLe(a, a)
  {
    if a != "" {
      TextLeReflexive(a[1..]);
    }
  }

  lemma {:induction false} TextLeConcat(a: string, a': string, b: string, b': string)
    requires |a| == |b|
    ensures TextLe(a + a', b + b') <==> if a == b then TextLe(a', b') else TextLe(a, b)
  {
    if a == "" {
      assert a + a' == a' && b + b' == b';
    } else {
      TextLeConcat(a[1..], a', b[1..], b');
      assert (a + a')[1..] == a[1..] + a' && (b + b')[1..] == b[1..] + b';
      assert a == b <==> a[0] == b[0] && a[1..] == b[1..];
      if a[1..] == b[1..] {
        TextLeReflexive(a[1..]);
      }
    }
  }

  lemma TextLeSnoc(a: string, x: char, b: string, y: char)
    requires |a| == |b|
    ensures TextLe(a + [x], b + [y]) <==> if a == b then x <= y else TextLe(a, b)
  {
    TextLeConcat(a, [x], b, [y]);
  }

  lemma SplitLastDigit(a: string) returns (init: string, x: char, d: int)
    requires IsDigits(a) && a != ""
    ensures a == init + [x] && |init| == |a| - 1 && IsDigits(init)
    ensures 0 <= d <= 9 && d == x as int - '0' as int && Value(a) == 10 * Value(init) + d
  {
    init, x := a[..|a| - 1], a[|a| - 1];
    d := x as int - '0' as int;
    assert x in a && forall c :: c in init ==> c in a;
  }

  /** Digit strings of one width are ordered as their values. */
  lemma {:induction false} TextLeValue(a: string, b: string)
    requires |a| == |b| && IsDigits(a) && IsDigits(b)
    ensures TextLe(a, b) <==> Value(a) <= Value(b)
    ensures Value(a) == Value(b) ==> a == b
    decreases |a|
  {
    if a != "" {
      var a0, x, m := SplitLastDigit(a);
      var b0, y, n := SplitLastDigit(b);
      TextLeValue(a0, b0);
      TextLeSnoc(a0, x, b0, y);
    }
  }

  lemma PartOrder(m: nat, n: nat, width: nat)
    requires |Padded(m, width)| == |Padded(n, width)|
    ensures TextLe(Padded(m, width), Padded(n, width)) <==> m <= n
    ensures Padded(m, width) == Padded(n, width) <==> m == n
  {
    PaddedIsDigits(m, width);
    PaddedIsDigits(n, width);
    TextLeValue(Padded(m, width), Padded(n, width));
  }

  /** The part of a date after its year. */
  function Rest(d: Date): string {
    "-" + (Padded(d.month, 2) + ("-" + Padded(d.day, 2)))
  }

  lemma FormatParts(d: Date)
    ensures Format(d) == Padded(d.year, 4) + Rest(d) && Rest(d)[0] == '-'
  {
    var (y, m, n) := (Padded(d.year, 4), Padded(d.month, 2), Padded(d.day, 2));
    assert y + "-" + m + "-" + n == y + ("-" + (m + ("-" + n)));
  }

  lemma RestOrder(a: Date, b: Date)
    requires IsValid(a) && IsValid(b)
    ensures TextLe(Rest(a), Rest(b)) <==> a.month < b.month || (a.month == b.month && a.day <= b.day)
  {
    TwoDigits(a.month);
    TwoDigits(b.month);
    PartOrder(a.month, b.month, 2);
    TwoDigits(a.day);
    TwoDigits(b.day);
    PartOrder(a.day, b.day, 2);
    var (m, n, m', n') := (Padded(a.month, 2), Padded(a.day, 2), Padded(b.month, 2), Padded(b.day, 2));
    TextLeConcat("-", m + ("-" + n), "-", m' + ("-" + n'));
    TextLeConcat(m, "-" + n, m', "-" + n');
    TextLeConcat("-", n, "-", n');
  }

  /** Years of one width: the text order is the date order. */
  lemma SameWidthOrder(a: Date, b: Date)
    requires IsValid(a) && IsValid(b) && a.year >= 0 && b.year >= 0
    requires |Padded(a.year, 4)| == |Padded(b.year, 4)|
    ensures TextLe(Format(a), Format(b)) <==> NotAfter(a, b)
  {
    FormatParts(a);
    FormatParts(b);
    PartOrder(a.year, b.year, 4);
    RestOrder(a, b);
    TextLeConcat(Padded(a.year, 4), Rest(a), Padded(b.year, 4), Rest(b));
  }

  /** A number written wider is larger. */
  lemma WiderIsLarger(m: nat, n: nat)
    requires |Padded(m, 4)| < |Padded(n, 4)|
    ensures m < n
  {
    PadWidth(Digits(m), 4);
    PadWidth(Digits(n), 4);
    if n <= m {
      DigitsGrow(n, m);
    }
  }

  lemma PrefixIsDigits(s: string, n: nat)
    requires n < |s| && IsDigits(s)
    ensures IsDigits(s[..n]) && IsDigits(s[n..]) && '0' <= s[n..][0] <= '9'
  {
    assert forall c :: c in s[..n] || c in s[n..] ==> c in s;
    assert s[n] in s;
  }

  /** Digits followed by a hyphen against more digits: the leading digits decide, and the shorter
      comes first when they are equal. */
  lemma LeadingDecide(y: string, r: string, z: string, r': string)
    requires IsDigits(y) && IsDigits(z) && |y| < |z| && r != "" && r[0] == '-'
    ensures TextLe(y + r, z + r') <==> Value(y) <= Value(z[..|y|])
    ensures TextLe(z + r', y + r) <==> Value(z[..|y|]) < Value(y)
  {
    var (head, tail) := (z[..|y|], z[|y|..]);
    PrefixIsDigits(z, |y|);
    assert z + r' == head + (tail + r') && (tail + r')[0] == tail[0];
    TextLeConcat(y, r, head, tail + r');
    TextLeConcat(head, tail + r', y, r);
    TextLeValue(y, head);
    TextLeValue(head, y);
  }

  /** The narrower year first: the text compares it with the leading digits of the wider one. */
  lemma NarrowFirst(a: Date, b: Date)
    requires IsValid(a) && IsValid(b) && a.year >= 0 && b.year >= 0
    requires |Padded(a.year, 4)| < |Padded(b.year, 4)|
    ensures NotAfter(a, b)
    ensures TextLe(Format(a), Format(b)) <==> a.year <= Value(Padded(b.year, 4)[..|Padded(a.year, 4)|])
  {
    WiderIsLarger(a.year, b.year);
    FormatParts(a);
    FormatParts(b);
    PaddedIsDigits(a.year, 4);
    PaddedIsDigits(b.year, 4);
    LeadingDecide(Padded(a.year, 4), Rest(a), Padded(b.year, 4), Rest(b));
  }

  /** The wider year first. */
  lemma WideFirst(a: Date, b: Date)
    requires IsValid(a) && IsValid(b) && a.year >= 0 && b.year >= 0
    requires |Padded(b.year, 4)| < |Padded(a.year, 4)|
    ensures !NotAfter(a, b)
    ensures TextLe(Format(a), Format(b)) <==> Value(Padded(a.year, 4)[..|Padded(b.year, 4)|]) < b.year
  {
    WiderIsLarger(b.year, a.year);
    FormatParts(a);
    FormatParts(b);
    PaddedIsDigits(a.year, 4);
    PaddedIsDigits(b.year, 4);
    LeadingDecide(Padded(b.year, 4), Rest(b), Padded(a.year, 4), Rest(a));
  }

  /** The digits of two years compare as the years do: equally wide, or the leading digits of the wider decide alike. */
  predicate DigitsCompare(m: nat, n: nat) {
    var (y, z) := (Padded(m, 4), Padded(n, 4));
    if |y| == |z| then true
    else if |y| < |z| then m <= Value(z[..|y|])
    else n <= Value(y[..|z|])
  }

  /** As DigitsCompare, with signs: of two different negative years the digits must mislead. */
  predicate YearsCompare(m: int, n: int) {
    if m < 0 && n < 0 then m == n || !DigitsCompare(-m, -n)
    else m < 0 || n < 0 || DigitsCompare(m, n)
  }

  /** Comparing two rendered dates as text compares the dates exactly when their years compare. */
  lemma TextOrderIsDateOrderIff(a: Date, b: Date)
    requires IsValid(a) && IsValid(b)
    ensures (TextLe(Format(a), Format(b)) <==> NotAfter(a, b)) <==> YearsCompare(a.year, b.year)
  {
    if a.year >= 0 && b.year >= 0 {
      PositiveOrderIff(a, b);
    } else if a.year >= 0 {
      NegativeSortsFirst(a, b);
    } else if b.year >= 0 {
      NegativeSortsFirst(b, a);
    } else {
      BothNegative(a, b);
    }
  }

  lemma PositiveOrderIff(a: Date, b: Date)
    requires IsValid(a) && IsValid(b) && a.year >= 0 && b.year >= 0
    ensures (TextLe(Format(a), Format(b)) <==> NotAfter(a, b)) <==> DigitsCompare(a.year, b.year)
  {
    if |Padded(a.year, 4)| == |Padded(b.year, 4)| {
      SameWidthOrder(a, b);
    } else if |Padded(a.year, 4)| < |Padded(b.year, 4)| {
      NarrowFirst(a, b);
    } else {
      WideFirst(a, b);
    }
  }

  function Mirrored(d: Date): Date {
    d.(year := -d.year)
  }

  lemma SignInFront(d: Date)
    requires d.year < 0
    ensures Format(d) == "-" + Format(Mirrored(d))
  {
    FormatParts(d);
    FormatParts(Mirrored(d));
    assert Rest(Mirrored(d)) == Rest(d) && Padded(d.year, 4) == "-" + Padded(-d.year, 4);
    Associative("-", Padded(-d.year, 4), Rest(d));
  }

  lemma Associative(a: string, b: string, c: string)
    ensures (a + b) + c == a + (b + c)
  {
  }

  lemma Mirror4(y: int)
    ensures y % 4 == 0 <==> (-y) % 4 == 0
  {
    assert y == 4 * (y / 4) + y % 4;
  }

  lemma Mirror100(y: int)
    ensures y % 100 == 0 <==> (-y) % 100 == 0
  {
    assert y == 100 * (y / 100) + y % 100;
  }

  lemma Mirror400(y: int)
    ensures y % 400 == 0 <==> (-y) % 400 == 0
  {
    assert y == 400 * (y / 400) + y % 400;
  }

  lemma MirroredValid(d: Date)
    requires IsValid(d)
    ensures IsValid(Mirrored(d))
  {
    Mirror4(d.year);
    Mirror100(d.year);
    Mirror400(d.year);
  }

  lemma MirroredText(a: Date, b: Date)
    requires a.year < 0 && b.year < 0
    ensures TextLe(Format(a), Format(b)) <==> TextLe(Format(Mirrored(a)), Format(Mirrored(b)))
  {
    SignInFront(a);
    SignInFront(b);
    TextLeConcat("-", Format(Mirrored(a)), "-", Format(Mirrored(b)));
  }

  /** Behind their signs negative years compare as positive ones, the wrong way round. */
  lemma BothNegative(a: Date, b: Date)
    requires IsValid(a) && IsValid(b) && a.year < 0 && b.year < 0
    ensures (TextLe(Format(a), Format(b)) <==> NotAfter(a, b)) <==> YearsCompare(a.year, b.year)
  {
    MirroredValid(a);
    MirroredValid(b);
    MirroredText(a, b);
    if a.year == b.year {
      SameWidthOrder(Mirrored(a), Mirrored(b));
    } else {
      PositiveOrderIff(Mirrored(a), Mirrored(b));
      assert NotAfter(a, b) <==> !NotAfter(Mirrored(a), Mirrored(b));
    }
  }

  lemma NegativeSortsFirst(a: Date, b: Date)
    requires IsValid(a) && IsValid(b) && a.year >= 0 && b.year < 0
    ensures !TextLe(Format(a), Format(b)) && !NotAfter(a, b)
    ensures TextLe(Format(b), Format(a)) && NotAfter(b, a)
  {
    FormatParts(a);
    FormatParts(b);
    YearWidth(a.year);
    PaddedIsDigits(a.year, 4);
    assert Padded(a.year, 4)[0] in Padded(a.year, 4);
    assert Format(b)[0] == '-' && Format(a)[0] == Padded(a.year, 4)[0];
  }

  /** The first four digits of a number. */
  function LeadingFour(n: nat): nat {
    if n < 10000 then n else LeadingFour(n / 10)
  }

  lemma {:induction false} LeadingDigits(n: nat)
    requires n >= 1000
    ensures |Digits(n)| >= 4 && Value(Digits(n)[..4]) == LeadingFour(n)
  {
    if n < 10000 {
      ThreeDigits(n / 10);
      assert Digits(n)[..4] == Digits(n);
      ValueOfDigits(n);
    } else {
      LeadingDigits(n / 10);
      assert Digits(n)[..4] == Digits(n / 10)[..4];
    }
  }

  /** With a four-digit first date: right against every earlier, negative or four-digit year, and against a
      later one exactly when its first four digits are at least the year. */
  lemma TextOrderFromUsualIff(a: Date, b: Date)
    requires IsUsual(a) && IsValid(b)
    ensures (TextLe(Format(a), Format(b)) <==> NotAfter(a, b))
            <==> b.year < 10000 || a.year <= LeadingFour(b.year)
  {
    TextOrderIsDateOrderIff(a, b);
    YearWidth(a.year);
    if b.year >= 0 {
      YearWidth(b.year);
    }
    if b.year >= 10000 {
      PadWidth(Digits(b.year), 4);
      LeadingDigits(b.year);
    }
  }

  /** The row of a far year is taken for an earlier one. */
  lemma LateYearSortsEarly()
    ensures var (a, b) := (Date(2024, 1, 1), Date(10000, 1, 1));
            IsUsual(a) && IsValid(b) && NotAfter(a, b) && !TextLe(Format(a), Format(b))
  {
    var b := Date(10000, 1, 1);
    assert LeadingFour(10000) == 1000;
    TextOrderFromUsualIff(Date(2024, 1, 1), b);
  }

  // ----- What the usage parsers make of the provider's date fields

  /** strconv.ParseInt in base 10 with 64 bits. */
  function ParseInt64(s: string): Option<int> {
    var body := if s != "" && (s[0] == '+' || s[0] == '-') then s[1..] else s;
    if body == "" || !IsDigits(body) then None
    else
      var n := if s[0] == '-' then -Value(body) else Value(body);
      if -0x8000_0000_0000_0000 <= n < 0x8000_0000_0000_0000 then Some(n) else None
  }

  /** The two conversions of the time library: RFC 3339 text and epoch seconds to a UTC date. */
  datatype Clock = Clock(rfc3339: string -> Option<Date>, epoch: int -> Date)

  function DateOf(clock: Clock, raw: string): string {
    if raw == "" then ""
    else if |raw| >= 10 && Parse(raw[..10]).Some? then raw[..10]
    else if clock.rfc3339(raw).Some? then Format(clock.rfc3339(raw).value)
    else if ParseInt64(raw).Some? && ParseInt64(raw).value > 0 then Format(clock.epoch(ParseInt64(raw).value))
    else ""
  }

  function NormalizeDate(clock: Clock, values: seq<string>): string {
    if values == [] then ""
    else
      var date := DateOf(clock, values[0]);
      if date != "" then date else NormalizeDate(clock, values[1..])
  }

  predicate IsPlain(s: string) {
    forall c :: c in s ==> c == '-' || '0' <= c <= '9'
  }

  lemma FormatIsPlain(d: Date)
    ensures IsPlain(Format(d))
  {
    var parts := [(d.year, 4), (d.month, 2), (d.day, 2)];
    forall i | 0 <= i < 3
      ensures IsPlain(Padded(parts[i].0, parts[i].1))
    {
      var n := if parts[i].0 < 0 then -parts[i].0 else parts[i].0;
      PaddedIsDigits(n, parts[i].1);
    }
    assert parts[0] == (d.year, 4) && parts[1] == (d.month, 2) && parts[2] == (d.day, 2);
  }

  /** Whatever a provider sends, a normalised date holds only digits and hyphens. */
  lemma {:induction false} NormalizedIsPlain(clock: Clock, values: seq<string>)
    ensures IsPlain(NormalizeDate(clock, values))
  {
    if values != [] {
      var raw := values[0];
      if clock.rfc3339(raw).Some? {
        FormatIsPlain(clock.rfc3339(raw).value);
      }
      if ParseInt64(raw).Some? {
        FormatIsPlain(clock.epoch(ParseInt64(raw).value));
      }
      if |raw| >= 10 && Parse(raw[..10]).Some? {
        ParsedIsPlain(raw[..10]);
      }
      NormalizedIsPlain(clock, values[1..]);
    }
  }

  lemma ParsedIsPlain(s: string)
    requires Parse(s).Some?
    ensures IsPlain(s)
  {
    forall c | c in s
      ensures c == '-' || '0' <= c <= '9'
    {
      var i :| 0 <= i < |s| && s[i] == c;
      assert i < 4 ==> s[..4][i] in s[..4];
      assert 5 <= i < 7 ==> s[5..7][i - 5] in s[5..7];
      assert i >= 8 ==> s[8..][i - 8] in s[8..];
    }
  }

  /** The time library yields calendar dates on this text, and takes no bare digits and hyphens for RFC 3339. */
  ghost predicate IsCalendar(clock: Clock) {
    && (forall s :: clock.rfc3339(s).Some? ==> IsValid(clock.rfc3339(s).value) && !IsPlain(s))
    && (forall n :: n > 0 ==> IsValid(clock.epoch(n)))
  }

  lemma DateOfFormatted(clock: Clock, d: Date)
    requires IsCalendar(clock) && IsValid(d)
    ensures DateOf(clock, Format(d)) == if IsUsual(d) then Format(d) else ""
  {
    ParseFormat(d);
    FormatIsPlain(d);
    FormatIsNoNumber(d);
    if IsUsual(d) {
      assert Format(d)[..10] == Format(d);
    } else {
      UnusualPrefix(d);
    }
  }

  /** A rendered date has a hyphen inside, so it is no integer. */
  lemma FormatIsNoNumber(d: Date)
    ensures ParseInt64(Format(d)).None?
  {
    FormatParts(d);
    var s := Format(d);
    var body := if s[0] == '+' || s[0] == '-' then s[1..] else s;
    var y := Padded(d.year, 4);
    if d.year >= 0 {
      YearWidth(d.year);
      PaddedIsDigits(d.year, 4);
      assert y[0] in y && s[0] == y[0];
      assert body[|y|] == '-' && body[|y|] in body;
    } else {
      assert body[|y| - 1] == s[|y|] == '-' && body[|y| - 1] in body;
    }
  }

  /** The first ten characters of an unusual date are no date. */
  lemma UnusualPrefix(d: Date)
    requires IsValid(d) && !IsUsual(d)
    ensures |Format(d)| > 10 && Parse(Format(d)[..10]).None?
  {
    FormatParts(d);
    TwoDigits(d.month);
    TwoDigits(d.day);
    var (s, y) := (Format(d), Padded(d.year, 4));
    if d.year >= 0 {
      YearWidth(d.year);
      PaddedIsDigits(d.year, 4);
      assert y[4] in y && s[..10][4] == y[4];
    } else {
      PadWidth(Digits(-d.year), 4);
      var start := s[..10][..4];
      assert start[0] == '-' && start[0] in start;
    }
  }

  /** The date a normalisation settles on was sent in the ten-character form or rendered from a calendar date. */
  lemma {:induction false} NormalizedOrigin(clock: Clock, values: seq<string>)
    requires IsCalendar(clock)
    ensures var date := NormalizeDate(clock, values);
            date == "" || Parse(date).Some? || exists d :: IsValid(d) && !IsUsual(d) && date == Format(d)
  {
    if values != [] {
      var raw := values[0];
      if clock.rfc3339(raw).Some? {
        ParseFormat(clock.rfc3339(raw).value);
      }
      if ParseInt64(raw).Some? && ParseInt64(raw).value > 0 {
        ParseFormat(clock.epoch(ParseInt64(raw).value));
      }
      NormalizedOrigin(clock, values[1..]);
    }
  }

  /** Normalising a normalised date again changes nothing exactly when it is empty or in the ten-character form:
      a rendered date of more than four year digits, or of a negative year, becomes empty. */
  lemma NormalizeAgainIff(clock: Clock, values: seq<string>)
    requires IsCalendar(clock)
    ensures var (date, again) := (NormalizeDate(clock, values), NormalizeDate(clock, [NormalizeDate(clock, values)]));
            && (again == date <==> date == "" || |date| == 10)
            && (again != date ==> again == "")
            && (|date| == 10 <==> Parse(date).Some?)
  {
    var date := NormalizeDate(clock, values);
    NormalizedOrigin(clock, values);
    AgainIsDateOf(clock, date);
    if date != "" && Parse(date).None? {
      var d :| IsValid(d) && !IsUsual(d) && date == Format(d);
      DateOfFormatted(clock, d);
      UnusualPrefix(d);
    } else if date != "" {
      assert date[..10] == date;
    }
  }

  const FIRST_FAR_SECOND := 253402300800

  /** The first second of the year 10000, sent as an epoch, becomes a date that a second normalisation loses. */
  lemma FarEpochLost(clock: Clock)
    requires IsCalendar(clock) && clock.epoch(FIRST_FAR_SECOND) == Date(10000, 1, 1)
    ensures var date := Format(Date(10000, 1, 1));
            && NormalizeDate(clock, [Digits(FIRST_FAR_SECOND)]) == date
            && date != "" && NormalizeDate(clock, [date]) == ""
  {
    var (raw, d) := (Digits(FIRST_FAR_SECOND), Date(10000, 1, 1));
    ValueOfDigits(FIRST_FAR_SECOND);
    DigitsGrow(10, FIRST_FAR_SECOND);
    DigitsArePlain(raw);
    NumberIsNoDate(raw);
    assert raw[0] in raw;
    AgainIsDateOf(clock, raw);
    AgainIsDateOf(clock, Format(d));
    DateOfFormatted(clock, d);
    UnusualPrefix(d);
  }

  lemma DigitsArePlain(s: string)
    requires IsDigits(s)
    ensures IsPlain(s)
  {
  }

  /** A number has no hyphen where a date has one. */
  lemma NumberIsNoDate(s: string)
    requires IsDigits(s)
    ensures |s| >= 10 ==> Parse(s[..10]).None?
  {
    if |s| >= 10 {
      assert s[..10][4] == s[4] && s[4] in s;
    }
  }

  lemma AgainIsDateOf(clock: Clock, date: string)
    ensures NormalizeDate(clock, [date]) == DateOf(clock, date)
  {
    var one: seq<string> := [date];
    assert one[0] == date && |one[1..]| == 0;
  }

  // ----- What a normalised date is

  lemma {:induction false} ValueBelow(s: string, n: nat, bound: int)
    requires IsDigits(s) && |s| <= n <= 4 && bound == [1, 10, 100, 1000, 10000][n]
    ensures 0 <= Value(s) < bound
  {
    if s != "" {
      var init, x, d := SplitLastDigit(s);
      ValueBelow(init, n - 1, bound / 10);
    }
  }

  /** A text that parses is the rendering of the date it parses to. */
  lemma ParsedIsFormatted(s: string)
    requires Parse(s).Some?
    ensures IsUsual(Parse(s).value) && Format(Parse(s).value) == s
  {
    var d := Parse(s).value;
    ValueBelow(s[..4], 4, 10000);
    FourDigits(d.year);
    TwoDigits(d.month);
    TwoDigits(d.day);
    PaddedIsDigits(d.year, 4);
    PaddedIsDigits(d.month, 2);
    PaddedIsDigits(d.day, 2);
    TextLeValue(Padded(d.year, 4), s[..4]);
    TextLeValue(Padded(d.month, 2), s[5..7]);
    TextLeValue(Padded(d.day, 2), s[8..]);
    assert s == s[..4] + "-" + s[5..7] + "-" + s[8..];
  }

  /** A decimal number with any leading zeros and a sign or none is read exactly when it fits 64 bits. */
  lemma ParseIntOfNumber(n: nat, width: nat)
    ensures var (s, limit) := (Pad(Digits(n), width), 9_223_372_036_854_775_808);
            && ParseInt64(s) == ParseInt64("+" + s) == (if n < limit then Some(n) else None)
            && ParseInt64("-" + s) == (if n <= limit then Some(0 - n) else None)
  {
    var s := Pad(Digits(n), width);
    ValueOfDigits(n);
    ValueOfPad(Digits(n), width);
    PadWidth(Digits(n), width);
    assert s[0] in s;
    assert ("+" + s)[1..] == s == ("-" + s)[1..];
  }

  /** Nothing else is read: a sign first, then digits. */
  lemma ParseIntOnlyNumbers(s: string)
    requires ParseInt64(s).Some?
    ensures forall i :: 0 <= i < |s| ==> '0' <= s[i] <= '9' || (i == 0 && s[0] in "+-")
    ensures exists i :: 0 <= i < |s| && '0' <= s[i] <= '9'
  {
    var body := if s[0] == '+' || s[0] == '-' then s[1..] else s;
    assert forall i :: 0 <= i < |body| ==> body[i] in body;
    assert body[0] in body && (s[0] == body[0] || s[1] == body[0]);
  }

  ghost predicate StartsWithDate(raw: string) {
    exists d :: IsUsual(d) && Format(d) <= raw
  }

  /** A value a date can be taken from: it starts with one, is an RFC 3339 instant, or a positive number of seconds. */
  ghost predicate Usable(clock: Clock, raw: string) {
    StartsWithDate(raw) || clock.rfc3339(raw).Some? || (ParseInt64(raw).Some? && ParseInt64(raw).value > 0)
  }

  lemma StartParses(raw: string, d: Date)
    requires IsUsual(d) && Format(d) <= raw
    ensures |raw| >= 10 && Parse(raw[..10]) == Some(d)
  {
    ParseFormat(d);
    assert raw[..10] == Format(d);
  }

  lemma FormatNotEmpty(d: Date)
    ensures Format(d) != ""
  {
    FormatParts(d);
  }

  lemma StartsWithDateIff(raw: string)
    ensures StartsWithDate(raw) <==> |raw| >= 10 && Parse(raw[..10]).Some?
  {
    if |raw| >= 10 && Parse(raw[..10]).Some? {
      ParsedIsFormatted(raw[..10]);
      assert Format(Parse(raw[..10]).value) <= raw;
    } else if d :| IsUsual(d) && Format(d) <= raw {
      StartParses(raw, d);
    }
  }

  lemma DateOfUsable(clock: Clock, raw: string)
    requires clock.rfc3339("").None?
    ensures DateOf(clock, raw) != "" <==> Usable(clock, raw)
  {
    StartsWithDateIff(raw);
    if clock.rfc3339(raw).Some? {
      FormatNotEmpty(clock.rfc3339(raw).value);
    }
    if ParseInt64(raw).Some? {
      FormatNotEmpty(clock.epoch(ParseInt64(raw).value));
    }
  }

  /** The first usable value decides. One that starts with a date, however it goes on, yields that date; an
      instant or a number of seconds yields the rendering of its date. */
  lemma {:induction false} FirstUsableWins(clock: Clock, values: seq<string>, i: nat)
    requires clock.rfc3339("").None? && i < |values| && Usable(clock, values[i])
    requires forall j :: 0 <= j < i ==> !Usable(clock, values[j])
    ensures var (date, raw) := (NormalizeDate(clock, values), values[i]);
            && (forall d :: IsUsual(d) && Format(d) <= raw ==> date == Format(d))
            && (!StartsWithDate(raw) && clock.rfc3339(raw).Some? ==> date == Format(clock.rfc3339(raw).value))
            && (!StartsWithDate(raw) && clock.rfc3339(raw).None? ==>
                  date == Format(clock.epoch(ParseInt64(raw).value)))
  {
    DateOfUsable(clock, values[0]);
    if i == 0 {
      StartsWithDateIff(values[0]);
      forall d | IsUsual(d) && Format(d) <= values[0]
        ensures DateOf(clock, values[0]) == Format(d)
      {
        StartParses(values[0], d);
        ParsedIsFormatted(values[0][..10]);
      }
    } else {
      FirstUsableWins(clock, values[1..], i - 1);
    }
  }

  lemma {:induction false} NoneUsableNoDate(clock: Clock, values: seq<string>)
    requires clock.rfc3339("").None?
    ensures NormalizeDate(clock, values) == "" <==> forall j :: 0 <= j < |values| ==> !Usable(clock, values[j])
  {
    if values != [] {
      DateOfUsable(clock, values[0]);
      NoneUsableNoDate(clock, values[1..]);
      assert forall j :: 0 < j < |values| ==> values[j] == values[1..][j - 1];
    }
  }
}
