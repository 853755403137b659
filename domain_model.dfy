/** The `Domain` row (src/domain/domain.entity.ts), the registrar's normalised list item,
    the backoffice response shape, and the registrar's MM/DD/YYYY expiry format. */
module DomainModel {
  import opened Wrappers
  import opened Text

  /** A calendar date as JavaScript's `new Date(year, month - 1, day)` receives it.
      `month` is 1-based. Out-of-range months and days are kept as given: the roll-over
      that `Date` performs is not modelled. */
  datatype Date = Date(year: int, month: int, day: int)

  /** A date on the calendar with a year from 100 to 275759, as the registrar sends them. */
  predicate Canonical(d: Date) {
    100 <= d.year <= 275759 && 1 <= d.month <= 12 && 1 <= d.day <= 31
  }

  /** Chronological order on dates. */
  predicate DateLe(a: Date, b: Date) {
    a.year < b.year || (a.year == b.year && (a.month < b.month || (a.month == b.month && a.day <= b.day)))
  }

  datatype Category = MS | WP | LP | RTP | Other

  /** One row of the `domains` table. `createdAt` is a clock reading; `updatedAt`,
      which the ORM maintains itself, is not modelled. `cpanel` and `group` hold the
      ids of the linked rows. */
  datatype Domain = Domain(
    id: nat,
    namecheapId: Option<string>,
    name: string,
    user: Option<string>,
    created: Option<string>,
    isExpired: bool,
    isLocked: bool,
    autoRenew: bool,
    whoisGuard: Option<string>,
    isPremium: Option<bool>,
    isOurDns: Option<bool>,
    active: bool,
    expiryDate: Date,
    description: Option<string>,
    nameServer1: Option<string>,
    nameServer2: Option<string>,
    cpanel: Option<nat>,
    nawala: bool,
    isUsed: bool,
    category: Option<Category>,
    isDefense: bool,
    isLinkAlt: bool,
    group: Option<nat>,
    createdAt: int)

  /** A registrar list item after `NamecheapService.getList` normalised it. */
  datatype RegistrarItem = RegistrarItem(
    id: string,
    name: string,
    user: string,
    created: string,
    expires: string,
    isExpired: bool,
    isLocked: bool,
    autoRenew: bool,
    whoisGuard: string,
    isPremium: bool,
    isOurDns: bool)

  /** The key a domain name is compared under: lower-cased, then trimmed. */
  function NameKey(s: string): string {
    Trim(Lower(s))
  }

  /** One Trust Positif verdict: the domain as the service returned it, and whether it
      is blocked. */
  datatype CheckResult = CheckResult(domain: string, blocked: bool)

  /** The fields the user owns: no registrar operation may change them. */
  predicate SameUserFields(a: Domain, b: Domain) {
    && a.id == b.id && a.description == b.description
    && a.nameServer1 == b.nameServer1 && a.nameServer2 == b.nameServer2
    && a.cpanel == b.cpanel && a.nawala == b.nawala && a.isUsed == b.isUsed
    && a.category == b.category && a.isDefense == b.isDefense && a.isLinkAlt == b.isLinkAlt
    && a.group == b.group && a.createdAt == b.createdAt
  }

  // ---------------------------------------------------------------------------
  // parseExpires / formatExpires

  /** The exact value a decimal literal denotes: `mantissa` times ten to the power
      `exponent`, negated when `negative`. */
  datatype Decimal = Decimal(negative: bool, mantissa: nat, exponent: int)

  /** A JavaScript number value read from a string. */
  datatype JsNumber = NaN | Infinite(negative: bool) | Finite(value: Decimal)

  function Pow10(n: nat): (r: nat)
    ensures r >= 1
  {
    if n == 0 then 1 else 10 * Pow10(n - 1)
  }

  /** The value of `c` as a hexadecimal digit, or 16 when it is none. */
  function HexDigit(c: char): nat {
    if '0' <= c <= '9' then c as int - '0' as int
    else if 'a' <= c <= 'f' then c as int - 'a' as int + 10
    else if 'A' <= c <= 'F' then c as int - 'A' as int + 10
    else 16
  }

  predicate AllRadix(s: string, radix: nat) {
    forall i :: 0 <= i < |s| ==> HexDigit(s[i]) < radix
  }

  /** The value of a string of base-`radix` digits. */
  function RadixValue(s: string, radix: nat): nat
    requires AllRadix(s, radix)
  {
    if |s| == 0 then 0
    else radix * RadixValue(s[..|s| - 1], radix) + HexDigit(s[|s| - 1])
  }

  /** `NonDecimalIntegerLiteral`: "0x", "0o" or "0b" (either case) and at least one
      digit of that base, and nothing else. */
  function NonDecimal(t: string): Option<nat> {
    if |t| >= 3 && t[0] == '0' then
      var radix := if t[1] == 'x' || t[1] == 'X' then 16
        else if t[1] == 'o' || t[1] == 'O' then 8
        else if t[1] == 'b' || t[1] == 'B' then 2
        else 0;
      if radix != 0 && AllRadix(t[2..], radix) then Some(RadixValue(t[2..], radix)) else None
    else None
  }

  /** `ExponentPart`, or nothing: "" is 0; "e" or "E", an optional sign and at least one
      digit is that power; anything else is not an exponent. */
  function Exponent(s: string): Option<int> {
    if s == "" then Some(0)
    else if s[0] == 'e' || s[0] == 'E' then
      var t := s[1..];
      var signed := |t| > 0 && (t[0] == '+' || t[0] == '-');
      var digits := if signed then t[1..] else t;
      if |digits| > 0 && AllDigits(digits) then
        Some(if signed && t[0] == '-' then -(DigitsValue(digits) as int) else DigitsValue(digits))
      else None
    else None
  }

  lemma DigitsJoin(a: string, b: string)
    requires AllDigits(a) && AllDigits(b)
    ensures AllDigits(a + b)
  {
    assert forall i :: 0 <= i < |a + b| ==> (a + b)[i] == if i < |a| then a[i] else b[i - |a|];
  }

  /** `StrUnsignedDecimalLiteral`: "Infinity", or digits with an optional fraction and
      exponent, at least one digit before or after the point. */
  function UnsignedDecimal(u: string): JsNumber {
    if u == "Infinity" then Infinite(false)
    else
      var a := DigitRun(u);
      var afterInt := u[a..];
      var hasDot := |afterInt| > 0 && afterInt[0] == '.';
      var fraction := if hasDot then afterInt[1..] else afterInt;
      var b := if hasDot then DigitRun(fraction) else 0;
      var exponent := Exponent(fraction[b..]);
      if a + b == 0 || exponent.None? then NaN
      else
        DigitsJoin(u[..a], fraction[..b]);
        Finite(Decimal(false, DigitsValue(u[..a] + fraction[..b]), exponent.value - b))
  }

  function Negated(n: JsNumber): JsNumber {
    match n
    case NaN => NaN
    case Infinite(neg) => Infinite(!neg)
    case Finite(x) => Finite(x.(negative := !x.negative))
  }

  /** A run of digits reads as its decimal value. */
  lemma DigitsNumber(u: string)
    requires AllDigits(u) && u != ""
    ensures UnsignedDecimal(u) == Finite(Decimal(false, DigitsValue(u), 0))
  {
    DigitRunAll(u);
    assert u[..|u|] + "" == u;
    assert u[|u|..] == "";
  }

  /** JavaScript `Number(s)` (`StringToNumber`): white space around is ignored, the
      empty string is 0, then a non-decimal integer literal or an optionally signed
      decimal literal; anything else is `NaN`. */
  function NumberOf(s: string): (r: JsNumber)
    ensures AllDigits(Trim(s)) ==> r == Finite(Decimal(false, DigitsValue(Trim(s)), 0))
  {
    var t := Trim(s);
    if t == "" then Finite(Decimal(false, 0, 0))
    else match NonDecimal(t)
      case Some(v) => Finite(Decimal(false, v, 0))
      case None =>
        if t[0] == '+' then UnsignedDecimal(t[1..])
        else if t[0] == '-' then Negated(UnsignedDecimal(t[1..]))
        else if AllDigits(t) then (DigitsNumber(t); UnsignedDecimal(t))
        else UnsignedDecimal(t)
  }

  /** `n / p` with the fraction cut off toward zero. */
  function TruncDiv(n: int, p: nat): int
    requires p >= 1
  {
    if n >= 0 then n / p else -((-n) / p)
  }

  function Signed(x: Decimal): int {
    if x.negative then -(x.mantissa as int) else x.mantissa
  }

  /** `ToIntegerOrInfinity(x)` of a finite value: its fraction cut off toward zero. */
  function Trunc(x: Decimal): int {
    if x.exponent >= 0 then Signed(x) * Pow10(x.exponent)
    else TruncDiv(Signed(x), Pow10(-x.exponent))
  }

  /** `ToIntegerOrInfinity(x - 1)`: one is taken off before the fraction is cut. */
  function TruncMinusOne(x: Decimal): int {
    if x.exponent >= 0 then Signed(x) * Pow10(x.exponent) - 1
    else TruncDiv(Signed(x) - Pow10(-x.exponent), Pow10(-x.exponent))
  }

  /** `new Date(y, m - 1, d)` maps a year from 0 to 99 into the twentieth century. */
  function FullYear(y: int): int {
    if 0 <= y <= 99 then 1900 + y else y
  }

  /** `DayFromYear`: days from 1 January 1970 to 1 January of year `y`. */
  function DayFromYear(y: int): int {
    365 * (y - 1970) + (y - 1969) / 4 - (y - 1901) / 100 + (y - 1601) / 400
  }

  predicate InLeapYear(y: int) {
    y % 4 == 0 && (y % 100 != 0 || y % 400 == 0)
  }

  /** Days from the start of the year to the start of month `mn` (0 is January). */
  function MonthStart(mn: int, leap: bool): int
    requires 0 <= mn < 12
  {
    [0, 31, 59, 90, 120, 151, 181, 212, 243, 273, 304, 334][mn] + (if leap && mn >= 2 then 1 else 0)
  }

  /** `MakeDay(year, month, date)`: the day number of the date, a month outside 0 to 11
      carried into the year and a day past the month's end carried forward. */
  function MakeDay(year: int, month: int, date: int): int {
    var ym := year + month / 12;
    var mn := month % 12;
    DayFromYear(ym) + MonthStart(mn, InLeapYear(ym)) + date - 1
  }

  /** 8.64e15 ms, the largest time value `TimeClip` keeps, is this many days. */
  const MAX_DAYS: int := 100_000_000

  /** `TimeClip` keeps the midnight of this day. */
  predicate InTimeRange(day: int) {
    -MAX_DAYS <= day <= MAX_DAYS
  }

  /** `new Date(yyyy, mm - 1, dd)` for finite arguments: the year, month and day cut to
      whole numbers, or `None` (`NaN`) when that day lies outside the time-value
      range. */
  function NewDate(yyyy: Decimal, mm: Decimal, dd: Decimal): (r: Option<Date>)
    ensures r.Some? ==> r.value == Date(FullYear(Trunc(yyyy)), TruncMinusOne(mm) + 1, Trunc(dd))
  {
    var year := FullYear(Trunc(yyyy));
    var month := TruncMinusOne(mm);
    var day := Trunc(dd);
    if InTimeRange(MakeDay(year, month, day)) then Some(Date(year, month + 1, day)) else None
  }

  /** `parseExpires`: split on '/', read the first three pieces with `Number`, and build
      the date; a missing piece, a piece that is not a finite number, or a date outside
      the time-value range gives `NaN`, which throws. */
  function ParseExpires(expires: string): (r: Result<Date>)
    ensures r.Err? ==> r.error == Error("Invalid expires date: " + expires)
  {
    var parts := Split(expires, '/');
    if |parts| < 3 then Err(Error("Invalid expires date: " + expires))
    else
      var mm := NumberOf(parts[0]);
      var dd := NumberOf(parts[1]);
      var yyyy := NumberOf(parts[2]);
      if !(mm.Finite? && dd.Finite? && yyyy.Finite?) then Err(Error("Invalid expires date: " + expires))
      else match NewDate(yyyy.value, mm.value, dd.value)
        case None => Err(Error("Invalid expires date: " + expires))
        case Some(d) => Ok(d)
  }

  /** `formatExpires`: two-digit month and day, then the year unpadded. */
  function FormatExpires(d: Date): string {
    PadStart2(IntToString(d.month)) + "/" + PadStart2(IntToString(d.day)) + "/" + IntToString(d.year)
  }

  /** `parseExpires` fails exactly when fewer than three pieces exist, one of the first
      three is not a finite number, or the date lies outside the time-value range. */
  lemma ParseExpiresFails(expires: string)
    ensures var parts := Split(expires, '/');
      ParseExpires(expires).Err? <==>
        (|parts| < 3 || !NumberOf(parts[0]).Finite? || !NumberOf(parts[1]).Finite? || !NumberOf(parts[2]).Finite?
         || !InTimeRange(MakeDay(FullYear(Trunc(NumberOf(parts[2]).value)), TruncMinusOne(NumberOf(parts[0]).value),
                                 Trunc(NumberOf(parts[1]).value))))
    ensures ParseExpires(expires).Ok? ==> ParseExpires(expires).value == NewDate(
      NumberOf(Split(expires, '/')[2]).value, NumberOf(Split(expires, '/')[0]).value, NumberOf(Split(expires, '/')[1]).value).value
  {
  }

  /** Midnight of every day from year 0 to year 275759 is a valid time value. */
  lemma CalendarDayInRange(year: int, month: int, date: int)
    requires 0 <= year <= 275759 && 0 <= month <= 11 && 1 <= date <= 31
    ensures InTimeRange(MakeDay(year, month, date))
  {
    assert year + month / 12 == year;
  }

  /** No day of a year after 275760 is. */
  lemma YearsPastRange(year: int, month: int, date: int)
    requires year >= 275761 && 0 <= month <= 11 && date >= 1
    ensures !InTimeRange(MakeDay(year, month, date))
    ensures !InTimeRange(MakeDay(FullYear(year), month, date))
  {
    assert year + month / 12 == year && FullYear(year) == year;
  }

  /** The range ends on 13 September 275760. */
  lemma RangeEnd()
    ensures InTimeRange(MakeDay(275760, 8, 13)) && !InTimeRange(MakeDay(275760, 8, 14))
  {
    assert DayFromYear(275760) == 99_999_744;
    assert InLeapYear(275760) && MonthStart(8, true) == 244;
    assert MakeDay(275760, 8, 13) == MAX_DAYS;
  }

  lemma {:induction false} DigitRunOf(a: string, rest: string)
    requires AllDigits(a) && (rest == [] || !IsDigit(rest[0]))
    ensures DigitRun(a + rest) == |a|
  {
    if |a| > 0 {
      assert (a + rest)[1..] == a[1..] + rest;
      DigitRunOf(a[1..], rest);
    }
  }

  lemma ShiftStep(x: int, p: int, c: int, last: int)
    ensures 10 * (x * p + c) + last == x * (10 * p) + (10 * c + last)
  {
    assert 10 * (x * p) == x * (10 * p);
  }

  lemma {:induction false} DigitsValueConcat(a: string, b: string)
    requires AllDigits(a) && AllDigits(b)
    ensures AllDigits(a + b)
    ensures DigitsValue(a + b) == DigitsValue(a) * Pow10(|b|) + DigitsValue(b)
  {
    DigitsJoin(a, b);
    if |b| > 0 {
      var c := b[..|b| - 1];
      assert (a + b)[..|a + b| - 1] == a + c;
      assert (a + b)[|a + b| - 1] == b[|b| - 1];
      DigitsValueConcat(a, c);
      var last := b[|b| - 1] as int - '0' as int;
      assert DigitsValue(a + b) == 10 * DigitsValue(a + c) + last;
      assert DigitsValue(b) == 10 * DigitsValue(c) + last;
      assert Pow10(|b|) == 10 * Pow10(|c|);
      ShiftStep(DigitsValue(a), Pow10(|c|), DigitsValue(c), last);
    } else {
      assert a + b == a;
    }
  }

  /** A literal with no white space around it, no base prefix and no sign is read as an
      unsigned decimal literal. */
  lemma PlainLiteral(t: string)
    requires t != "" && !IsSpace(t[0]) && !IsSpace(t[|t| - 1])
    requires IsDigit(t[0]) || t[0] == '.'
    requires |t| >= 2 ==> t[1] != 'x' && t[1] != 'X' && t[1] != 'o' && t[1] != 'O' && t[1] != 'b' && t[1] != 'B'
    ensures NumberOf(t) == UnsignedDecimal(t)
  {
    TrimStartIdle(t);
    TrimEndIdle(t);
    assert NonDecimal(t).None?;
  }

  /** Digits, a point and digits: a literal `PlainLiteral` applies to. */
  lemma FractionShape(a: string, b: string)
    requires AllDigits(a) && AllDigits(b) && |a| + |b| > 0
    ensures var t := a + "." + b;
      && t != "" && !IsSpace(t[0]) && !IsSpace(t[|t| - 1])
      && (IsDigit(t[0]) || t[0] == '.')
      && (|t| >= 2 ==> t[1] != 'x' && t[1] != 'X' && t[1] != 'o' && t[1] != 'O' && t[1] != 'b' && t[1] != 'B')
  {
    var t := a + "." + b;
    assert t[|a|] == '.';
    assert forall k :: 0 <= k < |a| ==> t[k] == a[k];
    assert t[|t| - 1] == if |b| > 0 then b[|b| - 1] else '.';
    assert |a| == 1 && |t| >= 2 ==> t[1] == '.';
    assert |a| == 0 && |t| >= 2 ==> t[1] == b[0];
  }

  /** The unsigned reading of digits, a point and digits. */
  lemma FractionUnsigned(a: string, b: string)
    requires AllDigits(a) && AllDigits(b) && |a| + |b| > 0
    ensures AllDigits(a + b)
    ensures UnsignedDecimal(a + "." + b) == Finite(Decimal(false, DigitsValue(a + b), -|b|))
  {
    DigitsJoin(a, b);
    var rest := "." + b;
    var t := a + rest;
    assert t == a + "." + b;
    DigitRunOf(a, rest);
    assert t[..|a|] == a && t[|a|..] == rest && rest[1..] == b;
    DigitRunAll(b);
    assert b[..|b|] == b && b[|b|..] == "";
    assert t != "Infinity" by { assert t[0] == if |a| > 0 then a[0] else '.'; }
  }

  /** Digits with a decimal point read as all the digits scaled down by those after
      the point. */
  lemma NumberOfFraction(a: string, b: string)
    requires AllDigits(a) && AllDigits(b) && |a| + |b| > 0
    ensures AllDigits(a + b)
    ensures NumberOf(a + "." + b) == Finite(Decimal(false, DigitsValue(a + b), -|b|))
  {
    FractionShape(a, b);
    PlainLiteral(a + "." + b);
    FractionUnsigned(a, b);
  }

  lemma DigitsThenExponent(a: string, rest: string)
    requires AllDigits(a) && a != "" && |rest| > 0 && (rest[0] == 'e' || rest[0] == 'E')
    ensures UnsignedDecimal(a + rest)
      == if Exponent(rest).Some? then Finite(Decimal(false, DigitsValue(a), Exponent(rest).value)) else NaN
  {
    var t := a + rest;
    DigitRunOf(a, rest);
    assert t[..|a|] == a && t[|a|..] == rest && rest[0..] == rest;
    assert a + "" == a;
    assert t != "Infinity" by { assert t[0] != 'I'; }
  }

  /** Digits with an exponent read as their value times that power of ten. */
  lemma NumberOfExponent(a: string, e: string)
    requires AllDigits(a) && a != "" && AllDigits(e) && e != ""
    ensures NumberOf(a + "e" + e) == Finite(Decimal(false, DigitsValue(a), DigitsValue(e)))
  {
    var rest := "e" + e;
    var t := a + rest;
    assert t == a + "e" + e;
    assert |a| >= 2 ==> t[1] == a[1];
    assert |a| == 1 ==> t[1] == 'e';
    assert t[|t| - 1] == e[|e| - 1];
    PlainLiteral(t);
    assert Exponent(rest) == Some(DigitsValue(e) as int) by {
      assert rest[0] == 'e' && rest[1..] == e && e[0] != '+' && e[0] != '-';
    }
    DigitsThenExponent(a, rest);
  }

  /** "0x" and hexadecimal digits read as their value. */
  lemma NumberOfHex(h: string)
    requires h != "" && AllRadix(h, 16)
    ensures NumberOf("0x" + h) == Finite(Decimal(false, RadixValue(h, 16), 0))
  {
    var t := "0x" + h;
    assert HexDigit(t[|t| - 1]) < 16;
    assert !IsSpace(t[0]) && !IsSpace(t[|t| - 1]);
    TrimStartIdle(t);
    TrimEndIdle(t);
    assert t[2..] == h;
  }

  /** A sign before digits gives their value with that sign. */
  lemma NumberOfSigned(d: string)
    requires AllDigits(d) && d != ""
    ensures NumberOf("-" + d) == Finite(Decimal(true, DigitsValue(d), 0))
    ensures NumberOf("+" + d) == Finite(Decimal(false, DigitsValue(d), 0))
  {
    assert !IsSpace(d[|d| - 1]);
    assert ("-" + d)[1..] == d && ("+" + d)[1..] == d;
    TrimStartIdle("-" + d);
    TrimEndIdle("-" + d);
    TrimStartIdle("+" + d);
    TrimEndIdle("+" + d);
    DigitsNumber(d);
  }

  lemma DigitsAreTrimmed(s: string)
    requires AllDigits(s)
    ensures Trim(s) == s
  {
    TrimStartIdle(s);
    TrimEndIdle(s);
  }

  lemma DigitsHaveNoSlash(s: string)
    requires AllDigits(s)
    ensures '/' !in s
  {
    assert forall k :: 0 <= k < |s| ==> s[k] != '/';
  }

  lemma {:induction false} FormatIsJoin(d: Date, m: string, dd: string, y: string)
    requires m == PadStart2(IntToString(d.month)) && dd == PadStart2(IntToString(d.day))
    requires y == IntToString(d.year)
    ensures FormatExpires(d) == Join([m, dd, y], "/")
  {
    assert [m, dd, y][1..] == [dd, y];
    assert [dd, y][1..] == [y];
    assert Join([y], "/") == y;
    assert Join([dd, y], "/") == dd + "/" + y;
    assert Join([m, dd, y], "/") == m + "/" + (dd + "/" + y);
  }

  lemma ComponentValue(s: string)
    requires AllDigits(s)
    ensures NumberOf(s) == Finite(Decimal(false, DigitsValue(s), 0))
  {
    DigitsAreTrimmed(s);
  }

  /** A date whose three pieces hold no '/' parses from those pieces alone. */
  lemma ParseOfPieces(m: string, dd: string, y: string)
    requires '/' !in m && '/' !in dd && '/' !in y
    ensures var e := Join([m, dd, y], "/");
      ParseExpires(e) == (
        if NumberOf(m).Finite? && NumberOf(dd).Finite? && NumberOf(y).Finite?
           && NewDate(NumberOf(y).value, NumberOf(m).value, NumberOf(dd).value).Some?
        then Ok(NewDate(NumberOf(y).value, NumberOf(m).value, NumberOf(dd).value).value)
        else Err(Error("Invalid expires date: " + e)))
  {
    SplitJoin([m, dd, y], '/');
  }

  /** `new Date` of three whole numbers: those numbers, the year moved into the
      twentieth century when below 100, when the day lies in the time-value range. */
  lemma NewDateOfWhole(y: nat, m: nat, d: nat)
    ensures NewDate(Decimal(false, y, 0), Decimal(false, m, 0), Decimal(false, d, 0))
      == if InTimeRange(MakeDay(FullYear(y), m - 1, d)) then Some(Date(FullYear(y), m, d)) else None
  {
    assert Trunc(Decimal(false, y, 0)) == y;
    assert Trunc(Decimal(false, d, 0)) == d;
    assert TruncMinusOne(Decimal(false, m, 0)) == m - 1;
  }

  /** Three pieces that read as whole numbers parse as those numbers. */
  lemma ParseOfWholePieces(e: string, m: string, dd: string, y: string, mv: nat, dv: nat, yv: nat)
    requires e == Join([m, dd, y], "/")
    requires '/' !in m && '/' !in dd && '/' !in y
    requires NumberOf(m) == Finite(Decimal(false, mv, 0))
    requires NumberOf(dd) == Finite(Decimal(false, dv, 0))
    requires NumberOf(y) == Finite(Decimal(false, yv, 0))
    ensures InTimeRange(MakeDay(FullYear(yv), mv - 1, dv)) ==> ParseExpires(e) == Ok(Date(FullYear(yv), mv, dv))
    ensures !InTimeRange(MakeDay(FullYear(yv), mv - 1, dv)) ==>
      ParseExpires(e) == Err(Error("Invalid expires date: " + e))
  {
    ParseOfPieces(m, dd, y);
    NewDateOfWhole(yv, mv, dv);
  }

  /** Three digit strings joined with '/' parse as month, day and year when that date
      lies in the time-value range, and fail otherwise. */
  lemma ParseOfJoin(m: string, dd: string, y: string)
    requires AllDigits(m) && AllDigits(dd) && AllDigits(y)
    ensures InTimeRange(MakeDay(FullYear(DigitsValue(y)), DigitsValue(m) - 1, DigitsValue(dd))) ==>
      ParseExpires(Join([m, dd, y], "/")) == Ok(Date(FullYear(DigitsValue(y)), DigitsValue(m), DigitsValue(dd)))
    ensures !InTimeRange(MakeDay(FullYear(DigitsValue(y)), DigitsValue(m) - 1, DigitsValue(dd))) ==>
      ParseExpires(Join([m, dd, y], "/")) == Err(Error("Invalid expires date: " + Join([m, dd, y], "/")))
  {
    DigitsHaveNoSlash(m);
    DigitsHaveNoSlash(dd);
    DigitsHaveNoSlash(y);
    ComponentValue(m);
    ComponentValue(dd);
    ComponentValue(y);
    ParseOfWholePieces(Join([m, dd, y], "/"), m, dd, y, DigitsValue(m), DigitsValue(dd), DigitsValue(y));
  }

  /** Reading back a formatted calendar date gives the same date. */
  lemma ParseFormatRoundTrip(d: Date)
    requires Canonical(d)
    ensures ParseExpires(FormatExpires(d)) == Ok(d)
  {
    var m := PadStart2(NatToString(d.month));
    var dd := PadStart2(NatToString(d.day));
    var y := NatToString(d.year);
    FormattedPieces(d, m, dd, y);
    CalendarDateInRange(d);
    ParseOfWholePieces(FormatExpires(d), m, dd, y, d.month, d.day, d.year);
  }

  /** `new Date` keeps a calendar date as it is, inside the time-value range. */
  lemma CalendarDateInRange(d: Date)
    requires Canonical(d)
    ensures InTimeRange(MakeDay(FullYear(d.year), d.month - 1, d.day))
    ensures Date(FullYear(d.year), d.month, d.day) == d
  {
    assert FullYear(d.year) == d.year;
    CalendarDayInRange(FullYear(d.year), d.month - 1, d.day);
  }

  /** The formatted text is its three pieces joined with '/', each reading back as its
      number. */
  lemma FormattedPieces(d: Date, m: string, dd: string, y: string)
    requires Canonical(d)
    requires m == PadStart2(NatToString(d.month)) && dd == PadStart2(NatToString(d.day))
    requires y == NatToString(d.year)
    ensures FormatExpires(d) == Join([m, dd, y], "/")
    ensures '/' !in m && '/' !in dd && '/' !in y
    ensures NumberOf(m) == Finite(Decimal(false, d.month, 0)) && NumberOf(dd) == Finite(Decimal(false, d.day, 0))
    ensures NumberOf(y) == Finite(Decimal(false, d.year, 0))
  {
    FormatIsJoin(d, m, dd, y);
    WrittenNumber(m, d.month);
    WrittenNumber(dd, d.day);
    WrittenNumber(y, d.year);
  }

  /** A number written in decimal, padded or not, reads back as that number. */
  lemma WrittenNumber(s: string, n: nat)
    requires s == NatToString(n) || s == PadStart2(NatToString(n))
    ensures '/' !in s && NumberOf(s) == Finite(Decimal(false, n, 0))
  {
    NatToStringValue(n);
    PadStart2Value(n);
    DigitsHaveNoSlash(s);
    ComponentValue(s);
  }

  lemma {:induction false} DigitsBelowPow10(s: string)
    requires AllDigits(s)
    ensures DigitsValue(s) < Pow10(|s|)
  {
    if |s| > 0 {
      DigitsBelowPow10(s[..|s| - 1]);
    }
  }

  lemma OneDecimalMonth(a: string, b: string)
    requires AllDigits(a) && AllDigits(b) && DigitsValue(a) >= 1 && |b| == 1
    ensures NumberOf(a + "." + b).Finite?
    ensures TruncMinusOne(NumberOf(a + "." + b).value) == DigitsValue(a) - 1
  {
    NumberOfFraction(a, b);
    DigitsValueConcat(a, b);
    DigitsBelowPow10(b);
    assert Pow10(1) == 10;
    var n := DigitsValue(a + b);
    assert n == 10 * DigitsValue(a) + DigitsValue(b) && DigitsValue(b) < 10;
    assert TruncMinusOne(Decimal(false, n, -1)) == (n - 10) / 10;
  }

  lemma FractionHasNoSlash(a: string, b: string)
    requires AllDigits(a) && AllDigits(b)
    ensures '/' !in a + "." + b
  {
    var month := a + "." + b;
    assert forall k :: 0 <= k < |month| ==> month[k] == (if k < |a| then a[k] else if k == |a| then '.' else b[k - |a| - 1]);
  }

  /** `new Date` reads the month only through `ToIntegerOrInfinity(mm - 1)`. */
  lemma NewDateByMonth(yyyy: Decimal, m1: Decimal, m2: Decimal, dd: Decimal)
    requires TruncMinusOne(m1) == TruncMinusOne(m2)
    ensures NewDate(yyyy, m1, dd) == NewDate(yyyy, m2, dd)
  {
  }

  /** Two month pieces that `new Date` cuts to the same month parse alike. */
  lemma SameMonthSameParse(m1: string, m2: string, dd: string, y: string)
    requires '/' !in m1 && '/' !in m2 && '/' !in dd && '/' !in y
    requires NumberOf(m1).Finite? && NumberOf(m2).Finite?
    requires TruncMinusOne(NumberOf(m1).value) == TruncMinusOne(NumberOf(m2).value)
    ensures ParseExpires(Join([m1, dd, y], "/")).Ok? <==> ParseExpires(Join([m2, dd, y], "/")).Ok?
    ensures ParseExpires(Join([m1, dd, y], "/")).Ok? ==>
      ParseExpires(Join([m1, dd, y], "/")) == ParseExpires(Join([m2, dd, y], "/"))
  {
    ParseOfPieces(m1, dd, y);
    ParseOfPieces(m2, dd, y);
    var yv := NumberOf(y);
    var dv := NumberOf(dd);
    if yv.Finite? && dv.Finite? {
      NewDateByMonth(yv.value, NumberOf(m1).value, NumberOf(m2).value, dv.value);
    }
  }

  /** A month written with one decimal place reads as its whole part: `Date` takes one
      off `Number("1.5")` and cuts the fraction of the remaining 0.5. */
  lemma FractionalMonthTruncated(a: string, b: string, dd: string, y: string)
    requires AllDigits(a) && AllDigits(b) && AllDigits(dd) && AllDigits(y)
    requires DigitsValue(a) >= 1 && |b| == 1
    ensures ParseExpires(Join([a + "." + b, dd, y], "/")).Ok? <==> ParseExpires(Join([a, dd, y], "/")).Ok?
    ensures ParseExpires(Join([a + "." + b, dd, y], "/")).Ok? ==>
      ParseExpires(Join([a + "." + b, dd, y], "/")) == ParseExpires(Join([a, dd, y], "/"))
  {
    FractionHasNoSlash(a, b);
    DigitsHaveNoSlash(a);
    DigitsHaveNoSlash(dd);
    DigitsHaveNoSlash(y);
    OneDecimalMonth(a, b);
    ComponentValue(a);
    assert TruncMinusOne(Decimal(false, DigitsValue(a), 0)) == DigitsValue(a) - 1;
    SameMonthSameParse(a + "." + b, a, dd, y);
  }

  /** A year past the time-value range throws, however well formed the rest. */
  lemma DistantYearFails(m: string, dd: string, y: string)
    requires AllDigits(m) && AllDigits(dd) && AllDigits(y)
    requires 1 <= DigitsValue(m) <= 12 && DigitsValue(dd) >= 1 && DigitsValue(y) >= 275761
    ensures ParseExpires(Join([m, dd, y], "/")).Err?
  {
    ParseOfJoin(m, dd, y);
    YearsPastRange(DigitsValue(y), DigitsValue(m) - 1, DigitsValue(dd));
  }

  /** Distinct calendar dates never format to the same text. */
  lemma FormatInjective(a: Date, b: Date)
    requires Canonical(a) && Canonical(b)
    requires FormatExpires(a) == FormatExpires(b)
    ensures a == b
  {
    ParseFormatRoundTrip(a);
    ParseFormatRoundTrip(b);
  }

  // ---------------------------------------------------------------------------
  // toResponse

  datatype GroupInfo = GroupInfo(id: nat, name: string, description: Option<string>)
  datatype CpanelInfo = CpanelInfo(id: nat, ipServer: string, username: string, mainDomain: Option<string>)

  /** The backoffice list/detail shape. `None` stands for both `null` and `undefined`. */
  datatype DomainResponse = DomainResponse(
    id: string,
    name: string,
    user: Option<string>,
    created: Option<string>,
    expires: string,
    isExpired: bool,
    isLocked: bool,
    autoRenew: bool,
    whoisGuard: Option<string>,
    isPremium: Option<bool>,
    isOurDNS: Option<bool>,
    description: Option<string>,
    nameServers: seq<string>,
    nawala: bool,
    isUsed: bool,
    category: Option<Category>,
    isDefense: bool,
    isLinkAlt: bool,
    group: Option<GroupInfo>,
    cpanel: Option<CpanelInfo>)

  /** `[ns1, ns2].filter(s => s != null && s !== '')` */
  function NameServerList(ns1: Option<string>, ns2: Option<string>): seq<string> {
    (if ns1.Some? && ns1.value != "" then [ns1.value] else [])
    + (if ns2.Some? && ns2.value != "" then [ns2.value] else [])
  }

  /** `toResponse`. A relation appears only when it was loaded with the row; the caller
      passes `None` for a relation it did not populate, which the source renders as `null`. */
  function ToResponse(d: Domain, group: Option<GroupInfo>, cpanel: Option<CpanelInfo>): (r: DomainResponse)
    ensures AllDigits(r.id) && DigitsValue(r.id) == d.id
    ensures r.name == d.name && r.description == d.description
    ensures r.nawala == d.nawala && r.isUsed == d.isUsed
    ensures r.group == (if d.group.Some? then group else None)
    ensures r.cpanel == (if d.cpanel.Some? then cpanel else None)
  {
    NatToStringValue(d.id);
    DomainResponse(
      NatToString(d.id), d.name, d.user, d.created, FormatExpires(d.expiryDate),
      d.isExpired, d.isLocked, d.autoRenew, d.whoisGuard, d.isPremium, d.isOurDns,
      d.description, NameServerList(d.nameServer1, d.nameServer2),
      d.nawala, d.isUsed, d.category, d.isDefense, d.isLinkAlt,
      if d.group.Some? then group else None,
      if d.cpanel.Some? then cpanel else None)
  }

  /** The response lists exactly the non-empty stored name servers, the first one first. */
  lemma NameServersListed(d: Domain, group: Option<GroupInfo>, cpanel: Option<CpanelInfo>)
    ensures var ns := ToResponse(d, group, cpanel).nameServers;
      && (forall s :: s in ns <==> s != "" && (d.nameServer1 == Some(s) || d.nameServer2 == Some(s)))
      && |ns| <= 2
      && (d.nameServer1.Some? && d.nameServer1.value != "" ==> ns[0] == d.nameServer1.value)
  {
  }
}
