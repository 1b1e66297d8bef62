/**
 Certificate times: the closed-form day number equals counting days one at a time, and
 parsing accepts exactly the two forms of calendar times from 1970 on: two-digit years under the UTCTime tag, four
 digits under the GeneralizedTime tag. Section 4.1.2.5 of RFC 5280 keeps the second for years from 2050.
 */
module X509Time {
  import opened Wrappers
  import opened ByteSeq

  datatype Error = UnsupportedEncoding | NonDecimal | InvalidCalendar | PreEpoch

  datatype Date = Date(year: int, month: int, day: int)

  function DaysInMonth(year: int, month: int): int {
    if month in {1, 3, 5, 7, 8, 10, 12} then 31
    else if month in {4, 6, 9, 11} then 30
    else if month == 2 then
      if year % 4 == 0 && (year % 100 != 0 || year % 400 == 0) then 29 else 28
    else 0
  }

  /** Division as the machine does it, toward zero. */
  function TruncDiv(a: int, b: nat): int
    requires b > 0
  {
    if a >= 0 then a / b else -(-a / b)
  }

  function DaysFromCivil(d: Date): int {
    var year := d.year - if d.month <= 2 then 1 else 0;
    var era := TruncDiv(if year >= 0 then year else year - 399, 400);
    var yearOfEra := year - era * 400;
    var adjustedMonth := d.month + if d.month > 2 then -3 else 9;
    var dayOfYear := TruncDiv(153 * adjustedMonth + 2, 5) + d.day - 1;
    var dayOfEra := yearOfEra * 365 + TruncDiv(yearOfEra, 4) - TruncDiv(yearOfEra, 100) + dayOfYear;
    era * 146_097 + dayOfEra - 719_468
  }

  // ---- counting days ----

  const EPOCH: Date := Date(1970, 1, 1)

  predicate IsDate(d: Date) {
    0 <= d.year && 1 <= d.month <= 12 && 1 <= d.day <= DaysInMonth(d.year, d.month)
  }

  function NextDay(d: Date): Date {
    if d.day < DaysInMonth(d.year, d.month) then d.(day := d.day + 1)
    else if d.month < 12 then Date(d.year, d.month + 1, 1)
    else Date(d.year + 1, 1, 1)
  }

  function PreviousDay(d: Date): Date {
    if d.day > 1 then d.(day := d.day - 1)
    else if d.month > 1 then Date(d.year, d.month - 1, DaysInMonth(d.year, d.month - 1))
    else Date(d.year - 1, 12, 31)
  }

  /** The calendar day reached from the epoch in n single steps. */
  function DayAfterEpoch(n: nat): Date {
    if n == 0 then EPOCH else NextDay(DayAfterEpoch(n - 1))
  }

  predicate Before(a: Date, b: Date) {
    a.year < b.year || (a.year == b.year && (a.month < b.month || (a.month == b.month && a.day < b.day)))
  }

  /** Days before March of the year, without eras. */
  function MarchDays(y: int): int { 365 * y + y / 4 - y / 100 + y / 400 }

  lemma EraForm(y: int)
    requires y >= -1
    ensures var era := TruncDiv(if y >= 0 then y else y - 399, 400);
            var r := y - era * 400;
            0 <= r < 400 && era * 146_097 + r * 365 + r / 4 - r / 100 == MarchDays(y)
  {
    var era := TruncDiv(if y >= 0 then y else y - 399, 400);
    var r := y - era * 400;
    assert y == 400 * era + r;
    assert y / 400 == era && y / 4 == 100 * era + r / 4 && y / 100 == 4 * era + r / 100;
  }

  function MonthDays(month: int): int {
    TruncDiv(153 * (month + if month > 2 then -3 else 9) + 2, 5)
  }

  lemma CivilForm(d: Date)
    requires IsDate(d)
    ensures DaysFromCivil(d)
         == MarchDays(d.year - if d.month <= 2 then 1 else 0) + MonthDays(d.month) + d.day - 1 - 719_468
  {
    EraForm(d.year - if d.month <= 2 then 1 else 0);
  }

  lemma QuotientStep(y: int)
    ensures y / 4 - (y - 1) / 4 == if y % 4 == 0 then 1 else 0
    ensures y / 100 - (y - 1) / 100 == if y % 100 == 0 then 1 else 0
    ensures y / 400 - (y - 1) / 400 == if y % 400 == 0 then 1 else 0
  {
    assert y / 4 - (y - 1) / 4 == if y % 4 == 0 then 1 else 0 by { var q := y / 4; assert y == 4 * q + y % 4; }
    assert y / 100 - (y - 1) / 100 == if y % 100 == 0 then 1 else 0 by { var q := y / 100; assert y == 100 * q + y % 100; }
    assert y / 400 - (y - 1) / 400 == if y % 400 == 0 then 1 else 0 by { var q := y / 400; assert y == 400 * q + y % 400; }
  }

  lemma CenturiesAreMultiples(y: int)
    ensures y % 400 == 0 ==> y % 100 == 0
    ensures y % 100 == 0 ==> y % 4 == 0
  {
    if y % 400 == 0 { HundredTimes(4 * (y / 400)); }
    if y % 100 == 0 { FourTimes(25 * (y / 100)); }
  }

  lemma HundredTimes(q: int)
    ensures (100 * q) % 100 == 0
  {
  }

  lemma FourTimes(q: int)
    ensures (4 * q) % 4 == 0
  {
  }

  lemma LeapStep(y: int)
    ensures MarchDays(y) - MarchDays(y - 1) == 337 + DaysInMonth(y, 2)
  {
    QuotientStep(y);
    CenturiesAreMultiples(y);
  }

  lemma NextDayIsOneMore(d: Date)
    requires IsDate(d)
    ensures IsDate(NextDay(d)) && DaysFromCivil(NextDay(d)) == DaysFromCivil(d) + 1
  {
    CivilForm(d);
    CivilForm(NextDay(d));
    if d.day == DaysInMonth(d.year, d.month) {
      if d.month == 2 { LeapStep(d.year); }
      MonthStep(d.month);
    }
  }

  lemma MonthStep(m: int)
    requires 1 <= m <= 12
    ensures m != 2 && m != 12 ==> MonthDays(m + 1) == MonthDays(m) + DaysInMonth(0, m)
    ensures m == 2 ==> MonthDays(2) == 337 && MonthDays(3) == 0
    ensures m == 12 ==> MonthDays(1) == MonthDays(12) + 31
  {}

  lemma PreviousThenNext(d: Date)
    requires IsDate(d) && (d.year > 0 || d.month > 1 || d.day > 1)
    ensures IsDate(PreviousDay(d)) && NextDay(PreviousDay(d)) == d
  {}

  /** Closed form and one-by-one counting agree on every day from the epoch on. */
  lemma {:induction false} ClosedFormCountsDays(n: nat)
    ensures IsDate(DayAfterEpoch(n)) && DaysFromCivil(DayAfterEpoch(n)) == n
  {
    if n > 0 {
      ClosedFormCountsDays(n - 1);
      NextDayIsOneMore(DayAfterEpoch(n - 1));
    }
  }

  /** Calendar order is day-number order. */
  lemma {:induction false} DaysFollowTheCalendar(a: Date, b: Date)
    requires IsDate(a) && IsDate(b) && Before(a, b)
    ensures DaysFromCivil(a) < DaysFromCivil(b)
    decreases b.year, b.month, b.day
  {
    var p := PreviousDay(b);
    PreviousThenNext(b);
    NextDayIsOneMore(p);
    if a != p { DaysFollowTheCalendar(a, p); }
  }

  lemma NonNegativeIffFromEpoch(d: Date)
    requires IsDate(d)
    ensures DaysFromCivil(d) >= 0 <==> d.year >= 1970
  {
    assert DaysFromCivil(EPOCH) == 0;
    if Before(d, EPOCH) { DaysFollowTheCalendar(d, EPOCH); }
    else if d != EPOCH { DaysFollowTheCalendar(EPOCH, d); }
  }

  /** Every date from 1970 on is the day its own number counts to. */
  lemma {:induction false} EveryDateIsCounted(d: Date)
    requires IsDate(d) && d.year >= 1970
    ensures DaysFromCivil(d) >= 0 && DayAfterEpoch(DaysFromCivil(d)) == d
    decreases d.year, d.month, d.day
  {
    NonNegativeIffFromEpoch(d);
    if d != EPOCH {
      PreviousThenNext(d);
      NextDayIsOneMore(PreviousDay(d));
      EveryDateIsCounted(PreviousDay(d));
    }
  }

  // ---- parsing ----

  datatype Moment = Moment(date: Date, hour: int, minute: int, second: int)

  predicate IsMoment(m: Moment) {
    IsDate(m.date) && 0 <= m.hour <= 23 && 0 <= m.minute <= 59 && 0 <= m.second <= 59
  }

  function Seconds(m: Moment): int {
    DaysFromCivil(m.date) * 86_400 + m.hour * 3_600 + m.minute * 60 + m.second
  }

  predicate IsDigit(b: byte) { 48 <= b <= 57 }

  /** The fold over ASCII digits. */
  function FoldDigits(s: seq<byte>): int {
    if s == [] then 0 else FoldDigits(s[..|s| - 1]) * 10 + s[|s| - 1] - 48
  }

  function Decimal(input: seq<byte>, offset: nat, length: nat): Result<int, Error> {
    if offset + length > |input| then Err(NonDecimal)
    else if exists k :: offset <= k < offset + length && !IsDigit(input[k]) then Err(NonDecimal)
    else Ok(FoldDigits(input[offset..offset + length]))
  }

  function Assemble(m: Moment): Result<int, Error> {
    if !(1 <= m.date.month <= 12) || m.date.day == 0 || m.date.day > DaysInMonth(m.date.year, m.date.month)
       || m.hour > 23 || m.minute > 59 || m.second > 59 then Err(InvalidCalendar)
    else
      var days := DaysFromCivil(m.date);
      if days < 0 then Err(PreEpoch)
      else Ok(days * 86_400 + m.hour * 3_600 + m.minute * 60 + m.second)
  }

  function Combine(year: int, input: seq<byte>, offset: nat): Result<int, Error> {
    var month := Decimal(input, offset, 2);
    var day := Decimal(input, offset + 2, 2);
    var hour := Decimal(input, offset + 4, 2);
    var minute := Decimal(input, offset + 6, 2);
    var second := Decimal(input, offset + 8, 2);
    if month.Err? || day.Err? || hour.Err? || minute.Err? || second.Err? then Err(NonDecimal)
    else Assemble(Moment(Date(year, month.value, day.value), hour.value, minute.value, second.value))
  }

  const UTC_TIME: byte := 0x17
  const GENERALIZED_TIME: byte := 0x18
  const ZULU: byte := 90

  function ParseX509Time(tag: byte, input: seq<byte>): Result<int, Error> {
    if tag == UTC_TIME && |input| == 13 && input[12] == ZULU then
      var short := Decimal(input, 0, 2);
      if short.Err? then Err(short.error)
      else Combine((if short.value >= 50 then 1900 else 2000) + short.value, input, 2)
    else if tag == GENERALIZED_TIME && |input| == 15 && input[14] == ZULU then
      var year := Decimal(input, 0, 4);
      if year.Err? then Err(year.error) else Combine(year.value, input, 4)
    else Err(UnsupportedEncoding)
  }

  // ---- the accepted forms ----

  function Pow10(n: nat): nat { if n == 0 then 1 else 10 * Pow10(n - 1) }

  function Digits(n: nat, width: nat): (s: seq<byte>)
    ensures |s| == width
  {
    if width == 0 then [] else Digits(n / 10, width - 1) + [48 + n % 10]
  }

  /** MMDDhhmmssZ */
  function EncodeTail(m: Moment): (s: seq<byte>)
    requires IsMoment(m)
    ensures |s| == 11 && s[10] == ZULU
    ensures s[0..2] == Digits(m.date.month, 2) && s[2..4] == Digits(m.date.day, 2)
    ensures s[4..6] == Digits(m.hour, 2) && s[6..8] == Digits(m.minute, 2) && s[8..10] == Digits(m.second, 2)
  {
    Digits(m.date.month, 2) + Digits(m.date.day, 2)
    + Digits(m.hour, 2) + Digits(m.minute, 2) + Digits(m.second, 2) + [ZULU]
  }

  function Encode(tag: byte, m: Moment): seq<byte>
    requires IsMoment(m)
  {
    (if tag == UTC_TIME then Digits(m.date.year % 100, 2) else Digits(m.date.year, 4)) + EncodeTail(m)
  }

  /** The times a tag can carry: two-digit years stand for 1950 to 2049, four digits for 0 to 9999. */
  predicate Carries(tag: byte, m: Moment) {
    && IsMoment(m)
    && ((tag == UTC_TIME && 1950 <= m.date.year <= 2049) || (tag == GENERALIZED_TIME && m.date.year <= 9999))
  }

  lemma {:induction false} DigitsFold(n: nat, width: nat)
    requires n < Pow10(width)
    ensures FoldDigits(Digits(n, width)) == n
    ensures forall k :: 0 <= k < width ==> IsDigit(Digits(n, width)[k])
  {
    if width > 0 {
      DigitsFold(n / 10, width - 1);
      var s := Digits(n, width);
      assert s[..width - 1] == Digits(n / 10, width - 1);
    }
  }

  lemma {:induction false} FoldBack(s: seq<byte>)
    requires forall k :: 0 <= k < |s| ==> IsDigit(s[k])
    ensures 0 <= FoldDigits(s) < Pow10(|s|) && Digits(FoldDigits(s), |s|) == s
  {
    if s != [] {
      var h, l := s[..|s| - 1], s[|s| - 1];
      FoldBack(h);
      assert (FoldDigits(h) * 10 + (l - 48)) / 10 == FoldDigits(h);
      assert s == h + [l];
    }
  }

  /** Decimal reads back what Digits wrote, and reads nothing else. */
  lemma DecimalIsDigits(input: seq<byte>, offset: nat, length: nat, v: int)
    requires offset + length <= |input|
    ensures Decimal(input, offset, length) == Ok(v) <==>
              0 <= v < Pow10(length) && input[offset..offset + length] == Digits(v, length)
  {
    var s := input[offset..offset + length];
    if Decimal(input, offset, length) == Ok(v) {
      forall k | 0 <= k < |s| ensures IsDigit(s[k]) { assert s[k] == input[offset + k]; }
      FoldBack(s);
    }
    if 0 <= v < Pow10(length) && s == Digits(v, length) {
      DigitsFold(v, length);
      forall k | offset <= k < offset + length ensures IsDigit(input[k]) { assert input[k] == s[k - offset]; }
    }
  }

  /** Non-negative fields make a time exactly when they are a calendar time from 1970 on. */
  lemma AssembleAccepts(m: Moment)
    requires m.date.year >= 0 && m.date.month >= 0 && m.date.day >= 0 && m.hour >= 0 && m.minute >= 0 && m.second >= 0
    ensures Assemble(m).Ok? <==> IsMoment(m) && m.date.year >= 1970
    ensures Assemble(m).Ok? ==> Assemble(m).value == Seconds(m)
  {
    if IsMoment(m) { NonNegativeIffFromEpoch(m.date); }
  }

  /** A two-digit field of `input` at `offset + k`, for an input that continues with `s` from `offset`. */
  lemma FieldIs(input: seq<byte>, offset: nat, s: seq<byte>, k: nat, v: int)
    requires offset <= |input| && input[offset..] == s && k + 2 <= |s| && 0 <= v < 100
    ensures Decimal(input, offset + k, 2) == Ok(v) <==> s[k..k + 2] == Digits(v, 2)
  {
    assert input[offset + k..offset + k + 2] == s[k..k + 2];
    assert Pow10(2) == 100 by { assert Pow10(1) == 10; }
    DecimalIsDigits(input, offset + k, 2, v);
  }

  lemma FieldRange(input: seq<byte>, offset: nat)
    requires offset + 2 <= |input| && Decimal(input, offset, 2).Ok?
    ensures 0 <= Decimal(input, offset, 2).value < 100
  {
    assert Pow10(2) == 100 by { assert Pow10(1) == 10; }
    DecimalIsDigits(input, offset, 2, Decimal(input, offset, 2).value);
  }

  /** The part after the year: accepted when it encodes a moment of that year, from 1970 on. */
  lemma CombineAccepts(year: int, input: seq<byte>, offset: nat, m: Moment)
    requires |input| == offset + 11 && IsMoment(m) && m.date.year == year >= 1970 && input[offset..] == EncodeTail(m)
    ensures Combine(year, input, offset) == Ok(Seconds(m))
  {
    var s := EncodeTail(m);
    FieldIs(input, offset, s, 0, m.date.month);
    FieldIs(input, offset, s, 2, m.date.day);
    FieldIs(input, offset, s, 4, m.hour);
    FieldIs(input, offset, s, 6, m.minute);
    FieldIs(input, offset, s, 8, m.second);
    AssembleAccepts(m);
  }

  lemma TailIs(s: seq<byte>, m: Moment)
    requires |s| == 11 && s[10] == ZULU && IsMoment(m)
    requires s[0..2] == Digits(m.date.month, 2) && s[2..4] == Digits(m.date.day, 2) && s[4..6] == Digits(m.hour, 2)
    requires s[6..8] == Digits(m.minute, 2) && s[8..10] == Digits(m.second, 2)
    ensures s == EncodeTail(m)
  {
    assert s == s[0..2] + s[2..4] + s[4..6] + s[6..8] + s[8..10] + [ZULU];
  }

  lemma CombineFinds(year: int, input: seq<byte>, offset: nat) returns (m: Moment)
    requires |input| == offset + 11 && input[offset + 10] == ZULU && year >= 0
    requires Combine(year, input, offset).Ok?
    ensures IsMoment(m) && m.date.year == year && year >= 1970
    ensures input[offset..] == EncodeTail(m) && Combine(year, input, offset) == Ok(Seconds(m))
  {
    m := Moment(Date(year, Decimal(input, offset, 2).value, Decimal(input, offset + 2, 2).value),
                Decimal(input, offset + 4, 2).value, Decimal(input, offset + 6, 2).value,
                Decimal(input, offset + 8, 2).value);
    FieldRange(input, offset);
    FieldRange(input, offset + 2);
    FieldRange(input, offset + 4);
    FieldRange(input, offset + 6);
    FieldRange(input, offset + 8);
    AssembleAccepts(m);
    var s := input[offset..];
    FieldIs(input, offset, s, 0, m.date.month);
    FieldIs(input, offset, s, 2, m.date.day);
    FieldIs(input, offset, s, 4, m.hour);
    FieldIs(input, offset, s, 6, m.minute);
    FieldIs(input, offset, s, 8, m.second);
    TailIs(s, m);
  }

  function YearWidth(tag: byte): nat { if tag == UTC_TIME then 2 else 4 }

  /** The digits a tag writes for a year, and the year it reads back from them. */
  function YearDigits(tag: byte, year: int): int { if tag == UTC_TIME then year % 100 else year }

  function YearOf(tag: byte, digits: int): int {
    if tag == UTC_TIME then (if digits >= 50 then 1900 else 2000) + digits else digits
  }

  lemma YearReadsBack(tag: byte, input: seq<byte>, digits: int)
    requires YearWidth(tag) <= |input|
    ensures Decimal(input, 0, YearWidth(tag)) == Ok(digits) <==>
              0 <= digits < (if tag == UTC_TIME then 100 else 10_000)
              && input[..YearWidth(tag)] == Digits(digits, YearWidth(tag))
  {
    assert Pow10(2) == 100 by { assert Pow10(1) == 10; }
    assert Pow10(4) == 10_000 by { assert Pow10(3) == 1_000; }
    DecimalIsDigits(input, 0, YearWidth(tag), digits);
  }

  predicate WellShaped(tag: byte, input: seq<byte>) {
    (tag == UTC_TIME || tag == GENERALIZED_TIME) && |input| == YearWidth(tag) + 11 && input[YearWidth(tag) + 10] == ZULU
  }

  lemma ParseShape(tag: byte, input: seq<byte>)
    ensures ParseX509Time(tag, input).Ok? ==> WellShaped(tag, input) && Decimal(input, 0, YearWidth(tag)).Ok?
    ensures WellShaped(tag, input) && Decimal(input, 0, YearWidth(tag)).Ok? ==>
              ParseX509Time(tag, input)
              == Combine(YearOf(tag, Decimal(input, 0, YearWidth(tag)).value), input, YearWidth(tag))
  {}

  lemma Joined(year: seq<byte>, tail: seq<byte>)
    ensures (year + tail)[..|year|] == year && (year + tail)[|year|..] == tail
    ensures |tail| == 11 ==> (year + tail)[|year| + 10] == tail[10]
  {}

  lemma ParseAccepts(tag: byte, m: Moment)
    requires Carries(tag, m) && m.date.year >= 1970
    ensures ParseX509Time(tag, Encode(tag, m)) == Ok(Seconds(m))
  {
    var input, w := Encode(tag, m), YearWidth(tag);
    var digits := YearDigits(tag, m.date.year);
    assert input == Digits(digits, w) + EncodeTail(m);
    Joined(Digits(digits, w), EncodeTail(m));
    YearReadsBack(tag, input, digits);
    assert YearOf(tag, digits) == m.date.year;
    CombineAccepts(m.date.year, input, w, m);
    ParseShape(tag, input);
  }

  lemma ParseFinds(tag: byte, input: seq<byte>) returns (m: Moment)
    requires ParseX509Time(tag, input).Ok?
    ensures Carries(tag, m) && m.date.year >= 1970
    ensures input == Encode(tag, m) && ParseX509Time(tag, input) == Ok(Seconds(m))
  {
    ParseShape(tag, input);
    var w := YearWidth(tag);
    var digits := Decimal(input, 0, w).value;
    YearReadsBack(tag, input, digits);
    m := CombineFinds(YearOf(tag, digits), input, w);
    EncodeIs(tag, input, m, digits);
  }

  lemma EncodeIs(tag: byte, input: seq<byte>, m: Moment, digits: int)
    requires tag == UTC_TIME || tag == GENERALIZED_TIME
    requires 0 <= digits < (if tag == UTC_TIME then 100 else 10_000) && m.date.year == YearOf(tag, digits)
    requires |input| == YearWidth(tag) + 11 && input[..YearWidth(tag)] == Digits(digits, YearWidth(tag))
    requires IsMoment(m) && input[YearWidth(tag)..] == EncodeTail(m)
    ensures Carries(tag, m) && input == Encode(tag, m)
  {
    assert YearDigits(tag, m.date.year) == digits;
    assert input == input[..YearWidth(tag)] + input[YearWidth(tag)..];
  }

  /** A time field is accepted exactly when it is the form its tag gives a calendar time from 1970 on. */
  lemma ParsesExactlyTheEncodings(tag: byte, input: seq<byte>, t: int)
    ensures ParseX509Time(tag, input) == Ok(t) <==>
              exists m :: Carries(tag, m) && m.date.year >= 1970 && input == Encode(tag, m) && t == Seconds(m)
  {
    if ParseX509Time(tag, input) == Ok(t) {
      var m := ParseFinds(tag, input);
    }
    forall m | Carries(tag, m) && m.date.year >= 1970 && input == Encode(tag, m) && t == Seconds(m)
      ensures ParseX509Time(tag, input) == Ok(t)
    {
      ParseAccepts(tag, m);
    }
  }

  predicate Earlier(a: Moment, b: Moment) {
    Before(a.date, b.date) ||
    (a.date == b.date && (a.hour < b.hour || (a.hour == b.hour &&
      (a.minute < b.minute || (a.minute == b.minute && a.second < b.second)))))
  }

  /** Parsed times are strictly increasing in calendar order, across both encodings. */
  lemma TimesFollowTheCalendar(a: Moment, tagA: byte, b: Moment, tagB: byte)
    requires Carries(tagA, a) && Carries(tagB, b) && a.date.year >= 1970 && b.date.year >= 1970 && Earlier(a, b)
    ensures ParseX509Time(tagA, Encode(tagA, a)).Ok? && ParseX509Time(tagB, Encode(tagB, b)).Ok?
    ensures ParseX509Time(tagA, Encode(tagA, a)).value < ParseX509Time(tagB, Encode(tagB, b)).value
  {
    ParseAccepts(tagA, a);
    ParseAccepts(tagB, b);
    if Before(a.date, b.date) { DaysFollowTheCalendar(a.date, b.date); }
  }
}
