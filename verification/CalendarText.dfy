/** The RFC 3339 text of a second, its parser, and the round trip between them
    (sections 5.1 and 5.6 of RFC 3339). A text is a sequence of its UTF-8 bytes,
    one character each. */
module CalendarText {
  import opened Order
  import opened Calendar
  import opened Text

  // ----------------------------------------------------------------- printing

  function Zeros(n: int): string {
    if n <= 0 then "" else "0" + Zeros(n - 1)
  }

  /** Rust's `{:0width}`: the sign counts toward the width. */
  function Padded(n: int, width: nat): string {
    if n >= 0 then Zeros(width - |Decimal(n)|) + Decimal(n)
    else "-" + Zeros(width - 1 - |Decimal(-n)|) + Decimal(-n)
  }

  datatype Clock = Clock(date: Date, hour: int, minute: int, second: int)

  function ClockOf(secs: int): Clock {
    var days := secs / 86400;
    var rem := secs % 86400;
    Clock(CivilFromDays(days), rem / 3600, rem % 3600 / 60, rem % 60)
  }

  function Printed(c: Clock): string {
    Padded(c.date.year, 4) + "-" + Padded(c.date.month, 2) + "-" + Padded(c.date.day, 2) + "T"
    + Padded(c.hour, 2) + ":" + Padded(c.minute, 2) + ":" + Padded(c.second, 2) + "Z"
  }

  /** `rfc3339_now` with the clock's seconds as its input. */
  function Rfc3339(secs: int): string {
    Printed(ClockOf(secs))
  }

  // ------------------------------------------------------------------ parsing

  /** Rust's `str::parse::<i64>`: an optional sign, then digits, in range. */
  function ParseI64(t: string): Option<int> {
    var signed := t != [] && (t[0] == '+' || t[0] == '-');
    var body := if signed then t[1..] else t;
    if !AllDigits(body) then None
    else
      var value := if signed && t[0] == '-' then -DigitsValue(body) else DigitsValue(body);
      if -0x8000_0000_0000_0000 <= value < 0x8000_0000_0000_0000 then Some(value) else None
  }

  /** Not inside a multi-byte character. */
  predicate Boundary(s: string, i: nat)
    requires i <= |s|
  {
    i == 0 || i == |s| || s[i] as int < 0x80 || s[i] as int >= 0xC0
  }

  /** Rust's `str::get(from..to)`. */
  function Get(s: string, from: nat, to: nat): Option<string>
    requires from <= to
  {
    if to <= |s| && Boundary(s, from) && Boundary(s, to) then Some(s[from..to]) else None
  }

  function Field(s: string, from: nat, to: nat): Option<int>
    requires from <= to
  {
    var text := Get(s, from, to);
    if text.None? then None else ParseI64(text.value)
  }

  /** Rust's `as u64` on an `i64`. */
  function AsU64(n: int): int {
    n % 0x1_0000_0000_0000_0000
  }

  function ChronoLite(s: string): Option<int> {
    if |s| < 19 then None
    else
      var yr := Field(s, 0, 4);
      var mo := Field(s, 5, 7);
      var da := Field(s, 8, 10);
      var hh := Field(s, 11, 13);
      var mi := Field(s, 14, 16);
      var ss := Field(s, 17, 19);
      if yr.None? || mo.None? || da.None? || hh.None? || mi.None? || ss.None? then None
      else
        var frac := Field(s, 20, 23);
        var ms := if frac.None? then 0 else frac.value;
        var days := DaysFromCivil(Date(yr.value, mo.value, da.value));
        var secs := days * 86400 + hh.value * 3600 + mi.value * 60 + ss.value;
        Some(AsU64(secs * 1000 + ms))
  }

  function IsoToMs(s: string): int {
    var parsed := ChronoLite(s);
    if parsed.None? then 0 else parsed.value
  }

  // -------------------------------------------------------- fixed-width fields

  /** The last `width` digits of `n`. */
  function Digits(n: nat, width: nat): (t: string)
    ensures |t| == width
    ensures forall i :: 0 <= i < width ==> IsDigit(t[i])
  {
    if width == 0 then "" else Digits(n / 10, width - 1) + [Digit(n % 10)]
  }

  function Pow10(n: nat): nat {
    if n == 0 then 1 else 10 * Pow10(n - 1)
  }

  lemma {:induction false} ZerosAre(k: nat)
    ensures Digits(0, k) == Zeros(k)
    decreases k
  {
    if k > 0 {
      ZerosAre(k - 1);
      ZerosShift(k - 1);
    }
  }

  lemma {:induction false} ZerosShift(k: nat)
    ensures Zeros(k) + "0" == "0" + Zeros(k)
    decreases k
  {
    if k > 0 {
      ZerosShift(k - 1);
      assert Zeros(k) + "0" == "0" + (Zeros(k - 1) + "0");
    }
  }

  /** Padding to a width that holds the number prints exactly that many digits. */
  lemma {:induction false} PaddedIsDigits(n: nat, width: nat)
    requires width > 0 && n < Pow10(width)
    ensures |Decimal(n)| <= width && Padded(n, width) == Digits(n, width)
    decreases width
  {
    if n < 10 {
      ZerosAre(width - 1);
      assert Digits(n, width) == Digits(0, width - 1) + [Digit(n)];
    } else {
      assert width > 1;
      PaddedIsDigits(n / 10, width - 1);
      assert Zeros(width - |Decimal(n)|) + Decimal(n)
          == (Zeros(width - 1 - |Decimal(n / 10)|) + Decimal(n / 10)) + [Digit(n % 10)];
    }
  }

  lemma {:induction false} DigitsRead(n: nat, width: nat)
    requires n < Pow10(width)
    ensures DigitsValue(Digits(n, width)) == n
    decreases width
  {
    if width > 0 {
      DigitsRead(n / 10, width - 1);
      var t := Digits(n, width);
      assert t[..width - 1] == Digits(n / 10, width - 1);
    }
  }

  /** Parsing a printed field gives its number back. */
  lemma FieldRead(n: nat, width: nat)
    requires 0 < width <= 4 && n < Pow10(width)
    ensures ParseI64(Digits(n, width)) == Some(n)
  {
    var t := Digits(n, width);
    DigitsRead(n, width);
    assert n < 10000 by {
      Powers();
    }
    hide Digits;
    hide DigitsValue;
    hide Pow10;
    assert IsDigit(t[0]) && AllDigits(t);
  }

  lemma {:induction false} DigitsOrder(a: nat, b: nat, width: nat)
    requires a < b < Pow10(width)
    ensures Less(Digits(a, width), Digits(b, width))
    decreases width
  {
    if a / 10 < b / 10 {
      DigitsOrder(a / 10, b / 10, width - 1);
      HeadLess(Digits(a / 10, width - 1), Digits(b / 10, width - 1), [Digit(a % 10)], [Digit(b % 10)]);
    } else {
      PrefixLess(Digits(a / 10, width - 1), [Digit(a % 10)], [Digit(b % 10)]);
    }
  }

  // --------------------------------------------------------------- round trip

  const LIMIT := 253402300800

  lemma FirstDays()
    ensures DaysFromCivil(Date(1970, 1, 1)) == 0
    ensures DaysFromCivil(Date(10000, 1, 1)) == 2932897
  {
  }

  lemma FourDigitDate(d: Date)
    requires ValidDate(d) && 0 <= DaysFromCivil(d) < 2932897
    ensures 1970 <= d.year <= 9999
  {
    FirstDays();
    OrdersAgree(d, Date(1970, 1, 1));
    OrdersAgree(d, Date(10000, 1, 1));
  }

  lemma FourDigitYear(secs: int)
    requires 0 <= secs < LIMIT
    ensures var d := ClockOf(secs).date;
            ValidDate(d) && 1970 <= d.year <= 9999
  {
    CivilIsValidAndInverts(secs / 86400);
    FourDigitDate(CivilFromDays(secs / 86400));
  }

  /** The text of a clock with a four-digit year, and what follows its seconds. */
  function Layout(c: Clock, tail: string): string
    requires 0 <= c.date.year && 0 <= c.date.month && 0 <= c.date.day
    requires 0 <= c.hour && 0 <= c.minute && 0 <= c.second
  {
    Digits(c.date.year, 4) + ("-" + (Digits(c.date.month, 2) + ("-" + (Digits(c.date.day, 2) + ("T"
    + (Digits(c.hour, 2) + (":" + (Digits(c.minute, 2) + (":" + (Digits(c.second, 2) + tail))))))))))
  }

  /** The clocks whose text is twenty characters. */
  predicate InRange(c: Clock) {
    && ValidDate(c.date) && 0 <= c.date.year <= 9999
    && 0 <= c.hour < 24 && 0 <= c.minute < 60 && 0 <= c.second < 60
  }

  lemma Powers()
    ensures Pow10(1) == 10 && Pow10(2) == 100 && Pow10(3) == 1000 && Pow10(4) == 10000
  {
  }

  lemma Regroup(y: string, mo: string, d: string, h: string, mi: string, s: string)
    ensures y + "-" + mo + "-" + d + "T" + h + ":" + mi + ":" + s + "Z"
         == y + ("-" + (mo + ("-" + (d + ("T" + (h + (":" + (mi + (":" + (s + "Z"))))))))))
  {
  }

  lemma PrintedIsLayout(c: Clock)
    requires InRange(c)
    ensures Printed(c) == Layout(c, "Z")
  {
    Powers();
    PaddedIsDigits(c.date.year, 4);
    PaddedIsDigits(c.date.month, 2);
    PaddedIsDigits(c.date.day, 2);
    PaddedIsDigits(c.hour, 2);
    PaddedIsDigits(c.minute, 2);
    PaddedIsDigits(c.second, 2);
    Regroup(Digits(c.date.year, 4), Digits(c.date.month, 2), Digits(c.date.day, 2),
            Digits(c.hour, 2), Digits(c.minute, 2), Digits(c.second, 2));
  }

  lemma SecondInRange(secs: int)
    requires 0 <= secs < LIMIT
    ensures InRange(ClockOf(secs))
  {
    FourDigitYear(secs);
  }

  predicate Ascii(s: string) {
    forall i :: 0 <= i < |s| ==> s[i] as int < 0x80
  }

  lemma HeadAndRest(head: string, sep: char, rest: string, t: string)
    requires t == head + ([sep] + rest)
    ensures |t| == |head| + 1 + |rest|
    ensures t[0..|head|] == head && t[|head| + 1..] == rest
    ensures Ascii(head) && sep as int < 0x80 && Ascii(rest) ==> Ascii(t)
  {
  }

  lemma SliceOfRest(t: string, at: nat, from: nat, to: nat)
    requires at + from <= at + to <= |t|
    ensures t[at + from..at + to] == t[at..][from..to]
  {
  }

  lemma DropTwice(t: string, at: nat, more: nat)
    requires at + more <= |t|
    ensures t[at..][more..] == t[at + more..]
  {
  }

  lemma SlicesOfTime(h: string, mi: string, s: string, tail: string, t: string)
    requires |h| == |mi| == |s| == 2 && Ascii(h) && Ascii(mi) && Ascii(s) && tail != "" && Ascii(tail)
    requires t == h + (":" + (mi + (":" + (s + tail))))
    ensures |t| == 8 + |tail| && Ascii(t)
    ensures t[0..2] == h && t[3..5] == mi && t[6..8] == s && t[8..] == tail
  {
    var rest := tail[1..];
    var r5 := s + ([tail[0]] + rest);
    assert [tail[0]] + rest == tail && r5 == s + tail;
    HeadAndRest(s, tail[0], rest, r5);
    var r4 := mi + (":" + r5);
    HeadAndRest(mi, ':', r5, r4);
    HeadAndRest(h, ':', r4, t);
    DropTwice(t, 3, 3);
    DropTwice(t, 6, 2);
    SliceOfRest(t, 3, 0, 2);
    SliceOfRest(t, 6, 0, 2);
    assert r5[2..] == tail;
  }

  lemma SlicesOfDate(y: string, mo: string, d: string, time: string, t: string)
    requires |y| == 4 && |mo| == |d| == 2 && Ascii(y) && Ascii(mo) && Ascii(d) && Ascii(time)
    requires t == y + ("-" + (mo + ("-" + (d + ("T" + time)))))
    ensures |t| == 11 + |time| && Ascii(t)
    ensures t[0..4] == y && t[5..7] == mo && t[8..10] == d && t[11..] == time
  {
    var r2 := d + ("T" + time);
    HeadAndRest(d, 'T', time, r2);
    var r1 := mo + ("-" + r2);
    HeadAndRest(mo, '-', r2, r1);
    HeadAndRest(y, '-', r1, t);
    DropTwice(t, 5, 3);
    DropTwice(t, 8, 3);
    SliceOfRest(t, 5, 0, 2);
    SliceOfRest(t, 8, 0, 2);
  }

  lemma SlicesOfFields(y: string, mo: string, d: string, h: string, mi: string, s: string, tail: string, t: string)
    requires |y| == 4 && |mo| == |d| == |h| == |mi| == |s| == 2
    requires Ascii(y) && Ascii(mo) && Ascii(d) && Ascii(h) && Ascii(mi) && Ascii(s) && tail != "" && Ascii(tail)
    requires t == y + ("-" + (mo + ("-" + (d + ("T" + (h + (":" + (mi + (":" + (s + tail))))))))))
    ensures |t| == 19 + |tail| && Ascii(t) && t[19..] == tail
    ensures t[0..4] == y && t[5..7] == mo && t[8..10] == d
    ensures t[11..13] == h && t[14..16] == mi && t[17..19] == s
  {
    var time := h + (":" + (mi + (":" + (s + tail))));
    SlicesOfTime(h, mi, s, tail, time);
    SlicesOfDate(y, mo, d, time, t);
    hide Ascii;
    DropTwice(t, 11, 8);
    SliceOfRest(t, 11, 0, 2);
    SliceOfRest(t, 11, 3, 5);
    SliceOfRest(t, 11, 6, 8);
  }

  lemma FieldAt(t: string, from: nat, to: nat, n: nat, width: nat)
    requires from < to <= |t| && Ascii(t) && 0 < width <= 4 && n < Pow10(width)
    requires t[from..to] == Digits(n, width)
    ensures Field(t, from, to) == Some(n)
  {
    FieldRead(n, width);
  }

  lemma DigitsAscii(n: nat, width: nat)
    ensures Ascii(Digits(n, width))
  {
    assert forall i :: 0 <= i < width ==> IsDigit(Digits(n, width)[i]);
  }

  /** Every field of a clock, where the parser looks for it. */
  predicate HoldsFields(s: string, c: Clock) {
    && |s| >= 19
    && Field(s, 0, 4) == Some(c.date.year) && Field(s, 5, 7) == Some(c.date.month)
    && Field(s, 8, 10) == Some(c.date.day) && Field(s, 11, 13) == Some(c.hour)
    && Field(s, 14, 16) == Some(c.minute) && Field(s, 17, 19) == Some(c.second)
  }

  lemma LayoutFields(c: Clock, tail: string, t: string)
    requires InRange(c) && tail != "" && Ascii(tail) && t == Layout(c, tail)
    ensures HoldsFields(t, c) && |t| == 19 + |tail| && Ascii(t) && t[19..] == tail
  {
    var y, mo, d := c.date.year, c.date.month, c.date.day;
    Powers();
    DigitsAscii(y, 4);
    DigitsAscii(mo, 2);
    DigitsAscii(d, 2);
    DigitsAscii(c.hour, 2);
    DigitsAscii(c.minute, 2);
    DigitsAscii(c.second, 2);
    SlicesOfFields(Digits(y, 4), Digits(mo, 2), Digits(d, 2), Digits(c.hour, 2), Digits(c.minute, 2), Digits(c.second, 2), tail, t);
    FieldAt(t, 0, 4, y, 4);
    FieldAt(t, 5, 7, mo, 2);
    FieldAt(t, 8, 10, d, 2);
    FieldAt(t, 11, 13, c.hour, 2);
    FieldAt(t, 14, 16, c.minute, 2);
    FieldAt(t, 17, 19, c.second, 2);
  }

  function TimeValue(c: Clock): int {
    c.hour * 3600 + c.minute * 60 + c.second
  }

  function MsOf(c: Clock): int {
    (DaysFromCivil(c.date) * 86400 + TimeValue(c)) * 1000
  }

  lemma FieldsParse(s: string, c: Clock)
    requires HoldsFields(s, c)
    ensures IsoToMs(s) == AsU64(MsOf(c) + if Field(s, 20, 23).Some? then Field(s, 20, 23).value else 0)
  {
    assert Date(c.date.year, c.date.month, c.date.day) == c.date;
  }

  lemma ReadBack(c: Clock)
    requires InRange(c)
    ensures IsoToMs(Printed(c)) == AsU64(MsOf(c))
  {
    assert Ascii("Z");
    PrintedIsLayout(c);
    LayoutFields(c, "Z", Layout(c, "Z"));
    hide *;
    FieldsParse(Layout(c, "Z"), c);
    NoFraction(Layout(c, "Z"));
  }

  lemma NoFraction(s: string)
    requires |s| == 20
    ensures Field(s, 20, 23) == None
  {
  }

  lemma SmallAsU64(n: int)
    requires 0 <= n < LIMIT * 1000
    ensures AsU64(n) == n
  {
  }

  lemma MsOfSecond(secs: int)
    ensures MsOf(ClockOf(secs)) == secs * 1000
  {
    CivilIsValidAndInverts(secs / 86400);
    TimeOfDay(secs % 86400);
  }

  lemma TimeOfDay(rem: int)
    requires 0 <= rem < 86400
    ensures rem / 3600 * 3600 + rem % 3600 / 60 * 60 + rem % 60 == rem
  {
  }

  /** The parser undoes the printer on every second with a four-digit year. */
  lemma RoundTrip(secs: int)
    requires 0 <= secs < LIMIT
    ensures IsoToMs(Rfc3339(secs)) == secs * 1000
  {
    SecondInRange(secs);
    ReadBack(ClockOf(secs));
    MsOfSecond(secs);
    SmallAsU64(secs * 1000);
  }

  // ------------------------------------------------------ what follows the seconds

  /** The text of a second with something else after its seconds than the `Z`. */
  function TextOf(secs: int, tail: string): string
    requires 0 <= secs < LIMIT
  {
    SecondInRange(secs);
    Layout(ClockOf(secs), tail)
  }

  predicate Reads(text: string, tail: string, secs: int) {
    && |text| == 19 + |tail| && text[19..] == tail && Ascii(text)
    && IsoToMs(text) == AsU64(secs * 1000 + if Field(text, 20, 23).Some? then Field(text, 20, 23).value else 0)
  }

  lemma FieldsSay(text: string, tail: string, c: Clock, secs: int)
    requires HoldsFields(text, c) && |text| == 19 + |tail| && Ascii(text) && text[19..] == tail
    requires MsOf(c) == secs * 1000
    ensures Reads(text, tail, secs)
  {
    FieldsParse(text, c);
    hide HoldsFields;
    hide MsOf;
    hide IsoToMs;
    hide Field;
  }

  lemma TailReads(secs: int, tail: string)
    requires 0 <= secs < LIMIT && tail != "" && Ascii(tail)
    ensures Reads(TextOf(secs, tail), tail, secs)
  {
    SecondInRange(secs);
    var c := ClockOf(secs);
    assert TextOf(secs, tail) == Layout(c, tail);
    LayoutFields(c, tail, Layout(c, tail));
    MsOfSecond(secs);
    hide *;
    FieldsSay(Layout(c, tail), tail, c, secs);
  }

  lemma TailField(text: string, tail: string)
    requires |text| == 19 + |tail| && text[19..] == tail && |tail| >= 4
    ensures text[20..23] == tail[1..4]
  {
  }

  lemma Middle(a: string, b: string, c: string)
    requires |a| == 1 && |b| == 3
    ensures (a + b + c)[1..4] == b
  {
  }

  lemma FractionSays(text: string, tail: string, secs: int, ms: nat)
    requires Reads(text, tail, secs) && 0 <= secs < LIMIT && ms < 1000
    requires |tail| >= 4 && tail[1..4] == Digits(ms, 3)
    ensures IsoToMs(text) == secs * 1000 + ms
  {
    hide IsoToMs;
    hide Field;
    hide Digits;
    TailField(text, tail);
    assert Pow10(3) == 1000 by {
      Powers();
    }
    FieldAt(text, 20, 23, ms, 3);
    SmallAsU64(secs * 1000 + ms);
  }

  /** Milliseconds, printed as three digits after the point, are read. */
  lemma FractionReads(secs: int, ms: nat)
    requires 0 <= secs < LIMIT && ms < 1000
    ensures IsoToMs(TextOf(secs, "." + Digits(ms, 3) + "Z")) == secs * 1000 + ms
  {
    var tail := "." + Digits(ms, 3) + "Z";
    DigitsAscii(ms, 3);
    assert Ascii(tail) && tail != "" && |tail| >= 4;
    Middle(".", Digits(ms, 3), "Z");
    hide *;
    TailReads(secs, tail);
    FractionSays(TextOf(secs, tail), tail, secs, ms);
  }

  lemma NotANumber(text: string, from: nat, to: nat)
    requires to == from + 3 <= |text| && text[from + 2] == ':'
    ensures Field(text, from, to) == None
  {
    var field := text[from..to];
    assert field[2] == ':';
    assert !AllDigits(field) && !AllDigits(field[1..]);
  }

  /** A zone offset is not: the text of an instant so many hours earlier reads as this
      one. */
  lemma OffsetIgnored(secs: int, hours: nat)
    requires 0 <= secs < LIMIT && hours < 24
    ensures IsoToMs(TextOf(secs, "+" + Digits(hours, 2) + ":00")) == secs * 1000
  {
    var tail := "+" + Digits(hours, 2) + ":00";
    DigitsAscii(hours, 2);
    assert tail[3] == ':';
    TailReads(secs, tail);
    var text := TextOf(secs, tail);
    hide TextOf;
    hide IsoToMs;
    hide Field;
    hide Digits;
    assert text[22] == text[19..][3];
    NotANumber(text, 20, 23);
    SmallAsU64(secs * 1000);
  }

  lemma FieldOrder(a: nat, b: nat, width: nat, x: string, y: string)
    requires a <= b < Pow10(width)
    requires a == b ==> Less(x, y)
    ensures Less(Digits(a, width) + x, Digits(b, width) + y)
  {
    if a < b {
      DigitsOrder(a, b, width);
      HeadLess(Digits(a, width), Digits(b, width), x, y);
    } else {
      PrefixLess(Digits(a, width), x, y);
    }
  }

  function TimePart(c: Clock): string
    requires 0 <= c.hour && 0 <= c.minute && 0 <= c.second
  {
    Digits(c.hour, 2) + (":" + (Digits(c.minute, 2) + (":" + (Digits(c.second, 2) + "Z"))))
  }

  lemma TimeOrder(a: Clock, b: Clock)
    requires InRange(a) && InRange(b)
    requires TimeValue(a) < TimeValue(b)
    ensures Less(TimePart(a), TimePart(b))
  {
    Powers();
    var sa, sb := Digits(a.second, 2) + "Z", Digits(b.second, 2) + "Z";
    if a.hour == b.hour && a.minute == b.minute {
      FieldOrder(a.second, b.second, 2, "Z", "Z");
      PrefixLess(":", sa, sb);
    }
    var ma, mb := Digits(a.minute, 2) + (":" + sa), Digits(b.minute, 2) + (":" + sb);
    if a.hour == b.hour {
      FieldOrder(a.minute, b.minute, 2, ":" + sa, ":" + sb);
      PrefixLess(":", ma, mb);
    }
    FieldOrder(a.hour, b.hour, 2, ":" + ma, ":" + mb);
  }

  lemma DateOrder(a: Date, b: Date, x: string, y: string)
    requires ValidDate(a) && ValidDate(b) && 0 <= a.year <= 9999 && 0 <= b.year <= 9999
    requires Earlier(a, b) || (a == b && Less(x, y))
    ensures Less(Digits(a.year, 4) + ("-" + (Digits(a.month, 2) + ("-" + (Digits(a.day, 2) + x)))),
                 Digits(b.year, 4) + ("-" + (Digits(b.month, 2) + ("-" + (Digits(b.day, 2) + y)))))
  {
    Powers();
    var da, db := Digits(a.day, 2) + x, Digits(b.day, 2) + y;
    if a.year == b.year && a.month == b.month {
      FieldOrder(a.day, b.day, 2, x, y);
      PrefixLess("-", da, db);
    }
    var ma, mb := Digits(a.month, 2) + ("-" + da), Digits(b.month, 2) + ("-" + db);
    if a.year == b.year {
      FieldOrder(a.month, b.month, 2, "-" + da, "-" + db);
      PrefixLess("-", ma, mb);
    }
    FieldOrder(a.year, b.year, 4, "-" + ma, "-" + mb);
  }

  predicate ClockBefore(a: Clock, b: Clock) {
    Earlier(a.date, b.date)
    || (a.date == b.date && TimeValue(a) < TimeValue(b))
  }

  lemma PrintedOrder(a: Clock, b: Clock)
    requires InRange(a) && InRange(b) && ClockBefore(a, b)
    ensures Less(Printed(a), Printed(b))
  {
    PrintedIsLayout(a);
    PrintedIsLayout(b);
    if a.date == b.date {
      TimeOrder(a, b);
      PrefixLess("T", TimePart(a), TimePart(b));
    }
    DateOrder(a.date, b.date, "T" + TimePart(a), "T" + TimePart(b));
  }

  lemma ClockParts(secs: int, c: Clock)
    requires c == ClockOf(secs)
    ensures c.date == CivilFromDays(secs / 86400) && TimeValue(c) == secs % 86400
  {
    TimeOfDay(secs % 86400);
  }

  lemma BeforeByParts(a: int, b: int, x: Clock, y: Clock)
    requires a < b
    requires a / 86400 < b / 86400 ==> Earlier(x.date, y.date)
    requires a / 86400 == b / 86400 ==> x.date == y.date
    requires TimeValue(x) == a % 86400 && TimeValue(y) == b % 86400
    ensures ClockBefore(x, y)
  {
  }

  lemma ClockKeepsOrder(a: int, b: int)
    requires a < b
    ensures ClockBefore(ClockOf(a), ClockOf(b))
  {
    var x, y := ClockOf(a), ClockOf(b);
    ClockParts(a, x);
    ClockParts(b, y);
    CivilKeepsOrder(a / 86400, b / 86400);
    BeforeByParts(a, b, x, y);
  }

  /** Text order is time order. */
  lemma TextOrderIsTimeOrder(a: int, b: int)
    requires 0 <= a < b < LIMIT
    ensures Less(Rfc3339(a), Rfc3339(b))
  {
    SecondInRange(a);
    SecondInRange(b);
    ClockKeepsOrder(a, b);
    PrintedOrder(ClockOf(a), ClockOf(b));
  }

  // ------------------------------------------------- past the four-digit years

  lemma FiveDigitDate(d: Date)
    requires ValidDate(d) && DaysFromCivil(Date(10000, 1, 1)) <= DaysFromCivil(d) < DaysFromCivil(Date(100000, 1, 1))
    ensures 10000 <= d.year <= 99999
  {
    OrdersAgree(d, Date(10000, 1, 1));
    OrdersAgree(d, Date(100000, 1, 1));
  }

  lemma {:induction false} DecimalLength(n: nat, width: nat)
    requires width > 0 && n < Pow10(width) && (width > 1 ==> Pow10(width - 1) <= n)
    ensures |Decimal(n)| == width
    decreases width
  {
    if width > 1 {
      TenTimes(width - 1);
      DecimalLength(n / 10, width - 1);
    }
  }

  lemma TenTimes(k: nat)
    ensures Pow10(k + 1) == 10 * Pow10(k) && Pow10(k) > 0 && (k > 0 ==> Pow10(k) >= 10)
  {
    PowPositive(k);
    if k > 0 {
      PowPositive(k - 1);
    }
  }

  lemma {:induction false} PowPositive(k: nat)
    ensures Pow10(k) >= 1
  {
    if k > 0 {
      PowPositive(k - 1);
    }
  }

  /** A five-digit year pushes the `T` into the hour field, which then does not parse. */
  lemma FiveDigitYearUnread(c: Clock)
    requires InRange(c.(date := Date(2000, c.date.month, c.date.day))) && 10000 <= c.date.year <= 99999
    ensures IsoToMs(Printed(c)) == 0
  {
    Powers();
    assert Pow10(5) == 100000;
    DecimalLength(c.date.year, 5);
    PaddedIsDigits(c.date.year, 5);
    PaddedIsDigits(c.date.month, 2);
    PaddedIsDigits(c.date.day, 2);
    var year, month, day := Padded(c.date.year, 4), Padded(c.date.month, 2), Padded(c.date.day, 2);
    var s := Printed(c);
    assert |year| == 5 && |month| == 2 && |day| == 2;
    assert s[11] == 'T';
    assert Field(s, 11, 13) == None;
  }

  // ------------------------------------------------------- where the trip ends

  lemma {:induction false} DigitsValueBelow(t: string)
    requires forall i :: 0 <= i < |t| ==> IsDigit(t[i])
    ensures 0 <= DigitsValue(t) < Pow10(|t|)
  {
    if t != [] {
      DigitsValueBelow(t[..|t| - 1]);
    }
  }

  lemma ParsedBelow(t: string)
    requires |t| <= 4 && ParseI64(t).Some?
    ensures -10000 < ParseI64(t).value < 10000
  {
    Powers();
    assert Pow10(0) == 1;
    DigitsValueBelow(if t != [] && (t[0] == '+' || t[0] == '-') then t[1..] else t);
  }

  lemma FieldBelow(s: string, from: nat, to: nat)
    requires from <= to <= from + 4
    ensures var f := Field(s, from, to); f.Some? ==> -10000 < f.value < 10000
  {
    if Field(s, from, to).Some? {
      ParsedBelow(s[from..to]);
    }
    hide ParseI64;
  }

  lemma DaysBelow(d: Date)
    requires -10000 < d.year < 10000 && -10000 < d.month < 10000 && -10000 < d.day < 10000
    ensures -5000000 < DaysFromCivil(d) < 5000000
  {
    EraOfYear(if d.month <= 2 then d.year - 1 else d.year);
  }

  /** Whatever the text, the instant read is within about 32000 years of the epoch,
      before the cast wraps a negative one. */
  lemma ReadsNear(s: string) returns (ms: int)
    ensures -1000000000000000 < ms < 1000000000000000
    ensures IsoToMs(s) == 0 || IsoToMs(s) == AsU64(ms)
  {
    FieldBelow(s, 0, 4);
    FieldBelow(s, 5, 7);
    FieldBelow(s, 8, 10);
    FieldBelow(s, 11, 13);
    FieldBelow(s, 14, 16);
    FieldBelow(s, 17, 19);
    FieldBelow(s, 20, 23);
    hide Field;
    hide AsU64;
    ms := 0;
    if ChronoLite(s).Some? {
      var frac := Field(s, 20, 23);
      var d := Date(Field(s, 0, 4).value, Field(s, 5, 7).value, Field(s, 8, 10).value);
      DaysBelow(d);
      hide DaysFromCivil;
      var secs := DaysFromCivil(d) * 86400 + Field(s, 11, 13).value * 3600 + Field(s, 14, 16).value * 60
                  + Field(s, 17, 19).value;
      ms := secs * 1000 + if frac.None? then 0 else frac.value;
      NearBy(DaysFromCivil(d), Field(s, 11, 13).value, Field(s, 14, 16).value, Field(s, 17, 19).value,
             if frac.None? then 0 else frac.value);
    }
  }

  lemma NearBy(days: int, hours: int, minutes: int, seconds: int, ms: int)
    requires -5000000 < days < 5000000 && -10000 < hours < 10000 && -10000 < minutes < 10000
    requires -10000 < seconds < 10000 && -10000 < ms < 10000
    ensures -1000000000000000 < (days * 86400 + hours * 3600 + minutes * 60 + seconds) * 1000 + ms < 1000000000000000
  {
  }

  lemma YearLengths(n: int)
    requires 100000000 <= n <= 999999999
    ensures |Decimal(n)| == 9
  {
    Powers();
    assert Pow10(6) == 1000000 && Pow10(8) == 100000000 && Pow10(9) == 1000000000;
    hide Decimal;
    DecimalLength(n, 9);
  }

  /** A nine-digit year pushes its own last digit and a hyphen into the day field,
      which then does not parse. */
  lemma NineDigitYearUnread(c: Clock)
    requires 100000000 <= c.date.year <= 999999999
    ensures IsoToMs(Printed(c)) == 0
  {
    YearLengths(c.date.year);
    assert |Padded(c.date.year, 4)| == 9;
    hide Padded;
    hide IsoToMs;
    assert Printed(c)[9] == '-';
    HyphenInDay(Printed(c));
  }

  lemma HyphenInDay(s: string)
    requires |s| > 9 && s[9] == '-'
    ensures IsoToMs(s) == 0
  {
    if |s| >= 19 && Get(s, 8, 10).Some? {
      var field := s[8..10];
      assert field[1] == '-';
      assert !AllDigits(field) && !AllDigits(field[1..]);
      assert Field(s, 8, 10) == None;
    }
  }

  lemma SixDigitYears()
    ensures DaysFromCivil(Date(100000, 1, 1)) == 35804722
  {
  }

  lemma NineDigitYears()
    ensures DaysFromCivil(Date(100000000, 1, 1)) == 36523530472
  {
  }

  lemma TenDigitYears()
    ensures DaysFromCivil(Date(1000000000, 1, 1)) == 365241780472
  {
  }

  /** Where the round trip ends: a second survives it if and only if its year has
      four digits. */
  lemma RoundTripEnds(secs: int)
    requires 0 <= secs
    ensures IsoToMs(Rfc3339(secs)) == secs * 1000 <==> secs < LIMIT
  {
    if secs < LIMIT {
      RoundTrip(secs);
    } else if secs < 3093527980800 {
      FiveDigitSecond(secs);
    } else {
      FarSecond(secs);
    }
    hide Rfc3339;
    hide IsoToMs;
  }

  lemma FarSecond(secs: int)
    requires 3093527980800 <= secs
    ensures IsoToMs(Rfc3339(secs)) != secs * 1000
  {
    var text := Rfc3339(secs);
    var ms := ReadsNear(text);
    if 3155633032780800 <= secs && secs * 1000 < 0x1_0000_0000_0000_0000 {
      NineDigitSecond(secs);
    } else {
      hide *;
      FarFromNear(secs, ms);
    }
  }

  lemma FarFromNear(secs: int, ms: int)
    requires -1000000000000000 < ms < 1000000000000000
    requires 3093527980800 <= secs
    requires secs < 3155633032780800 || secs * 1000 >= 0x1_0000_0000_0000_0000
    ensures secs * 1000 != 0 && secs * 1000 != AsU64(ms)
  {
    assert AsU64(ms) == if ms >= 0 then ms else ms + 0x1_0000_0000_0000_0000;
  }

  lemma NineDigitSecond(secs: int)
    requires 3155633032780800 <= secs && secs * 1000 < 0x1_0000_0000_0000_0000
    ensures IsoToMs(Rfc3339(secs)) == 0
  {
    var c := ClockOf(secs);
    CivilIsValidAndInverts(secs / 86400);
    NineDigitYears();
    TenDigitYears();
    OrdersAgree(c.date, Date(100000000, 1, 1));
    OrdersAgree(c.date, Date(1000000000, 1, 1));
    NineDigitYearUnread(c);
  }

  lemma FiveDigitSecond(secs: int)
    requires LIMIT <= secs < 3093527980800
    ensures IsoToMs(Rfc3339(secs)) == 0
  {
    var c := ClockOf(secs);
    CivilIsValidAndInverts(secs / 86400);
    FirstDays();
    SixDigitYears();
    FiveDigitDate(c.date);
    FiveDigitYearUnread(c);
  }
}
