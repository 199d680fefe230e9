/** Characters, digits and words: the string operations the parsers share. */
module Text {

  datatype Option<+T> = None | Some(value: T)

  datatype Result<+T, +E> = Ok(value: T) | Err(error: E)

  const U64_MAX := 0xFFFF_FFFF_FFFF_FFFF

  /** Saturating subtraction: how long ago, or the start of a window. */
  function SaturatingSub(a: nat, b: nat): nat {
    if a >= b then a - b else 0
  }

  /** Unicode White_Space, as Rust's `char::is_whitespace` has it. */
  predicate IsWhitespace(c: char) {
    var n := c as int;
    0x9 <= n <= 0xD || n == 0x20 || n == 0x85 || n == 0xA0 || n == 0x1680
    || 0x2000 <= n <= 0x200A || n == 0x2028 || n == 0x2029 || n == 0x202F || n == 0x205F || n == 0x3000
  }

  predicate NoNewline(s: string) {
    forall i :: 0 <= i < |s| ==> s[i] != '\n'
  }

  predicate HasPrefix(s: string, prefix: string) {
    |prefix| <= |s| && s[..|prefix|] == prefix
  }

  function TrimEnd(s: string): string {
    if s != "" && IsWhitespace(s[|s| - 1]) then TrimEnd(s[..|s| - 1]) else s
  }

  function TrimStart(s: string): string {
    if s != "" && IsWhitespace(s[0]) then TrimStart(s[1..]) else s
  }

  /** Rust's `trim_end_matches` with one character. */
  function TrimEndChar(s: string, c: char): string {
    if s != "" && s[|s| - 1] == c then TrimEndChar(s[..|s| - 1], c) else s
  }

  // ------------------------------------------------------------------- digits

  function Digit(n: int): char
    requires 0 <= n < 10
  {
    '0' + n as char
  }

  function Decimal(n: nat): string {
    if n < 10 then [Digit(n)] else Decimal(n / 10) + [Digit(n % 10)]
  }

  predicate IsDigit(c: char) {
    '0' <= c <= '9'
  }

  function DigitValue(c: char): int {
    c as int - '0' as int
  }

  function DigitsValue(t: string): int
    requires forall i :: 0 <= i < |t| ==> IsDigit(t[i])
  {
    if t == [] then 0 else 10 * DigitsValue(t[..|t| - 1]) + DigitValue(t[|t| - 1])
  }

  predicate AllDigits(t: string) {
    t != [] && forall i :: 0 <= i < |t| ==> IsDigit(t[i])
  }

  lemma {:induction false} DigitsValueNonNegative(t: string)
    requires forall i :: 0 <= i < |t| ==> IsDigit(t[i])
    ensures DigitsValue(t) >= 0
  {
    if t != [] {
      DigitsValueNonNegative(t[..|t| - 1]);
    }
  }

  /** A printed number reads back as itself. */
  lemma {:induction false} DecimalReads(n: nat)
    ensures AllDigits(Decimal(n)) && DigitsValue(Decimal(n)) == n
  {
    if n >= 10 {
      DecimalReads(n / 10);
      assert Decimal(n)[..|Decimal(n)| - 1] == Decimal(n / 10);
    } else {
      assert [Digit(n)][..0] == [];
    }
  }

  // -------------------------------------------------------------------- words

  /** How many leading characters are not whitespace. */
  function RunLength(s: string): (n: nat)
    ensures n <= |s|
    ensures forall i :: 0 <= i < n ==> !IsWhitespace(s[i])
    ensures n < |s| ==> IsWhitespace(s[n])
  {
    if s == "" || IsWhitespace(s[0]) then 0 else 1 + RunLength(s[1..])
  }

  /** Rust's `split_whitespace`. */
  function Words(s: string): seq<string>
    decreases |s|
  {
    if s == "" then []
    else if IsWhitespace(s[0]) then Words(s[1..])
    else var n := RunLength(s); [s[..n]] + Words(s[n..])
  }

  predicate OneWord(s: string) {
    s != "" && forall i :: 0 <= i < |s| ==> !IsWhitespace(s[i])
  }

  lemma {:induction false} RunOfWord(s: string, rest: string)
    requires forall i :: 0 <= i < |s| ==> !IsWhitespace(s[i])
    requires rest == "" || IsWhitespace(rest[0])
    ensures RunLength(s + rest) == |s|
    decreases |s|
  {
    if s == "" {
      assert s + rest == rest;
    } else {
      assert (s + rest)[1..] == s[1..] + rest;
      RunOfWord(s[1..], rest);
    }
  }

  lemma FirstWord(s: string, rest: string)
    requires OneWord(s) && (rest == "" || IsWhitespace(rest[0]))
    ensures Words(s + rest) == [s] + Words(rest)
  {
    RunOfWord(s, rest);
    assert (s + rest)[..|s|] == s && (s + rest)[|s|..] == rest;
    assert (s + rest)[0] == s[0];
  }

  lemma FirstWordLeads(s: string, rest: string)
    requires OneWord(s) && (rest == "" || IsWhitespace(rest[0]))
    ensures Words(s + rest) != [] && Words(s + rest)[0] == s
  {
    FirstWord(s, rest);
  }

  lemma WordAlone(s: string)
    requires OneWord(s)
    ensures Words(s) == [s]
  {
    FirstWord(s, "");
    assert s + "" == s;
  }

  /** A blank separates words, whatever is on either side of it. */
  lemma {:induction false} WordsAroundBlank(a: string, b: string)
    ensures Words(a + " " + b) == Words(a) + Words(b)
    decreases |a|
  {
    if a == "" {
      assert a + " " + b == " " + b && (" " + b)[1..] == b;
    } else if IsWhitespace(a[0]) {
      assert (a + " " + b)[1..] == a[1..] + " " + b;
      WordsAroundBlank(a[1..], b);
    } else {
      var n := RunLength(a);
      var word, rest := a[..n], a[n..];
      assert n > 0;
      WordsAroundBlank(rest, b);
      assert a + " " + b == word + (rest + " " + b);
      FirstWord(word, rest + " " + b);
      assert Words(a) == [word] + Words(rest);
    }
  }

  // -------------------------------------------------------------------- lines

  /** Each line with its newline. */
  function Unlines(lines: seq<string>): string {
    if lines == [] then "" else lines[0] + "\n" + Unlines(lines[1..])
  }

  lemma {:induction false} UnlinesSnoc(lines: seq<string>, last: string)
    ensures Unlines(lines + [last]) == Unlines(lines) + last + "\n"
  {
    if lines == [] {
      assert [] + [last] == [last] && [last][1..] == [];
      assert Unlines([last]) == last + "\n" + "";
    } else {
      assert (lines + [last])[1..] == lines[1..] + [last];
      UnlinesSnoc(lines[1..], last);
      assert Unlines(lines + [last]) == lines[0] + "\n" + (Unlines(lines[1..]) + last + "\n");
      assert Unlines(lines) == lines[0] + "\n" + Unlines(lines[1..]);
    }
  }
}
