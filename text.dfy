/** Characters, bytes and the string helpers the overlay relies on: Rust's
    `char::is_whitespace`, `str::trim`/`trim_end`, `[String]::join`,
    `u8::is_ascii_graphic`, decimal formatting of integers, and substring search. */
module Text {

  /** An 8-bit unsigned byte (`u8`). */
  newtype byte = x: int | 0 <= x < 256

  const ESC: byte := 0x1b
  const LF: byte := 0x0a
  const CR: byte := 0x0d
  const TAB: byte := 0x09
  const SPACE: byte := 0x20

  /** Rust's `char::is_whitespace`: the Unicode White_Space property. */
  predicate IsWhitespace(c: char) {
    || ('\U{0009}' <= c <= '\U{000D}')
    || c == ' '
    || c == '\U{0085}'
    || c == '\U{00A0}'
    || c == '\U{1680}'
    || ('\U{2000}' <= c <= '\U{200A}')
    || c == '\U{2028}'
    || c == '\U{2029}'
    || c == '\U{202F}'
    || c == '\U{205F}'
    || c == '\U{3000}'
  }

  /** `str::trim_start`: drops the leading whitespace and nothing else. */
  function TrimStart(s: string): (r: string)
    ensures |r| <= |s| && r == s[|s| - |r|..]
    ensures r == [] || !IsWhitespace(r[0])
    ensures forall i :: 0 <= i < |s| - |r| ==> IsWhitespace(s[i])
  {
    if s == [] || !IsWhitespace(s[0]) then s else TrimStart(s[1..])
  }

  /** `str::trim_end`: drops the trailing whitespace and nothing else. */
  function TrimEnd(s: string): (r: string)
    ensures |r| <= |s| && r == s[..|r|]
    ensures r == [] || !IsWhitespace(r[|r| - 1])
    ensures forall i :: |r| <= i < |s| ==> IsWhitespace(s[i])
  {
    if s == [] || !IsWhitespace(s[|s| - 1]) then s else TrimEnd(s[..|s| - 1])
  }

  /** `str::trim`. */
  function Trim(s: string): string {
    TrimStart(TrimEnd(s))
  }

  /** A blank string: nothing but whitespace, which is when `s.trim().is_empty()`
      (see BlankIffTrimEmpty). */
  predicate IsBlank(s: string) {
    forall i :: 0 <= i < |s| ==> IsWhitespace(s[i])
  }

  /** `s.trim()` is empty exactly when every character of `s` is whitespace. */
  lemma BlankIffTrimEmpty(s: string)
    ensures IsBlank(s) <==> Trim(s) == []
  {
    var e := TrimEnd(s);
    if Trim(s) == [] {
      assert TrimStart(e) == [];
      forall i | 0 <= i < |s| ensures IsWhitespace(s[i]) {
        if i < |e| { assert s[i] == e[i]; }
      }
    } else {
      assert e != [];
      assert !IsWhitespace(e[|e| - 1]) && e[|e| - 1] == s[|e| - 1];
    }
  }

  /** Trimming is idempotent, and a string with non-blank ends is its own trim. */
  lemma TrimOfTrimmed(s: string)
    requires s == [] || (!IsWhitespace(s[0]) && !IsWhitespace(s[|s| - 1]))
    ensures Trim(s) == s
  {
  }

  lemma TrimIdempotent(s: string)
    ensures Trim(Trim(s)) == Trim(s)
  {
    var t := Trim(s);
    var e := TrimEnd(s);
    if t != [] {
      assert !IsWhitespace(t[0]);
      assert t[|t| - 1] == e[|e| - 1] by {
        assert t == e[|e| - |t|..];
      }
      assert !IsWhitespace(e[|e| - 1]);
    }
    TrimOfTrimmed(t);
  }

  /** Trailing whitespace does not change `trim_end`. */
  lemma {:induction false} TrimEndIgnoresTrailingBlank(s: string, ws: string)
    requires IsBlank(ws)
    ensures TrimEnd(s + ws) == TrimEnd(s)
    decreases |ws|
  {
    if ws == [] {
      assert s + ws == s;
    } else {
      var init := ws[..|ws| - 1];
      assert (s + ws)[..|s + ws| - 1] == s + init;
      assert IsWhitespace((s + ws)[|s + ws| - 1]);
      TrimEndIgnoresTrailingBlank(s, init);
    }
  }

  /** `[String]::join(sep)`. */
  function Join(parts: seq<string>, sep: string): string {
    if |parts| == 0 then ""
    else if |parts| == 1 then parts[0]
    else parts[0] + sep + Join(parts[1..], sep)
  }

  predicate IsTrimmedNonEmpty(s: string) {
    s != [] && !IsWhitespace(s[0]) && !IsWhitespace(s[|s| - 1])
  }

  /** Joining trimmed, non-empty parts gives a string that starts with the first
      part's first character and ends with the last part's last one. */
  lemma {:induction false} JoinEnds(parts: seq<string>, sep: string)
    requires |parts| > 0
    requires forall k :: 0 <= k < |parts| ==> parts[k] != []
    ensures var j := Join(parts, sep);
      |j| > 0 && j[0] == parts[0][0] && j[|j| - 1] == parts[|parts| - 1][|parts[|parts| - 1]| - 1]
  {
    if |parts| > 1 {
      JoinEnds(parts[1..], sep);
      var rest := Join(parts[1..], sep);
      assert Join(parts, sep) == parts[0] + sep + rest;
    }
  }

  /** Joining trimmed non-empty parts with any separator gives a trimmed string. */
  lemma JoinOfTrimmedIsTrimmed(parts: seq<string>, sep: string)
    requires forall k :: 0 <= k < |parts| ==> IsTrimmedNonEmpty(parts[k])
    ensures Trim(Join(parts, sep)) == Join(parts, sep)
    ensures |parts| > 0 ==> IsTrimmedNonEmpty(Join(parts, sep))
  {
    if |parts| > 0 {
      JoinEnds(parts, sep);
    }
  }

  /** `u8::is_ascii_graphic`: 0x21 ..= 0x7E. */
  predicate IsGraphicByte(b: byte) {
    0x21 <= b <= 0x7e
  }

  /** `char::is_ascii_graphic`. */
  predicate IsGraphicChar(c: char) {
    '!' <= c <= '~'
  }

  predicate IsAsciiDigit(b: byte) {
    0x30 <= b as int <= 0x39
  }

  /** The value of one decimal digit. */
  function DigitValue(b: byte): (d: nat)
    requires IsAsciiDigit(b)
    ensures d < 10
  {
    b as int - 0x30
  }

  /** The ASCII digit for a value below ten. */
  function Digit(d: nat): (b: byte)
    requires d < 10
    ensures IsAsciiDigit(b) && DigitValue(b) == d
  {
    (d + 0x30) as byte
  }

  /** The characters of a byte string whose bytes are all ASCII (what
      `String::from_utf8_lossy` gives for such bytes). */
  function AsciiString(bytes: seq<byte>): (r: string)
    requires forall i :: 0 <= i < |bytes| ==> bytes[i] < 0x80
    ensures |r| == |bytes|
    ensures forall i :: 0 <= i < |bytes| ==> r[i] as int == bytes[i] as int
  {
    seq(|bytes|, i requires 0 <= i < |bytes| => AsciiChar(bytes[i]))
  }

  function AsciiChar(b: byte): (c: char)
    requires b < 0x80
    ensures c as int == b as int
  {
    (b as int) as char
  }

  function AsciiByte(c: char): (b: byte)
    requires c as int < 0x80
    ensures b as int == c as int
  {
    (c as int) as byte
  }

  /** The UTF-8 encoding of a string whose characters are all ASCII. */
  function AsciiBytes(s: string): (r: seq<byte>)
    requires forall i :: 0 <= i < |s| ==> s[i] as int < 0x80
    ensures |r| == |s|
    ensures forall i :: 0 <= i < |s| ==> r[i] as int == s[i] as int
  {
    seq(|s|, i requires 0 <= i < |s| => AsciiByte(s[i]))
  }

  /** Number of bytes of the UTF-8 encoding of `s` (Rust's `str::len`). */
  function Utf8Len(s: string): (n: nat)
    ensures n >= |s|
  {
    if s == [] then 0
    else Utf8Len(s[..|s| - 1]) + CharUtf8Len(s[|s| - 1])
  }

  function CharUtf8Len(c: char): (n: nat)
    ensures 1 <= n <= 4
    ensures n == 1 <==> c as int < 0x80
  {
    if c as int < 0x80 then 1
    else if c as int < 0x800 then 2
    else if c as int < 0x10000 then 3
    else 4
  }

  lemma {:induction false} Utf8LenAscii(s: string)
    requires forall i :: 0 <= i < |s| ==> s[i] as int < 0x80
    ensures Utf8Len(s) == |s|
  {
    if s != [] {
      Utf8LenAscii(s[..|s| - 1]);
    }
  }

  /** The decimal digits of `n`, most significant first, as `format!("{n}")` writes them. */
  function Decimal(n: nat): (r: seq<byte>)
    ensures |r| > 0
    ensures forall i :: 0 <= i < |r| ==> IsAsciiDigit(r[i])
    ensures |r| > 1 ==> DigitValue(r[0]) != 0
    decreases n
  {
    if n < 10 then [Digit(n)]
    else Decimal(n / 10) + [Digit(n % 10)]
  }

  /** Reading a string of decimal digits back as a number. */
  function ParseDecimal(digits: seq<byte>): nat
    requires forall i :: 0 <= i < |digits| ==> IsAsciiDigit(digits[i])
  {
    if digits == [] then 0
    else ParseDecimal(digits[..|digits| - 1]) * 10 + DigitValue(digits[|digits| - 1])
  }

  /** Formatting a number and reading it back gives the number. */
  lemma {:induction false} DecimalRoundTrip(n: nat)
    ensures ParseDecimal(Decimal(n)) == n
    decreases n
  {
    var d := Decimal(n);
    if n >= 10 {
      DecimalRoundTrip(n / 10);
      assert d[..|d| - 1] == Decimal(n / 10);
    }
  }

  predicate StartsWith<T(==)>(s: seq<T>, prefix: seq<T>) {
    |prefix| <= |s| && s[..|prefix|] == prefix
  }

  /** `needle in haystack` for strings and bytes. */
  predicate Contains<T(==)>(haystack: seq<T>, needle: seq<T>)
    decreases |haystack|
  {
    StartsWith(haystack, needle) || (haystack != [] && Contains(haystack[1..], needle))
  }

  /** ASCII lowering of one character. */
  function LowerChar(c: char): char {
    if 'A' <= c <= 'Z' then (c as int + 32) as char else c
  }

  /** ASCII lowering of a string: no capital is left, each capital becomes its
      small letter, and every other character stays where it was. */
  function Lower(s: string): (r: string)
    ensures |r| == |s|
    ensures forall i :: 0 <= i < |r| ==> !('A' <= r[i] <= 'Z')
    ensures forall i :: 0 <= i < |s| && 'A' <= s[i] <= 'Z' ==> 'a' <= r[i] <= 'z' && r[i] as int == s[i] as int + 32
    ensures forall i :: 0 <= i < |s| && !('A' <= s[i] <= 'Z') ==> r[i] == s[i]
  {
    seq(|s|, i requires 0 <= i < |s| => LowerChar(s[i]))
  }

  /** Lowering twice is lowering once. */
  lemma LowerIdempotent(s: string)
    ensures Lower(Lower(s)) == Lower(s)
  {
  }
}
