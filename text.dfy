/** String operations of the JavaScript runtime that the helpers rely on. */
module Text {
  import opened Basics

  /** The code points of ECMAScript's WhiteSpace and LineTerminator productions:
      what `String.prototype.trim` strips and what the regular expression `\s` matches.
      The first five are tab, line feed, vertical tab, form feed and carriage return. */
  const WhiteSpace: string :=
    "\t\n\U{000B}\U{000C}\r \U{00A0}\U{1680}"
    + "\U{2000}\U{2001}\U{2002}\U{2003}\U{2004}\U{2005}\U{2006}\U{2007}\U{2008}\U{2009}\U{200A}"
    + "\U{2028}\U{2029}\U{202F}\U{205F}\U{3000}\U{FEFF}"

  /** `c` is one of `chars`, looked for one at a time. */
  predicate CharAmong(c: char, chars: string) {
    chars != [] && (c == chars[0] || CharAmong(c, chars[1..]))
  }

  lemma {:induction false} CharAmongIff(c: char, chars: string)
    ensures CharAmong(c, chars) <==> c in chars
  {
    if chars != [] {
      CharAmongIff(c, chars[1..]);
      assert chars == [chars[0]] + chars[1..];
    }
  }

  predicate IsSpace(c: char) {
    CharAmong(c, WhiteSpace)
  }

  /** Whitespace is exactly the listed code points. */
  lemma SpaceIff(c: char)
    ensures IsSpace(c) <==> c in WhiteSpace
  {
    CharAmongIff(c, WhiteSpace);
  }

  /** A visible ASCII character (letters, digits, punctuation) is never whitespace. */
  lemma VisibleNotSpace(c: char)
    requires '!' <= c <= '~'
    ensures !IsSpace(c)
  {
    SpaceIff(c);
    assert forall k :: 0 <= k < |WhiteSpace| ==> WhiteSpace[k] < '!' || WhiteSpace[k] > '~';
  }

  predicate AllSpace(s: string) {
    forall i :: 0 <= i < |s| ==> IsSpace(s[i])
  }

  /** No whitespace at either end. */
  predicate IsTrimmed(s: string) {
    s == [] || (!IsSpace(s[0]) && !IsSpace(s[|s| - 1]))
  }

  /** Length of the leading whitespace run. */
  function LeadingSpaces(s: string): (n: nat)
    ensures n <= |s|
    ensures forall k :: 0 <= k < n ==> IsSpace(s[k])
    ensures n < |s| ==> !IsSpace(s[n])
  {
    if s == [] || !IsSpace(s[0]) then 0 else 1 + LeadingSpaces(s[1..])
  }

  /** Length of the trailing whitespace run. */
  function TrailingSpaces(s: string): (n: nat)
    ensures n <= |s|
    ensures forall k :: |s| - n <= k < |s| ==> IsSpace(s[k])
    ensures n < |s| ==> !IsSpace(s[|s| - n - 1])
  {
    if s == [] || !IsSpace(s[|s| - 1]) then 0 else 1 + TrailingSpaces(s[..|s| - 1])
  }

  /** `s.trim()`: the substring left after removing whitespace at both ends. */
  function Trim(s: string): (r: string)
    ensures IsTrimmed(r)
    ensures var i := LeadingSpaces(s); i + |r| <= |s| && s[i..i + |r|] == r && AllSpace(s[..i]) && AllSpace(s[i + |r|..])
    ensures r == [] <==> AllSpace(s)
  {
    var i := LeadingSpaces(s);
    var t := s[i..];
    var j := TrailingSpaces(t);
    var r := t[..|t| - j];
    assert s[i..i + |r|] == r;
    assert s[i + |r|..] == t[|t| - j..];
    assert AllSpace(s[..i]) && AllSpace(s[i + |r|..]);
    r
  }

  /** The characters of `s` that are not whitespace, in order. */
  function NonSpace(s: string): string {
    if s == [] then [] else (if IsSpace(s[0]) then [] else [s[0]]) + NonSpace(s[1..])
  }

  lemma {:induction false} NonSpaceAppend(a: string, b: string)
    ensures NonSpace(a + b) == NonSpace(a) + NonSpace(b)
  {
    if a == [] {
      assert a + b == b;
    } else {
      assert (a + b)[0] == a[0];
      assert (a + b)[1..] == a[1..] + b;
      NonSpaceAppend(a[1..], b);
    }
  }

  lemma {:induction false} NonSpaceOfSpaces(s: string)
    requires AllSpace(s)
    ensures NonSpace(s) == []
  {
    if s != [] { NonSpaceOfSpaces(s[1..]); }
  }

  // ---------------------------------------------------------------- case

  /** ASCII case mapping; the only letters the helpers compare case-insensitively in practice. */
  function LowerChar(c: char): char {
    if 'A' <= c <= 'Z' then (c as int + 32) as char else c
  }

  function UpperChar(c: char): char {
    if 'a' <= c <= 'z' then (c as int - 32) as char else c
  }

  /** `s.toLowerCase()` restricted to ASCII letters. */
  function ToLower(s: string): (r: string)
    ensures |r| == |s| && forall i :: 0 <= i < |s| ==> r[i] == LowerChar(s[i])
  {
    seq(|s|, i requires 0 <= i < |s| => LowerChar(s[i]))
  }

  /** `s.toUpperCase()` restricted to ASCII letters. */
  function ToUpper(s: string): (r: string)
    ensures |r| == |s| && forall i :: 0 <= i < |s| ==> r[i] == UpperChar(s[i])
  {
    seq(|s|, i requires 0 <= i < |s| => UpperChar(s[i]))
  }

  predicate IsAsciiLetter(c: char) {
    ('A' <= c <= 'Z') || ('a' <= c <= 'z')
  }

  // ---------------------------------------------------------------- search, split, join

  /** `t` occurs in `s` at position `i`. */
  predicate OccursAt(s: string, t: string, i: int) {
    0 <= i && i + |t| <= |s| && s[i..i + |t|] == t
  }

  /** `t` occurs in `s` (`s.includes(t)`). */
  predicate Contains(s: string, t: string) {
    exists i | 0 <= i <= |s| - |t| :: OccursAt(s, t, i)
  }

  /** `s.indexOf(t)` for a non-empty `t`: the first position where `t` occurs. */
  function IndexOf(s: string, t: string): (r: Option<nat>)
    requires |t| > 0
    ensures r.Some? ==> OccursAt(s, t, r.value)
    ensures r.Some? ==> forall j :: 0 <= j < r.value ==> !OccursAt(s, t, j)
    ensures r.None? <==> !Contains(s, t)
    decreases |s|
  {
    if |s| < |t| then None
    else if s[..|t|] == t then
      assert OccursAt(s, t, 0);
      Some(0)
    else
      match IndexOf(s[1..], t)
      case None =>
        assert !Contains(s, t) by {
          assert !OccursAt(s, t, 0);
          forall i | 1 <= i <= |s| - |t| ensures !OccursAt(s, t, i) {
            var here, there := s[i..i + |t|], s[1..][i - 1..i - 1 + |t|];
            assert forall k :: 0 <= k < |t| ==> here[k] == there[k];
            assert here == there;
            assert !OccursAt(s[1..], t, i - 1);
          }
        }
        None
      case Some(k) =>
        assert s[k + 1..k + 1 + |t|] == s[1..][k..k + |t|];
        assert OccursAt(s, t, k + 1);
        assert forall j :: 1 <= j < k + 1 ==> (OccursAt(s, t, j) ==> OccursAt(s[1..], t, j - 1)) by {
          forall j | 1 <= j < k + 1 && OccursAt(s, t, j) ensures OccursAt(s[1..], t, j - 1) {
            assert s[j..j + |t|] == s[1..][j - 1..j - 1 + |t|];
          }
        }
        Some(k + 1)
  }

  /** `parts.join(sep)` */
  function Join(parts: seq<string>, sep: string): string {
    if parts == [] then ""
    else if |parts| == 1 then parts[0]
    else parts[0] + sep + Join(parts[1..], sep)
  }

  /** `s.split(sep)` for a non-empty separator: the pieces between successive
      leftmost occurrences of `sep`. Joining them back gives `s`. */
  function Split(s: string, sep: string): (parts: seq<string>)
    requires |sep| > 0
    ensures |parts| >= 1
    ensures Join(parts, sep) == s
    ensures forall p :: p in parts ==> !Contains(p, sep)
    decreases |s|
  {
    match IndexOf(s, sep)
    case None => [s]
    case Some(i) =>
      var head := s[..i];
      var rest := Split(s[i + |sep|..], sep);
      assert !Contains(head, sep) by {
        forall j | 0 <= j <= |head| - |sep| ensures !OccursAt(head, sep, j) {
          assert head[j..j + |sep|] == s[j..j + |sep|];
          assert !OccursAt(s, sep, j);
        }
      }
      assert s == head + sep + s[i + |sep|..];
      [head] + rest
  }

  lemma ContainsSingle(s: string, c: char)
    ensures Contains(s, [c]) <==> c in s
  {
    if c in s {
      var i :| 0 <= i < |s| && s[i] == c;
      assert s[i..i + 1] == [c];
      assert OccursAt(s, [c], i);
    }
    if Contains(s, [c]) {
      var i :| 0 <= i <= |s| - 1 && OccursAt(s, [c], i);
      assert s[i..i + 1][0] == s[i];
    }
  }

  /** A text with no comma splits into itself alone. */
  lemma SplitWithoutSeparator(s: string)
    requires ',' !in s
    ensures Split(s, ",") == [s]
  {
    ContainsSingle(s, ',');
    assert IndexOf(s, ",").None?;
  }

  /** Splitting at a first comma peels off the comma-free text before it. */
  lemma SplitAtComma(x: string, y: string)
    requires ',' !in x
    ensures Split(x + "," + y, ",") == [x] + Split(y, ",")
  {
    var s := x + "," + y;
    assert OccursAt(s, ",", |x|) by {
      assert s[|x|..|x| + 1] == ",";
    }
    forall j | 0 <= j < |x| ensures !OccursAt(s, ",", j) {
      assert s[j..j + 1] == [x[j]];
    }
    assert IndexOf(s, ",") == Some(|x|);
    assert s[..|x|] == x;
    assert s[|x| + 1..] == y;
  }

  /** Joining comma-free parts with "," and splitting at "," gives the parts back. */
  lemma {:induction false} SplitJoinComma(parts: seq<string>)
    requires |parts| >= 1 && forall i :: 0 <= i < |parts| ==> ',' !in parts[i]
    ensures Split(Join(parts, ","), ",") == parts
    decreases |parts|
  {
    if |parts| == 1 {
      SplitWithoutSeparator(parts[0]);
    } else {
      SplitJoinComma(parts[1..]);
      SplitAtComma(parts[0], Join(parts[1..], ","));
      assert [parts[0]] + parts[1..] == parts;
    }
  }

  // ---------------------------------------------------------------- integers as text

  predicate IsDigit(c: char) {
    '0' <= c <= '9'
  }

  function DigitChar(d: nat): (c: char)
    requires d < 10
    ensures IsDigit(c) && c as int - '0' as int == d
  {
    ('0' as int + d) as char
  }

  function DigitValue(c: char): nat
    requires IsDigit(c)
  {
    c as int - '0' as int
  }

  /** The value of a string of decimal digits. */
  function DigitsValue(s: string): nat
    requires forall c :: c in s ==> IsDigit(c)
  {
    if s == [] then 0 else DigitsValue(s[..|s| - 1]) * 10 + DigitValue(s[|s| - 1])
  }

  /** The decimal numeral of `n`, as `String(n)` prints a non-negative integer. */
  function NatToString(n: nat): (r: string)
    ensures |r| >= 1 && forall c :: c in r ==> IsDigit(c)
    ensures r[0] == '0' ==> r == "0"
  {
    if n < 10 then [DigitChar(n)] else NatToString(n / 10) + [DigitChar(n % 10)]
  }

  /** `String(n)` for an integer. */
  function IntToString(n: int): string {
    if n < 0 then "-" + NatToString(-n) else NatToString(n)
  }

  /** Reading a numeral back gives the number it was printed from. */
  lemma {:induction false} NatToStringValue(n: nat)
    ensures DigitsValue(NatToString(n)) == n
  {
    if n >= 10 {
      var r := NatToString(n);
      assert r[..|r| - 1] == NatToString(n / 10);
      NatToStringValue(n / 10);
    }
  }

  /** An optional minus sign followed by at least one digit. */
  predicate IsNumeral(s: string) {
    if |s| > 0 && s[0] == '-' then |s| > 1 && forall c :: c in s[1..] ==> IsDigit(c)
    else |s| > 0 && forall c :: c in s ==> IsDigit(c)
  }

  /** The integer a numeral denotes. */
  function NumeralValue(s: string): int
    requires IsNumeral(s)
  {
    if s[0] == '-' then 0 - DigitsValue(s[1..]) else DigitsValue(s)
  }

  /** Printing an integer and reading it back gives the integer, so printing is injective. */
  lemma IntToStringRoundTrip(n: int)
    ensures IsNumeral(IntToString(n)) && NumeralValue(IntToString(n)) == n
  {
    if n < 0 {
      assert IntToString(n)[1..] == NatToString(-n);
      NatToStringValue(-n);
    } else {
      assert NatToString(n)[0] in NatToString(n);
      NatToStringValue(n);
    }
  }

  // ---------------------------------------------------------------- encodeURIComponent

  /** Characters `encodeURIComponent` leaves as they are. */
  predicate IsUriUnreserved(c: char) {
    IsAsciiLetter(c) || IsDigit(c) || c in "-_.!~*'()"
  }

  predicate IsUpperHex(c: char) {
    IsDigit(c) || ('A' <= c <= 'F')
  }

  function HexDigit(d: nat): (c: char)
    requires d < 16
    ensures IsUpperHex(c)
  {
    if d < 10 then DigitChar(d) else ('A' as int + d - 10) as char
  }

  /** The UTF-8 encoding of one code point. */
  function Utf8(c: char): (bytes: seq<nat>)
    ensures 1 <= |bytes| <= 4 && forall b :: b in bytes ==> b < 256
  {
    var n := c as int;
    if n < 0x80 then [n]
    else if n < 0x800 then [0xC0 + n / 64, 0x80 + n % 64]
    else if n < 0x10000 then [0xE0 + n / 4096, 0x80 + (n / 64) % 64, 0x80 + n % 64]
    else [0xF0 + n / 262144, 0x80 + (n / 4096) % 64, 0x80 + (n / 64) % 64, 0x80 + n % 64]
  }

  function PercentBytes(bytes: seq<nat>): (r: string)
    requires forall b :: b in bytes ==> b < 256
    ensures |r| == 3 * |bytes|
    ensures forall c :: c in r ==> c == '%' || IsUpperHex(c)
  {
    if bytes == [] then []
    else
      assert bytes[0] in bytes;
      assert forall b :: b in bytes[1..] ==> b in bytes;
      ['%', HexDigit(bytes[0] / 16), HexDigit(bytes[0] % 16)] + PercentBytes(bytes[1..])
  }

  function EscapeChar(c: char): (r: string)
    ensures IsUriUnreserved(c) ==> r == [c]
    ensures !IsUriUnreserved(c) ==> |r| >= 3
  {
    if IsUriUnreserved(c) then [c] else PercentBytes(Utf8(c))
  }

  /** `encodeURIComponent(s)`: unreserved characters are kept, every other code point
      becomes the `%XX` escapes of its UTF-8 bytes. */
  function EncodeURIComponent(s: string): (r: string)
    ensures |r| >= |s|
    ensures forall c :: c in r ==> IsUriUnreserved(c) || c == '%' || IsUpperHex(c)
  {
    if s == [] then [] else EscapeChar(s[0]) + EncodeURIComponent(s[1..])
  }

  /** Encoding changes a string exactly when it holds a character that needs escaping. */
  lemma {:induction false} EncodeIdentityIff(s: string)
    ensures EncodeURIComponent(s) == s <==> forall c :: c in s ==> IsUriUnreserved(c)
  {
    if s != [] {
      EncodeIdentityIff(s[1..]);
      if !IsUriUnreserved(s[0]) {
        assert |EncodeURIComponent(s)| > |s|;
      } else if EncodeURIComponent(s) == s {
        assert EncodeURIComponent(s[1..]) == EncodeURIComponent(s)[1..];
      }
    }
  }

}
