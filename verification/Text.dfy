/** Python's string operations, as far as the models rely on them. */
module Text {

  import opened Wrappers

  // ---------------------------------------------------------------------------
  // Searching
  // ---------------------------------------------------------------------------

  /** `pattern` occurs in `s` at index `i`. */
  predicate MatchAt(s: string, pattern: string, i: int) {
    0 <= i && i + |pattern| <= |s| && s[i..i + |pattern|] == pattern
  }

  /** `s.find(pattern, start)`: the first occurrence at or after `start`, or -1. */
  function FindFrom(s: string, pattern: string, start: nat): (r: int)
    ensures r == -1 || start <= r <= |s| - |pattern|
    decreases |s| - start
  {
    if start + |pattern| > |s| then -1
    else if MatchAt(s, pattern, start) then start
    else FindFrom(s, pattern, start + 1)
  }

  /** A position that was found is a match. */
  lemma {:induction false} FindFromMatches(s: string, pattern: string, start: nat)
    requires FindFrom(s, pattern, start) != -1
    ensures MatchAt(s, pattern, FindFrom(s, pattern, start))
    decreases |s| - start
  {
    if !MatchAt(s, pattern, start) {
      FindFromMatches(s, pattern, start + 1);
    }
  }

  /** No match is skipped: none lies before the position found, and none at all when nothing is found. */
  lemma {:induction false} FindFromSkipsNothing(s: string, pattern: string, start: nat, i: int)
    requires start <= i && MatchAt(s, pattern, i)
    ensures start <= FindFrom(s, pattern, start) <= i
    decreases |s| - start
  {
    if !MatchAt(s, pattern, start) {
      FindFromSkipsNothing(s, pattern, start + 1, i);
    }
  }

  /** `pattern in s`. */
  predicate Contains(s: string, pattern: string) {
    FindFrom(s, pattern, 0) != -1
  }

  // ---------------------------------------------------------------------------
  // Splitting on one character, and joining
  // ---------------------------------------------------------------------------

  /** `s.split(sep)` for a one-character separator. */
  function Split(s: string, sep: char): (parts: seq<string>)
    ensures |parts| > 0
    ensures forall p :: p in parts ==> sep !in p
  {
    if s == "" then [""]
    else
      var rest := Split(s[1..], sep);
      if s[0] == sep then [""] + rest
      else [[s[0]] + rest[0]] + rest[1..]
  }

  /** `sep.join(parts)` for a one-character separator. */
  function Join(parts: seq<string>, sep: char): string {
    if |parts| == 0 then ""
    else if |parts| == 1 then parts[0]
    else parts[0] + [sep] + Join(parts[1..], sep)
  }

  lemma {:induction false} SplitOfPrefix(p: string, rest: string, sep: char)
    requires sep !in p
    ensures Split(p + [sep] + rest, sep) == [p] + Split(rest, sep)
  {
    var s := p + [sep] + rest;
    if p == "" {
      assert s[1..] == rest;
    } else {
      assert s[1..] == p[1..] + [sep] + rest;
      SplitOfPrefix(p[1..], rest, sep);
      assert [s[0]] + p[1..] == p;
    }
  }

  lemma {:induction false} SplitOfUnseparated(p: string, sep: char)
    requires sep !in p
    ensures Split(p, sep) == [p]
  {
    if p != "" {
      SplitOfUnseparated(p[1..], sep);
      assert [p[0]] + p[1..] == p;
    }
  }

  /** Splitting undoes joining, for parts that do not contain the separator. */
  lemma {:induction false} SplitJoin(parts: seq<string>, sep: char)
    requires |parts| > 0
    requires forall p :: p in parts ==> sep !in p
    ensures Split(Join(parts, sep), sep) == parts
  {
    if |parts| == 1 {
      SplitOfUnseparated(parts[0], sep);
    } else {
      SplitJoin(parts[1..], sep);
      SplitOfPrefix(parts[0], Join(parts[1..], sep), sep);
    }
  }

  /** Joining undoes splitting, for every string. */
  lemma {:induction false} JoinSplit(s: string, sep: char)
    ensures Join(Split(s, sep), sep) == s
  {
    if s != "" {
      JoinSplit(s[1..], sep);
      var rest := Split(s[1..], sep);
      if s[0] == sep {
        assert ([""] + rest)[1..] == rest;
      } else {
        var parts := [[s[0]] + rest[0]] + rest[1..];
        if |rest| > 1 {
          assert parts[1..] == rest[1..];
        }
      }
    }
  }

  // ---------------------------------------------------------------------------
  // Blank text, case and padding (ASCII)
  // ---------------------------------------------------------------------------

  predicate IsSpace(c: char) {
    c in {' ', '\t', '\n', '\r', 0x0b as char, 0x0c as char, 0x1c as char, 0x1d as char, 0x1e as char, 0x1f as char}
  }

  /** White space by code point: tabulation to carriage return, and the separators up to the space. */
  lemma SpaceCodes(c: char)
    ensures IsSpace(c) <==> 9 <= c as int <= 13 || 28 <= c as int <= 32
  {
  }

  /** `not s.strip()`. */
  predicate IsBlank(s: string) {
    forall c :: c in s ==> IsSpace(c)
  }

  /** `s.strip()`. */
  function Strip(s: string): string {
    if s != "" && IsSpace(s[0]) then Strip(s[1..])
    else if s != "" && IsSpace(s[|s| - 1]) then Strip(s[..|s| - 1])
    else s
  }

  /** Stripping removes white space at both ends, and all of it. */
  lemma {:induction false} StripTrims(s: string) returns (left: string, right: string)
    ensures s == left + Strip(s) + right && IsBlank(left) && IsBlank(right)
    ensures Strip(s) != "" ==> !IsSpace(Strip(s)[0]) && !IsSpace(Strip(s)[|Strip(s)| - 1])
  {
    if s != "" && IsSpace(s[0]) {
      left, right := StripTrims(s[1..]);
      left := [s[0]] + left;
      assert s == [s[0]] + s[1..];
    } else if s != "" && IsSpace(s[|s| - 1]) {
      left, right := StripTrims(s[..|s| - 1]);
      right := right + [s[|s| - 1]];
      assert s == s[..|s| - 1] + [s[|s| - 1]];
    } else {
      left, right := "", "";
    }
  }

  function LowerChar(c: char): char {
    if 'A' <= c <= 'Z' then (c as int + 32) as char else c
  }

  /** `s.lower()`. */
  function Lower(s: string): (r: string)
    ensures |r| == |s|
    ensures forall i :: 0 <= i < |s| ==>
              r[i] as int == if 'A' <= s[i] <= 'Z' then s[i] as int + 32 else s[i] as int
  {
    if s == "" then "" else [LowerChar(s[0])] + Lower(s[1..])
  }

  /** `s.replace(from, to)` for single characters. */
  function ReplaceChar(s: string, from: char, to: char): (r: string)
    ensures |r| == |s|
    ensures forall i :: 0 <= i < |s| ==> r[i] == if s[i] == from then to else s[i]
  {
    if s == "" then "" else [if s[0] == from then to else s[0]] + ReplaceChar(s[1..], from, to)
  }

  // ---------------------------------------------------------------------------
  // Decimal numbers
  // ---------------------------------------------------------------------------

  predicate IsDigit(c: char) { '0' <= c <= '9' }

  predicate AllDigits(s: string) { forall i :: 0 <= i < |s| ==> IsDigit(s[i]) }

  /** `str(n)` for a natural number. */
  function Decimal(n: nat): (s: string)
    ensures |s| > 0 && AllDigits(s)
  {
    if n < 10 then [('0' as int + n) as char]
    else Decimal(n / 10) + [('0' as int + n % 10) as char]
  }

  function DecimalValue(s: string): nat
    requires AllDigits(s)
  {
    if s == "" then 0 else 10 * DecimalValue(s[..|s| - 1]) + (s[|s| - 1] as int - '0' as int)
  }

  lemma {:induction false} DecimalRoundTrip(n: nat)
    ensures DecimalValue(Decimal(n)) == n
  {
    if n >= 10 {
      DecimalRoundTrip(n / 10);
      assert Decimal(n)[..|Decimal(n)| - 1] == Decimal(n / 10);
    }
  }

  /** No number but zero is written with a leading zero. */
  lemma {:induction false} DecimalHasNoLeadingZero(n: nat)
    ensures Decimal(n)[0] == '0' <==> n == 0
  {
    if n >= 10 {
      DecimalHasNoLeadingZero(n / 10);
    }
  }

  lemma DigitsAreNot(s: string, c: char)
    requires AllDigits(s) && !IsDigit(c)
    ensures c !in s
  {
  }

  lemma SeparatorShowsUp(a: string, h: string, b: string, k: string, sep: char)
    requires a + [sep] + h == b + [sep] + k
    ensures |a| < |b| ==> sep in h
  {
    if |a| < |b| {
      assert h[|b| - |a| - 1] == (a + [sep] + h)[|b|] == (b + [sep] + k)[|b|];
    }
  }

  /** A text splits in one way at its last separator. */
  lemma LastSeparatorIsUnique(a: string, h: string, b: string, k: string, sep: char)
    requires a + [sep] + h == b + [sep] + k && sep !in h && sep !in k
    ensures a == b && h == k
  {
    var s := a + [sep] + h;
    SeparatorShowsUp(a, h, b, k, sep);
    SeparatorShowsUp(b, k, a, h, sep);
    assert a == s[..|a|] == b && h == s[|a| + 1..] == k;
  }

  // ---------------------------------------------------------------------------
  // Encoded size
  // ---------------------------------------------------------------------------

  function Utf8Width(c: char): nat {
    if c as int < 0x80 then 1 else if c as int < 0x800 then 2 else if c as int < 0x10000 then 3 else 4
  }

  /** `len(s.encode("utf-8"))`. */
  function Utf8Size(s: string): (n: nat)
    ensures n >= |s|
  {
    if s == "" then 0 else Utf8Width(s[0]) + Utf8Size(s[1..])
  }

  /** The size of a text is the sum of the sizes of its parts. */
  lemma {:induction false} Utf8SizeOfConcat(s: string, t: string)
    ensures Utf8Size(s + t) == Utf8Size(s) + Utf8Size(t)
  {
    if s == "" {
      assert s + t == t;
    } else {
      assert (s + t)[1..] == s[1..] + t;
      Utf8SizeOfConcat(s[1..], t);
    }
  }

  /** A text of ASCII characters takes one byte a character, any other text more. */
  lemma {:induction false} Utf8SizeOfAscii(s: string)
    ensures Utf8Size(s) == |s| <==> forall i :: 0 <= i < |s| ==> s[i] as int < 128
    ensures Utf8Size(s) <= 4 * |s|
  {
    if s != "" {
      Utf8SizeOfAscii(s[1..]);
      assert (forall i :: 0 <= i < |s| ==> s[i] as int < 128) <==>
             s[0] as int < 128 && forall i :: 0 <= i < |s[1..]| ==> s[1..][i] as int < 128 by {
        if forall i :: 0 <= i < |s| ==> s[i] as int < 128 {
          forall i | 0 <= i < |s[1..]| ensures s[1..][i] as int < 128 {
            assert s[1..][i] == s[i + 1];
          }
        }
        if s[0] as int < 128 && forall i :: 0 <= i < |s[1..]| ==> s[1..][i] as int < 128 {
          forall i | 0 < i < |s| ensures s[i] as int < 128 {
            assert s[1..][i - 1] == s[i];
          }
        }
      }
    }
  }

  /** The bytes of a character (section 3 of RFC 3629). */
  function Utf8Bytes(c: char): (bytes: seq<int>)
    ensures |bytes| == Utf8Width(c)
  {
    var n := c as int;
    if n < 0x80 then [n]
    else if n < 0x800 then [0xC0 + n / 64, 0x80 + n % 64]
    else if n < 0x10000 then [0xE0 + n / 64 / 64, 0x80 + n / 64 % 64, 0x80 + n % 64]
    else [0xF0 + n / 64 / 64 / 64, 0x80 + n / 64 / 64 % 64, 0x80 + n / 64 % 64, 0x80 + n % 64]
  }

  /** The code point that the bytes of one character stand for. */
  function Utf8Code(bytes: seq<int>): int {
    if |bytes| == 1 then bytes[0]
    else if |bytes| == 2 then 64 * (bytes[0] - 0xC0) + (bytes[1] - 0x80)
    else if |bytes| == 3 then 64 * (64 * (bytes[0] - 0xE0) + (bytes[1] - 0x80)) + (bytes[2] - 0x80)
    else if |bytes| == 4 then
      64 * (64 * (64 * (bytes[0] - 0xF0) + (bytes[1] - 0x80)) + (bytes[2] - 0x80)) + (bytes[3] - 0x80)
    else -1
  }

  /** The bytes of a character read back as it, and the first one tells how many there are. */
  lemma Utf8RoundTrip(c: char)
    ensures Utf8Code(Utf8Bytes(c)) == c as int
    ensures var first := Utf8Bytes(c)[0];
            Utf8Width(c) == if first < 0x80 then 1 else if first < 0xE0 then 2 else if first < 0xF0 then 3 else 4
  {
    var n := c as int;
    assert 64 * (n / 64) + n % 64 == n;
    assert 64 * (n / 64 / 64) + n / 64 % 64 == n / 64;
    assert 64 * (n / 64 / 64 / 64) + n / 64 / 64 % 64 == n / 64 / 64;
  }
}
