/**
 * The pieces of Go's `strings`, `unicode` and `fmt` packages that the client
 * relies on, stated over `string` (a sequence of Unicode scalar values, as a
 * Go string decoded rune by rune).
 */
module Text {
  import opened Wrappers

  // ---------------------------------------------------------------------------
  // White space and strings.TrimSpace
  // ---------------------------------------------------------------------------

  /** Go's `unicode.IsSpace`: the six ASCII spaces, NEL and NBSP, then the
      remaining characters with the Unicode White_Space property. */
  predicate IsSpace(c: char) {
    || c == ' ' || c == '\t' || c == '\n' || c == '\U{B}' || c == '\U{C}' || c == '\r'
    || c == '\U{85}' || c == '\U{A0}' || c == '\U{1680}'
    || ('\U{2000}' <= c <= '\U{200A}')
    || c == '\U{2028}' || c == '\U{2029}' || c == '\U{202F}' || c == '\U{205F}' || c == '\U{3000}'
  }

  predicate AllSpace(s: string) {
    forall k :: 0 <= k < |s| ==> IsSpace(s[k])
  }

  /** White space holds no printable separator such as `=` or `,`. */
  lemma NoSeparatorInSpace(s: string, sep: char)
    requires AllSpace(s) && !IsSpace(sep)
    ensures sep !in s
  {
    forall k | 0 <= k < |s| ensures s[k] != sep {
      assert IsSpace(s[k]);
    }
  }

  /** Neither end of `s` is white space. */
  predicate Trimmed(s: string) {
    s == [] || (!IsSpace(s[0]) && !IsSpace(s[|s| - 1]))
  }

  /** How many white-space characters `s` starts with. */
  function LeadingSpaces(s: string): (n: nat)
    ensures n <= |s| && AllSpace(s[..n])
    ensures n < |s| ==> !IsSpace(s[n])
  {
    if s == [] || !IsSpace(s[0]) then 0
    else
      var m := LeadingSpaces(s[1..]);
      assert s[..m + 1] == [s[0]] + s[1..][..m];
      m + 1
  }

  /** How many white-space characters `s` ends with. */
  function TrailingSpaces(s: string): (n: nat)
    ensures n <= |s| && AllSpace(s[|s| - n..])
    ensures n < |s| ==> !IsSpace(s[|s| - 1 - n])
  {
    if s == [] || !IsSpace(s[|s| - 1]) then 0
    else
      var t := s[..|s| - 1];
      var m := TrailingSpaces(t);
      assert s[|s| - (m + 1)..] == t[|t| - m..] + [s[|s| - 1]];
      m + 1
  }

  /** Go's `strings.TrimSpace`: `s` without its leading and trailing white
      space. The result neither starts nor ends with white space. */
  function TrimSpace(s: string): (r: string)
    ensures Trimmed(r)
  {
    var i := LeadingSpaces(s);
    var t := s[i..];
    var m := TrailingSpaces(t);
    assert m < |t| ==> t[|t| - 1 - m] == s[|s| - 1 - m];
    s[i..|s| - m]
  }

  /** LeadingSpaces stops at the first character that is not white space. */
  lemma {:induction false} LeadingSpacesAt(s: string, i: nat)
    requires i <= |s| && AllSpace(s[..i])
    requires i < |s| ==> !IsSpace(s[i])
    ensures LeadingSpaces(s) == i
  {
    if i > 0 {
      assert s[..i][0] == s[0];
      assert s[1..][..i - 1] == s[..i][1..];
      LeadingSpacesAt(s[1..], i - 1);
    }
  }

  /** TrailingSpaces stops at the last character that is not white space. */
  lemma {:induction false} TrailingSpacesAt(s: string, m: nat)
    requires m <= |s| && AllSpace(s[|s| - m..])
    requires m < |s| ==> !IsSpace(s[|s| - 1 - m])
    ensures TrailingSpaces(s) == m
  {
    if m > 0 {
      var t := s[..|s| - 1];
      assert s[|s| - m..][m - 1] == s[|s| - 1];
      assert t[|t| - (m - 1)..] == s[|s| - m..|s| - 1];
      assert s[|s| - m..|s| - 1] == s[|s| - m..][..m - 1];
      assert m - 1 < |t| ==> t[|t| - 1 - (m - 1)] == s[|s| - 1 - m];
      TrailingSpacesAt(t, m - 1);
    }
  }

  /** The characterisation of TrimSpace by its properties: whatever infix of
      `s` is surrounded by white space only and is itself trimmed is the result
      of TrimSpace. */
  lemma TrimSpaceUnique(s: string, i: nat, j: nat)
    requires i <= j <= |s|
    requires AllSpace(s[..i]) && AllSpace(s[j..]) && Trimmed(s[i..j])
    ensures TrimSpace(s) == s[i..j]
  {
    if i < j {
      assert s[i..j][0] == s[i];
      assert s[i..j][j - i - 1] == s[j - 1];
      LeadingSpacesAt(s, i);
      var t := s[i..];
      assert t[|t| - (|s| - j)..] == s[j..];
      assert t[|t| - 1 - (|s| - j)] == s[j - 1];
      TrailingSpacesAt(t, |s| - j);
    } else {
      forall k | 0 <= k < |s| ensures IsSpace(s[k]) {
        if k < i { assert s[..i][k] == s[k]; } else { assert s[j..][k - j] == s[k]; }
      }
      assert s[..|s|] == s;
      LeadingSpacesAt(s, |s|);
      assert s[|s|..] == [];
    }
  }

  /** A trimmed string is its own TrimSpace; in particular TrimSpace is idempotent. */
  lemma TrimSpaceOfTrimmed(s: string)
    requires Trimmed(s)
    ensures TrimSpace(s) == s
  {
    assert s[..0] == [] && s[|s|..] == [] && s[0..|s|] == s;
    TrimSpaceUnique(s, 0, |s|);
  }

  /** Padding a trimmed string with white space on both sides is undone by TrimSpace. */
  lemma TrimSpacePadded(before: string, t: string, after: string)
    requires AllSpace(before) && AllSpace(after) && Trimmed(t)
    ensures TrimSpace(before + t + after) == t
  {
    var s := before + t + after;
    assert s[..|before|] == before;
    assert s[|before| + |t|..] == after;
    assert s[|before|..|before| + |t|] == t;
    TrimSpaceUnique(s, |before|, |before| + |t|);
  }

  // ---------------------------------------------------------------------------
  // Searching and splitting on a one-character separator
  // ---------------------------------------------------------------------------

  /** Go's `strings.Index` for a one-character separator: the first position of `c`. */
  function IndexOf(s: string, c: char): (r: Option<nat>)
    ensures r.None? <==> c !in s
    ensures r.Some? ==> r.value < |s| && s[r.value] == c && c !in s[..r.value]
  {
    if s == [] then None
    else if s[0] == c then Some(0)
    else
      match IndexOf(s[1..], c)
      case None => None
      case Some(i) =>
        assert s[..i + 1] == [s[0]] + s[1..][..i];
        Some(i + 1)
  }

  /** Go's `strings.SplitN(s, sep, 2)` for a one-character separator: `[s]` when
      `sep` does not occur, otherwise the text before the first `sep` and
      everything after it (later separators stay in the second part). */
  function SplitFirst(s: string, sep: char): (parts: seq<string>)
    ensures |parts| == 1 || |parts| == 2
    ensures |parts| == 2 <==> sep in s
    ensures |parts| == 1 ==> parts[0] == s
    ensures |parts| == 2 ==> sep !in parts[0] && parts[0] + [sep] + parts[1] == s
  {
    match IndexOf(s, sep)
    case None => [s]
    case Some(i) =>
      assert s[..i] + [sep] + s[i + 1..] == s;
      [s[..i], s[i + 1..]]
  }

  /** The first separator in `key + sep + rest` is the one after `key`,
      provided `key` holds none. */
  lemma {:induction false} IndexOfJoined(key: string, sep: char, rest: string)
    requires sep !in key
    ensures IndexOf(key + [sep] + rest, sep) == Some(|key|)
  {
    var s := key + [sep] + rest;
    if key != [] {
      assert s[1..] == key[1..] + [sep] + rest;
      IndexOfJoined(key[1..], sep, rest);
    }
  }

  /** Splitting `key + sep + rest` at the first separator gives back `key` and
      `rest`, provided `key` holds no separator. */
  lemma SplitFirstOfJoined(key: string, sep: char, rest: string)
    requires sep !in key
    ensures SplitFirst(key + [sep] + rest, sep) == [key, rest]
  {
    var s := key + [sep] + rest;
    IndexOfJoined(key, sep, rest);
    assert s[..|key|] == key && s[|key| + 1..] == rest;
  }

  /** Go's `strings.Join(parts, string(sep))`. */
  function Join(parts: seq<string>, sep: char): string
    requires |parts| >= 1
  {
    if |parts| == 1 then parts[0] else parts[0] + [sep] + Join(parts[1..], sep)
  }

  /** Go's `strings.Split(s, string(sep))`: the pieces between separators, always
      at least one (an empty `s` gives one empty piece). No piece holds a
      separator, and joining the pieces with it gives `s` back. */
  function Split(s: string, sep: char): (parts: seq<string>)
    ensures |parts| >= 1
    ensures forall p :: p in parts ==> sep !in p
    ensures Join(parts, sep) == s
    decreases |s|
  {
    match IndexOf(s, sep)
    case None => [s]
    case Some(i) =>
      var rest := Split(s[i + 1..], sep);
      assert ([s[..i]] + rest)[1..] == rest;
      assert s[..i] + [sep] + s[i + 1..] == s;
      [s[..i]] + rest
  }

  /** The other direction of the round trip: splitting a join of separator-free
      pieces gives the pieces back. */
  lemma {:induction false} SplitOfJoin(parts: seq<string>, sep: char)
    requires |parts| >= 1
    requires forall p :: p in parts ==> sep !in p
    ensures Split(Join(parts, sep), sep) == parts
  {
    if |parts| > 1 {
      var rest := parts[1..];
      SplitOfJoin(rest, sep);
      var s := Join(parts, sep);
      IndexOfJoined(parts[0], sep, Join(rest, sep));
      assert s[..|parts[0]|] == parts[0];
      assert s[|parts[0]| + 1..] == Join(rest, sep);
    }
  }

  // ---------------------------------------------------------------------------
  // Case mapping
  // ---------------------------------------------------------------------------

  /** Lower-casing of one character, for the ASCII letters only. */
  function LowerAscii(c: char): char {
    if 'A' <= c <= 'Z' then (c as int + 32) as char else c
  }

  /** `strings.ToLower`, restricted to the ASCII letters (every other character
      is kept as it is). */
  function ToLower(s: string): (r: string)
    ensures |r| == |s|
    ensures forall k :: 0 <= k < |s| ==> r[k] == LowerAscii(s[k])
  {
    if s == [] then [] else [LowerAscii(s[0])] + ToLower(s[1..])
  }

  // ---------------------------------------------------------------------------
  // Decimal notation (fmt's %d, strconv.Itoa)
  // ---------------------------------------------------------------------------

  predicate IsDigit(c: char) {
    '0' <= c <= '9'
  }

  predicate AllDigits(s: string) {
    forall k :: 0 <= k < |s| ==> IsDigit(s[k])
  }

  function DigitChar(d: nat): (c: char)
    requires d < 10
  {
    ('0' as int + d) as char
  }

  function DigitValue(c: char): nat
    requires IsDigit(c)
  {
    c as int - '0' as int
  }

  /** The decimal digits of `n`, most significant first, without leading zeros. */
  function NatDecimal(n: nat): (r: string)
    ensures |r| >= 1 && AllDigits(r)
    ensures r[0] == '0' ==> n == 0
  {
    if n < 10 then [DigitChar(n)] else NatDecimal(n / 10) + [DigitChar(n % 10)]
  }

  /** Go's `fmt.Sprintf("%d", n)`: a minus sign for negative numbers, then the
      digits, with no leading zero unless the number is zero. */
  function Decimal(n: int): (r: string)
    ensures |r| >= 1 && (r[0] == '-' <==> n < 0)
    ensures var digits := if n < 0 then r[1..] else r;
      |digits| >= 1 && AllDigits(digits) && (digits[0] == '0' ==> n == 0)
  {
    if n < 0 then "-" + NatDecimal(-n) else NatDecimal(n)
  }

  /** The value of a string of decimal digits. */
  function ParseNat(s: string): nat
    requires AllDigits(s)
  {
    if s == [] then 0 else ParseNat(s[..|s| - 1]) * 10 + DigitValue(s[|s| - 1])
  }

  /** Reading back a decimal integer, optionally signed with `-`. */
  function ParseDecimal(s: string): Option<int> {
    if |s| > 1 && s[0] == '-' && AllDigits(s[1..]) then Some(-(ParseNat(s[1..]) as int))
    else if |s| > 0 && AllDigits(s) then Some(ParseNat(s))
    else None
  }

  lemma {:induction false} ParseNatDecimal(n: nat)
    ensures ParseNat(NatDecimal(n)) == n
  {
    if n >= 10 {
      ParseNatDecimal(n / 10);
      var s := NatDecimal(n);
      assert s[..|s| - 1] == NatDecimal(n / 10);
    }
  }

  /** Decimal is read back exactly by ParseDecimal, so the decimal text
      identifies the number it was made from. */
  lemma DecimalRoundTrip(n: int)
    ensures ParseDecimal(Decimal(n)) == Some(n)
  {
    var s := Decimal(n);
    if n < 0 {
      var digits := NatDecimal(-n);
      assert s == "-" + digits && s[1..] == digits;
      ParseNatDecimal(-n);
      assert ParseNat(s[1..]) == -n;
    } else {
      assert IsDigit(s[0]);
      ParseNatDecimal(n);
    }
  }

  // ---------------------------------------------------------------------------
  // Substrings
  // ---------------------------------------------------------------------------

  /** `strings.Contains(s, t)`. */
  predicate ContainsInfix(s: string, t: string) {
    exists i :: 0 <= i <= |s| && t <= s[i..]
  }

  /** The middle piece of a concatenation occurs in it. */
  lemma InfixOfConcat(a: string, t: string, b: string)
    ensures ContainsInfix(a + t + b, t)
  {
    assert t <= (a + t + b)[|a|..];
  }

  /** Both inner pieces of `a + t + b + u + c` occur in it. */
  lemma InfixesOfConcat(a: string, t: string, b: string, u: string, c: string)
    ensures ContainsInfix(a + t + b + u + c, t) && ContainsInfix(a + t + b + u + c, u)
  {
    var s := a + t + b + u + c;
    assert t <= s[|a|..];
    assert u <= s[|a + t + b|..];
  }
}
