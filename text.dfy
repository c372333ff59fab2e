/** The JavaScript string operations the quiz components rely on, stated over
    `seq<char>`: `trim`, `startsWith`, `includes`, `split`, ASCII `toLowerCase`,
    `Number.prototype.toString` for integers, `padStart` and the global
    `parseInt` without a radix argument. */
module Text {
  import opened Wrappers

  /** ECMAScript WhiteSpace and LineTerminator code points: what `trim()`
      removes and what the regular-expression class `\s` matches. */
  predicate IsSpace(c: char) {
    || c == '\t' || c == '\n' || c == '\U{000B}' || c == '\U{000C}' || c == '\r'
    || c == ' ' || c == '\U{00A0}' || c == '\U{1680}'
    || ('\U{2000}' <= c <= '\U{200A}')
    || c == '\U{2028}' || c == '\U{2029}' || c == '\U{202F}' || c == '\U{205F}'
    || c == '\U{3000}' || c == '\U{FEFF}'
  }

  /** A string that `trim()` leaves as it is. */
  predicate IsTrimmed(s: string) {
    s == [] || (!IsSpace(s[0]) && !IsSpace(s[|s| - 1]))
  }

  /** True when every character is white space, so `trim()` yields `''`. */
  predicate IsBlank(s: string) {
    forall i :: 0 <= i < |s| ==> IsSpace(s[i])
  }

  /** `s.trimStart()`, and the `\s*` after an anchored regular-expression prefix. */
  function TrimStart(s: string): (r: string)
    ensures |r| <= |s| && r == s[|s| - |r|..]
    ensures r == [] || !IsSpace(r[0])
    ensures forall i :: 0 <= i < |s| - |r| ==> IsSpace(s[i])
  {
    if s != [] && IsSpace(s[0]) then TrimStart(s[1..]) else s
  }

  /** `s.trimEnd()` */
  function TrimEnd(s: string): (r: string)
    ensures |r| <= |s| && r == s[..|r|]
    ensures r == [] || !IsSpace(r[|r| - 1])
    ensures forall i :: |r| <= i < |s| ==> IsSpace(s[i])
  {
    if s != [] && IsSpace(s[|s| - 1]) then TrimEnd(s[..|s| - 1]) else s
  }

  /** `s.trim()`: the result is trimmed, a trimmed string is its own trim, and
      the result is empty exactly when the input is blank. That it is `s` with
      the white space around it cut off is `TrimIsSlice`. */
  function Trim(s: string): (r: string)
    ensures IsTrimmed(r)
    ensures IsTrimmed(s) ==> r == s
    ensures r == [] <==> IsBlank(s)
  {
    var t := TrimStart(s);
    assert t == [] ==> IsBlank(s);
    TrimEnd(t)
  }

  /** `s.trim()` is a slice of `s` with only white space cut off either side;
      since the slice is trimmed itself, the cut is maximal. */
  lemma TrimIsSlice(s: string)
    ensures exists i, j :: 0 <= i <= j <= |s| && Trim(s) == s[i..j] && CutIsSpace(s, i, j)
  {
    var t := TrimStart(s);
    var r := TrimEnd(t);
    var i := |s| - |t|;
    var j := i + |r|;
    assert t == s[i..];
    assert r == t[..|r|];
    SliceOfSuffix(s, i, |r|);
    forall k | j <= k < |s|
      ensures IsSpace(s[k])
    {
      assert s[k] == t[k - i];
    }
    assert CutIsSpace(s, i, j);
  }

  lemma SliceOfSuffix(s: string, i: nat, n: nat)
    requires i + n <= |s|
    ensures s[i..][..n] == s[i..i + n]
  {
    assert forall k :: 0 <= k < n ==> s[i..][..n][k] == s[i + k];
  }

  /** Everything of `s` before `i` and from `j` on is white space. */
  predicate CutIsSpace(s: string, i: int, j: int)
    requires 0 <= i <= j <= |s|
  {
    (forall k :: 0 <= k < i ==> IsSpace(s[k])) && (forall k :: j <= k < |s| ==> IsSpace(s[k]))
  }

  /** `s.startsWith(prefix)`, compared one character at a time. */
  predicate StartsWith(s: string, prefix: string) {
    |prefix| <= |s| && PrefixMatches(s, prefix)
  }

  predicate PrefixMatches(s: string, prefix: string)
    requires |prefix| <= |s|
    decreases |prefix|
  {
    prefix == [] || (s[0] == prefix[0] && PrefixMatches(s[1..], prefix[1..]))
  }

  /** `StartsWith` holds exactly when the first `|prefix|` characters of `s`
      are `prefix`. */
  lemma {:induction false} StartsWithMeaning(s: string, prefix: string)
    ensures StartsWith(s, prefix) <==> |prefix| <= |s| && s[..|prefix|] == prefix
    decreases |prefix|
  {
    if prefix != [] && |prefix| <= |s| {
      StartsWithMeaning(s[1..], prefix[1..]);
      assert s[..|prefix|] == [s[0]] + s[1..][..|prefix| - 1];
      assert prefix == [prefix[0]] + prefix[1..];
    }
  }

  /** A string that differs from `prefix` at some position within both does
      not start with it. */
  lemma PrefixMismatch(s: string, prefix: string, i: nat)
    requires i < |prefix| && i < |s| && s[i] != prefix[i]
    ensures !StartsWith(s, prefix)
  {
    StartsWithMeaning(s, prefix);
    if |prefix| <= |s| {
      assert s[..|prefix|][i] == s[i];
    }
  }

  /** A string that starts with `prefix` agrees with it position by position. */
  lemma PrefixAt(s: string, prefix: string, i: nat)
    requires StartsWith(s, prefix) && i < |prefix|
    ensures i < |s| && s[i] == prefix[i]
  {
    StartsWithMeaning(s, prefix);
    assert s[..|prefix|][i] == s[i];
  }

  /** `sub` occurs in `s` starting at index `i`. */
  predicate OccursAt(s: string, sub: string, i: int) {
    0 <= i && i + |sub| <= |s| && s[i..i + |sub|] == sub
  }

  /** `s.includes(sub)` */
  predicate Contains(s: string, sub: string)
    decreases |s|
  {
    StartsWith(s, sub) || (s != [] && Contains(s[1..], sub))
  }

  /** `Contains` holds exactly when `sub` occurs somewhere in `s`. */
  lemma {:induction false} ContainsMeaning(s: string, sub: string)
    ensures Contains(s, sub) <==> exists i :: OccursAt(s, sub, i)
    decreases |s|
  {
    StartsWithMeaning(s, sub);
    if StartsWith(s, sub) {
      assert OccursAt(s, sub, 0);
    }
    if s != [] {
      ContainsMeaning(s[1..], sub);
      if Contains(s[1..], sub) {
        var i :| OccursAt(s[1..], sub, i);
        OccursShift(s, sub, i);
      }
    }
    if i :| OccursAt(s, sub, i) {
      if i == 0 {
        assert StartsWith(s, sub);
      } else {
        OccursUnshift(s, sub, i);
      }
    }
  }

  lemma OccursShift(s: string, sub: string, i: int)
    requires s != [] && OccursAt(s[1..], sub, i)
    ensures OccursAt(s, sub, i + 1)
  {
    assert s[1..][i..i + |sub|] == s[i + 1..i + 1 + |sub|];
  }

  lemma OccursUnshift(s: string, sub: string, i: int)
    requires i > 0 && OccursAt(s, sub, i)
    ensures s != [] && OccursAt(s[1..], sub, i - 1)
  {
    assert s[1..][i - 1..i - 1 + |sub|] == s[i..i + |sub|];
  }

  /** ASCII `toLowerCase` of one character. */
  function LowerChar(c: char): char {
    if 'A' <= c <= 'Z' then (c as int - 'A' as int + 'a' as int) as char else c
  }

  /** `s.toLowerCase()`, restricted to ASCII letters. */
  function Lower(s: string): (r: string)
    ensures |r| == |s|
    ensures forall i :: 0 <= i < |s| ==> r[i] == LowerChar(s[i])
  {
    if s == [] then [] else [LowerChar(s[0])] + Lower(s[1..])
  }

  /** No ASCII capital letter occurs in `s`. */
  predicate NoUpper(s: string) {
    s == [] || (!('A' <= s[0] <= 'Z') && NoUpper(s[1..]))
  }

  /** Lower-casing a string without capitals leaves it as it is. */
  lemma {:induction false} LowerNoUpper(s: string)
    requires NoUpper(s)
    ensures Lower(s) == s
  {
    if s != [] {
      LowerNoUpper(s[1..]);
      assert [s[0]] + s[1..] == s;
    }
  }

  /** A string lacking one of the characters of `sub` does not contain `sub`. */
  lemma {:induction false} NotContainsChar(s: string, sub: string, c: char)
    requires c in sub && c !in s
    ensures !Contains(s, sub)
    decreases |s|
  {
    StartsWithMeaning(s, sub);
    if |sub| <= |s| {
      var j :| 0 <= j < |sub| && sub[j] == c;
      assert s[..|sub|][j] == s[j];
    }
    if s != [] {
      NotContainsChar(s[1..], sub, c);
    }
  }

  /** `parts.join(sep)` */
  function Join(parts: seq<string>, sep: char): string {
    if parts == [] then ""
    else if |parts| == 1 then parts[0]
    else parts[0] + [sep] + Join(parts[1..], sep)
  }

  /** `s.split(sep)` for a one-character separator: never empty, and no part
      contains the separator. */
  function Split(s: string, sep: char): (r: seq<string>)
    ensures |r| > 0
    ensures forall k :: 0 <= k < |r| ==> sep !in r[k]
  {
    if s == [] then [""]
    else
      var rest := Split(s[1..], sep);
      if s[0] == sep then [""] + rest else [[s[0]] + rest[0]] + rest[1..]
  }

  /** Joining the parts of a split gives back the string. */
  lemma {:induction false} JoinSplit(s: string, sep: char)
    ensures Join(Split(s, sep), sep) == s
  {
    if s != [] {
      var rest := Split(s[1..], sep);
      JoinSplit(s[1..], sep);
      if s[0] == sep {
        assert ([""] + rest)[1..] == rest;
      } else if |rest| > 1 {
        assert ([[s[0]] + rest[0]] + rest[1..])[1..] == rest[1..];
      }
    }
  }

  lemma {:induction false} SplitNoSeparator(s: string, sep: char)
    requires sep !in s
    ensures Split(s, sep) == [s]
  {
    if s != [] {
      SplitNoSeparator(s[1..], sep);
      assert [s[0]] + s[1..] == s;
    }
  }

  lemma {:induction false} SplitAtSeparator(a: string, sep: char, t: string)
    requires sep !in a
    ensures Split(a + [sep] + t, sep) == [a] + Split(t, sep)
  {
    var s := a + [sep] + t;
    if a == [] {
      assert s[1..] == t;
    } else {
      assert s[1..] == a[1..] + [sep] + t;
      SplitAtSeparator(a[1..], sep, t);
      var rest := Split(s[1..], sep);
      assert rest[0] == a[1..] && rest[1..] == Split(t, sep);
      assert [a[0]] + a[1..] == a;
    }
  }

  /** Splitting a join of separator-free parts gives back the parts. */
  lemma {:induction false} SplitJoin(parts: seq<string>, sep: char)
    requires |parts| > 0
    requires forall k :: 0 <= k < |parts| ==> sep !in parts[k]
    ensures Split(Join(parts, sep), sep) == parts
  {
    if |parts| == 1 {
      SplitNoSeparator(parts[0], sep);
    } else {
      SplitJoin(parts[1..], sep);
      SplitAtSeparator(parts[0], sep, Join(parts[1..], sep));
    }
  }

  // ---------------------------------------------------------------------------
  // Integers as text

  /** The value of `c` as a digit in base `radix` (10 or 16), or -1. */
  function DigitValueIn(c: char, radix: int): int {
    if '0' <= c <= '9' && (c as int - '0' as int) < radix then c as int - '0' as int
    else if radix == 16 && 'a' <= c <= 'f' then c as int - 'a' as int + 10
    else if radix == 16 && 'A' <= c <= 'F' then c as int - 'A' as int + 10
    else -1
  }

  predicate IsDigitIn(c: char, radix: int) {
    DigitValueIn(c, radix) >= 0
  }

  predicate AllDigitsIn(s: string, radix: int) {
    forall i :: 0 <= i < |s| ==> IsDigitIn(s[i], radix)
  }

  /** The number a string of base-`radix` digits denotes. */
  function NumeralValue(s: string, radix: nat): nat
    requires AllDigitsIn(s, radix)
  {
    if s == [] then 0
    else NumeralValue(s[..|s| - 1], radix) * radix + DigitValueIn(s[|s| - 1], radix)
  }

  /** Length of the longest prefix of `s` made of base-`radix` digits. */
  function DigitRun(s: string, radix: int): (n: nat)
    ensures n <= |s|
    ensures forall i :: 0 <= i < n ==> IsDigitIn(s[i], radix)
    ensures n < |s| ==> !IsDigitIn(s[n], radix)
  {
    if s != [] && IsDigitIn(s[0], radix) then 1 + DigitRun(s[1..], radix) else 0
  }

  function DigitChar(d: int): (c: char)
    requires 0 <= d < 10
    ensures IsDigitIn(c, 10) && DigitValueIn(c, 10) == d
  {
    ('0' as int + d) as char
  }

  /** `n.toString()` for a non-negative integer. */
  function NatToDecimal(n: nat): (r: string)
    ensures |r| > 0 && AllDigitsIn(r, 10)
  {
    if n < 10 then [DigitChar(n)] else NatToDecimal(n / 10) + [DigitChar(n % 10)]
  }

  /** Reading back the decimal rendering of `n` gives `n`. */
  lemma {:induction false} DecimalRoundTrip(n: nat)
    ensures NumeralValue(NatToDecimal(n), 10) == n
  {
    if n >= 10 {
      DecimalRoundTrip(n / 10);
      var s := NatToDecimal(n);
      assert s[..|s| - 1] == NatToDecimal(n / 10);
    }
  }

  /** Different numbers have different decimal renderings. */
  lemma DecimalInjective(m: nat, n: nat)
    requires NatToDecimal(m) == NatToDecimal(n)
    ensures m == n
  {
    DecimalRoundTrip(m);
    DecimalRoundTrip(n);
  }

  /** `i.toString()` for an integer. */
  function IntToString(i: int): string {
    if i < 0 then "-" + NatToDecimal(-i) else NatToDecimal(i)
  }

  /** `str.padStart(2, '0')` */
  function PadStart2(str: string): (r: string)
    ensures |r| == if |str| >= 2 then |str| else 2
    ensures r[|r| - |str|..] == str
    ensures forall i :: 0 <= i < |r| - |str| ==> r[i] == '0'
  {
    if |str| >= 2 then str else seq(2 - |str|, _ => '0') + str
  }

  /** The global `parseInt(s)` with no radix argument: leading white space is
      skipped, one sign is read, and the magnitude follows; `None` stands for
      `NaN`. */
  function ParseInt(s: string): Option<int> {
    var t := TrimStart(s);
    if t != [] && t[0] == '-' then
      match ParseMagnitude(t[1..])
      case Some(v) => Some(-(v as int))
      case None => None
    else if t != [] && t[0] == '+' then
      match ParseMagnitude(t[1..])
      case Some(v) => Some(v as int)
      case None => None
    else
      match ParseMagnitude(t)
      case Some(v) => Some(v as int)
      case None => None
  }

  /** The unsigned part of `parseInt`: a `0x`/`0X` prefix switches to base 16. */
  function ParseMagnitude(u: string): Option<nat> {
    if |u| >= 2 && u[0] == '0' && (u[1] == 'x' || u[1] == 'X') then LeadingNumeral(u[2..], 16)
    else LeadingNumeral(u, 10)
  }

  /** The value of the longest run of base-`radix` digits at the start of
      `digits`, or `None` when there is none. */
  function LeadingNumeral(digits: string, radix: nat): Option<nat> {
    var n := DigitRun(digits, radix);
    if n == 0 then None else Some(NumeralValue(digits[..n], radix))
  }

  lemma DigitRunAll(s: string, radix: int)
    requires AllDigitsIn(s, radix)
    ensures DigitRun(s, radix) == |s|
  {
  }

  lemma MagnitudeOfDecimal(d: string)
    requires |d| > 0 && AllDigitsIn(d, 10)
    ensures ParseMagnitude(d) == Some(NumeralValue(d, 10))
  {
    if |d| >= 2 {
      assert IsDigitIn(d[1], 10);
    }
    DigitRunAll(d, 10);
    assert d[..|d|] == d;
  }

  /** `parseInt` reads back what `toString` writes, for every integer. */
  lemma ParseIntRoundTrip(i: int)
    ensures ParseInt(IntToString(i)) == Some(i)
  {
    if i < 0 {
      ParseNegative(-i);
    } else {
      ParseNonNegative(i);
    }
  }

  lemma ParseNonNegative(n: nat)
    ensures ParseInt(NatToDecimal(n)) == Some(n)
  {
    var d := NatToDecimal(n);
    DecimalRoundTrip(n);
    MagnitudeOfDecimal(d);
    assert IsDigitIn(d[0], 10);
    assert TrimStart(d) == d;
  }

  lemma ParseNegative(n: nat)
    ensures ParseInt("-" + NatToDecimal(n)) == Some(-(n as int))
  {
    var d := NatToDecimal(n);
    DecimalRoundTrip(n);
    MagnitudeOfDecimal(d);
    var s := "-" + d;
    assert TrimStart(s) == s && s[0] == '-' && s[1..] == d;
  }
}
