/** The ECMAScript string operations the modelled services rely on, with the
    edge cases they exhibit: clamped and swapped `substring` bounds, -1 from
    `indexOf`, `parseInt`'s whitespace, sign and `0x` rules, `padStart`,
    `padEnd`, and `replaceAll` with `$` patterns in its replacement. */
module JsText {
  import opened Wrappers

  /** WhiteSpace or LineTerminator: what `trim` removes and what `\s` matches. */
  predicate IsSpace(c: char) {
    || c == '\t' || c == '\n' || c == '\U{000B}' || c == '\U{000C}' || c == '\r'
    || c == ' ' || c == '\U{00A0}' || c == '\U{1680}' || ('\U{2000}' <= c <= '\U{200A}')
    || c == '\U{2028}' || c == '\U{2029}' || c == '\U{202F}' || c == '\U{205F}'
    || c == '\U{3000}' || c == '\U{FEFF}'
  }

  /** LineTerminator: the characters a regex `.` does not match. */
  predicate IsLineTerminator(c: char) {
    c == '\n' || c == '\r' || c == '\U{2028}' || c == '\U{2029}'
  }

  /** `\d` */
  predicate IsDigit(c: char) {
    '0' <= c <= '9'
  }

  /** `\w` */
  predicate IsWordChar(c: char) {
    ('a' <= c <= 'z') || ('A' <= c <= 'Z') || IsDigit(c) || c == '_'
  }

  /** `String.prototype.trimStart`. */
  function TrimStart(s: string): (r: string)
    ensures |r| <= |s| && r == s[|s| - |r|..]
    ensures forall i :: 0 <= i < |s| - |r| ==> IsSpace(s[i])
    ensures r == [] || !IsSpace(r[0])
  {
    if |s| > 0 && IsSpace(s[0]) then TrimStart(s[1..]) else s
  }

  /** `String.prototype.trimEnd`. */
  function TrimEnd(s: string): (r: string)
    ensures |r| <= |s| && r == s[..|r|]
    ensures forall i :: |r| <= i < |s| ==> IsSpace(s[i])
    ensures r == [] || !IsSpace(r[|r| - 1])
  {
    if |s| > 0 && IsSpace(s[|s| - 1]) then TrimEnd(s[..|s| - 1]) else s
  }

  /** `String.prototype.trim`. */
  function Trim(s: string): (r: string)
    ensures r == [] || (!IsSpace(r[0]) && !IsSpace(r[|r| - 1]))
    ensures |s| > 0 && !IsSpace(s[0]) && !IsSpace(s[|s| - 1]) ==> r == s
  {
    TrimEnd(TrimStart(s))
  }

  /** The trimmed text is empty exactly when `s` is all whitespace. */
  lemma TrimEmpty(s: string)
    ensures Trim(s) == [] <==> forall i :: 0 <= i < |s| ==> IsSpace(s[i])
  {
    var t := TrimStart(s);
    var r := TrimEnd(t);
    var k := |s| - |t|;
    if r == [] {
      forall i | 0 <= i < |s| ensures IsSpace(s[i]) {
        assert i < k;
      }
    } else {
      assert s[k] == t[0] == r[0];
    }
  }
  /** Trimming removes only whitespace: every other character of `s` is
      still in `Trim(s)`. */
  lemma TrimKeeps(s: string, k: nat)
    requires k < |s| && !IsSpace(s[k])
    ensures s[k] in Trim(s)
  {
    var t := TrimStart(s);
    var r := TrimEnd(t);
    var off := |s| - |t|;
    assert t[k - off] == s[k];
    assert r[k - off] == s[k];
  }


  /** The first occurrence is the one with none before it. */
  lemma IndexOfAt(s: string, c: char, j: nat)
    requires j < |s| && s[j] == c && c !in s[..j]
    ensures IndexOf(s, c) == j
  {
  }

  /** The last occurrence is the one with none after it. */
  lemma LastIndexOfAt(s: string, c: char, j: nat)
    requires j < |s| && s[j] == c && c !in s[j + 1..]
    ensures LastIndexOf(s, c) == j
  {
    LastIndexOfBound(s, c, j);
  }

  /** `lastIndexOf` finds the last occurrence: none lies after it. */
  lemma LastIndexOfBound(s: string, c: char, j: nat)
    requires j < |s| && s[j] == c
    ensures j <= LastIndexOf(s, c)
  {
    var r := LastIndexOf(s, c);
    assert s[j] in s;
    forall m | r < m < |s|
      ensures s[m] != c
    {
      assert s[m] == s[r + 1..][m - r - 1];
    }
  }

  /** `s.indexOf(c)` for a one-character search string. */
  function IndexOf(s: string, c: char): (r: int)
    ensures -1 <= r < |s|
    ensures r < 0 <==> c !in s
    ensures 0 <= r ==> s[r] == c && c !in s[..r]
  {
    if |s| == 0 then -1
    else if s[0] == c then 0
    else
      var k := IndexOf(s[1..], c);
      if k < 0 then -1
      else
        assert s[..k + 1] == [s[0]] + s[1..][..k];
        k + 1
  }

  /** `s.lastIndexOf(c)` for a one-character search string. */
  function LastIndexOf(s: string, c: char): (r: int)
    ensures -1 <= r < |s|
    ensures r < 0 <==> c !in s
    ensures 0 <= r ==> s[r] == c && c !in s[r + 1..]
  {
    if |s| == 0 then -1
    else if s[|s| - 1] == c then |s| - 1
    else
      var k := LastIndexOf(s[..|s| - 1], c);
      assert k >= 0 ==> s[k + 1..] == s[..|s| - 1][k + 1..] + [s[|s| - 1]];
      assert s == s[..|s| - 1] + [s[|s| - 1]];
      k
  }

  function Clamp(x: int, n: nat): (r: nat)
    ensures r <= n
  {
    if x < 0 then 0 else if x > n then n else x
  }

  /** `s.substring(start, end)`: both bounds are clamped to [0, |s|] and
      swapped when the start lies after the end. */
  function Substring(s: string, start: int, end: int): string {
    var a, b := Clamp(start, |s|), Clamp(end, |s|);
    if a <= b then s[a..b] else s[b..a]
  }

  predicate StartsWith(s: string, prefix: string) {
    |prefix| <= |s| && s[..|prefix|] == prefix
  }

  predicate EndsWith(s: string, suffix: string) {
    |suffix| <= |s| && s[|s| - |suffix|..] == suffix
  }

  function Repeat(c: char, n: nat): (r: string)
    ensures |r| == n && forall i :: 0 <= i < n ==> r[i] == c
  {
    if n == 0 then "" else [c] + Repeat(c, n - 1)
  }

  /** `s.padStart(width, fill)` with a one-character fill. */
  function PadStart(s: string, width: nat, fill: char): string {
    if |s| >= width then s else Repeat(fill, width - |s|) + s
  }

  /** `s.padEnd(width)`: spaces appended up to `width`. */
  function PadEnd(s: string, width: nat): string {
    if |s| >= width then s else s + Repeat(' ', width - |s|)
  }

  function ToLowerAscii(s: string): (r: string)
    ensures |r| == |s|
  {
    if |s| == 0 then ""
    else
      var c := s[0];
      [if 'A' <= c <= 'Z' then (c as int + 32) as char else c] + ToLowerAscii(s[1..])
  }

  /** `parts.join(sep)`. */
  function Join(parts: seq<string>, sep: string): string {
    if |parts| == 0 then ""
    else if |parts| == 1 then parts[0]
    else parts[0] + sep + Join(parts[1..], sep)
  }

  // ---------------------------------------------------------------------
  // Number to string and parseInt

  function DigitChar(d: nat): char
    requires d < 10
  {
    "0123456789"[d]
  }

  /** `n.toString()` for a non-negative integer. */
  function NatToString(n: nat): (r: string)
    ensures |r| > 0 && forall i :: 0 <= i < |r| ==> IsDigit(r[i])
  {
    if n < 10 then [DigitChar(n)] else NatToString(n / 10) + [DigitChar(n % 10)]
  }

  /** `n.toString()` for an integer. */
  function IntToString(n: int): string {
    if n < 0 then "-" + NatToString(-n) else NatToString(n)
  }

  /** The radix argument of `parseInt`: omitted, or 16. */
  datatype Radix = DefaultRadix | Radix16

  /** The value of a digit in bases up to 16; 16 for any other character. */
  function DigitValue(c: char): (v: nat)
    ensures v <= 16
    ensures IsDigit(c) ==> v == c as int - '0' as int
    ensures v < 10 <==> IsDigit(c)
  {
    if '0' <= c <= '9' then c as int - '0' as int
    else if 'a' <= c <= 'f' then c as int - 'a' as int + 10
    else if 'A' <= c <= 'F' then c as int - 'A' as int + 10
    else 16
  }

  /** Length of the longest prefix of `s` made of digits of `base`. */
  function DigitRun(s: string, base: nat): (n: nat)
    ensures n <= |s|
    ensures forall i :: 0 <= i < n ==> DigitValue(s[i]) < base
    ensures n < |s| ==> DigitValue(s[n]) >= base
  {
    if |s| > 0 && DigitValue(s[0]) < base then 1 + DigitRun(s[1..], base) else 0
  }

  /** The value of a digit string read most significant digit first. */
  function DigitsValue(s: string, base: nat): nat {
    if |s| == 0 then 0 else DigitsValue(s[..|s| - 1], base) * base + DigitValue(s[|s| - 1])
  }

  /** `parseInt(s)` / `parseInt(s, 16)`; None stands for NaN. Leading
      whitespace is skipped, one sign is accepted, a `0x`/`0X` prefix selects
      base 16, and the longest run of digits that follows is read. */
  function ParseInt(s: string, radix: Radix): Option<int> {
    var t := TrimStart(s);
    var negative := |t| > 0 && t[0] == '-';
    var u := if |t| > 0 && (t[0] == '-' || t[0] == '+') then t[1..] else t;
    var hex := |u| >= 2 && u[0] == '0' && (u[1] == 'x' || u[1] == 'X');
    var base := if hex || radix == Radix16 then 16 else 10;
    var body := if hex then u[2..] else u;
    var n := DigitRun(body, base);
    if n == 0 then None
    else
      var v: int := DigitsValue(body[..n], base);
      Some(if negative then -v else v)
  }

  lemma {:induction false} NatToStringValue(n: nat)
    ensures DigitsValue(NatToString(n), 10) == n
  {
    if n >= 10 {
      var s := NatToString(n);
      NatToStringValue(n / 10);
      assert s[..|s| - 1] == NatToString(n / 10);
    }
  }

  lemma {:induction false} LeadingZerosValue(k: nat, s: string)
    ensures DigitsValue(Repeat('0', k) + s, 10) == DigitsValue(s, 10)
    decreases |s|, k
  {
    var z := Repeat('0', k) + s;
    if |s| > 0 {
      assert z[..|z| - 1] == Repeat('0', k) + s[..|s| - 1];
      LeadingZerosValue(k, s[..|s| - 1]);
    } else if k > 0 {
      assert z == Repeat('0', k - 1) + "0";
      assert z[..|z| - 1] == Repeat('0', k - 1) + s;
      LeadingZerosValue(k - 1, s);
    }
  }

  /** A non-empty string of decimal digits parses to its decimal value. */
  lemma ParseIntDigits(s: string)
    requires |s| > 0 && forall i :: 0 <= i < |s| ==> IsDigit(s[i])
    ensures ParseInt(s, DefaultRadix) == Some(DigitsValue(s, 10))
  {
    assert IsDigit(s[0]) && !IsSpace(s[0]);
    assert TrimStart(s) == s;
    assert s[0] != '-' && s[0] != '+';
    assert !(|s| >= 2 && s[0] == '0' && (s[1] == 'x' || s[1] == 'X')) by {
      if |s| >= 2 { assert IsDigit(s[1]); }
    }
    forall i | 0 <= i < |s| ensures DigitValue(s[i]) < 10 {
      assert IsDigit(s[i]);
    }
    DigitRunAll(s, 10);
    assert s[..|s|] == s;
  }

  lemma DigitRunAll(s: string, base: nat)
    requires forall i :: 0 <= i < |s| ==> DigitValue(s[i]) < base
    ensures DigitRun(s, base) == |s|
  {
  }

  /** `parseInt(n.toString().padStart(w, '0'))` gives back `n`. */
  lemma ParseIntPadded(n: nat, w: nat)
    ensures ParseInt(PadStart(NatToString(n), w, '0'), DefaultRadix) == Some(n)
  {
    var s := NatToString(n);
    var p := PadStart(s, w, '0');
    NatToStringValue(n);
    if |s| < w {
      LeadingZerosValue(w - |s|, s);
    }
    ParseIntDigits(p);
  }

  // ---------------------------------------------------------------------
  // replaceAll with a string pattern

  /** The text GetSubstitution (ECMAScript 2023, section 22.1.3.19.1) produces
      for one match of a string pattern with no captures: `$$`, `$&`,
      `` $` `` and `$'` are expanded, every other `$` stays literal. */
  function Substitution(rep: string, matched: string, before: string, after: string): string
    decreases |rep|
  {
    if |rep| == 0 then ""
    else if rep[0] == '$' && |rep| >= 2 && rep[1] in "$&`'" then
      (if rep[1] == '$' then "$" else if rep[1] == '&' then matched
       else if rep[1] == '`' then before else after)
      + Substitution(rep[2..], matched, before, after)
    else [rep[0]] + Substitution(rep[1..], matched, before, after)
  }

  /** `s.replaceAll(pat, rep)` for a non-empty string pattern, scanning from
      index `i`: occurrences are found left to right without overlap. */
  function ReplaceAllFrom(s: string, pat: string, rep: string, i: nat): string
    requires |pat| > 0 && i <= |s|
    decreases |s| - i
  {
    if i == |s| then ""
    else if i + |pat| <= |s| && s[i..i + |pat|] == pat then
      Substitution(rep, pat, s[..i], s[i + |pat|..]) + ReplaceAllFrom(s, pat, rep, i + |pat|)
    else [s[i]] + ReplaceAllFrom(s, pat, rep, i + 1)
  }

  function ReplaceAll(s: string, pat: string, rep: string): string
    requires |pat| > 0
  {
    ReplaceAllFrom(s, pat, rep, 0)
  }

  /** Without a `$`, the replacement is inserted literally. */
  lemma {:induction false} SubstitutionLiteral(rep: string, matched: string, before: string, after: string)
    requires '$' !in rep
    ensures Substitution(rep, matched, before, after) == rep
    decreases |rep|
  {
    if |rep| > 0 {
      assert rep == [rep[0]] + rep[1..];
      SubstitutionLiteral(rep[1..], matched, before, after);
    }
  }

  /** `pat` occurs in `s` at index `j`. */
  predicate OccursAt(s: string, pat: string, j: nat) {
    j + |pat| <= |s| && s[j..j + |pat|] == pat
  }

  /** A text without an occurrence of the pattern is returned unchanged. */
  lemma {:induction false} ReplaceAllNoMatch(s: string, pat: string, rep: string, i: nat)
    requires |pat| > 0 && i <= |s|
    requires forall j: nat :: i <= j ==> !OccursAt(s, pat, j)
    ensures ReplaceAllFrom(s, pat, rep, i) == s[i..]
    decreases |s| - i
  {
    if i < |s| {
      assert !OccursAt(s, pat, i);
      ReplaceAllNoMatch(s, pat, rep, i + 1);
      assert s[i..] == [s[i]] + s[i + 1..];
    }
  }

  /** One step of the scan past a position where the pattern does not occur. */
  lemma ReplaceAllStep(s: string, pat: string, rep: string, i: nat)
    requires |pat| > 0 && i < |s| && !OccursAt(s, pat, i)
    ensures ReplaceAllFrom(s, pat, rep, i) == [s[i]] + ReplaceAllFrom(s, pat, rep, i + 1)
  {
  }

  /** No occurrence can start at a character different from the pattern's first. */
  lemma {:induction false} ReplaceAllSkip(s: string, pat: string, rep: string, i: nat, j: nat)
    requires |pat| > 0 && i <= j <= |s|
    requires forall k :: i <= k < j ==> s[k] != pat[0]
    ensures ReplaceAllFrom(s, pat, rep, i) == s[i..j] + ReplaceAllFrom(s, pat, rep, j)
    decreases j - i
  {
    if i < j {
      if i + |pat| <= |s| {
        assert s[i..i + |pat|][0] == s[i];
      }
      assert !OccursAt(s, pat, i);
      var rest := ReplaceAllFrom(s, pat, rep, j);
      calc {
        ReplaceAllFrom(s, pat, rep, i);
        { ReplaceAllStep(s, pat, rep, i); }
        [s[i]] + ReplaceAllFrom(s, pat, rep, i + 1);
        { ReplaceAllSkip(s, pat, rep, i + 1, j); }
        [s[i]] + (s[i + 1..j] + rest);
        ([s[i]] + s[i + 1..j]) + rest;
        { assert s[i..j] == [s[i]] + s[i + 1..j]; }
        s[i..j] + rest;
      }
    }
  }

  /** A text holding the pattern once, at its end, with a `$`-free
      replacement: the pattern is replaced literally. */
  lemma ReplaceAllSingle(prefix: string, pat: string, rep: string)
    requires |pat| > 0 && pat[0] !in prefix && '$' !in rep
    ensures ReplaceAll(prefix + pat, pat, rep) == prefix + rep
  {
    var s := prefix + pat;
    forall k | 0 <= k < |prefix|
      ensures s[k] != pat[0]
    {
      assert s[k] == prefix[k];
    }
    ReplaceAllSkip(s, pat, rep, 0, |prefix|);
    assert s[0..|prefix|] == prefix;
    assert s[|prefix|..|prefix| + |pat|] == pat;
    assert OccursAt(s, pat, |prefix|);
    SubstitutionLiteral(rep, pat, s[..|prefix|], s[|prefix| + |pat|..]);
  }
}
