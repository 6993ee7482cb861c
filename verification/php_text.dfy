/**
 * The PHP string built-ins the core relies on, restricted to the behaviour
 * the core observes: `empty()` on strings, `trim`/`rtrim` with their
 * character lists, ASCII `strtolower`, `str_contains`, and decimal rendering
 * of integers for interpolated messages.
 */
module PhpText {

  /** PHP `empty($s)` for a string: only "" and "0" are falsy. */
  predicate Truthy(s: string) {
    s != "" && s != "0"
  }

  /** The characters PHP's `trim` strips by default: " \t\n\r\0\x0B". */
  predicate IsTrimChar(c: char) {
    c in TrimChars
  }

  /** `ltrim` with the default character list. */
  function TrimLeft(s: string): (r: string)
    ensures |r| <= |s| && r == s[|s| - |r|..]
    ensures r == [] || !IsTrimChar(r[0])
    ensures forall i :: 0 <= i < |s| - |r| ==> IsTrimChar(s[i])
  {
    if s != [] && IsTrimChar(s[0]) then TrimLeft(s[1..]) else s
  }

  /** `rtrim` with an explicit character list. */
  function TrimRightOf(s: string, chars: set<char>): (r: string)
    ensures |r| <= |s| && r == s[..|r|]
    ensures r == [] || r[|r| - 1] !in chars
    ensures forall i :: |r| <= i < |s| ==> s[i] in chars
  {
    if s != [] && s[|s| - 1] in chars then TrimRightOf(s[..|s| - 1], chars) else s
  }

  const TrimChars: set<char> := {' ', '\t', '\n', '\r', '\0', '\U{B}'}

  /** How many characters `ltrim` cuts from the front. */
  function LeadingTrim(s: string): (i: nat)
    ensures i <= |s|
  {
    |s| - |TrimLeft(s)|
  }

  /** `trim` with the default character list. */
  function Trim(s: string): (r: string)
    ensures |r| <= |s|
    ensures r == [] || (!IsTrimChar(r[0]) && !IsTrimChar(r[|r| - 1]))
  {
    TrimRightOf(TrimLeft(s), TrimChars)
  }

  /**
   * The trimmed text is the slice of the input after its leading trim
   * characters, and only trim characters are cut off on either side.
   */
  lemma TrimIsSlice(s: string)
    ensures var r := Trim(s); var i := LeadingTrim(s);
      i + |r| <= |s| && r == s[i..i + |r|] && TrimmedAround(s, i, i + |r|)
  {
    var l := TrimLeft(s);
    var r := TrimRightOf(l, TrimChars);
    var i := |s| - |l|;
    assert l == s[i..];
    forall k | i + |r| <= k < |s|
      ensures IsTrimChar(s[k])
    {
      assert s[k] == l[k - i];
    }
  }

  /** Everything of s before i and from j on is a trim character. */
  predicate TrimmedAround(s: string, i: nat, j: nat)
    requires i <= j <= |s|
  {
    (forall k :: 0 <= k < i ==> IsTrimChar(s[k])) && (forall k :: j <= k < |s| ==> IsTrimChar(s[k]))
  }

  /** A string with nothing for `trim` to strip is its own trim. */
  lemma TrimOfTrimmed(s: string)
    requires s == [] || (!IsTrimChar(s[0]) && !IsTrimChar(s[|s| - 1]))
    ensures Trim(s) == s
  {
    assert TrimLeft(s) == s;
    assert TrimRightOf(s, TrimChars) == s;
  }

  /** ASCII `strtolower` (PHP 8 is locale-insensitive). */
  function LowerChar(c: char): (r: char)
    ensures 'A' <= c <= 'Z' ==> r as int == c as int + 32
    ensures !('A' <= c <= 'Z') ==> r == c
  {
    if 'A' <= c <= 'Z' then (c as int + 32) as char else c
  }

  function Lower(s: string): (r: string)
    ensures |r| == |s|
    ensures forall i :: 0 <= i < |s| ==> r[i] == LowerChar(s[i])
  {
    if s == [] then [] else [LowerChar(s[0])] + Lower(s[1..])
  }

  predicate IsPrefix(p: string, s: string) {
    |p| <= |s| && s[..|p|] == p
  }

  /** `str_contains($s, $needle)`. */
  predicate Contains(s: string, needle: string)
    decreases |s|
  {
    IsPrefix(needle, s) || (s != [] && Contains(s[1..], needle))
  }

  function DigitChar(d: nat): (c: char)
    requires d < 10
    ensures '0' <= c <= '9'
  {
    ((d + '0' as int) as char)
  }

  /** Decimal rendering of a natural number, as PHP interpolates an int. */
  function NatToString(n: nat): (r: string)
    ensures |r| >= 1
    ensures forall i :: 0 <= i < |r| ==> '0' <= r[i] <= '9'
    ensures (r[0] == '0') <==> n == 0
  {
    if n < 10 then [DigitChar(n)] else NatToString(n / 10) + [DigitChar(n % 10)]
  }

  predicate DigitsOnly(s: string) {
    forall i :: 0 <= i < |s| ==> '0' <= s[i] <= '9'
  }

  /**
   * Decimal rendering of an int, as PHP interpolates it: the digits of the
   * magnitude, read back by `(int)`, with a '-' in front for a negative value.
   */
  function IntToString(n: int): (r: string)
    ensures |r| >= 1
    ensures n >= 0 ==> DigitsOnly(r) && DigitsValue(r) == n && (r[0] == '0' ==> r == "0")
    ensures n < 0 ==> |r| >= 2 && r[0] == '-' && DigitsOnly(r[1..]) && DigitsValue(r[1..]) == -n && r[1] != '0'
  {
    if n < 0 then
      DigitsValueOfNatToString(-n);
      var r := "-" + NatToString(-n);
      assert r[1..] == NatToString(-n);
      r
    else
      DigitsValueOfNatToString(n);
      NatToString(n)
  }

  /** The value of a run of decimal digits, as `(int)` reads it. */
  function DigitsValue(s: string): (v: nat)
    requires forall i :: 0 <= i < |s| ==> '0' <= s[i] <= '9'
    ensures s == [] ==> v == 0
  {
    if s == [] then 0
    else 10 * DigitsValue(s[..|s| - 1]) + (s[|s| - 1] as int - '0' as int)
  }

  /** Reading back a rendered number gives the number. */
  lemma {:induction false} DigitsValueOfNatToString(n: nat)
    ensures DigitsValue(NatToString(n)) == n
  {
    if n >= 10 {
      DigitsValueOfNatToString(n / 10);
      var r := NatToString(n);
      assert r[..|r| - 1] == NatToString(n / 10);
    }
  }

  /** str_replace semantics for one search string: left to right, non-overlapping. */
  function ReplaceAll(s: string, search: string, replacement: string): (r: string)
    requires search != []
    decreases |s|
  {
    if |s| < |search| then s
    else if s[..|search|] == search then replacement + ReplaceAll(s[|search|..], search, replacement)
    else [s[0]] + ReplaceAll(s[1..], search, replacement)
  }

  /** After replacing a one-character search string, the character is gone
    * (provided the replacement does not reintroduce it). */
  lemma {:induction false} ReplaceAllRemoves(s: string, c: char, replacement: string)
    requires c !in replacement
    ensures c !in ReplaceAll(s, [c], replacement)
    decreases |s|
  {
    if |s| >= 1 {
      ReplaceAllRemoves(s[1..], c, replacement);
    }
  }

  /** Replacing never introduces a character that neither the input nor the replacement holds. */
  lemma {:induction false} ReplaceAllKeepsAbsent(s: string, search: string, replacement: string, c: char)
    requires search != []
    requires c !in s && c !in replacement
    ensures c !in ReplaceAll(s, search, replacement)
    decreases |s|
  {
    if |s| >= |search| {
      if s[..|search|] == search {
        ReplaceAllKeepsAbsent(s[|search|..], search, replacement, c);
      } else {
        ReplaceAllKeepsAbsent(s[1..], search, replacement, c);
      }
    }
  }
}
