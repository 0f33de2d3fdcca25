/**
 * The few JavaScript string operations the components rely on, over an
 * explicit alphabet: `trim` (over a fixed whitespace set), `toLowerCase`
 * (ASCII letters and 'É'), `includes`, the regular expression `/\D/g`,
 * `Number.prototype.toString` on non-negative integers and the decimal
 * parsing done by `parseInt` / `Number` on such strings.
 */
module Text {
  import opened Wrappers

  // ---------------------------------------------------------------- trim

  /** The characters `String.prototype.trim` removes, restricted to those a form field can hold here. */
  predicate IsWhitespace(c: char) {
    c == ' ' || c == '\t' || c == '\n' || c == '\r' || c == '\U{000B}' || c == '\U{000C}'
    || c == '\U{00A0}' || c == '\U{FEFF}'
  }

  /** A string that trims to "" — JavaScript's `!s.trim()`. */
  predicate Blank(s: string) {
    forall i :: 0 <= i < |s| ==> IsWhitespace(s[i])
  }

  /** `sub` occurs in `s` starting at index `k`. */
  predicate OccursAt(s: string, sub: string, k: int) {
    0 <= k <= |s| - |sub| && s[k..k + |sub|] == sub
  }

  /** How many whitespace characters `s` starts with. */
  function LeadingSpaces(s: string): (n: nat)
    ensures n <= |s|
    ensures forall i :: 0 <= i < n ==> IsWhitespace(s[i])
    ensures n == |s| || !IsWhitespace(s[n])
  {
    if s != [] && IsWhitespace(s[0]) then 1 + LeadingSpaces(s[1..]) else 0
  }

  /** How many whitespace characters `s` ends with. */
  function TrailingSpaces(s: string): (n: nat)
    ensures n <= |s|
    ensures forall i :: |s| - n <= i < |s| ==> IsWhitespace(s[i])
    ensures n == |s| || !IsWhitespace(s[|s| - n - 1])
  {
    if s != [] && IsWhitespace(s[|s| - 1]) then 1 + TrailingSpaces(s[..|s| - 1]) else 0
  }

  /** `s.trim()`: the longest slice of `s` that neither starts nor ends with whitespace. */
  function Trim(s: string): (r: string)
    ensures exists k :: OccursAt(s, r, k) && Blank(s[..k]) && Blank(s[k + |r|..])
    ensures r == [] || (!IsWhitespace(r[0]) && !IsWhitespace(r[|r| - 1]))
    ensures r == [] <==> Blank(s)
  {
    var a := LeadingSpaces(s);
    var b := TrailingSpaces(s[a..]);
    assert OccursAt(s, s[a..|s| - b], a);
    assert Blank(s[..a]);
    assert Blank(s[|s| - b..]);
    assert a < |s| ==> b < |s| - a;
    s[a..|s| - b]
  }

  /** Trimming an already trimmed string changes nothing. */
  lemma {:induction false} TrimOfTrimmed(s: string)
    ensures Trim(Trim(s)) == Trim(s)
  {
    var r := Trim(s);
    if r != [] {
      assert LeadingSpaces(r) == 0;
      assert r[0..] == r;
      assert TrailingSpaces(r) == 0;
    }
  }

  /** `s.trim() || undefined`: the trimmed text, absent when it is empty. */
  function TrimmedOrUndefined(s: string): (r: Option<string>)
    ensures r.None? <==> Blank(s)
    ensures r.Some? ==> r.value == Trim(s) && r.value != ""
  {
    var t := Trim(s);
    if t == "" then None else Some(t)
  }

  // ---------------------------------------------------------- lowercase

  /** `toLowerCase` on one character: ASCII capitals and 'É' are folded, every other character is kept. */
  function LowerChar(c: char): (r: char)
    ensures ('A' <= c <= 'Z' || c == 'É') <==> r != c
  {
    if 'A' <= c <= 'Z' then (c as int + 32) as char
    else if c == 'É' then 'é'
    else c
  }

  function Lower(s: string): (r: string)
    ensures |r| == |s|
    ensures forall i :: 0 <= i < |s| ==> r[i] == LowerChar(s[i])
  {
    seq(|s|, i requires 0 <= i < |s| => LowerChar(s[i]))
  }

  /** Folding twice changes nothing more: a lower-cased search term matches as it did. */
  lemma LowerIdempotent(s: string)
    ensures Lower(Lower(s)) == Lower(s)
  {
    assert forall i :: 0 <= i < |s| ==> LowerChar(LowerChar(s[i])) == LowerChar(s[i]);
  }

  // ------------------------------------------------------------ includes

  /** `s.includes(sub)`. */
  function Contains(s: string, sub: string): (r: bool)
    ensures r <==> exists k :: OccursAt(s, sub, k)
    decreases |s|
  {
    if sub <= s then
      assert OccursAt(s, sub, 0);
      true
    else if |s| <= |sub| then
      assert forall k :: OccursAt(s, sub, k) ==> k == 0 && s[k..k + |sub|] == s;
      false
    else
      var r := Contains(s[1..], sub);
      assert forall k :: 1 <= k ==> OccursAt(s, sub, k) == OccursAt(s[1..], sub, k - 1);
      assert !OccursAt(s, sub, 0);
      assert r ==> exists k :: OccursAt(s, sub, k) by {
        if r {
          var j :| OccursAt(s[1..], sub, j);
          assert OccursAt(s, sub, j + 1);
        }
      }
      r
  }

  /** Every string includes the empty string. */
  lemma ContainsEmpty(s: string)
    ensures Contains(s, "")
  {
  }

  // -------------------------------------------------------------- digits

  predicate IsDigit(c: char) {
    '0' <= c <= '9'
  }

  predicate AllDigits(s: string) {
    forall i :: 0 <= i < |s| ==> IsDigit(s[i])
  }

  /** `s.replace(/\D/g, "")`: the digits of `s`, in order. */
  function StripNonDigits(s: string): (r: string)
    ensures AllDigits(r)
    ensures |r| <= |s|
    ensures AllDigits(s) ==> r == s
    ensures r == [] <==> forall i :: 0 <= i < |s| ==> !IsDigit(s[i])
  {
    if s == [] then []
    else if IsDigit(s[0]) then [s[0]] + StripNonDigits(s[1..])
    else StripNonDigits(s[1..])
  }

  /** Stripping distributes over concatenation: no digit is dropped or reordered. */
  lemma {:induction false} StripNonDigitsAppend(a: string, b: string)
    ensures StripNonDigits(a + b) == StripNonDigits(a) + StripNonDigits(b)
  {
    if a != [] {
      assert (a + b)[0] == a[0] && (a + b)[1..] == a[1..] + b;
      StripNonDigitsAppend(a[1..], b);
    } else {
      assert a + b == b;
    }
  }

  // ------------------------------------------------- decimal conversion

  function DigitChar(d: nat): (c: char)
    requires d < 10
    ensures IsDigit(c)
  {
    ('0' as int + d) as char
  }

  function DigitValue(c: char): (d: nat)
    requires IsDigit(c)
    ensures d < 10 && DigitChar(d) == c
  {
    c as int - '0' as int
  }

  /** The string `String(n)` yields for a non-negative integer: no sign and no leading zero. */
  predicate IsCanonicalDecimal(s: string) {
    s != [] && AllDigits(s) && (|s| == 1 || s[0] != '0')
  }

  /** `n.toString()`. */
  function NatToString(n: nat): (r: string)
    ensures IsCanonicalDecimal(r)
    decreases n
  {
    if n < 10 then [DigitChar(n)]
    else NatToString(n / 10) + [DigitChar(n % 10)]
  }

  /** `String(n)` for any integer: a minus sign in front of the digits of a negative number. */
  function IntToString(n: int): (r: string)
    ensures r != "" && (r[0] == '-' <==> n < 0)
    ensures n >= 0 ==> r == NatToString(n)
  {
    if n >= 0 then NatToString(n) else "-" + NatToString(-n)
  }

  /** `parseInt(s)` / `Number(s)` on a string of decimal digits. */
  function ParseDecimal(s: string): (n: nat)
    requires AllDigits(s)
    ensures |s| > 1 && s[0] != '0' ==> n >= 10
    decreases |s|
  {
    if s == [] then 0 else ParseDecimal(s[..|s| - 1]) * 10 + DigitValue(s[|s| - 1])
  }

  lemma {:induction false} ParseOfToString(n: nat)
    ensures ParseDecimal(NatToString(n)) == n
    decreases n
  {
    if n >= 10 {
      var s := NatToString(n);
      assert s[..|s| - 1] == NatToString(n / 10);
      ParseOfToString(n / 10);
    }
  }

  lemma {:induction false} ToStringOfParse(s: string)
    requires IsCanonicalDecimal(s)
    ensures NatToString(ParseDecimal(s)) == s
    decreases |s|
  {
    if |s| == 1 {
      assert s == [DigitChar(DigitValue(s[0]))];
    } else {
      var p := s[..|s| - 1];
      assert IsCanonicalDecimal(p);
      ToStringOfParse(p);
      var n := ParseDecimal(s);
      assert n / 10 == ParseDecimal(p) && n % 10 == DigitValue(s[|s| - 1]);
      assert s == p + [s[|s| - 1]];
    }
  }

  /**
   * The value of a `<select>` read back as an id: the empty placeholder is
   * no id, any other option value is its number (`parseInt` / `Number`).
   */
  function ParseOptionValue(value: string): (r: Option<nat>)
    requires value == "" || IsCanonicalDecimal(value)
    ensures r.None? <==> value == ""
    ensures r.Some? ==> NatToString(r.value) == value
  {
    if value == "" then None
    else
      ToStringOfParse(value);
      Some(ParseDecimal(value))
  }
}
