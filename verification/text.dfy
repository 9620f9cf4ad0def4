/** String helpers standing in for the JavaScript built-ins the core uses:
    `String.prototype.includes`, `String.prototype.trim`, `Array.prototype.join`
    and the decimal rendering of an integer inside a template literal. */
module Text {

  /** `needle` occurs in `hay` starting at position `i`. */
  predicate InfixAt(needle: string, hay: string, i: nat) {
    i + |needle| <= |hay| && hay[i..i + |needle|] == needle
  }

  /** `needle` occurs somewhere in `hay` as a contiguous block. */
  ghost predicate IsInfix(needle: string, hay: string) {
    exists i: nat :: InfixAt(needle, hay, i)
  }

  lemma InfixOfConcat(a: string, b: string, c: string)
    ensures IsInfix(b, a + b + c)
  {
    assert (a + b + c)[|a|..|a| + |b|] == b;
    assert InfixAt(b, a + b + c, |a|);
  }

  lemma InfixTransitive(a: string, b: string, c: string)
    requires IsInfix(a, b) && IsInfix(b, c)
    ensures IsInfix(a, c)
  {
    var i: nat :| InfixAt(a, b, i);
    var j: nat :| InfixAt(b, c, j);
    assert forall k :: 0 <= k < |a| ==> c[j + i + k] == c[j..j + |b|][i + k] == a[k];
    assert c[j + i..j + i + |a|] == a;
    assert InfixAt(a, c, j + i);
  }

  /** An occurrence in `hay` that is not at position 0 is an occurrence in `hay[1..]`. */
  lemma InfixStep(needle: string, hay: string)
    requires |hay| > 0 && !InfixAt(needle, hay, 0)
    ensures IsInfix(needle, hay) <==> IsInfix(needle, hay[1..])
  {
    if IsInfix(needle, hay) {
      var i: nat :| InfixAt(needle, hay, i);
      assert i >= 1;
      assert hay[1..][i - 1..i - 1 + |needle|] == hay[i..i + |needle|];
      assert InfixAt(needle, hay[1..], i - 1);
    }
    if IsInfix(needle, hay[1..]) {
      var i: nat :| InfixAt(needle, hay[1..], i);
      assert hay[i + 1..i + 1 + |needle|] == hay[1..][i..i + |needle|];
      assert InfixAt(needle, hay, i + 1);
    }
  }

  /** `hay.includes(needle)`: a left-to-right scan for an occurrence. */
  function Contains(needle: string, hay: string): bool
    decreases |hay|
  {
    if |hay| < |needle| then false
    else if hay[..|needle|] == needle then true
    else Contains(needle, hay[1..])
  }

  /** The scan finds an occurrence exactly when there is one. */
  lemma {:induction false} ContainsIsInfix(needle: string, hay: string)
    ensures Contains(needle, hay) <==> IsInfix(needle, hay)
    decreases |hay|
  {
    if |hay| < |needle| {
      assert forall i: nat :: !InfixAt(needle, hay, i);
    } else if hay[..|needle|] == needle {
      assert InfixAt(needle, hay, 0);
    } else {
      InfixStep(needle, hay);
      ContainsIsInfix(needle, hay[1..]);
    }
  }

  // ---------------------------------------------------------------------------
  // trim()

  /** The characters ECMAScript's `trim` removes: WhiteSpace and LineTerminator. */
  predicate IsWhitespace(c: char) {
    || c == '\t' || c == '\n' || c == '\U{B}' || c == '\U{C}' || c == '\r' || c == ' '
    || c == '\U{A0}' || c == '\U{1680}' || ('\U{2000}' <= c <= '\U{200A}')
    || c == '\U{2028}' || c == '\U{2029}' || c == '\U{202F}' || c == '\U{205F}'
    || c == '\U{3000}' || c == '\U{FEFF}'
  }

  /** `s` has a character that `trim` keeps. */
  ghost predicate HasVisibleChar(s: string) {
    exists i :: 0 <= i < |s| && !IsWhitespace(s[i])
  }

  function TrimStart(s: string): (r: string)
    ensures |r| <= |s| && r == s[|s| - |r|..]
    ensures forall i :: 0 <= i < |s| - |r| ==> IsWhitespace(s[i])
    ensures r == [] || !IsWhitespace(r[0])
  {
    if |s| > 0 && IsWhitespace(s[0]) then TrimStart(s[1..]) else s
  }

  function TrimEnd(s: string): (r: string)
    ensures |r| <= |s| && r == s[..|r|]
    ensures forall i :: |r| <= i < |s| ==> IsWhitespace(s[i])
    ensures r == [] || !IsWhitespace(r[|r| - 1])
  {
    if |s| > 0 && IsWhitespace(s[|s| - 1]) then TrimEnd(s[..|s| - 1]) else s
  }

  /** `s.trim()`: `s` without leading and trailing whitespace. */
  function Trim(s: string): (r: string)
    ensures r == [] <==> !HasVisibleChar(s)
  {
    TrimParts(s);
    TrimEnd(TrimStart(s))
  }

  /** The trimmed string is a block of `s` that neither starts nor ends with
      whitespace, and it is empty exactly when `s` is all whitespace. */
  lemma TrimParts(s: string)
    ensures var r := TrimEnd(TrimStart(s));
            && (exists a, b :: 0 <= a <= b <= |s| && r == s[a..b])
            && (r == [] || (!IsWhitespace(r[0]) && !IsWhitespace(r[|r| - 1])))
            && (r == [] <==> !HasVisibleChar(s))
  {
    var t := TrimStart(s);
    var r := TrimEnd(t);
    var a := |s| - |t|;
    assert r == s[a..a + |r|];
    if r == [] {
      assert t == [];
      assert forall i :: 0 <= i < |s| ==> IsWhitespace(s[i]);
    } else {
      assert r[0] == t[0];
      assert !IsWhitespace(s[a]);
    }
  }

  // ---------------------------------------------------------------------------
  // Array.prototype.join

  /** `parts.join(sep)`: the parts in order, `sep` between neighbours. */
  function Join(parts: seq<string>, sep: string): (r: string)
    ensures |parts| == 0 ==> r == []
    ensures |parts| > 0 ==> |r| >= |parts[0]| && r[..|parts[0]|] == parts[0]
  {
    if |parts| == 0 then []
    else if |parts| == 1 then parts[0]
    else parts[0] + sep + Join(parts[1..], sep)
  }

  /** Every part reaches the joined string verbatim. */
  lemma {:induction false} JoinMentionsEveryPart(parts: seq<string>, sep: string)
    ensures forall i :: 0 <= i < |parts| ==> IsInfix(parts[i], Join(parts, sep))
  {
    if |parts| == 1 {
      InfixOfConcat([], parts[0], []);
      assert [] + parts[0] + [] == parts[0];
    } else if |parts| > 1 {
      var tail := Join(parts[1..], sep);
      assert Join(parts, sep) == parts[0] + sep + tail;
      JoinMentionsEveryPart(parts[1..], sep);
      forall i | 0 <= i < |parts|
        ensures IsInfix(parts[i], Join(parts, sep))
      {
        if i == 0 {
          InfixOfConcat([], parts[0], sep + tail);
          assert [] + parts[0] + (sep + tail) == Join(parts, sep);
        } else {
          assert parts[i] == parts[1..][i - 1];
          InfixOfConcat(parts[0] + sep, tail, []);
          assert parts[0] + sep + tail + [] == Join(parts, sep);
          InfixTransitive(parts[i], tail, Join(parts, sep));
        }
      }
    }
  }

  // ---------------------------------------------------------------------------
  // Decimal rendering of integers, as `${n}` does for an integral number

  predicate IsDigit(c: char) {
    '0' <= c <= '9'
  }

  function DigitChar(d: nat): (c: char)
    requires d < 10
    ensures IsDigit(c) && c as int - '0' as int == d
  {
    "0123456789"[d]
  }

  function DigitValue(c: char): nat
    requires IsDigit(c)
  {
    c as int - '0' as int
  }

  /** Value of a string of decimal digits (the partner of `NatToString`). */
  function DecimalValue(s: string): nat
    requires forall i :: 0 <= i < |s| ==> IsDigit(s[i])
  {
    if |s| == 0 then 0
    else DecimalValue(s[..|s| - 1]) * 10 + DigitValue(s[|s| - 1])
  }

  /** Shortest decimal form of `n`: digits only, no leading zero. */
  function NatToString(n: nat): (r: string)
    ensures |r| >= 1
    ensures forall i :: 0 <= i < |r| ==> IsDigit(r[i])
    ensures r[0] == '0' ==> n == 0 && r == "0"
  {
    if n < 10 then [DigitChar(n)] else NatToString(n / 10) + [DigitChar(n % 10)]
  }

  lemma {:induction false} DecimalRoundTrip(n: nat)
    ensures DecimalValue(NatToString(n)) == n
  {
    if n >= 10 {
      var s := NatToString(n);
      assert s[..|s| - 1] == NatToString(n / 10);
      DecimalRoundTrip(n / 10);
    }
  }

  /** `${n}` for an integral number n with |n| < 10^21 (from 10^21 on,
      JavaScript switches to exponent form): a minus sign before negative values. */
  function IntToString(n: int): (r: string)
    ensures n >= 0 ==> |r| >= 1 && (forall i :: 0 <= i < |r| ==> IsDigit(r[i]))
                       && DecimalValue(r) == n && (r[0] == '0' ==> r == "0")
    ensures n < 0 ==> |r| >= 2 && r[0] == '-' && r[1] != '0'
                      && (forall i :: 1 <= i < |r| ==> IsDigit(r[i])) && DecimalValue(r[1..]) == -n
  {
    if n < 0 then
      DecimalRoundTrip(-n);
      var digits := NatToString(-n);
      assert ("-" + digits)[1..] == digits;
      "-" + digits
    else
      DecimalRoundTrip(n);
      NatToString(n)
  }
}
