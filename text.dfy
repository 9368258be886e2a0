/** String helpers shared by the server and the dashboard: the JavaScript notion of
    white space, decimal digits (what `parseInt` reads and what a template literal
    writes for a whole number), substring search (`String.prototype.includes`) and
    `String.prototype.trim`. */
module Text {

  datatype Option<T> = None | Some(value: T)

  /** The characters JavaScript's `\s` and `String.prototype.trim` treat as white
      space: ECMAScript's WhiteSpace and LineTerminator productions. */
  predicate IsSpace(c: char) {
    || c == '\t' || c == '\n' || c == '\U{B}' || c == '\U{C}' || c == '\r'
    || c == ' ' || c == '\U{A0}' || c == '\U{1680}'
    || ('\U{2000}' <= c <= '\U{200A}')
    || c == '\U{2028}' || c == '\U{2029}' || c == '\U{202F}' || c == '\U{205F}'
    || c == '\U{3000}' || c == '\U{FEFF}'
  }

  /** `\d` without the `u` flag: an ASCII decimal digit. */
  predicate IsDigit(c: char) {
    '0' <= c <= '9'
  }

  predicate AllDigits(s: string) {
    forall k :: 0 <= k < |s| ==> IsDigit(s[k])
  }

  /** Decimal text as JavaScript writes it: no superfluous leading zero. */
  predicate HasNoLeadingZero(s: string) {
    |s| > 1 ==> s[0] != '0'
  }

  function DigitValue(c: char): (d: nat)
    requires IsDigit(c)
    ensures d < 10
  {
    (c - '0') as int
  }

  function DigitChar(d: nat): (c: char)
    requires d < 10
    ensures IsDigit(c) && DigitValue(c) == d
  {
    ('0' as int + d) as char
  }

  /** The number `parseInt` reads from a run of decimal digits (exact: no
      floating-point rounding). */
  function DecimalValue(s: string): nat
    requires AllDigits(s)
  {
    if s == [] then 0 else DecimalValue(s[..|s| - 1]) * 10 + DigitValue(s[|s| - 1])
  }

  /** The decimal text JavaScript writes for a whole number `n >= 0` below 10^21
      (from there on it writes exponent notation). */
  function NatToString(n: nat): (s: string)
    ensures |s| > 0 && AllDigits(s) && HasNoLeadingZero(s)
  {
    if n < 10 then [DigitChar(n)] else NatToString(n / 10) + [DigitChar(n % 10)]
  }

  /** Reading back the rendered digits gives the number again. */
  lemma {:induction false} ParseRendered(n: nat)
    ensures DecimalValue(NatToString(n)) == n
  {
    var s := NatToString(n);
    if n >= 10 {
      ParseRendered(n / 10);
      assert s[..|s| - 1] == NatToString(n / 10);
    }
  }

  lemma {:induction false} LeadingDigitPositive(s: string)
    requires AllDigits(s) && |s| > 0 && s[0] != '0'
    ensures DecimalValue(s) > 0
  {
    if |s| > 1 {
      LeadingDigitPositive(s[..|s| - 1]);
    }
  }

  /** Rendering the value of digits written without a leading zero gives those
      digits back: together with ParseRendered, decimal text without leading zeros
      and natural numbers are in one-to-one correspondence. */
  lemma {:induction false} RenderParsed(s: string)
    requires |s| > 0 && AllDigits(s) && HasNoLeadingZero(s)
    ensures NatToString(DecimalValue(s)) == s
  {
    var p, c := s[..|s| - 1], s[|s| - 1];
    var n := DecimalValue(s);
    if p != [] {
      assert p[0] == s[0];
      LeadingDigitPositive(p);
      RenderParsed(p);
      assert n / 10 == DecimalValue(p) && n % 10 == DigitValue(c);
      assert s == p + [c];
    }
  }

  /** `t` occurs in `s` starting at index `k`. */
  ghost predicate OccursAt(s: string, t: string, k: int) {
    0 <= k && k + |t| <= |s| && s[k..k + |t|] == t
  }

  /** `s.includes(t)`, searching from the left. */
  function Includes(s: string, t: string): bool
    decreases |s|
  {
    if |s| < |t| then false else s[..|t|] == t || Includes(s[1..], t)
  }

  lemma {:induction false} IncludesIffOccurs(s: string, t: string)
    ensures Includes(s, t) <==> exists k :: OccursAt(s, t, k)
    decreases |s|
  {
    if |s| < |t| {
      assert forall k :: !OccursAt(s, t, k);
    } else if s[..|t|] == t {
      assert OccursAt(s, t, 0);
    } else {
      IncludesIffOccurs(s[1..], t);
      if Includes(s[1..], t) {
        var k :| OccursAt(s[1..], t, k);
        assert s[k + 1..k + 1 + |t|] == s[1..][k..k + |t|];
        assert OccursAt(s, t, k + 1);
      }
      if k :| OccursAt(s, t, k) {
        assert k != 0;
        assert s[1..][k - 1..k - 1 + |t|] == s[k..k + |t|];
        assert OccursAt(s[1..], t, k - 1);
      }
    }
  }

  /** `String.prototype.trim`: drop white space at both ends. */
  function Trim(s: string): string {
    TrimEnd(TrimStart(s))
  }

  function TrimStart(s: string): string {
    if s != [] && IsSpace(s[0]) then TrimStart(s[1..]) else s
  }

  function TrimEnd(s: string): string {
    if s != [] && IsSpace(s[|s| - 1]) then TrimEnd(s[..|s| - 1]) else s
  }

  predicate IsBlank(s: string) {
    forall k :: 0 <= k < |s| ==> IsSpace(s[k])
  }

  lemma {:induction false} TrimStartBlank(s: string)
    ensures TrimStart(s) == [] <==> IsBlank(s)
  {
    if s != [] && IsSpace(s[0]) {
      TrimStartBlank(s[1..]);
      assert forall k :: 1 <= k < |s| ==> s[k] == s[1..][k - 1];
    }
  }

  lemma {:induction false} TrimEndBlank(s: string)
    ensures TrimEnd(s) == [] <==> IsBlank(s)
  {
    if s != [] && IsSpace(s[|s| - 1]) {
      TrimEndBlank(s[..|s| - 1]);
    }
  }

  lemma {:induction false} TrimStartDropsSpaces(s: string)
    ensures IsBlank(TrimStart(s)) ==> IsBlank(s)
  {
    if s != [] && IsSpace(s[0]) {
      TrimStartDropsSpaces(s[1..]);
      assert forall k :: 1 <= k < |s| ==> s[k] == s[1..][k - 1];
    }
  }

  /** `s.trim()` is the empty string exactly when `s` has no character other than
      white space. */
  lemma TrimEmptyIffBlank(s: string)
    ensures Trim(s) == [] <==> IsBlank(s)
  {
    TrimEndBlank(TrimStart(s));
    TrimStartBlank(s);
    TrimStartDropsSpaces(s);
  }
}
