/** The HTTP status-line search the server runs on `curl -I -L` output: the first
    match of the case-insensitive pattern `HTTP\/\d(?:\.\d)?\s+(\d+)` and the
    `parseInt` of its captured digits (src/server.js lines 116-117 and 167-169).
    The scanner below is checked against a declarative description of what a match
    of that pattern is. */
module StatusLine {
  import opened Text

  /** `HTTP/` at index `i`, letters in either case (the `i` flag; without the `u`
      flag no non-ASCII character folds onto H, T or P). */
  predicate HttpSlashAt(s: string, i: nat)
    requires i + 5 <= |s|
  {
    s[i] in "Hh" && s[i + 1] in "Tt" && s[i + 2] in "Tt" && s[i + 3] in "Pp" && s[i + 4] == '/'
  }

  predicate SpaceAt(s: string, k: int) {
    0 <= k < |s| && IsSpace(s[k])
  }

  predicate DigitAt(s: string, k: int) {
    0 <= k < |s| && IsDigit(s[k])
  }

  /** The pattern matches `s[i..b]`, with the optional `.digit` ending at `v`, the
      white-space run `s[v..a]` and the captured digits `s[a..b]`. */
  ghost predicate PatternAt(s: string, i: nat, v: nat, a: nat, b: nat) {
    && i + 6 <= |s| && HttpSlashAt(s, i) && IsDigit(s[i + 5])
    && (v == i + 6 || (v == i + 8 && v <= |s| && s[i + 6] == '.' && IsDigit(s[i + 7])))
    && v < a < b <= |s|
    && (forall k :: v <= k < a ==> IsSpace(s[k]))
    && (forall k :: a <= k < b ==> IsDigit(s[k]))
  }

  /** The pattern matches at index `i` in some way. */
  ghost predicate MatchesAt(s: string, i: nat) {
    exists v: nat, a: nat, b: nat :: PatternAt(s, i, v, a, b)
  }

  /** The match at `i` that the greedy `(\d+)` selects captures the value `n`. */
  ghost predicate CapturesAt(s: string, i: nat, n: nat) {
    exists v: nat, a: nat, b: nat ::
      && PatternAt(s, i, v, a, b)
      && (b == |s| || !IsDigit(s[b]))
      && n == DecimalValue(s[a..b])
  }

  /** `s.match(...)` picks the leftmost index where the pattern matches. */
  ghost predicate FirstCapture(s: string, i: nat, n: nat) {
    CapturesAt(s, i, n) && forall j: nat :: j < i ==> !MatchesAt(s, j)
  }

  ghost predicate NoStatusLine(s: string) {
    forall i: nat :: !MatchesAt(s, i)
  }

  /** Index just past the optional `.digit` of the version that ends at `i`. */
  function VersionEnd(s: string, i: nat): (v: nat)
    requires i <= |s|
    ensures v <= |s|
  {
    if i + 2 <= |s| && s[i] == '.' && IsDigit(s[i + 1]) then i + 2 else i
  }

  /** Index just past the white-space run that starts at `i`. */
  function SpacesEnd(s: string, i: nat): (j: nat)
    requires i <= |s|
    ensures i <= j <= |s|
    decreases |s| - i
  {
    if i < |s| && IsSpace(s[i]) then SpacesEnd(s, i + 1) else i
  }

  /** Index just past the digit run that starts at `i`. */
  function DigitsEnd(s: string, i: nat): (j: nat)
    requires i <= |s|
    ensures i <= j <= |s|
    decreases |s| - i
  {
    if i < |s| && IsDigit(s[i]) then DigitsEnd(s, i + 1) else i
  }

  /** SpacesEnd stops at the first character that is no space. */
  lemma {:induction false} SpacesEndIsRunEnd(s: string, i: nat)
    requires i <= |s|
    ensures forall k :: i <= k < SpacesEnd(s, i) ==> IsSpace(s[k])
    ensures !SpaceAt(s, SpacesEnd(s, i))
    decreases |s| - i
  {
    if i < |s| && IsSpace(s[i]) {
      SpacesEndIsRunEnd(s, i + 1);
    }
  }

  /** DigitsEnd stops at the first character that is no digit. */
  lemma {:induction false} DigitsEndIsRunEnd(s: string, i: nat)
    requires i <= |s|
    ensures forall k :: i <= k < DigitsEnd(s, i) ==> IsDigit(s[k])
    ensures !DigitAt(s, DigitsEnd(s, i))
    decreases |s| - i
  {
    if i < |s| && IsDigit(s[i]) {
      DigitsEndIsRunEnd(s, i + 1);
    }
  }

  /** The scanner: try the pattern at index `i` alone. */
  function ScanAt(s: string, i: nat): Option<nat> {
    if i + 6 <= |s| && HttpSlashAt(s, i) && IsDigit(s[i + 5]) then
      var v := VersionEnd(s, i + 6);
      var a := SpacesEnd(s, v);
      var b := DigitsEnd(s, a);
      if v < a < b then DigitsEndIsRunEnd(s, a); Some(DecimalValue(s[a..b])) else None
    else
      None
  }

  /** The scanner agrees with the pattern at every index: it finds a value exactly
      where the pattern matches, and that value is the greedy capture. */
  lemma ScanAtIsPattern(s: string, i: nat)
    ensures ScanAt(s, i).Some? <==> MatchesAt(s, i)
    ensures ScanAt(s, i).Some? ==> CapturesAt(s, i, ScanAt(s, i).value)
  {
    if i + 6 <= |s| && HttpSlashAt(s, i) && IsDigit(s[i + 5]) {
      var v := VersionEnd(s, i + 6);
      var a := SpacesEnd(s, v);
      var b := DigitsEnd(s, a);
      SpacesEndIsRunEnd(s, v);
      DigitsEndIsRunEnd(s, a);
      if v < a < b {
        assert PatternAt(s, i, v, a, b);
      }
      if MatchesAt(s, i) {
        var v': nat, a': nat, b': nat :| PatternAt(s, i, v', a', b');
        SameMatchShape(s, i, v', a', b');
      }
    }
  }

  /** Every way the pattern matches at `i` shares the scanner's version end and
      white-space run, and its captured digits lie within the scanner's. */
  lemma SameMatchShape(s: string, i: nat, v': nat, a': nat, b': nat)
    requires PatternAt(s, i, v', a', b')
    ensures var v := VersionEnd(s, i + 6);
            var a := SpacesEnd(s, v);
            v' == v && a' == a && a' < b' <= DigitsEnd(s, a)
  {
    var v := VersionEnd(s, i + 6);
    var a := SpacesEnd(s, v);
    var b := DigitsEnd(s, a);
    SpacesEndIsRunEnd(s, v);
    DigitsEndIsRunEnd(s, a);
    // The optional group cannot be skipped when present: a '.' is no space.
    assert IsSpace(s[v']);
    // A space run followed by a digit ends where the spaces end.
    assert a' < a ==> SpaceAt(s, a');
    assert a < a' ==> SpaceAt(s, a);
  }

  /** Captures are unique: the greedy match at an index has one value. */
  lemma CaptureIsScan(s: string, i: nat, n: nat)
    requires CapturesAt(s, i, n)
    ensures ScanAt(s, i) == Some(n)
  {
    var v': nat, a': nat, b': nat :| PatternAt(s, i, v', a', b') && (b' == |s| || !IsDigit(s[b'])) && n == DecimalValue(s[a'..b']);
    SameMatchShape(s, i, v', a', b');
    var b := DigitsEnd(s, a');
    DigitsEndIsRunEnd(s, a');
    assert b' < b ==> DigitAt(s, b');
    assert b' == b;
  }

  /** The leftmost index from `i` on where the scanner finds a status line, or
      `|s|` when there is none. */
  function FirstMatchIndex(s: string, i: nat): (j: nat)
    requires i <= |s|
    ensures i <= j <= |s|
    decreases |s| - i
  {
    if i == |s| || ScanAt(s, i).Some? then i else FirstMatchIndex(s, i + 1)
  }

  lemma {:induction false} FirstMatchIndexIsFirst(s: string, i: nat)
    requires i <= |s|
    ensures forall k :: i <= k < FirstMatchIndex(s, i) ==> ScanAt(s, k).None?
    ensures FirstMatchIndex(s, i) < |s| ==> ScanAt(s, FirstMatchIndex(s, i)).Some?
    decreases |s| - i
  {
    if i < |s| && ScanAt(s, i).None? {
      FirstMatchIndexIsFirst(s, i + 1);
    }
  }

  /** The status code the server reads from curl's output, if any:
      `statusMatch ? parseInt(statusMatch[1]) : null`. */
  function FindStatusCode(s: string): Option<nat> {
    ScanAt(s, FirstMatchIndex(s, 0))
  }

  /** The status code found is the capture of the leftmost match of the pattern,
      and nothing is found exactly when the pattern matches nowhere. */
  lemma FindStatusCodeIsFirstMatch(s: string)
    ensures FindStatusCode(s).None? <==> NoStatusLine(s)
    ensures forall n: nat :: FindStatusCode(s) == Some(n) <==> exists i: nat :: FirstCapture(s, i, n)
  {
    var j := FirstMatchIndex(s, 0);
    FirstMatchIndexIsFirst(s, 0);
    forall i: nat ensures ScanAt(s, i).Some? <==> MatchesAt(s, i) {
      ScanAtIsPattern(s, i);
    }
    ScanAtIsPattern(s, j);
    if ScanAt(s, j).Some? {
      assert FirstCapture(s, j, ScanAt(s, j).value);
    }
    forall n: nat, i: nat | FirstCapture(s, i, n) ensures ScanAt(s, j) == Some(n) {
      CaptureIsScan(s, i, n);
    }
  }

  lemma FirstCaptureFound(s: string, i: nat, n: nat)
    requires FirstCapture(s, i, n)
    ensures FindStatusCode(s) == Some(n)
  {
    FindStatusCodeIsFirstMatch(s);
  }

  lemma NoStatusLineNotFound(s: string)
    requires NoStatusLine(s)
    ensures FindStatusCode(s) == None
  {
    FindStatusCodeIsFirstMatch(s);
  }

  lemma FoundIsFirstCapture(s: string) returns (i: nat)
    requires FindStatusCode(s).Some?
    ensures FirstCapture(s, i, FindStatusCode(s).value)
  {
    FindStatusCodeIsFirstMatch(s);
    i :| FirstCapture(s, i, FindStatusCode(s).value);
  }
}
