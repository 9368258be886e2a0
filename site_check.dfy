/** The availability verdict and HTTPS detector for the monitored site
    (src/server.js `checkWebsiteStatus` and `checkHttpsStatus`). Spawning `curl`
    and `ping` is not modelled: each probe is given as what its callback receives,
    an error flag and the captured standard output. */
module SiteCheck {
  import opened Text
  import opened StatusLine

  datatype Status = UP | PARTIAL | DOWN

  /** What the callback of `exec` receives: whether the command failed (non-zero
      exit, timeout, spawn error) and its standard output. */
  datatype ProbeOutput = ProbeOutput(failed: bool, stdout: string)

  /** The record `checkWebsiteStatus` resolves with. `statusCode` is `null` when
      None; `note` is absent when None; `pingOk` is true only on the record that
      carries `pingOk: true` and false where the field is absent. */
  datatype Verdict = Verdict(status: Status, statusCode: Option<nat>, note: Option<string>, pingOk: bool)

  const NoStatusCodeNote: string := "Réponse sans code HTTP standard"
  const PingReplyMarker: string := "TTL="

  /** The response headers whose presence, next to `HTTP/`, counts as HTTPS. */
  const SecurityHeaders: seq<string> := ["X-Served-By", "Strict-Transport-Security", "X-Content-Type-Options"]

  /** `checkWebsiteStatus`: the ping probe is looked at only when curl failed. A
      status code of 0 is falsy and falls through to the output test. No branch
      fails: every outcome is one of the three verdicts. */
  function CheckWebsiteStatus(curl: ProbeOutput, ping: ProbeOutput): (v: Verdict)
    ensures v.status == PARTIAL ==> curl.failed && v.pingOk
    ensures v.pingOk ==> v.status == PARTIAL
    ensures curl.failed ==> v.statusCode == None && v.status != UP && v.note == None
    ensures v.status == UP ==> v.statusCode.Some? && 200 <= v.statusCode.value < 400
    ensures v.note.Some? ==> v.status == UP && v.statusCode == Some(200)
    ensures v.status == DOWN && v.statusCode.Some? ==> v.statusCode.value != 0 && !(200 <= v.statusCode.value < 400)
  {
    if curl.failed then
      if !ping.failed && Includes(ping.stdout, PingReplyMarker) then Verdict(PARTIAL, None, None, true)
      else Verdict(DOWN, None, None, false)
    else
      var code := FindStatusCode(curl.stdout);
      if code.Some? && code.value != 0 then
        Verdict(if 200 <= code.value < 400 then UP else DOWN, code, None, false)
      else if Trim(curl.stdout) != [] then
        Verdict(UP, Some(200), Some(NoStatusCodeNote), false)
      else
        Verdict(DOWN, None, None, false)
  }

  /** `checkHttpsStatus`: a failed curl is never HTTPS; security headers next to a
      (case-sensitive) `HTTP/` are; otherwise a parsed status of at least 200 is. */
  function CheckHttpsStatus(curl: ProbeOutput): (active: bool)
    ensures curl.failed ==> !active
  {
    if curl.failed then false
    else if Includes(curl.stdout, "HTTP/")
         && (Includes(curl.stdout, SecurityHeaders[0])
             || Includes(curl.stdout, SecurityHeaders[1])
             || Includes(curl.stdout, SecurityHeaders[2]))
    then true
    else
      match FindStatusCode(curl.stdout)
      case Some(n) => n >= 200
      case None => false
  }

  /** Curl answered and its output holds a status line whose first match reads a
      non-zero code `n`: the site is UP exactly when 200 <= n < 400, and `n` is
      reported, whatever ping would have said. */
  lemma StatusLineVerdict(curl: ProbeOutput, ping: ProbeOutput, i: nat, n: nat)
    requires !curl.failed && FirstCapture(curl.stdout, i, n) && n != 0
    ensures CheckWebsiteStatus(curl, ping) == Verdict(if 200 <= n < 400 then UP else DOWN, Some(n), None, false)
  {
    FirstCaptureFound(curl.stdout, i, n);
  }

  /** Curl answered with something other than white space but no status line (or
      one whose code reads 0): the optimistic fallback, UP with code 200 and a
      note. */
  lemma UnparsedOutputVerdict(curl: ProbeOutput, ping: ProbeOutput)
    requires !curl.failed && !IsBlank(curl.stdout)
    requires NoStatusLine(curl.stdout) || exists i: nat :: FirstCapture(curl.stdout, i, 0)
    ensures CheckWebsiteStatus(curl, ping) == Verdict(UP, Some(200), Some(NoStatusCodeNote), false)
  {
    if NoStatusLine(curl.stdout) {
      NoStatusLineNotFound(curl.stdout);
    } else {
      var i: nat :| FirstCapture(curl.stdout, i, 0);
      FirstCaptureFound(curl.stdout, i, 0);
    }
    TrimEmptyIffBlank(curl.stdout);
  }

  /** A blank status line cannot occur in blank output: `HTTP/` is no space. */
  lemma BlankHasNoStatusLine(s: string)
    requires IsBlank(s)
    ensures NoStatusLine(s)
  {
    forall i: nat ensures !MatchesAt(s, i) {
      if i < |s| {
        assert !IsSpace(s[i]) || !(s[i] in "Hh");
      }
    }
  }

  /** Curl answered with empty or white-space-only output: DOWN with no code, and
      the ping probe plays no part. */
  lemma BlankOutputVerdict(curl: ProbeOutput, ping: ProbeOutput)
    requires !curl.failed && IsBlank(curl.stdout)
    ensures CheckWebsiteStatus(curl, ping) == Verdict(DOWN, None, None, false)
  {
    BlankHasNoStatusLine(curl.stdout);
    NoStatusLineNotFound(curl.stdout);
    TrimEmptyIffBlank(curl.stdout);
  }

  /** Curl failed: PARTIAL exactly when ping succeeded and its output contains
      `TTL=`, DOWN otherwise, never with a status code. */
  lemma CurlErrorVerdict(curl: ProbeOutput, ping: ProbeOutput)
    requires curl.failed
    ensures var v := CheckWebsiteStatus(curl, ping);
            && (v.status == PARTIAL <==> !ping.failed && exists k :: OccursAt(ping.stdout, PingReplyMarker, k))
            && (v.status == DOWN <==> !(v.status == PARTIAL))
            && v.statusCode == None
  {
    IncludesIffOccurs(ping.stdout, PingReplyMarker);
  }

  /** Security headers as the HTTPS detector looks for them: case-sensitive
      substrings. */
  ghost predicate HasSecurityHeaders(s: string) {
    && (exists k :: OccursAt(s, "HTTP/", k))
    && exists h, k :: h in SecurityHeaders && OccursAt(s, h, k)
  }

  /** HTTPS is active exactly when curl answered and either its output shows the
      security headers, or the first status line reads a code of at least 200. */
  lemma HttpsActiveIff(curl: ProbeOutput)
    ensures CheckHttpsStatus(curl) <==>
      && !curl.failed
      && (HasSecurityHeaders(curl.stdout) || exists i: nat, n: nat :: n >= 200 && FirstCapture(curl.stdout, i, n))
  {
    var s := curl.stdout;
    IncludesIffOccurs(s, "HTTP/");
    IncludesIffOccurs(s, SecurityHeaders[0]);
    IncludesIffOccurs(s, SecurityHeaders[1]);
    IncludesIffOccurs(s, SecurityHeaders[2]);
    var code := FindStatusCode(s);
    if code.Some? {
      var i := FoundIsFirstCapture(s);
    }
    forall i: nat, n: nat | FirstCapture(s, i, n) ensures code == Some(n) {
      FirstCaptureFound(s, i, n);
    }
  }

  /** Both checks read the same curl output the same way: when the verdict is UP
      on a parsed status line (no note), the HTTPS detector reports active. */
  lemma UpFromStatusLineMeansHttps(curl: ProbeOutput, ping: ProbeOutput)
    requires CheckWebsiteStatus(curl, ping).status == UP && CheckWebsiteStatus(curl, ping).note == None
    ensures CheckHttpsStatus(curl)
  {
  }
}
