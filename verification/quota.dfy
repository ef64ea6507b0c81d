/** The request-quota governor: the usage header and its two ceilings. */
module Quota {
  import opened Base
  import opened Text
  import opened Errors

  /** Ceilings in percent, as configured on the client. */
  datatype QuotaConfig = QuotaConfig(percentTotal: real, percentPerRun: real)

  /** The client's defaults: 80% of the daily quota overall, 25% per run. */
  const DefaultQuota: QuotaConfig := QuotaConfig(80.0, 25.0)

  const UsagePrefix: string := "api-usage="

  function IndexOf(s: string, c: char): (r: Option<nat>)
    ensures r.Some? ==> r.value < |s| && s[r.value] == c && forall i :: 0 <= i < r.value ==> s[i] != c
    ensures r.None? ==> forall i :: 0 <= i < |s| ==> s[i] != c
  {
    if s == [] then None
    else if s[0] == c then Some(0)
    else match IndexOf(s[1..], c)
      case None => None
      case Some(k) => Some(k + 1)
  }

  /** The match of `^api-usage=(\d+)/(\d+)$` (with Python's `$`, which also
      matches before one final newline), as the pair (used, total). */
  function ParseUsage(header: string): Option<(nat, nat)>
  {
    var body := if |header| > 0 && header[|header| - 1] == '\n' then header[..|header| - 1] else header;
    if |body| < |UsagePrefix| || body[..|UsagePrefix|] != UsagePrefix then None
    else
      var rest := body[|UsagePrefix|..];
      match IndexOf(rest, '/')
      case None => None
      case Some(k) =>
        var used := rest[..k];
        var total := rest[k + 1..];
        if used != [] && total != [] && AllDigits(used) && AllDigits(total)
        then Some((DigitsValue(used), DigitsValue(total)))
        else None
  }

  /** The header the service sends: `api-usage=<used>/<total>`. */
  function UsageHeader(used: nat, total: nat): string
  {
    UsagePrefix + NatToString(used) + "/" + NatToString(total)
  }

  /** The first slash after a run of digits is the one that follows them. */
  lemma SlashAfterDigits(u: string, t: string)
    requires AllDigits(u)
    ensures IndexOf(u + "/" + t, '/') == Some(|u|)
  {
    var rest := u + "/" + t;
    assert forall i :: 0 <= i < |u| ==> rest[i] == u[i];
    assert rest[|u|] == '/';
  }

  /** The parser reads back the numbers of a header without a newline. */
  lemma ParseUsageBody(used: nat, total: nat)
    ensures ParseUsage(UsageHeader(used, total)) == Some((used, total))
  {
    var u := NatToString(used);
    var t := NatToString(total);
    var h := UsageHeader(used, total);
    assert h[|h| - 1] == t[|t| - 1];
    assert h[..|UsagePrefix|] == UsagePrefix;
    var rest := h[|UsagePrefix|..];
    assert rest == u + "/" + t;
    SlashAfterDigits(u, t);
    assert rest[..|u|] == u;
    assert rest[|u| + 1..] == t;
    DigitsValueOfNatToString(used);
    DigitsValueOfNatToString(total);
  }

  /** The parser reads back exactly the numbers the header carries, with or
      without a trailing newline. */
  lemma ParseUsageHeader(used: nat, total: nat)
    ensures ParseUsage(UsageHeader(used, total)) == Some((used, total))
    ensures ParseUsage(UsageHeader(used, total) + "\n") == Some((used, total))
  {
    ParseUsageBody(used, total);
    var h := UsageHeader(used, total);
    var h' := h + "\n";
    assert h'[..|h'| - 1] == h;
  }

  /** `header` matches `^api-usage=(\d+)/(\d+)$` with the digit runs
      `used` and `total`, optionally followed by one newline. */
  predicate MatchesUsage(header: string, used: string, total: string)
  {
    && used != [] && total != [] && AllDigits(used) && AllDigits(total)
    && (header == UsagePrefix + used + "/" + total || header == UsagePrefix + used + "/" + total + "\n")
  }

  /** Every header of the matching shape parses to the values of its two
      digit runs, leading zeros included. */
  lemma ParseUsageComplete(header: string, used: string, total: string)
    requires MatchesUsage(header, used, total)
    ensures ParseUsage(header) == Some((DigitsValue(used), DigitsValue(total)))
  {
    var h := UsagePrefix + used + "/" + total;
    assert h[|h| - 1] == total[|total| - 1];
    if header != h {
      assert header[..|header| - 1] == h;
    }
    assert h[..|UsagePrefix|] == UsagePrefix;
    var rest := h[|UsagePrefix|..];
    assert rest == used + "/" + total;
    SlashAfterDigits(used, total);
    assert rest[..|used|] == used;
    assert rest[|used| + 1..] == total;
  }

  /** Only headers of the matching shape parse: any other header leaves
      the quota unchecked. */
  lemma ParseUsageSound(header: string)
    requires ParseUsage(header).Some?
    ensures exists used, total :: MatchesUsage(header, used, total)
                                  && ParseUsage(header) == Some((DigitsValue(used), DigitsValue(total)))
  {
    var body, used, total := ParseUsageParts(header);
    SplitHeader(header, body, used, total);
  }

  /** The pieces a successful parse has read: the header without its
      newline, and the two digit runs around the slash. */
  lemma ParseUsageParts(header: string) returns (body: string, used: string, total: string)
    requires ParseUsage(header).Some?
    ensures used != [] && total != [] && AllDigits(used) && AllDigits(total)
    ensures body == UsagePrefix + (used + "/" + total)
    ensures body == if |header| > 0 && header[|header| - 1] == '\n' then header[..|header| - 1] else header
    ensures ParseUsage(header) == Some((DigitsValue(used), DigitsValue(total)))
  {
    body := if |header| > 0 && header[|header| - 1] == '\n' then header[..|header| - 1] else header;
    assert |body| >= |UsagePrefix| && body[..|UsagePrefix|] == UsagePrefix;
    var rest := body[|UsagePrefix|..];
    assert body == UsagePrefix + rest;
    var k := IndexOf(rest, '/').value;
    used := rest[..k];
    total := rest[k + 1..];
    SplitAround(rest, k);
  }

  lemma SplitHeader(header: string, body: string, used: string, total: string)
    requires used != [] && total != [] && AllDigits(used) && AllDigits(total)
    requires body == UsagePrefix + (used + "/" + total)
    requires body == if |header| > 0 && header[|header| - 1] == '\n' then header[..|header| - 1] else header
    ensures MatchesUsage(header, used, total)
  {
    if body != header {
      assert header == body + "\n";
    }
  }

  /** Comparing a scaled ratio against a ceiling, without the division. */
  lemma RatioAbove(a: real, t: real, scale: real, ceiling: real)
    requires t > 0.0 && scale > 0.0
    ensures (a / t) * scale > ceiling <==> a * scale > ceiling * t
    ensures a / t > ceiling <==> a > ceiling * t
  {
  }

  /** `_check_rest_quota_usage` after `requests` successful requests in this
      run: the raised error, if any. A missing header makes `re.search`
      fail on `None`; a total of zero divides by zero. */
  function CheckQuota(header: Option<string>, requests: nat, cfg: QuotaConfig): (r: Option<Exc>)
    ensures header.None? ==> r == Some(Python(TypeError))
    ensures header.Some? && ParseUsage(header.value).None? ==> r.None?
    ensures header.Some? && ParseUsage(header.value).Some? ==>
              r == CheckUsage(ParseUsage(header.value).value.0, ParseUsage(header.value).value.1, requests, cfg)
  {
    match header
    case None => Some(Python(TypeError))
    case Some(h) =>
      match ParseUsage(h)
      case None => None
      case Some((used, total)) => CheckUsage(used, total, requests, cfg)
  }

  /** The two ceilings against a parsed header. */
  function CheckUsage(used: nat, total: nat, requests: nat, cfg: QuotaConfig): (r: Option<Exc>)
    ensures total == 0 <==> r == Some(Python(ZeroDivisionError))
    ensures r.Some? ==> r.value in {Python(ZeroDivisionError), QuotaExceeded(DailyTotal), QuotaExceeded(PerRun)}
  {
    if total == 0 then Some(Python(ZeroDivisionError))
    else
      var usedPercent := (used as real / total as real) * 100.0;
      if usedPercent > cfg.percentTotal then Some(QuotaExceeded(DailyTotal))
      else
        var requestsCountPercent := requests as real / total as real;
        if requestsCountPercent > cfg.percentPerRun then Some(QuotaExceeded(PerRun))
        else None
  }

  /** With a non-zero total, the daily ceiling is checked first (`used` in
      percent of `total` against `percentTotal`), then the per-run one
      (`requests` as a fraction of `total` against `percentPerRun`); a
      request is allowed exactly when neither fires. */
  lemma CheckUsageCeilings(used: nat, total: nat, requests: nat, cfg: QuotaConfig)
    requires total > 0
    ensures var r := CheckUsage(used, total, requests, cfg);
            && (r == Some(QuotaExceeded(DailyTotal)) <==> used as real * 100.0 > cfg.percentTotal * total as real)
            && (r == Some(QuotaExceeded(PerRun)) <==>
                  used as real * 100.0 <= cfg.percentTotal * total as real
                  && requests as real > cfg.percentPerRun * total as real)
            && (r.None? <==>
                  used as real * 100.0 <= cfg.percentTotal * total as real
                  && requests as real <= cfg.percentPerRun * total as real)
  {
    RatioAbove(used as real, total as real, 100.0, cfg.percentTotal);
    RatioAbove(requests as real, total as real, 1.0, cfg.percentPerRun);
  }

  /** A usage of 85% against the default 80% ceiling is vetoed. */
  lemma QuotaVetoAt85Percent(requests: nat)
    ensures CheckQuota(Some(UsageHeader(85, 100)), requests, DefaultQuota) == Some(QuotaExceeded(DailyTotal))
  {
    ParseUsageHeader(85, 100);
    CheckUsageCeilings(85, 100, requests, DefaultQuota);
  }

  /** The per-run ceiling compares the run's requests as a FRACTION of the
      total against a value in percent: with the defaults it fires only once
      a single run has made more than 25 times the daily total. */
  lemma PerRunCeilingIsAFraction(used: nat, total: nat, requests: nat)
    requires 0 < total && used * 100 <= 80 * total
    ensures CheckQuota(Some(UsageHeader(used, total)), requests, DefaultQuota) == Some(QuotaExceeded(PerRun))
        <==> requests > 25 * total
  {
    ParseUsageHeader(used, total);
    CheckUsageCeilings(used, total, requests, DefaultQuota);
  }
}
