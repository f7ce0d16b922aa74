/** The two ways the desktop window starts a resolution: looking up an address
    typed by the user (`lookup_ip` and `_lookup_ip_thread`), and detecting the
    caller's own addresses (`_get_my_ip_thread`). Each ends in the report that
    the window's completion or error callback receives. */
module Orchestrator {
  import opened Python
  import opened Text
  import opened Providers
  import opened Resolver

  /** How an explicit lookup ends. */
  datatype LookupReport =
    | EmptyEntry  // the warning shown for an entry with nothing but whitespace
    | LookupComplete(ipv4: Option<string>, ipv6: Option<string>, info: Option<Dict>, lookupIp: string)
    | LookupError(exc: PyException)

  /** The window reports "Lookup failed" for a completed lookup without a record. */
  predicate LookupFailed(report: LookupReport)
  {
    report.LookupComplete? && !SomeEntries(report.info)
  }

  /** `_lookup_ip_thread(ip)`: classify the address by the presence of a colon
      and resolve it once, as typed. */
  function LookupIpThread(ip: string, primary: Provider, fallback: Provider): (r: Traced<LookupReport>)
    ensures r.queries == GetIpInfo(Some(ip), primary, fallback).queries
    ensures r.value.LookupError? <==> GetIpInfo(Some(ip), primary, fallback).value.Raised?
    ensures r.value.LookupComplete? ==>
      && r.value.lookupIp == ip
      && (r.value.ipv4 == Some(ip) <==> ':' !in ip)
      && (r.value.ipv6 == Some(ip) <==> ':' in ip)
      && (r.value.ipv4.None? <==> r.value.ipv6.Some?)
      && Normal(r.value.info) == GetIpInfo(Some(ip), primary, fallback).value
  {
    var lookupIpv4 := if ':' !in ip then Some(ip) else None;
    var lookupIpv6 := if ':' in ip then Some(ip) else None;
    var info := GetIpInfo(Some(ip), primary, fallback);
    match info.value
    case Raised(e) => Traced(LookupError(e), info.queries)
    case Normal(data) => Traced(LookupComplete(lookupIpv4, lookupIpv6, data, ip), info.queries)
  }

  /** `lookup_ip` from the moment the entry is read: strip it, warn when
      nothing is left, and otherwise look the stripped address up. */
  function LookupIp(entry: string, primary: Provider, fallback: Provider): (r: Traced<LookupReport>)
    ensures r.value.EmptyEntry? <==> AllSpace(entry)
    ensures AllSpace(entry) ==> r.queries == []
    ensures !AllSpace(entry) ==> r == LookupIpThread(Strip(entry), primary, fallback)
  {
    StripIsTrimmedInfix(entry);
    var ip := Strip(entry);
    if ip == "" then Traced(EmptyEntry, []) else LookupIpThread(ip, primary, fallback)
  }

  /** An explicit lookup of a non-blank entry resolves the stripped entry, which
      has no surrounding whitespace, queries the primary provider first, and
      fails exactly when resolution returned no record. */
  lemma LookupResolvesStrippedEntry(entry: string, primary: Provider, fallback: Provider)
    requires !AllSpace(entry)
    ensures var ip, r := Strip(entry), LookupIp(entry, primary, fallback);
      && ip != "" && !IsSpace(ip[0]) && !IsSpace(ip[|ip| - 1])
      && r.queries != [] && r.queries[0] == Primary(ip)
      && (LookupFailed(r.value) <==> GetIpInfo(Some(ip), primary, fallback).value == Normal(None))
  {
  }

  /** How auto-detection ends. */
  datatype AutoDetectReport =
    | AutoDetectComplete(ipv4: Option<string>, ipv6: Option<string>, info: Option<Dict>)
    | AutoDetectError(exc: PyException)

  /** The window reports "IP detection failed" for a completed detection without a record. */
  predicate AutoDetectFailed(report: AutoDetectReport)
  {
    report.AutoDetectComplete? && !SomeEntries(report.info)
  }

  /** The requests issued by resolving each address in turn. */
  function ResolutionQueries(addresses: seq<string>, primary: Provider, fallback: Provider): seq<Query>
  {
    if addresses == [] then []
    else GetIpInfo(Some(addresses[0]), primary, fallback).queries + ResolutionQueries(addresses[1..], primary, fallback)
  }

  /** Resolving one more address appends that resolution's requests to the log. */
  lemma {:induction false} ResolutionQueriesAppend(addresses: seq<string>, last: string, primary: Provider, fallback: Provider)
    ensures ResolutionQueries(addresses + [last], primary, fallback) ==
      ResolutionQueries(addresses, primary, fallback) + GetIpInfo(Some(last), primary, fallback).queries
  {
    if addresses != [] {
      assert (addresses + [last])[1..] == addresses[1..] + [last];
      ResolutionQueriesAppend(addresses[1..], last, primary, fallback);
    }
  }

  /** Each address resolved costs one or two provider requests. */
  lemma {:induction false} ResolutionQueriesBounded(addresses: seq<string>, primary: Provider, fallback: Provider)
    requires forall k :: 0 <= k < |addresses| ==> addresses[k] != ""
    ensures |addresses| <= |ResolutionQueries(addresses, primary, fallback)| <= 2 * |addresses|
  {
    if addresses != [] {
      ResolutionQueriesBounded(addresses[1..], primary, fallback);
    }
  }

  /** Auto-detection issues the two echo requests and then at most four provider
      requests: two resolutions of at most two requests each. */
  lemma DetectionQueriesBounded(echo4: Option<string>, echo6: Option<string>, primary: Provider, fallback: Provider)
    ensures var plan := DetectionPlan(echo4, echo6, primary, fallback);
      |ResolutionQueries(plan, primary, fallback)| <= 4
  {
    ResolutionQueriesBounded(DetectionPlan(echo4, echo6, primary, fallback), primary, fallback);
  }

  /** The addresses auto-detection resolves, in order: the IPv4 address when
      there is one, then the IPv6 address when there is one and the IPv4
      resolution neither produced a record nor raised. */
  function DetectionPlan(ipv4: Option<string>, ipv6: Option<string>, primary: Provider, fallback: Provider): (plan: seq<string>)
    ensures |plan| <= 2
    ensures forall k :: 0 <= k < |plan| ==> plan[k] != ""
    ensures SomeText(ipv4) ==> plan != [] && plan[0] == ipv4.value
    ensures |plan| == 2 ==>
      SomeText(ipv4) && SomeText(ipv6) && GetIpInfo(ipv4, primary, fallback).value == Normal(None)
    ensures SomeText(ipv6) && (!SomeText(ipv4) || GetIpInfo(ipv4, primary, fallback).value == Normal(None)) ==>
      plan != [] && plan[|plan| - 1] == ipv6.value
    ensures plan == [] <==> !SomeText(ipv4) && !SomeText(ipv6)
  {
    var first := if SomeText(ipv4) then [ipv4.value] else [];
    var ipv4Settled := SomeText(ipv4) && GetIpInfo(ipv4, primary, fallback).value != Normal(None);
    first + (if SomeText(ipv6) && !ipv4Settled then [ipv6.value] else [])
  }

  /** `_get_my_ip_thread`, given the addresses the two echo requests returned.
      `attempts` logs the addresses handed to `get_ip_info` and `queries` every
      request issued, in order. */
  method GetMyIpThread(echo4: Option<string>, echo6: Option<string>, primary: Provider, fallback: Provider)
    returns (report: AutoDetectReport, ghost attempts: seq<string>, ghost queries: seq<Query>)
    ensures attempts == DetectionPlan(echo4, echo6, primary, fallback)
    ensures queries == [Echo(IPv4), Echo(IPv6)] + ResolutionQueries(attempts, primary, fallback)
    ensures report.AutoDetectError? <==>
      exists k :: 0 <= k < |attempts| && GetIpInfo(Some(attempts[k]), primary, fallback).value.Raised?
    ensures report.AutoDetectError? ==>
      GetIpInfo(Some(attempts[|attempts| - 1]), primary, fallback).value == Raised(report.exc)
    ensures report.AutoDetectComplete? ==> report.ipv4 == echo4 && report.ipv6 == echo6
    ensures report.AutoDetectComplete? ==>
      (AutoDetectFailed(report) <==>
        forall k :: 0 <= k < |attempts| ==> GetIpInfo(Some(attempts[k]), primary, fallback).value == Normal(None))
    ensures report.AutoDetectComplete? && report.info.Some? ==>
      attempts != [] &&
      Normal(report.info) == GetIpInfo(Some(attempts[|attempts| - 1]), primary, fallback).value
  {
    queries := [Echo(IPv4)];
    var ipv4 := echo4;
    queries := queries + [Echo(IPv6)];
    var ipv6 := echo6;
    attempts := [];

    var infoData: Option<Dict> := None;
    if SomeText(ipv4) {
      var resolved := GetIpInfo(ipv4, primary, fallback);
      ResolutionQueriesAppend(attempts, ipv4.value, primary, fallback);
      attempts := attempts + [ipv4.value];
      queries := queries + resolved.queries;
      if resolved.value.Raised? {
        report := AutoDetectError(resolved.value.exc);
        return;
      }
      infoData := resolved.value.value;
    }
    if !SomeEntries(infoData) && SomeText(ipv6) {
      var resolved := GetIpInfo(ipv6, primary, fallback);
      ResolutionQueriesAppend(attempts, ipv6.value, primary, fallback);
      attempts := attempts + [ipv6.value];
      queries := queries + resolved.queries;
      if resolved.value.Raised? {
        report := AutoDetectError(resolved.value.exc);
        return;
      }
      infoData := resolved.value.value;
    }
    report := AutoDetectComplete(ipv4, ipv6, infoData);
  }
}
