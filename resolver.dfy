/** `get_ip_info` and `get_ip_info_fallback`: query the primary provider,
    classify its answer, and escalate to the fallback provider, whose answer is
    renamed into the primary provider's field names. */
module Resolver {
  import opened Python
  import opened Text
  import opened Providers

  /** The record built from a fallback answer. A field the fallback did not
      send is `Null` (Python's `None`). */
  datatype GeoRecord = GeoRecord(
    ip: Value,
    city: Value,
    region: Value,
    country: Value,
    countryName: Value,
    latitude: Value,
    longitude: Value,
    timezone: Value,
    org: Value,
    asn: Value,
    postal: Value)
  {
    /** The record as the dict the source builds. */
    function AsDict(): (d: Dict)
      ensures d.Keys == CanonicalKeys
      ensures "ip" in d && d["ip"] == ip && "asn" in d && d["asn"] == asn
    {
      map[
        "ip" := ip,
        "city" := city,
        "region" := region,
        "country" := country,
        "country_name" := countryName,
        "latitude" := latitude,
        "longitude" := longitude,
        "timezone" := timezone,
        "org" := org,
        "asn" := asn,
        "postal" := postal
      ]
    }
  }

  /** The keys of a record built from a fallback answer. */
  const CanonicalKeys: set<string> :=
    {"ip", "city", "region", "country", "country_name", "latitude", "longitude",
     "timezone", "org", "asn", "postal"}

  /** The fields copied verbatim from a fallback answer: (record key, fallback key). */
  const CopiedFields: seq<(string, string)> := [
    ("city", "city"),
    ("region", "regionName"),
    ("country", "countryCode"),
    ("country_name", "country"),
    ("latitude", "lat"),
    ("longitude", "lon"),
    ("timezone", "timezone"),
    ("org", "isp"),
    ("postal", "zip")
  ]

  /** Does an error reason name a rate limit? */
  predicate IsRateLimitReason(reason: string)
  {
    Contains(Lower(reason), "rate") || Contains(Lower(reason), "limit")
  }

  /** A reason counts as a rate limit exactly when "rate" or "limit" occurs in it,
      in any mix of upper and lower case. */
  lemma RateLimitReasonIgnoresCase(reason: string)
    ensures IsRateLimitReason(reason) <==>
      || (exists i: nat :: i <= |reason| && OccursIgnoringCaseAt(reason, "rate", i))
      || (exists i: nat :: i <= |reason| && OccursIgnoringCaseAt(reason, "limit", i))
  {
    assert Lower("rate") == "rate";
    assert Lower("limit") == "limit";
    LowerContainsIffIgnoringCase(reason, "rate");
    LowerContainsIffIgnoringCase(reason, "limit");
  }

  /** The `asn` field of a record built from a fallback answer: the first word
      of `as` when `as` is truthy, `None` otherwise. */
  function AsnOf(data: Dict): Completion<Value>
  {
    var asField := Get(data, "as", Null);
    if !Truthy(asField) then
      Normal(Null)
    else if !asField.Str? then
      Raised(AttributeError)  // `split` called on a number, list, dict or `True`
    else
      var words := Split(asField.s);
      if words == [] then Raised(IndexError) else Normal(Str(words[0]))
  }

  /** `get_ip_info_fallback(ip)`, given the fallback provider's response for `ip`. */
  function GetIpInfoFallback(ip: string, response: Response): (r: Completion<Option<GeoRecord>>)
    ensures r == Normal(None) <==>
      response.TransportFailure? || Get(response.data, "status", Null) != Str("success")
    ensures r.Raised? <==>
      && response.Body?
      && Get(response.data, "status", Null) == Str("success")
      && var asField := Get(response.data, "as", Null);
         Truthy(asField) && (!asField.Str? || AllSpace(asField.s))
    ensures r == Raised(IndexError) ==> Get(response.data, "as", Null).Str?
  {
    match response
    case TransportFailure => Normal(None)
    case Body(data) =>
      if Get(data, "status", Null) != Str("success") then
        Normal(None)
      else
        match AsnOf(data)
        case Raised(e) => Raised(e)
        case Normal(asn) =>
          Normal(Some(GeoRecord(
            ip := Get(data, "query", Str(ip)),
            city := Get(data, "city", Null),
            region := Get(data, "regionName", Null),
            country := Get(data, "countryCode", Null),
            countryName := Get(data, "country", Null),
            latitude := Get(data, "lat", Null),
            longitude := Get(data, "lon", Null),
            timezone := Get(data, "timezone", Null),
            org := Get(data, "isp", Null),
            asn := asn,
            postal := Get(data, "zip", Null))))
  }

  /** A record built from a fallback answer has exactly the canonical keys, and
      each value comes from the answer: the copied fields verbatim (or `None`),
      and `ip` from `query` or else the requested address. */
  lemma FallbackRecordTraceable(ip: string, data: Dict)
    requires GetIpInfoFallback(ip, Body(data)).Normal?
    requires GetIpInfoFallback(ip, Body(data)).value.Some?
    ensures var d := GetIpInfoFallback(ip, Body(data)).value.value.AsDict();
      && d.Keys == CanonicalKeys
      && (forall p :: p in CopiedFields ==> d[p.0] == Get(data, p.1, Null))
      && d["ip"] == (if "query" in data then data["query"] else Str(ip))
  {
    var d := GetIpInfoFallback(ip, Body(data)).value.value.AsDict();
    forall k | 0 <= k < |CopiedFields|
      ensures d[CopiedFields[k].0] == Get(data, CopiedFields[k].1, Null)
    {
    }
  }

  /** The `asn` of a record built from a fallback answer is `None` exactly when
      `as` is falsy, and otherwise the first whitespace-delimited word of `as`:
      the non-empty run of non-whitespace characters that starts after the
      leading whitespace and ends at whitespace or at the end of `as`. */
  lemma FallbackAsnIsFirstWord(ip: string, data: Dict)
    requires GetIpInfoFallback(ip, Body(data)).Normal?
    requires GetIpInfoFallback(ip, Body(data)).value.Some?
    ensures var asn := GetIpInfoFallback(ip, Body(data)).value.value.asn;
      && (asn == Null <==> !Truthy(Get(data, "as", Null)))
      && (asn != Null ==>
            && "as" in data && data["as"].Str? && asn.Str?
            && var asText, word := data["as"].s, asn.s;
               var i := LeadingSpace(asText);
               && AllSpace(asText[..i])
               && word != [] && NoSpace(word)
               && OccursAt(asText, word, i)
               && (i + |word| < |asText| ==> IsSpace(asText[i + |word|])))
  {
  }

  /** The fallback's answer as `get_ip_info` hands it on: the record as a dict. */
  function FallbackResult(ip: string, fallback: Provider): (r: Completion<Option<Dict>>)
    ensures r.Normal? && r.value.Some? ==> r.value.value.Keys == CanonicalKeys
  {
    match GetIpInfoFallback(ip, fallback(ip))
    case Raised(e) => Raised(e)
    case Normal(None) => Normal(None)
    case Normal(Some(rec)) => Normal(Some(rec.AsDict()))
  }

  /** The reason the primary provider gives with an error: `reason`, defaulting
      to "Unknown error". */
  function ErrorReason(data: Dict): Value
  {
    Get(data, "reason", Str("Unknown error"))
  }

  /** `get_ip_info(ip)` with the two providers, and the requests it issues. */
  function GetIpInfo(ip: Option<string>, primary: Provider, fallback: Provider): (r: Traced<Completion<Option<Dict>>>)
    ensures !SomeText(ip) ==> r == Traced(Normal(None), [])
    ensures SomeText(ip) ==>
      r.queries == [Primary(ip.value)] || r.queries == [Primary(ip.value), Fallback(ip.value)]
    ensures SomeText(ip) && Fallback(ip.value) in r.queries ==> r.value == FallbackResult(ip.value, fallback)
    ensures r.value.Normal? && r.value.value.Some? ==> "ip" in r.value.value.value
  {
    if !SomeText(ip) then
      Traced(Normal(None), [])
    else
      var a := ip.value;
      var escalate := Traced(FallbackResult(a, fallback), [Primary(a), Fallback(a)]);
      match primary(a)
      case TransportFailure => escalate
      case Body(data) =>
        if "error" in data then
          var reason := ErrorReason(data);
          if !reason.Str? then
            Traced(Raised(AttributeError), [Primary(a)])  // `lower` called on a non-string
          else if IsRateLimitReason(reason.s) then
            escalate
          else
            Traced(Normal(None), [Primary(a)])
        else if "ip" in data then
          Traced(Normal(Some(data)), [Primary(a)])
        else
          escalate
  }

  /** Every record `get_ip_info` returns is a non-empty dict, so the callers'
      truthiness tests (`if info_data`, `if not info_data`) tell exactly whether
      a record was returned. */
  lemma RecordsAreTruthy(ip: Option<string>, primary: Provider, fallback: Provider)
    requires GetIpInfo(ip, primary, fallback).value.Normal?
    ensures var info := GetIpInfo(ip, primary, fallback).value.value;
      SomeEntries(info) <==> info.Some?
  {
  }

  /** The primary outcomes that send `get_ip_info` on to the fallback provider:
      a transport failure, an error whose reason names a rate limit, or a body
      that has neither an error nor an address. */
  predicate Escalates(response: Response)
  {
    || response.TransportFailure?
    || ("error" in response.data && ErrorReason(response.data).Str? && IsRateLimitReason(ErrorReason(response.data).s))
    || ("error" !in response.data && "ip" !in response.data)
  }

  /** The fallback provider is consulted, once, exactly when the primary outcome
      escalates; it is never consulted for an empty address. */
  lemma FallbackConsultedIffEscalates(ip: Option<string>, primary: Provider, fallback: Provider)
    ensures var r := GetIpInfo(ip, primary, fallback);
      (exists a :: Fallback(a) in r.queries) <==> SomeText(ip) && Escalates(primary(ip.value))
  {
  }

  /** A primary error whose reason does not name a rate limit is final: no
      record, and the fallback provider is not asked. */
  lemma TerminalErrorSkipsFallback(a: string, primary: Provider, fallback: Provider)
    requires a != ""
    requires primary(a).Body? && "error" in primary(a).data
    requires ErrorReason(primary(a).data).Str? && !IsRateLimitReason(ErrorReason(primary(a).data).s)
    ensures GetIpInfo(Some(a), primary, fallback) == Traced(Normal(None), [Primary(a)])
  {
  }

  /** A primary error whose reason names a rate limit yields exactly what the
      fallback provider yields, after one query to each provider. */
  lemma RateLimitDefersToFallback(a: string, primary: Provider, fallback: Provider)
    requires a != ""
    requires primary(a).Body? && "error" in primary(a).data
    requires ErrorReason(primary(a).data).Str? && IsRateLimitReason(ErrorReason(primary(a).data).s)
    ensures GetIpInfo(Some(a), primary, fallback) ==
      Traced(FallbackResult(a, fallback), [Primary(a), Fallback(a)])
  {
  }

  /** An error indicator is looked at before the address: a body with both is
      decided by its reason alone, and a reason that is not a string raises. */
  lemma ErrorDecidedBeforeAddress(a: string, primary: Provider, fallback: Provider)
    requires a != ""
    requires primary(a).Body? && "error" in primary(a).data
    ensures var r := GetIpInfo(Some(a), primary, fallback);
      && r.value != Normal(Some(primary(a).data))
      && (!ErrorReason(primary(a).data).Str? ==> r == Traced(Raised(AttributeError), [Primary(a)]))
  {
  }

  /** A primary body with an address and no error is the result, unchanged,
      and the fallback provider is not asked. */
  lemma AddressBodyReturnedUnchanged(a: string, primary: Provider, fallback: Provider)
    requires a != ""
    requires primary(a).Body? && "error" !in primary(a).data && "ip" in primary(a).data
    ensures GetIpInfo(Some(a), primary, fallback) == Traced(Normal(Some(primary(a).data)), [Primary(a)])
  {
  }

  /** A transport failure, or a body with neither an error nor an address,
      leads to one fallback query whose result is returned. */
  lemma InconclusiveDefersToFallback(a: string, primary: Provider, fallback: Provider)
    requires a != ""
    requires primary(a).TransportFailure? || ("error" !in primary(a).data && "ip" !in primary(a).data)
    ensures GetIpInfo(Some(a), primary, fallback) ==
      Traced(FallbackResult(a, fallback), [Primary(a), Fallback(a)])
  {
  }

  /** The fallback tier is the last: when it fails in transport or reports a
      status other than "success", the lookup yields no record. */
  lemma FailedFallbackIsFinal(a: string, primary: Provider, fallback: Provider)
    requires a != "" && Escalates(primary(a))
    requires fallback(a).TransportFailure? || Get(fallback(a).data, "status", Null) != Str("success")
    ensures GetIpInfo(Some(a), primary, fallback) == Traced(Normal(None), [Primary(a), Fallback(a)])
  {
  }
}
