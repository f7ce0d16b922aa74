/** End-to-end runs of the resolver on concrete provider answers. */
module Scenarios {
  import opened Python
  import opened Text
  import opened Providers
  import opened Resolver
  import opened Orchestrator

  /** The fallback provider's answer for 8.8.8.8. */
  const GoogleFallbackAnswer: Dict := map[
    "status" := Str("success"),
    "query" := Str("8.8.8.8"),
    "city" := Str("Mountain View"),
    "regionName" := Str("California"),
    "countryCode" := Str("US"),
    "country" := Str("United States"),
    "lat" := Number(37.4),
    "lon" := Number(-122.1),
    "timezone" := Str("America/Los_Angeles"),
    "isp" := Str("Google LLC"),
    "as" := Str("AS15169 Google LLC"),
    "zip" := Str("94043")
  ]

  /** The record the resolver builds from that answer. */
  const GoogleRecord: Dict := map[
    "ip" := Str("8.8.8.8"),
    "city" := Str("Mountain View"),
    "region" := Str("California"),
    "country" := Str("US"),
    "country_name" := Str("United States"),
    "latitude" := Number(37.4),
    "longitude" := Number(-122.1),
    "timezone" := Str("America/Los_Angeles"),
    "org" := Str("Google LLC"),
    "asn" := Str("AS15169"),
    "postal" := Str("94043")
  ]

  /** A primary answer that carries an address is the result as it stands. */
  lemma PrimaryAnswerPassesThrough(primary: Provider, fallback: Provider)
    requires primary("8.8.8.8") == Body(map["ip" := Str("8.8.8.8"), "city" := Str("Mountain View")])
    ensures GetIpInfo(Some("8.8.8.8"), primary, fallback) ==
      Traced(Normal(Some(map["ip" := Str("8.8.8.8"), "city" := Str("Mountain View")])), [Primary("8.8.8.8")])
  {
  }

  /** "AS15169 Google LLC" yields the autonomous-system number alone. */
  lemma GoogleAsnIsFirstWord()
    ensures AsnOf(GoogleFallbackAnswer) == Normal(Str("AS15169"))
  {
    assert Get(GoogleFallbackAnswer, "as", Null) == Str("AS15169" + " Google LLC");
    SplitStartsWithWord("AS15169", " Google LLC");
  }

  /** The typed record the fallback answer for 8.8.8.8 is expected to become. */
  const GoogleGeoRecord := GeoRecord(
    ip := Str("8.8.8.8"),
    city := Str("Mountain View"),
    region := Str("California"),
    country := Str("US"),
    countryName := Str("United States"),
    latitude := Number(37.4),
    longitude := Number(-122.1),
    timezone := Str("America/Los_Angeles"),
    org := Str("Google LLC"),
    asn := Str("AS15169"),
    postal := Str("94043"))

  /** The location fields of the fallback answer for 8.8.8.8. */
  lemma GoogleLocationFields()
    ensures var data, rec := GoogleFallbackAnswer, GoogleGeoRecord;
      && Get(data, "city", Null) == rec.city
      && Get(data, "regionName", Null) == rec.region
      && Get(data, "countryCode", Null) == rec.country
      && Get(data, "country", Null) == rec.countryName
      && Get(data, "lat", Null) == rec.latitude
      && Get(data, "lon", Null) == rec.longitude
  {
  }

  /** The other fields of the fallback answer for 8.8.8.8. */
  lemma GoogleNetworkFields()
    ensures var data, rec := GoogleFallbackAnswer, GoogleGeoRecord;
      && Get(data, "status", Null) == Str("success")
      && Get(data, "query", Str("8.8.8.8")) == rec.ip
      && Get(data, "timezone", Null) == rec.timezone
      && Get(data, "isp", Null) == rec.org
      && Get(data, "zip", Null) == rec.postal
  {
  }

  /** Normalising the fallback answer for 8.8.8.8 gives the expected record. */
  lemma GoogleAnswerNormalised()
    ensures GetIpInfoFallback("8.8.8.8", Body(GoogleFallbackAnswer)) == Normal(Some(GoogleGeoRecord))
  {
    GoogleAsnIsFirstWord();
    GoogleLocationFields();
    GoogleNetworkFields();
  }

  /** The fallback answer for 8.8.8.8 becomes the expected dict. */
  lemma GoogleFallbackAnswerMapped(fallback: Provider)
    requires fallback("8.8.8.8") == Body(GoogleFallbackAnswer)
    ensures FallbackResult("8.8.8.8", fallback) == Normal(Some(GoogleRecord))
  {
    GoogleAnswerNormalised();
    assert GoogleGeoRecord.AsDict() == GoogleRecord;
  }

  /** A rate-limited primary hands over to the fallback, whose answer is renamed
      into the primary's field names, with `as` cut to its first word. */
  lemma RateLimitedPrimaryUsesFallbackRecord(primary: Provider, fallback: Provider)
    requires primary("8.8.8.8") == Body(map["error" := Str("true"), "reason" := Str("Rate limit exceeded")])
    requires fallback("8.8.8.8") == Body(GoogleFallbackAnswer)
    ensures GetIpInfo(Some("8.8.8.8"), primary, fallback) ==
      Traced(Normal(Some(GoogleRecord)), [Primary("8.8.8.8"), Fallback("8.8.8.8")])
  {
    assert Lower("Rate limit exceeded")[..4] == "rate";
    assert IsRateLimitReason("Rate limit exceeded");
    RateLimitDefersToFallback("8.8.8.8", primary, fallback);
    GoogleFallbackAnswerMapped(fallback);
  }

  /** An invalid-address error ends the lookup without asking the fallback. */
  lemma InvalidAddressErrorIsFinal(primary: Provider, fallback: Provider)
    requires primary("999.999.999.999") == Body(map["error" := Bool(true), "reason" := Str("Invalid IP Address")])
    ensures GetIpInfo(Some("999.999.999.999"), primary, fallback) ==
      Traced(Normal(None), [Primary("999.999.999.999")])
  {
    var lowered := Lower("Invalid IP Address");
    assert lowered == "invalid ip address";
    MissingLetterExcludes(lowered, "rate", 't');
    MissingLetterExcludes(lowered, "limit", 't');
    TerminalErrorSkipsFallback("999.999.999.999", primary, fallback);
  }

  /** With both providers unreachable, an explicit lookup completes without a
      record, which the window reports as a failed lookup. */
  lemma UnreachableProvidersFailLookup(entry: string, primary: Provider, fallback: Provider)
    requires Strip(entry) == "8.8.8.8"
    requires primary("8.8.8.8") == TransportFailure && fallback("8.8.8.8") == TransportFailure
    ensures LookupIp(entry, primary, fallback) ==
      Traced(LookupComplete(Some("8.8.8.8"), None, None, "8.8.8.8"), [Primary("8.8.8.8"), Fallback("8.8.8.8")])
    ensures LookupFailed(LookupIp(entry, primary, fallback).value)
  {
  }

  /** Auto-detection where only the IPv6 echo answers resolves the IPv6 address. */
  method DetectIpv6Only(v6: string, primary: Provider, fallback: Provider) returns (report: AutoDetectReport)
    requires v6 != "" && primary(v6).Body? && "error" !in primary(v6).data && "ip" in primary(v6).data
    ensures report == AutoDetectComplete(None, Some(v6), Some(primary(v6).data))
    ensures !AutoDetectFailed(report)
  {
    ghost var attempts, queries;
    report, attempts, queries := GetMyIpThread(None, Some(v6), primary, fallback);
    AddressBodyReturnedUnchanged(v6, primary, fallback);
    assert attempts == [v6];
  }
}
