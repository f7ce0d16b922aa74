/** The HTTP services the resolver talks to, reduced to what a call can end in.
    Every call that raises a `requests` exception (no connection, timeout,
    non-2xx status, a body that is not JSON) is a `TransportFailure`; a call
    that completes delivers the decoded JSON object. */
module Providers {
  import opened Python

  /** The address family an echo service reports. */
  datatype Family = IPv4 | IPv6

  /** One outbound request, as it appears in a query log. */
  datatype Query =
    | Echo(family: Family)       // the public-address echo service
    | Primary(address: string)   // the primary geolocation provider
    | Fallback(address: string)  // the fallback geolocation provider

  /** What one request to a geolocation provider comes back with. */
  datatype Response = TransportFailure | Body(data: Dict)

  /** A geolocation provider: the response it gives for an address. */
  type Provider = string -> Response

  /** A result together with the requests issued to compute it, in order. */
  datatype Traced<+T> = Traced(value: T, queries: seq<Query>)
}
