# IP location finder: the resolution engine

This project models the geolocation resolution engine of the IP location finder's
desktop window (`ip_info_gui.py`) in Dafny and proves properties of it:

- **`get_ip_info`** asks the primary provider (ipapi.co) about an address. It
  classifies the answer and escalates to the fallback provider (ip-api.com) on a
  transport failure, on an error whose reason mentions "rate" or "limit" in any
  case, or on an answer that carries neither an error nor an address. Any other
  provider error is final.
- **`get_ip_info_fallback`** turns a successful fallback answer into a record with
  the primary provider's field names. `ip` defaults to the requested address, and
  `asn` is the first whitespace-delimited word of `as`.
- **Explicit lookup** (`lookup_ip`, `_lookup_ip_thread`) strips the typed entry,
  warns when nothing is left, classifies the address as IPv6 when it holds a colon
  and as IPv4 otherwise, and resolves it once, as typed.
- **Auto-detection** (`_get_my_ip_thread`) takes both echoed addresses. It resolves
  the IPv4 address first. It resolves the IPv6 address only when the IPv4 one was
  absent or produced no record.

Each HTTP exchange is an abstract outcome (`Providers.Response`): either
`TransportFailure`, meaning one of the `requests` exceptions (no connection, a
timeout, a non-2xx status, or a body that is not JSON), or `Body(dict)`. A provider
is a function from an address to its outcome. Every resolution function returns
`Traced(value, queries)`, the result together with the log of requests issued, so
the properties say which provider is asked, how often, and in what order.
Auto-detection is a method that reassigns its local `info_data` as the source does.
It keeps ghost logs of the addresses resolved and of the requests issued.

Two Python exceptions escape the engine. A non-string `reason` raises
`AttributeError` at ip_info_gui.py:36. A truthy `as` raises at ip_info_gui.py:69
when it is all whitespace (`IndexError`) or not a string (`AttributeError`). These
are modelled as `Completion.Raised`, and the two orchestrators turn them into the
error report that `_lookup_error` or `_my_ip_error` receives. They are not
preconditions and are not repaired.

Where the design description and the code disagree, the model follows the code:

- The design says a record's `ip` always equals the address resolved. In the code,
  the primary's body is returned as it stands, and the fallback's `query` is taken
  when present. Only a fallback answer without `query` gets the requested address.
- The design says an explicit lookup either yields a record or sets a failure flag.
  In the code, an exception raised during resolution reaches `_lookup_error`
  instead. The model keeps that as `LookupError`.

Files: `python.dfy` (JSON values, truthiness, exceptions), `text.dfy` (`str.strip`,
`str.split`, `str.lower`, `in`), `providers.dfy` (responses and the request log),
`resolver.dfy` (`get_ip_info`, `get_ip_info_fallback`), `orchestrator.dfy` (explicit
lookup and auto-detection), and `scenarios.dfy` (concrete end-to-end runs).

## Model

| member | source | states |
|---|---|---|
| `Resolver.GetIpInfo` | ip_info_gui.py:20-47 | An empty or missing address returns `None` and issues no request. Otherwise the primary is asked exactly once and first, and the fallback at most once, after it. When the fallback is asked, its result is the result. Every record returned has an `ip` key. |
| `Resolver.FallbackConsultedIffEscalates` | ip_info_gui.py:32-47 | The fallback is queried exactly when the address is non-empty and the primary outcome escalates: a transport failure, a rate-limit error, or a body with neither `error` nor `ip`. It is never queried pre-emptively. |
| `Resolver.TerminalErrorSkipsFallback` | ip_info_gui.py:32-38 | An `error` body whose reason does not mention "rate" or "limit" gives `None` after the single primary query. |
| `Resolver.RateLimitDefersToFallback` | ip_info_gui.py:36-37 | An `error` body whose reason mentions "rate" or "limit" gives exactly the fallback's result, after one query to each provider. |
| `Resolver.ErrorDecidedBeforeAddress` | ip_info_gui.py:32-42 | A body with an `error` key is never returned, even when it also has `ip`. A non-string reason raises `AttributeError` after the primary query alone. |
| `Resolver.AddressBodyReturnedUnchanged` | ip_info_gui.py:41-42 | A body with `ip` and no `error` is returned unchanged, and the fallback is not asked. |
| `Resolver.InconclusiveDefersToFallback` | ip_info_gui.py:43-47 | A transport failure, or a body with neither `error` nor `ip`, leads to one fallback query whose result is returned. |
| `Resolver.FailedFallbackIsFinal` | ip_info_gui.py:74-79 | After escalation, a fallback transport failure or a status other than "success" gives `None`. There is no further tier. |
| `Resolver.RecordsAreTruthy` | ip_info_gui.py:445-448 | Every record returned is a non-empty dict, so `if not info_data` holds exactly when no record came back. |
| `Resolver.RateLimitReasonIgnoresCase` | ip_info_gui.py:36 | The test `"rate" in reason.lower() or "limit" in reason.lower()` holds exactly when "rate" or "limit" occurs in the reason in any letter case. |
| `Resolver.GetIpInfoFallback` | ip_info_gui.py:49-79 | The result is `None` exactly on a transport failure or a status other than "success". It raises exactly when the status is "success" and `as` is truthy but is either not a string or all whitespace. |
| `Resolver.FallbackRecordTraceable` | ip_info_gui.py:59-71 | A record has exactly the eleven canonical keys. Each copied field equals the fallback's field under its own name, or `None`. `ip` is `query` when present, else the requested address. |
| `Resolver.FallbackAsnIsFirstWord` | ip_info_gui.py:69 | `asn` is `None` exactly when `as` is falsy. Otherwise it is the non-empty run of non-whitespace that starts after the leading whitespace of `as` and ends at whitespace or at the end. |
| `Resolver.FallbackResult` | ip_info_gui.py:37 | The fallback's result as `get_ip_info` returns it: a record dict with exactly the canonical keys. |
| `Text.Split` | ip_info_gui.py:69 | `s.split()` is empty exactly when `s` is all whitespace. Every word is non-empty and free of whitespace. |
| `Text.FirstWordFollowsLeadingSpace` | ip_info_gui.py:69 | `s.split()[0]` is the maximal non-whitespace run that begins at the first non-whitespace character of `s`. |
| `Text.SplitStartsWithWord` | ip_info_gui.py:69 | A text that starts with a word followed by whitespace, or by nothing, splits with that word first. |
| `Text.TakeWord` | ip_info_gui.py:69 | The word taken is the longest prefix without whitespace: it is followed by whitespace or by the end. |
| `Text.LeadingSpace` | ip_info_gui.py:383 | Counts the leading whitespace: everything before it is whitespace, and the character after it is not. |
| `Text.ContentEnd` | ip_info_gui.py:383 | Finds where trailing whitespace starts: everything after it is whitespace, and the character before it is not. |
| `Text.StripIsTrimmedInfix` | ip_info_gui.py:383-384 | `entry.strip()` is the infix between the leading and the trailing whitespace. It is empty exactly when the entry is all whitespace, and otherwise starts and ends with non-whitespace. |
| `Text.ContainsIffOccurs` | ip_info_gui.py:36 | The substring test `needle in hay` holds exactly when the needle occurs at some position of the text. |
| `Text.LowerContainsIffIgnoringCase` | ip_info_gui.py:36 | For a lower-case needle, `needle in hay.lower()` holds exactly when the needle occurs in `hay` up to letter case. |
| `Orchestrator.LookupIp` | ip_info_gui.py:381-386 | A blank entry gives the warning and issues no request. Otherwise the stripped entry is looked up. |
| `Orchestrator.LookupIpThread` | ip_info_gui.py:397-406 | The IPv4 slot holds the address iff it has no colon, and the IPv6 slot iff it has one; exactly one slot is set. `get_ip_info` runs once on the raw string, and its requests are the lookup's requests. A raised exception becomes the error report. |
| `Orchestrator.LookupResolvesStrippedEntry` | ip_info_gui.py:383-415 | A non-blank entry is resolved stripped, and the primary is queried first. The window reports a failed lookup exactly when resolution returned `None`. |
| `Orchestrator.DetectionPlan` | ip_info_gui.py:444-448 | At most two addresses are resolved, none of them empty. IPv4 comes first when present. IPv6 is resolved after IPv4 only when IPv4 returned `None`, and it is always the last one resolved when it is present and IPv4 is absent or returned `None`. |
| `Orchestrator.GetMyIpThread` | ip_info_gui.py:437-452 | The two echo requests come first. The addresses resolved are exactly the plan, and the request log is the echoes followed by each resolution's requests. Raising happens exactly when some resolution raised. Otherwise the report carries both echoed addresses, and detection fails exactly when every resolution returned `None`. A record is the last resolution's result. |
| `Orchestrator.ResolutionQueriesAppend` | ip_info_gui.py:446-448 | Resolving one more address appends exactly that resolution's requests to the log. |
| `Orchestrator.ResolutionQueriesBounded` | ip_info_gui.py:446-448 | Each non-empty address resolved costs one or two provider requests. |
| `Orchestrator.DetectionQueriesBounded` | ip_info_gui.py:440-448 | Auto-detection issues at most four provider requests after its two echo requests. |
| `Scenarios.PrimaryAnswerPassesThrough` | ip_info_gui.py:41-42 | The primary's answer for 8.8.8.8 is returned as it stands. |
| `Scenarios.RateLimitedPrimaryUsesFallbackRecord` | ip_info_gui.py:36-37 | A "Rate limit exceeded" error for 8.8.8.8, followed by ip-api.com's answer, gives the renamed record with `asn` "AS15169", after one query to each provider. |
| `Scenarios.GoogleAnswerNormalised` | ip_info_gui.py:57-71 | ip-api.com's answer for 8.8.8.8 becomes the expected typed record. |
| `Scenarios.GoogleAsnIsFirstWord` | ip_info_gui.py:69 | `as` "AS15169 Google LLC" gives `asn` "AS15169". |
| `Scenarios.InvalidAddressErrorIsFinal` | ip_info_gui.py:32-38 | An "Invalid IP Address" error is final: `None`, and the fallback is never asked. |
| `Scenarios.UnreachableProvidersFailLookup` | ip_info_gui.py:397-415 | With both providers unreachable, the lookup completes with no record after two requests, and the window reports it as failed. |
| `Scenarios.DetectIpv6Only` | ip_info_gui.py:437-461 | When only the IPv6 echo answers and the primary knows that address, detection succeeds with the primary's record and an empty IPv4 slot. |

## Left out

- HTTP transport, the `timeout` values and `raise_for_status` (ip_info_gui.py:12-16, 27-29, 52-54). Every exchange is an abstract `Response`.
- `get_ip_address` (ip_info_gui.py:8-18) is a parameter: the address each echo request gave, or `None`. An echo answer whose `ip` is not a string, or whose body is not a JSON object, is not modelled.
- JSON bodies that are not objects (a list, a string, or a number at the top level) are not modelled. With those, the `in` tests and `.get` calls at ip_info_gui.py:32-57 behave differently or raise.
- Providers are modelled as deterministic: an address always gets the same answer. This matters only if the two echoed addresses are equal strings.
- Numbers (`lat`, `lon`, and others) are carried as opaque reals and never computed with. Float precision, NaN and infinities are not modelled.
- `str.lower` is modelled on ASCII letters only. For this test that is exact: the only non-ASCII character that lowers to a letter of "rate" or "limit" is U+0130, whose lower-case form is "i" followed by U+0307, which cannot be part of either word.
- The `print` diagnostics (ip_info_gui.py:34, 44, 72, 75, 78) are logging only.
- The tkinter window, `display_results`, the status line, the timestamp and button states (ip_info_gui.py:81-379, 408-435, 454-469) are presentation. So is the message text that `str(e)` produces for the error callbacks.
- The `threading` and `root.after` dispatch (ip_info_gui.py:392-395, 404, 432-435, 450) keeps the window responsive. It is concurrency and does not change the results.
- `open_map` and `webbrowser` (ip_info_gui.py:471-478) are not modelled, and neither is `main`.
- Python dicts keep insertion order, but a Dafny `map` does not. The order of a record's keys is not modelled.
- ip_info.py (the web page variant, without fallback) and tests/test_ip_info.py are not part of this model.
