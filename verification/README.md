# Gateway, monitor, logger and timestamp service: a Dafny model

This project models the decision-making core of a small collection of
Node.js services:

- **Host-routing gateway** (proxy/index.js):
  - turning configuration records into host entries;
  - the table of host entries and its lookup with an `Unknown` default;
  - the dispatch of every listener event (plaintext or TLS, web request or
    WebSocket upgrade, SNI lookup) to a redirect, a 404 page, a forward, a
    closed socket or a certificate;
  - the error paths of forwarding;
  - the traffic counters and their periodic report.
- **MMDVM monitor's protocol providers** (mmdvm-monitor/providers.js):
  - the first-match `Matcher` chain;
  - the DMR, YSF, D-Star and M17 line recognisers and the packets they
    build;
  - the YSF provider's one-slot memory of the last start packet, which a
    watchdog line turns into an end packet;
  - the first-provider-wins loop of mmdvm-monitor/index.js.
- **Dashboard's caller-id table** (digital-voice-dashboard/callerIdNames.js):
  the per-line parser and the id-to-name map it fills.
- **mqtt-logger library** (mqtt-logger/index.mjs):
  - message argument caching;
  - time formatting and reading with its month table;
  - stats-object extraction and the stats packet's field check;
  - padded logger names;
  - the log-directory scan that picks the file to append to and the files
    to compress;
  - the `LoggerConfig` registry and the `Logger` constructor's registration.
- **Timestamp service** (timestamp/index.js):
  - `loadKeys`: grouping key files by uuid, consistency errors, choosing or
    creating the newest pair, loading public keys and keeping only the
    newest private key;
  - the ten-minute key rotation and the five-minute stats report;
  - the cert, ticket and verify routes and the error handler.
- **Its older sibling** (index.js): the query-length limit, the
  verification result's shaping into a response, and the error handler.

The files, one module each:

- `wrappers.dfy`: Option and Result.
- `js_text.dfy`: the JavaScript string operations the code relies on. These
  include `trim`, `indexOf`, `lastIndexOf`, `substring` with swapped bounds,
  `parseInt`, `padStart`/`padEnd`, `replaceAll` with its `$` patterns and
  `toLowerCase` (on ASCII letters only).
- `proxy_hosts.dfy`, `proxy_stats.dfy`: the gateway.
- `mmdvm_patterns.dfy`, `mmdvm_providers.dfy`: the monitor. The regular
  expressions are hand-written recognisers with the engine's leftmost-match
  search.
- `caller_id_names.dfy`.
- `logger_time.dfy`, `logger_files.dfy`, `logger_sinks.dfy`,
  `logger_config.dfy`.
- `ticket_api.dfy`: the request decisions shared by index.js and
  timestamp/index.js.
- `timestamp_keys.dfy`, `timestamp_service.dfy`.

Code that changes state step by step is modelled as methods and classes,
each proved equal to a specification function. This covers:
- the host-table loop;
- the counters;
- the `Matcher` and the YSF provider;
- the caller-id readline loop;
- the log-directory scan, `MessageArguments` and `LoggerConfig`;
- the three loops of `loadKeys`;
- the timestamp service's state.

Decisions without state are functions.

A plaintext web request to a secure redirect host is redirected to
`https://` plus the *requested* host, not the target (proxy/index.js:194-196,
118-121), so the client reaches the target in two hops.
`ProxyHosts.SecureRedirectTwoHops` states this.

## Model

| member | source | states |
|---|---|---|
| ProxyHosts.Create | proxy/index.js:44-90 | `HostEntry.create`: fatal when there is no redirect or proxy, when `insecure` is not exactly `true`, or when a secure host lacks `cert` or names an unregistered one; otherwise an insecure entry (no cert) or a secure entry with the registry's context, proxy when `proxy` is given, the target is proxy else redirect |
| ProxyHosts.CreateWarnings | proxy/index.js:54-68 | the missing-`http://` warning is logged exactly for a proxy target without that prefix, the ignored-cert warning exactly for an insecure host with a `cert` |
| ProxyHosts.RedirectRequest | proxy/index.js:112-116 | a 301 whose Location starts with the chosen scheme, ends with the request URL unchanged, and holds the given domain between them; the body is `Redirecting...` |
| ProxyHosts.PromoteRedirectToSecure | proxy/index.js:118-121 | the 301 to `https://` + the Host header + the request URL, with the body `Redirecting...` |
| ProxyHosts.InvalidDomainUpgrade | proxy/index.js:105-110 | the socket is ended with a message that starts `Proxy-Error: Upgrade to invalid domain: ` and ends with the Host header |
| ProxyHosts.SendError404 | proxy/index.js:155-163 | a 404 whose body is the page template, unchanged when it holds no `{{requestDomain}}` placeholder |
| ProxyHosts.HandleInsecureWebRequest | proxy/index.js:112-280 | plaintext web request: forwarded only by an insecure proxy, 404 only for Unknown, secure hosts redirect to `https://` + requested host, insecure redirects to `http://` + target |
| ProxyHosts.HandleInsecureUpgradeRequest | proxy/index.js:105-285 | plaintext upgrade forwarded exactly for an insecure proxy, every other entry ends the socket with `Proxy-Error: Upgrade to invalid domain: <host>` |
| ProxyHosts.HandleSecureWebRequest | proxy/index.js:173-291 | TLS web request: forwarded exactly for a secure proxy, 404 exactly for Unknown, secure redirect to `https://` + target, insecure redirect to `http://` + target, insecure proxy to `http://` + requested host |
| ProxyHosts.HandleSecureUpgradeRequest | proxy/index.js:105-294 | TLS upgrade forwarded exactly for a secure proxy, otherwise the socket is ended with the invalid-domain message |
| ProxyHosts.HandleSniCallback | proxy/index.js:181-299 | Unknown answers the error `Domain not found`, secure entries their own context, insecure entries none, each exactly |
| ProxyHosts.Dispatch | proxy/index.js:155-300 | the whole matrix: forwarded exactly for a proxy on its own listener and to its target; every other upgrade closes the socket; every redirect is a 301 with the request's URL; 404 exactly for Unknown web requests; certificate answers exactly for SNI |
| ProxyHosts.FindHostOrUnknown | proxy/index.js:357-360 | a configured domain gives its entry, anything else the Unknown entry |
| ProxyHosts.Route | proxy/index.js:430-457 | an event whose Host header (or SNI name) is configured is decided by that host's entry, and any other by the Unknown entry; a forward only ever happens for a configured host, to that host's own target |
| ProxyHosts.UnknownDomainRouting | proxy/index.js:155-187 | an unconfigured domain gets a 404 for web requests, a closed socket for upgrades and the `Domain not found` error for SNI |
| ProxyHosts.SecureRedirectTwoHops | proxy/index.js:118-205 | a secure redirect reached over plaintext first goes to `https://` + the requested host, and only the TLS request reaches the target |
| ProxyHosts.SecureProxyForwards | proxy/index.js:229-237 | a secure proxy forwards both TLS web requests and TLS upgrades to its target |
| ProxyHosts.DefaultNotFoundBody | proxy/index.js:156-163 | with the built-in template and a Host without `$`, the 404 body is `Unknown host domain name: <host>` |
| ProxyHosts.WebForwardFailure | proxy/index.js:123-135 | as written, the web forwarding catch block always throws (it calls the undefined `securePrefix`) |
| ProxyHosts.UpgradeForwardFailure | proxy/index.js:137-150 | the upgrade catch block ends the socket with `Server currently not available` exactly when it is not already ended |
| ProxyHosts.WebForwardFailureIntended | proxy/index.js:123-135 | with the prefix helper that exists, the web catch block ends the response exactly when it is not already ended |
| ProxyHosts.WebFallbackUnreachable | proxy/index.js:123-150 | the graceful fallback is unreachable for web requests as written, reachable for upgrades and for the corrected web path |
| ProxyHosts.BuildHostTable | proxy/index.js:351-355 | the `for…in` loop: succeeds exactly when every record is created, and then the table is the one `TableOf` describes; a failure is the error of the first record that fails, all records before it having been created |
| ProxyHosts.TableOfKeys | proxy/index.js:351-355 | the table built by the loop has exactly the configured host names as its domains |
| ProxyHosts.TableOfValues | proxy/index.js:351-355 | with distinct names, every configured domain maps to the entry created from its own record |
| ProxyHosts.FirstMissing | proxy/index.js:26-28 | `checkKeys` with `stop`: nothing is reported exactly when every required key is owned; otherwise the reported key is the first required one the object does not own |
| ProxyHosts.CertificateGap | proxy/index.js:328-332 | no error exactly when every certificate record owns `key`, `cert` and `ca`; otherwise the error names the first incomplete record, in configuration order, and its first missing field |
| ProxyHosts.MqttGap | proxy/index.js:386-389 | without an `mqtt` section nothing is checked; with one, the first of `gateway`, `client`, `username`, `password` and `path` it does not own |
| ProxyHosts.CheckBeforeHosts | proxy/index.js:308-332 | the first failing check before the host table, in the source's order: a missing top-level key, then unparsable ports, then an incomplete certificate record; none exactly when all pass |
| ProxyHosts.Startup | proxy/index.js:308-442 | each stop in the source's order: a missing top-level key, unparsable ports, an incomplete certificate record, the first host record that fails (its own error, every record before it being created), an incomplete `mqtt` section, then the missing main certificate (the certificate map holds exactly the configured certificate names, so the main certificate must be one of them); startup succeeds exactly when all of these pass, and then the listeners use the parsed ports, the main certificate's context and the table the host loop builds |
| ProxyStats.Opened | proxy/index.js:376-380 | `open` raises the total and the active count; the peak becomes the larger of the old peak and the new active count; nothing else changes |
| ProxyStats.Closed | proxy/index.js:381 | `close` lowers the active count by one and leaves every other counter unchanged |
| ProxyStats.ProxyResponded | proxy/index.js:382 | `proxyRes` raises the request total by one and leaves every other counter unchanged |
| ProxyStats.Ticked | proxy/index.js:410-428 | without an MQTT client nothing is reported or reset; with one the report carries the window's websocket and request differences and the window's peak of open websockets, and the window restarts; the totals and the open websockets are never reset |
| ProxyStats.RunCounts | proxy/index.js:373-382 | events raise the totals by their counts, leave the reported values alone, and the peak bounds every active count seen |
| ProxyStats.RunPeakAttained | proxy/index.js:379 | the peak is the starting peak or an active count actually reached |
| ProxyStats.WindowReport | proxy/index.js:373-428 | from a reset, the report counts the window's websockets and requests and its active figure is the window's peak |
| ProxyStats.StatsCounters.Open | proxy/index.js:376-380 | the handler changes the counters as `Opened` and keeps them valid |
| ProxyStats.StatsCounters.Close | proxy/index.js:381 | the handler changes the counters as `Closed` |
| ProxyStats.StatsCounters.ProxyRes | proxy/index.js:382 | the handler changes the counters as `ProxyResponded` |
| ProxyStats.StatsCounters.Tick | proxy/index.js:410-428 | the interval callback changes the counters and reports as `Ticked` |
| ProxyStats.HasMqttClient | proxy/index.js:386-391 | a client is created only with an `mqtt` section, always when `enable` is absent, never when it is `false` |
| MmdvmProviders.Matcher.Match | mmdvm-monitor/providers.js:8-11 | the handler runs exactly when no packet is held yet and the pattern matches, with the groups of the match |
| MmdvmProviders.Matcher.Accept | mmdvm-monitor/providers.js:12 | the packet becomes the handler's result, and a null result keeps it null so later patterns are tried |
| MmdvmProviders.DmrTryConsumeLine | mmdvm-monitor/providers.js:28-33 | the method computes the start-before-end chain of `DmrConsume` |
| MmdvmProviders.DmrStartLinePacket | mmdvm-monitor/providers.js:30-41 | a voice header line gives a start packet `DMR TS <slot>` to `TG <n>` or `PC <n>`, external exactly when not RF |
| MmdvmProviders.DmrEndLinePacket | mmdvm-monitor/providers.js:31-41 | an end-of-voice line gives the end packet |
| MmdvmProviders.DmrStartMissesEndLine | mmdvm-monitor/providers.js:30-31 | the start pattern matches nowhere in an end line |
| MmdvmProviders.YsfProvider.MakePacket | mmdvm-monitor/providers.js:59-68 | the packet is external exactly when the source does not start with `RF`; a start is remembered, anything else clears the memory |
| MmdvmProviders.YsfProvider.TimeoutPacket | mmdvm-monitor/providers.js:70-77 | the remembered start comes back as an end packet and the memory is cleared; with nothing remembered the result is null |
| MmdvmProviders.YsfProvider.TryConsumeLine | mmdvm-monitor/providers.js:51-57 | the method computes `YsfStep` on the memory |
| MmdvmProviders.YsfStartThenWatchdog | mmdvm-monitor/providers.js:53-77 | a start line followed by a watchdog line gives the start packet and then the same packet as an end packet, leaving no memory |
| MmdvmProviders.YsfEndForgetsStart | mmdvm-monitor/providers.js:54-77 | an end line clears the memory so a later watchdog line gives nothing; an unrelated line keeps the memory |
| MmdvmProviders.YsfStartLinePacket | mmdvm-monitor/providers.js:53-68 | a YSF start line reads back as its source, destination (with `DG-ID`) and external flag |
| MmdvmProviders.DStarTryConsumeLine | mmdvm-monitor/providers.js:81-86 | the method computes `DStarConsume` |
| MmdvmProviders.DStarStartLinePacket | mmdvm-monitor/providers.js:83-94 | a D-Star header line with a `/suffix` gives the start packet with its callsigns |
| MmdvmProviders.M17TryConsumeLine | mmdvm-monitor/providers.js:98-103 | the method computes `M17Consume` |
| MmdvmProviders.M17StartAlwaysExternal | mmdvm-monitor/providers.js:100-111 | every M17 start packet is marked external, because the group holds the whole phrase |
| MmdvmProviders.M17RfStartLinePacket | mmdvm-monitor/providers.js:100-111 | an RF voice transmission line gives a start packet marked external |
| MmdvmProviders.MonitorStep | mmdvm-monitor/index.js:28-34 | the providers are asked in the order DMR, YSF, D-Star, M17 and the first packet is published; the YSF memory is untouched when DMR consumes the line and otherwise follows the YSF provider; nothing is published exactly when no provider recognises the line |
| MmdvmProviders.OnLine | mmdvm-monitor/index.js:28-34 | the loop over the providers computes `MonitorStep` on the YSF provider's memory |
| MmdvmPatterns.Anchored | mmdvm-monitor/providers.js:30-101 | a match begins with `M: ` and the 24 timestamp characters; only the watchdog pattern has no groups; DMR matches carry a slot; the source group is one of the pattern's own alternatives (`RF`/`network`, the YSF and M17 phrases) |
| MmdvmPatterns.ExecLeftmost | mmdvm-monitor/providers.js:10 | `line.match(regex)` gives the groups of the leftmost position where the pattern matches, and none exactly when it matches nowhere |
| MmdvmPatterns.RightmostTo | mmdvm-monitor/providers.js:83-84 | the backtracking of `(\/.*)? to` settles on the rightmost position within the line where ` to ` and a word character follow, none when there is no such position |
| MmdvmPatterns.DmrLineGroups | mmdvm-monitor/providers.js:30-31 | a DMR line reads back as the slot, source, caller, `TG` flag and target it was written with |
| MmdvmPatterns.YsfLineGroups | mmdvm-monitor/providers.js:53-54 | a YSF line reads back as its fields |
| MmdvmPatterns.DStarLineGroups | mmdvm-monitor/providers.js:83-84 | a D-Star line with a `/suffix` after the callsign, followed by nothing or by a line terminator, reads back as its fields |
| MmdvmPatterns.M17LineGroups | mmdvm-monitor/providers.js:100-101 | an M17 line reads back as its fields |
| CallerIdNames.ParseLine | digital-voice-dashboard/callerIdNames.js:19-33 | a line is blank exactly when it trims to nothing; an accepted name is non-empty, trimmed and free of `;` |
| CallerIdNames.EntryShape | digital-voice-dashboard/callerIdNames.js:25-30 | an accepted line holds exactly two `;`, its id is read from before the first and its name is the trimmed text between them |
| CallerIdNames.NoSemicolonRejected | digital-voice-dashboard/callerIdNames.js:25-30 | a line without `;` is rejected (empty id text) |
| CallerIdNames.OneSemicolonRejected | digital-voice-dashboard/callerIdNames.js:27-30 | with one `;` the swapped `substring` bounds give `;` as the name, so the line is rejected |
| CallerIdNames.InnerSemicolonRejected | digital-voice-dashboard/callerIdNames.js:27-30 | a `;` between the first and the last stays in the name, so the line is rejected |
| CallerIdNames.ParseWrittenLine | digital-voice-dashboard/callerIdNames.js:19-35 | `<id>;<name>;` reads back as that id and name |
| CallerIdNames.TableDomain | digital-voice-dashboard/callerIdNames.js:35 | the map holds exactly the ids of accepted lines |
| CallerIdNames.TableLastWins | digital-voice-dashboard/callerIdNames.js:35 | the last accepted line for an id decides its name |
| CallerIdNames.NamesWellFormed | digital-voice-dashboard/callerIdNames.js:27-35 | every name in the map is non-empty and free of `;` |
| CallerIdNames.SkippedLineKeepsNames | digital-voice-dashboard/callerIdNames.js:20-33 | blank and rejected lines leave the map unchanged |
| CallerIdNames.ReadCallerIdNames | digital-voice-dashboard/callerIdNames.js:13-36 | the readline loop builds exactly the map of `Names` |
| LoggerTime.FindMonth | mqtt-logger/index.mjs:87 | `findIndex` answers the first index whose name matches case-insensitively, or -1 when none does |
| LoggerTime.ReadTime | mqtt-logger/index.mjs:80-96 | `_readTime` succeeds exactly when every number field parses and the month is in the table, and the month it reads names that field |
| LoggerTime.ReadPrintedTime | mqtt-logger/index.mjs:63-96 | with twelve month names every printed time reads back as the time printed |
| LoggerTime.ReadPrintedTimeAsWritten | mqtt-logger/index.mjs:61-96 | with the table as written the round trip holds for every month but December |
| LoggerTime.DecemberUnreadable | mqtt-logger/index.mjs:61-89 | as written December prints as `undefined`, which does not read back |
| LoggerTime.OctoberShifted | mqtt-logger/index.mjs:61-73 | as written October prints as `Nov` and November as `Dec` |
| LoggerTime.OctMissing | mqtt-logger/index.mjs:61-87 | as written `Oct` is not found; the fixed table finds it at index 9 |
| LoggerTime.FormatTime | mqtt-logger/index.mjs:63-78 | for a valid time and a three-letter month name the text is 20 characters, with `-`/`-`/`_` (file names) or `:`/`:`/` ` (messages) after hour, minute and second, and `-` around the month |
| LoggerTime.LogFileName | mqtt-logger/index.mjs:337-339 | the file name starts with the base name and `_`, ends with `.` and the extension, and for a valid time is 22 characters longer than both |
| LoggerTime.SplitLogFileName | mqtt-logger/index.mjs:353-354 | a matched file name is its name, `_`, the dashed time and `.` + extension, with word-character name and extension |
| LoggerTime.LogFileNameRoundTrip | mqtt-logger/index.mjs:337-354 | with twelve month names a created file name splits back into its name, time fields and extension |
| LoggerTime.DecemberFileNameUnmatched | mqtt-logger/index.mjs:337-354 | as written a file created in December does not match the file-name pattern |
| LoggerFiles.ScanDirectory | mqtt-logger/index.mjs:343-390 | the `_loadFiles` loop computes the newest file and the files to compress of `LoadFiles` |
| LoggerFiles.Consider | mqtt-logger/index.mjs:362-383 | one pass of the loop body is one `Step` |
| LoggerFiles.ScansPartition | mqtt-logger/index.mjs:366-383 | every own file is either kept or compressed, exactly once, and nothing else is touched |
| LoggerFiles.ScansNewest | mqtt-logger/index.mjs:369-379 | a file is kept exactly when some own file is recent and small enough, the kept one is such a file and none is newer |
| LoggerFiles.LoadFilesSpec | mqtt-logger/index.mjs:343-390 | `_loadFiles` over a directory: the partition and the newest-usable choice together |
| LoggerFiles.Attach | mqtt-logger/index.mjs:403-420 | append to the newest file or to a new one named after the time; compress the rest only when configured |
| LoggerFiles.CreatedFileFound | mqtt-logger/index.mjs:337-366 | with twelve month names a file the sink created is one of its own files on the next start, at the time its name reads back as (its creation time only through the `millis` parameter, see "## Left out") |
| LoggerFiles.DecemberFileIgnored | mqtt-logger/index.mjs:337-366 | as written a file created in December is neither reused nor compressed |
| LoggerSinks.FirstEntry | mqtt-logger/index.mjs:111-112 | `Object.keys(arg)[0]` throws exactly for `null` |
| LoggerSinks.ExtractStatsObject | mqtt-logger/index.mjs:108-120 | the `forEach` computes `StatsObject` |
| LoggerSinks.StatsObjectContents | mqtt-logger/index.mjs:108-120 | the call throws exactly when an argument is `null`; otherwise each key named by an argument holds the last value given for it, and no other key exists |
| LoggerSinks.LaterArgumentWins | mqtt-logger/index.mjs:113-115 | a repeated name keeps the later value |
| LoggerSinks.ValidateAsWritten | mqtt-logger/index.mjs:233-239 | as written the check passes exactly when the stats own a disallowed field |
| LoggerSinks.Validate | mqtt-logger/index.mjs:233-239 | corrected, it passes exactly when no disallowed field is owned |
| LoggerSinks.StatsMessageAsWrittenRefuses | mqtt-logger/index.mjs:225-239 | as written ordinary stats (`{rx: 1}`) are refused |
| LoggerSinks.StatsMessageAsWrittenClobbers | mqtt-logger/index.mjs:225-239 | as written stats with a `type` field are let through and overwrite the packet's type |
| LoggerSinks.StatsMessageAsWritten | mqtt-logger/index.mjs:225-239 | as written the message is built exactly when some disallowed field is present, and then holds the stats packet; otherwise it fails with `Disallows field name in stats object` |
| LoggerSinks.StatsMessage | mqtt-logger/index.mjs:225-239 | corrected, the message is built exactly when no disallowed field is present, and holds the stats packet; otherwise it fails with `Disallows field name in stats object` |
| LoggerSinks.StatsMessageFields | mqtt-logger/index.mjs:225-231 | corrected, stats are sent exactly when no field is disallowed, with their values and the logger's name |
| LoggerSinks.MessageArguments.MessageString | mqtt-logger/index.mjs:30-37 | every call answers the joined text of the arguments and caches it |
| LoggerSinks.MessageArguments.TimeString | mqtt-logger/index.mjs:39-46 | the first call's time is cached and answered by every later call |
| LoggerSinks.PaddedName | mqtt-logger/index.mjs:122-126 | the name followed by spaces up to the longest length |
| LoggerSinks.NameFieldsAligned | mqtt-logger/index.mjs:122-126 | all uncoloured name fields have the longest name's width and start with their name |
| LoggerSinks.AssignAllLookup | mqtt-logger/index.mjs:229 | after `Object.assign` every key of the source holds its value and every other key keeps the target's |
| LoggerRegistry.MaxLength | mqtt-logger/index.mjs:525 | the longest name length, attained by some name |
| LoggerRegistry.FindConsole | mqtt-logger/index.mjs:513-518 | the console sink is the first `ConsoleSink` of the list, or a fresh one exactly when the list holds none |
| LoggerRegistry.InstalledSinks | mqtt-logger/index.mjs:506-511 | an empty list becomes exactly one default `ConsoleSink` (colored), any other list is kept unchanged |
| LoggerRegistry.LoggerConfig.RegisterLogger | mqtt-logger/index.mjs:523-527 | ids are 0, 1, 2, … in order, the logger is appended, and the longest length is the maximum |
| LoggerRegistry.LoggerConfig.Init | mqtt-logger/index.mjs:500-521 | a second call fails with its message; the first installs the sinks and chooses the console sink |
| LoggerRegistry.LoggerConfig.EnsureInit | mqtt-logger/index.mjs:494-498 | an uninitialised registry initialises itself with the default console sink |
| LoggerRegistry.LoggerConfig.InternalInstance | mqtt-logger/index.mjs:537-540 | the registry is initialised (sinks installed) and the answer is the internal logger, id 0; the registered loggers are unchanged |
| LoggerRegistry.LoggerConfig.constructor | mqtt-logger/index.mjs:478-487 | an empty registry in which the internal logger is registered first |
| LoggerRegistry.LoggerConfig.NewLogger | mqtt-logger/index.mjs:569-577 | a new logger is appended to the registry under the next id; an unnamed one gets the corrected default name `logger-<id>` (as written it is `logger-undefined`, see Findings) |
| LoggerRegistry.LoggerConfigStatic.Construct | mqtt-logger/index.mjs:473-476 | a second configuration is refused with its message |
| LoggerRegistry.LoggerConfigStatic.The | mqtt-logger/index.mjs:466-471 | `the()` creates the configuration on first use and returns the same one afterwards |
| LoggerRegistry.UnnamedLoggersCollide | mqtt-logger/index.mjs:575 | as written every unnamed logger is called `logger-undefined` |
| LoggerRegistry.DefaultLoggerNameAsWritten | mqtt-logger/index.mjs:575 | as written a given name is kept and an empty one becomes `logger-undefined` |
| LoggerRegistry.UnnamedLoggersDistinct | mqtt-logger/index.mjs:575-576 | named after their ids, unnamed loggers get distinct names |
| LoggerRegistry.RegisteredNamesAligned | mqtt-logger/index.mjs:523-527 | padded to the registry's longest length, every registered name field has that width |
| TicketApi.QueryLength | index.js:104-105 | the query length is never negative |
| TicketApi.QueryLengthAfterMark | index.js:104-105 | it counts the characters after the first `?` |
| TicketApi.QueryLengthWithoutMark | index.js:104-105 | a URL without `?` has an empty query |
| TicketApi.QueryTooLong | index.js:104-106 | a negative limit refuses every URL; a query over a non-negative limit needs a `?` in the URL |
| TicketApi.Ticket | index.js:103-116 | with the return after the 414: exactly one answer, a ticket is signed exactly when the query is within the limit, and the answer is the 414 or the ticket |
| TicketApi.TicketAsWritten | index.js:103-116 | as written a ticket is always signed and its send comes last; an error is raised exactly when the query is too long, after the 414 was sent first |
| TicketApi.OversizedQueryStillSigned | index.js:106-115 | as written an oversized query is answered 414 yet a ticket is signed and its send raises an error |
| TicketApi.TicketSignedIffSent | index.js:103-116 | corrected, a ticket is signed exactly when it is sent |
| TicketApi.TicketAgreesWithinLimit | index.js:103-116 | both handlers agree on every query within the limit |
| TicketApi.UnsetLimitNeverRefuses | index.js:104-106 | a limit that reads as NaN refuses nothing |
| TicketApi.VerifyTicket | index.js:62-77 | no error exactly when the schema holds and the signature is valid; a schema error is `Schema error: ` and its details, otherwise `Signature error` |
| TicketApi.SchemaMessage | index.js:65-68 | `unknown error` without details; otherwise the text starts with the first detail, and is exactly it when there is one |
| TicketApi.VerifyResponse | index.js:119-125 | 200 `ok` exactly without an error, 422 with the error under an `invalid` line otherwise |
| TicketApi.VerifyOutcomes | index.js:62-125 | an accepted ticket, a signature error and a schema error give distinguishable answers |
| TicketApi.UnknownApiRoute | index.js:128-133 | 404 plain text `Error: Unknown api route "<url>"` |
| TicketApi.HandleError | index.js:142-170 | 413 exactly for an oversized body under `/v1/api`, with the `invalid` line only under `/v1/api/verify`, and then not passed on; other API errors get 500 `internal error`, other URLs the 500 page, both passed on |
| TicketApi.OversizedVerifyReadsInvalid | index.js:146-160 | an oversized verify body reads like a failed verification and like the ticket route's 414 text |
| TicketApi.OversizedTicketErrorHandled | index.js:106-169 | the error the as-written ticket handler raises reaches the handler as a plain API error and takes its 500 branch (whose send then throws again, the 414 having been sent) |
| TimestampKeys.AddFileTo | timestamp/index.js:84-100 | one file of the directory loop computes `AddFile`: a time mismatch or a second file of a type is an error |
| TimestampKeys.GroupFiles | timestamp/index.js:72-104 | the directory loop computes `Group`, stopping at the first error |
| TimestampKeys.GroupSpec | timestamp/index.js:84-100 | grouping succeeds exactly when no two files of a uuid disagree on time or share a type; then each uuid has one entry holding its time and the path of each file |
| TimestampKeys.Select | timestamp/index.js:108-118 | a selected newest index is an index of the entries |
| TimestampKeys.SelectSpec | timestamp/index.js:108-118 | succeeds exactly when every entry has both files, a failure names the first incomplete one, none exactly for no entries, and the newest has the strictly greatest time (ties keep the earlier) |
| TimestampKeys.SelectNewest | timestamp/index.js:108-118 | the loop over the entries computes `Select` |
| TimestampKeys.Install | timestamp/index.js:120-125 | a new pair is set under its uuid and becomes newest exactly when there is none or it is too old; everything else is unchanged |
| TimestampKeys.LoadEntry | timestamp/index.js:129-143 | loading keeps the entry's uuid |
| TimestampKeys.LoadEntries | timestamp/index.js:129-143 | the loading loop computes `LoadAll` |
| TimestampKeys.LoadKeysFromFiles | timestamp/index.js:66-149 | `loadKeys` with its loops computes `LoadKeys` |
| TimestampKeys.LoadKeysSucceeds | timestamp/index.js:84-113 | loading fails exactly when the files are inconsistent or a uuid lacks one of its two files |
| TimestampKeys.LoadKeysPrivate | timestamp/index.js:129-143 | after loading exactly the newest pair holds its private key, and no two pairs share a uuid |
| TimestampKeys.LoadKeysNewest | timestamp/index.js:115-125 | the newest is the created pair when every key file is too old; otherwise a loaded pair that is not too old and at least as new as every file |
| TimestampKeys.LoadKeysCovers | timestamp/index.js:84-143 | every key file's uuid is served |
| TimestampKeys.LoadKeysPublic | timestamp/index.js:133-134 | a loaded pair's public key is the content of its public key file |
| TimestampService.StatsTicked | timestamp/index.js:242-253 | the report carries the window's differences (never negative) and the totals, and the window restarts |
| TimestampService.StatsTickedAsWritten | timestamp/index.js:242-253 | a failing tick leaves the counters unchanged; a successful one gives `StatsTicked`'s counters and report |
| TimestampService.CountAllCounts | timestamp/index.js:237-311 | handled requests raise each total by their number and leave the reported values alone |
| TimestampService.WindowCounts | timestamp/index.js:242-253 | each report counts exactly the requests of its window, visits under the key `tickets` |
| TimestampService.FindKey | timestamp/index.js:205-271 | `keysMap.get`: an index holding that uuid, or -1 exactly when there is none |
| TimestampService.Rotated | timestamp/index.js:224-235 | a too-old current pair is replaced by the created pair, stored under its uuid; only the new current pair keeps a private key, uuids stay distinct, and every retired pair keeps its uuid and public key |
| TimestampService.RotationRenews | timestamp/index.js:224-235 | a pair created at the tick's time is not replaced again at that time |
| TimestampService.VerifyWithKeys | timestamp/index.js:193-216 | no error exactly when the schema holds, the cert is served and its public key accepts the signature; an unknown cert gives `Unknown cert id`; otherwise the answer of index.js's `verifyTicket` |
| TimestampService.RotationKeepsVerdicts | timestamp/index.js:193-235 | a rotation changes the verdict on no ticket except those naming the new pair's uuid |
| TimestampService.CertResponse | timestamp/index.js:269-282 | 404 `Unknown key id` exactly for a given uuid that is not served; otherwise 200 with the public key of that uuid's pair or of the current pair |
| TimestampService.CertServed | timestamp/index.js:269-282 | a served pair's key is answered under its uuid |
| TimestampService.Service.RotationTick | timestamp/index.js:224-235 | the interval callback changes the served pairs as `Rotated`, leaving the counters |
| TimestampService.Service.StatsTick | timestamp/index.js:242-253 | the interval callback reports and resets as `StatsTicked` |
| TimestampService.StatsArgumentsObject | mqtt-logger/index.mjs:108-119 | from the tick's six arguments the MQTT sink extracts exactly the object `{issued, verified, tickets}` of the window counts; the texts add nothing |
| TimestampService.StatsAssignedKeys | timestamp/index.js:244-248 | the extracted object owns the keys `issued`, `verified`, `tickets`, in that order and once each |
| TimestampService.StatsAssignedValues | timestamp/index.js:244-248 | the extracted object's values are the three window counts of `StatsTicked`'s report |
| TimestampService.StatsTickNeverResetsAsWritten | timestamp/index.js:244-252 | as written every tick fails with `Disallows field name in stats object` before the reset, with all counters unchanged; the exception is uncaught, so the service stops at its first stats tick |
| TimestampService.StatsTickAcceptedIntended | timestamp/index.js:244-252 | with the field check corrected, the tick's stats message is built and carries the three window counts of `StatsTicked`'s report |
| TimestampService.Service.Home | timestamp/index.js:263-266 | the home page, and one more visit |
| TimestampService.Service.Cert | timestamp/index.js:269-282 | the route answers `CertResponse` |
| TimestampService.Service.IssueTicket | timestamp/index.js:285-300 | corrected ticket route: a ticket names the current pair, which holds a private key, and is counted exactly when it is sent |
| TimestampService.Service.Verify | timestamp/index.js:303-311 | the answer of `VerifyWithKeys`, and every request counted |
| TimestampService.Start | timestamp/index.js:219-221 | startup fails as `loadKeys` does; otherwise the service serves the loaded pairs with zero counters |

## Left out

- Input and output are parameters or left out:
  - sockets, TLS contexts, the HTTP and proxy servers and `http-proxy` forwarding;
  - `process.exit` and console logging;
  - file reading, directory iteration, `fs.statSync`, gzip compression and log-file writes;
  - the MQTT clients and publishing;
  - Express's transport.
  
  Directory scans take already-read entries, with the size `fs.statSync` would report. `loadKeys` takes matched key files and a `read` function for file contents.
- Foreign calls and their results are opaque inputs:
  - RSA key generation: `created` is the pair `createKeyPair` would make;
  - signing, and signature checking, which is a verdict on the public key;
  - `uuid.v4()`;
  - joi schema validation, which is a `SchemaResult`;
  - `util.inspect`, which is a function parameter;
  - the logger's colour functions.
- Clocks and timers: `Date.now()`, `new Date()` and `setInterval` are a `now` parameter and one method per interval body. The `Date` setters of `_readTime` are a `millis` parameter. That hides their order on `new Date(0)` (mqtt-logger/index.mjs:98-104): the day is set while the month is still January 1970 and the month is set next, so a day the 1970 month lacks rolls over: 1970 is not a leap year, and a file created on 29 February reads back as created on 1 March on the next start.
- Configuration values of a host record (`redirect`, `proxy`, `cert`) are modelled as strings. The source does not check their type: a `proxy` that is not a string throws at `startsWith` (proxy/index.js:55) and ends startup without a message.
- The key-file name pattern of timestamp/index.js:76 and its hex time parse: key files arrive parsed as uuid, time and type. `path.join` is left out; paths are the given strings.
- A NaN key age is left out. `keyPairMaxAge` is an integer, whereas an unset `KEY_PAIR_MAX_AGE` makes every age comparison false. The query limit does model NaN, as `None`.
- TimestampService.Service.IssueTicket: models the ticket route with the return after the 414. The counter behaves the same as written, because the throwing second send skips the increment. The undelivered signed ticket is stated by `TicketApi.OversizedQueryStillSigned`.
- TimestampService.Service.Verify: the ticket's `cert` field is an input, read before the schema verdict, whereas the source reads it only after the schema has passed.
- After a double send Express destroys the socket. The model records the second send and the raised error, not the socket.
- `LoggerConfig.close`, `logMessage`, `logStats`, `logConsoleMessage`, and the sinks' `attach`, `close`, `logMessage` and `logStats` output (mqtt-logger/index.mjs:141-180, 247-315, 422-460, 529-563) are I/O over the modelled pieces and are left out.
- `_messagePrefix` (mqtt-logger/index.mjs:128-134) is left out: it only assembles console text from the time and the name field, whose width is modelled by `NameField`.
- Lengths, `substring`, `padStart` and `padEnd` count characters, whereas JavaScript counts UTF-16 code units. The two agree only on text without characters outside the Basic Multilingual Plane.
- LoggerRegistry.LoggerConfig.NewLogger: gives an unnamed logger the corrected default name `logger-<id>`. As written it is `logger-undefined` (see Findings), and that name also feeds `_longestLoggerNameLength` (mqtt-logger/index.mjs:525), which the model then computes from the corrected names.
- TimestampService.StatsTicked: models the tick as intended: the report goes out and the window restarts. As written, the MQTT sink refuses the message first, and the uncaught exception ends the service at its first stats tick; see Findings and `TimestampService.StatsTickNeverResetsAsWritten`. Even with the field check corrected, the sink's `JSON.stringify` (mqtt-logger/index.mjs:193) would throw on the BigInt counts when publishing, which is not modelled, since publishing is left out.
- TimestampService.Service.StatsTick: updates the counters as the intended `TimestampService.StatsTicked`, not as written, for the same two reasons.
- MqttSink's configuration check (mqtt-logger/index.mjs:248-268) is left out.
- Numbers are modelled as unbounded integers. The ticket and gateway counters are BigInts in the source, so for them nothing is lost. Every other number is an IEEE double, including the `parseInt` results (caller ids, ports, time fields) and `JsNumber`. The model therefore does not capture:
  - ids above 2^53 round, so two lines with distinct large ids can collide in the caller-id map (digital-voice-dashboard/callerIdNames.js:26-35), while the model keeps them apart;
  - a digit run too long for a double parses to `Infinity`, which `Number.isInteger` rejects and the model accepts.
- The 404 and 500 HTML pages are opaque values: their file contents are not modelled.
- The dashboard's UI, its Express, SSE and MQTT wiring, and mmdvm-monitor's MQTT connection and file tailing are outside the modelled core. The line handler's provider loop is modelled.

## Findings

| source | as written | input that shows it | evidently intended | confidence | as-written member | corrected member |
|---|---|---|---|---|---|---|
| mqtt-logger/index.mjs:61 | the month table has eleven names (no `Oct`), so October prints as `Nov`, November as `Dec`, December as `undefined`, and `Oct` never reads back | a log file created in December: `logfile_10-00-00_24-undefined-2024.log` does not match the file-name pattern and is never reused or compressed | twelve month names | high, not executed | LoggerFiles.DecemberFileIgnored | LoggerFiles.CreatedFileFound |
| mqtt-logger/index.mjs:234-238 | `_validate` throws unless the stats own a disallowed field | `logger.stats({rx: 1})` throws `Disallows field name in stats object`; stats `{type: 'x'}` pass and overwrite the packet type | throw exactly when a disallowed field is owned | high, not executed | LoggerSinks.StatsMessageAsWrittenRefuses | LoggerSinks.StatsMessageFields |
| mqtt-logger/index.mjs:575 | the default name reads `this.id`, which is never set, so every unnamed logger is `logger-undefined` | two `new Logger()` calls both get the name `logger-undefined` | the id the logger is registered under | medium, not executed | LoggerRegistry.UnnamedLoggersCollide | LoggerRegistry.UnnamedLoggersDistinct |
| index.js:106-115 | no `return` after the 414 answer: a ticket is still signed, and its send raises "headers already sent" | `GET /v1/api/ticket?` plus a query one character longer than `CUSTOM_DATA_LIMIT` | return after the 414 | high, not executed | TicketApi.OversizedQueryStillSigned | TicketApi.TicketSignedIffSent |
| timestamp/index.js:287-299 | the same missing `return` after the 414 | the same oversized ticket request | return after the 414 | high, not executed | TicketApi.OversizedTicketErrorHandled | TimestampService.Service.IssueTicket |
| timestamp/index.js:244-252 | `logger.stats(...)` runs before the `*Prev` reset, and the MQTT sink's inverted `_validate` throws on the tick's three ordinary counts; nothing catches the error, so it leaves the interval callback and ends the process at the first tick, five minutes after start | any stats tick with the MQTT sink installed | the report is sent and then the window restarts | high, not executed | TimestampService.StatsTickNeverResetsAsWritten | TimestampService.StatsTickAcceptedIntended |
| proxy/index.js:127 | the web forwarding catch block calls `this.securePrefix`, which does not exist, so it throws instead of ending the response | any web request whose forwarding throws | `this.insecurePrefix(insecure)` as in the upgrade path | high, not executed | ProxyHosts.WebForwardFailure | ProxyHosts.WebForwardFailureIntended |

Other behaviour of the code that the model keeps as written:
- The 404 and 500 pages of the two ticket services are sent with status 200.
- The API's `internal error` goes out as HTML.
- `numTicketsVerified` counts every verify request, whether or not the ticket was accepted.
- The stats report names page visits `tickets`.
- The missing-type error message of `loadKeys` has its closing quote after the text.
