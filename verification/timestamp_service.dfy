/** The running timestamp service of timestamp/index.js: the key pairs it
    serves, the ten-minute rotation of the current pair, the ticket
    counters and their five-minute report, and the route handlers on top
    of the request decisions of `TicketApi`. Timers, key generation,
    signing and the MQTT logger are outside the model: the rotation tick
    receives the current time and the pair `createKeyPair` would create,
    and the signature check is a verdict on the public key. */
module TimestampService {
  import opened Wrappers
  import opened TicketApi
  import opened TimestampKeys
  import JsText
  import LoggerSinks

  // ---------------------------------------------------------------------
  // The counters and their report

  /** `numTicketsIssued`, `numTicketsVerified`, `numPageVisits` and the
      values last reported. They are BigInts, so unbounded here. */
  datatype TicketCounters = TicketCounters(
    issued: int, issuedPrev: int, verified: int, verifiedPrev: int, visits: int, visitsPrev: int)
  {
    /** No total falls behind its last reported value. */
    predicate Valid() {
      issuedPrev <= issued && verifiedPrev <= verified && visitsPrev <= visits
    }

    /** Right after a report: the window is empty. */
    predicate WindowStart() {
      issuedPrev == issued && verifiedPrev == verified && visitsPrev == visits
    }
  }

  const NoCounts := TicketCounters(0, 0, 0, 0, 0, 0)

  /** What the handlers count: a home page visit, a ticket issued, a
      verify request. */
  datatype ServiceEvent = PageVisited | TicketIssued | TicketVerified

  /** The stats message: the window's counts and the totals. The page
      visits go out under the key `tickets`. */
  datatype StatsReport = StatsReport(
    issued: int, issuedTotal: int, verified: int, verifiedTotal: int, tickets: int, visitsTotal: int)

  function Counted(c: TicketCounters, e: ServiceEvent): TicketCounters {
    match e
    case PageVisited => c.(visits := c.visits + 1)
    case TicketIssued => c.(issued := c.issued + 1)
    case TicketVerified => c.(verified := c.verified + 1)
  }

  /** The counters after a sequence of handled requests. */
  function CountAll(c: TicketCounters, evs: seq<ServiceEvent>): TicketCounters
    decreases |evs|
  {
    if evs == [] then c else Counted(CountAll(c, evs[..|evs| - 1]), evs[|evs| - 1])
  }

  function Occurrences(evs: seq<ServiceEvent>, e: ServiceEvent): nat
    decreases |evs|
  {
    if evs == [] then 0 else Occurrences(evs[..|evs| - 1], e) + (if evs[|evs| - 1] == e then 1 else 0)
  }

  /** The stats tick: report the differences to the last report and the
      totals, then remember the totals. */
  function StatsTicked(c: TicketCounters): (res: (TicketCounters, StatsReport))
    ensures res.0.WindowStart() && res.0.Valid()
    ensures res.0.issued == c.issued && res.0.verified == c.verified && res.0.visits == c.visits
    ensures res.1.issuedTotal == c.issued && res.1.verifiedTotal == c.verified && res.1.visitsTotal == c.visits
    ensures c.Valid() ==> res.1.issued >= 0 && res.1.verified >= 0 && res.1.tickets >= 0
  {
    (c.(issuedPrev := c.issued, verifiedPrev := c.verified, visitsPrev := c.visits),
     StatsReport(c.issued - c.issuedPrev, c.issued, c.verified - c.verifiedPrev, c.verified,
                 c.visits - c.visitsPrev, c.visits))
  }

  /** Handled requests raise each total by the number of its events and
      leave the reported values alone. */
  lemma {:induction false} CountAllCounts(c: TicketCounters, evs: seq<ServiceEvent>)
    ensures CountAll(c, evs).issued == c.issued + Occurrences(evs, TicketIssued)
    ensures CountAll(c, evs).verified == c.verified + Occurrences(evs, TicketVerified)
    ensures CountAll(c, evs).visits == c.visits + Occurrences(evs, PageVisited)
    ensures CountAll(c, evs).issuedPrev == c.issuedPrev && CountAll(c, evs).verifiedPrev == c.verifiedPrev
    ensures CountAll(c, evs).visitsPrev == c.visitsPrev
    ensures c.Valid() ==> CountAll(c, evs).Valid()
    decreases |evs|
  {
    if evs != [] {
      CountAllCounts(c, evs[..|evs| - 1]);
    }
  }

  /** Each report counts exactly the requests of its window. */
  lemma WindowCounts(c: TicketCounters, evs: seq<ServiceEvent>)
    requires c.WindowStart()
    ensures var r := StatsTicked(CountAll(c, evs)).1;
            r.issued == Occurrences(evs, TicketIssued) && r.verified == Occurrences(evs, TicketVerified)
            && r.tickets == Occurrences(evs, PageVisited)
  {
    CountAllCounts(c, evs);
  }

  // ---------------------------------------------------------------------
  // The stats tick as written

  /** The arguments of the tick's `logger.stats(...)` call: each window
      count in an object of its own, followed by a text with its total. */
  function StatsArguments(c: TicketCounters): seq<LoggerSinks.JsValue> {
    [LoggerSinks.JsObject([("issued", LoggerSinks.JsNumber(c.issued - c.issuedPrev))]),
     LoggerSinks.JsString(" issued (" + JsText.IntToString(c.issued) + " total),"),
     LoggerSinks.JsObject([("verified", LoggerSinks.JsNumber(c.verified - c.verifiedPrev))]),
     LoggerSinks.JsString(" verified (" + JsText.IntToString(c.verified) + " total),"),
     LoggerSinks.JsObject([("tickets", LoggerSinks.JsNumber(c.visits - c.visitsPrev))]),
     LoggerSinks.JsString(" visits (" + JsText.IntToString(c.visits) + " total),")]
  }

  /** One more argument is absorbed into the stats object built so far. */
  lemma StatsObjectStep(args: seq<LoggerSinks.JsValue>, a: LoggerSinks.JsValue, stats: seq<(string, LoggerSinks.JsValue)>)
    requires LoggerSinks.StatsObject(args) == Wrappers.Success(stats)
    ensures LoggerSinks.StatsObject(args + [a]) == LoggerSinks.Absorb(stats, a)
  {
    assert (args + [a])[..|args|] == args;
  }

  /** An object argument assigns its one entry; the text after it adds
      nothing. */
  lemma StatsObjectPair(args: seq<LoggerSinks.JsValue>, stats: seq<(string, LoggerSinks.JsValue)>,
                        k: string, v: LoggerSinks.JsValue, text: string)
    requires LoggerSinks.StatsObject(args) == Wrappers.Success(stats) && k != ""
    ensures LoggerSinks.StatsObject(args + [LoggerSinks.JsObject([(k, v)]), LoggerSinks.JsString(text)])
            == Wrappers.Success(LoggerSinks.Assign(stats, k, v))
  {
    var obj := LoggerSinks.JsObject([(k, v)]);
    StatsObjectStep(args, obj, stats);
    StatsObjectStep(args + [obj], LoggerSinks.JsString(text), LoggerSinks.Assign(stats, k, v));
    assert args + [obj] + [LoggerSinks.JsString(text)] == args + [obj, LoggerSinks.JsString(text)];
  }

  /** Assigning a second, different key to a one-entry object appends it. */
  lemma AssignSecond(k0: string, v0: LoggerSinks.JsValue, k: string, v: LoggerSinks.JsValue)
    requires k0 != k
    ensures LoggerSinks.Assign([(k0, v0)], k, v) == [(k0, v0), (k, v)]
  {
    var p := [(k0, v0)];
    assert p[1..] == [];
    assert LoggerSinks.Assign(p, k, v) == [p[0]] + LoggerSinks.Assign(p[1..], k, v);
  }

  /** Assigning a third, different key to a two-entry object appends it. */
  lemma AssignThird(k0: string, v0: LoggerSinks.JsValue, k1: string, v1: LoggerSinks.JsValue,
                    k: string, v: LoggerSinks.JsValue)
    requires k0 != k && k1 != k
    ensures LoggerSinks.Assign([(k0, v0), (k1, v1)], k, v) == [(k0, v0), (k1, v1), (k, v)]
  {
    var p := [(k0, v0), (k1, v1)];
    assert p[1..] == [(k1, v1)];
    AssignSecond(k1, v1, k, v);
    assert LoggerSinks.Assign(p, k, v) == [p[0]] + LoggerSinks.Assign(p[1..], k, v);
  }

  /** The stats object the MQTT sink extracts from a tick: the three window
      counts under their names, in the order they are logged. */
  function StatsAssigned(c: TicketCounters): seq<(string, LoggerSinks.JsValue)> {
    [("issued", LoggerSinks.JsNumber(c.issued - c.issuedPrev)),
     ("verified", LoggerSinks.JsNumber(c.verified - c.verifiedPrev)),
     ("tickets", LoggerSinks.JsNumber(c.visits - c.visitsPrev))]
  }

  /** The texts add nothing: the MQTT sink extracts exactly the three
      counts from the tick's arguments. */
  lemma StatsArgumentsObject(c: TicketCounters)
    ensures LoggerSinks.StatsObject(StatsArguments(c)) == Wrappers.Success(StatsAssigned(c))
  {
    var n0 := LoggerSinks.JsNumber(c.issued - c.issuedPrev);
    var n1 := LoggerSinks.JsNumber(c.verified - c.verifiedPrev);
    var n2 := LoggerSinks.JsNumber(c.visits - c.visitsPrev);
    var args := StatsArguments(c);
    var t0, t1, t2 := args[1].s, args[3].s, args[5].s;
    var p0 := [LoggerSinks.JsObject([("issued", n0)]), LoggerSinks.JsString(t0)];
    var p1 := [LoggerSinks.JsObject([("verified", n1)]), LoggerSinks.JsString(t1)];
    var p2 := [LoggerSinks.JsObject([("tickets", n2)]), LoggerSinks.JsString(t2)];
    assert args == p0 + p1 + p2;
    StatsObjectPair([], [], "issued", n0, t0);
    assert [] + p0 == p0;
    assert LoggerSinks.Assign([], "issued", n0) == [("issued", n0)];
    StatsObjectPair(p0, [("issued", n0)], "verified", n1, t1);
    AssignSecond("issued", n0, "verified", n1);
    StatsObjectPair(p0 + p1, [("issued", n0), ("verified", n1)], "tickets", n2, t2);
    AssignThird("issued", n0, "verified", n1, "tickets", n2);
  }

  /** The extracted object's keys: the three counts' names, once each. */
  lemma StatsAssignedKeys(c: TicketCounters)
    ensures LoggerSinks.Keys(StatsAssigned(c)) == ["issued", "verified", "tickets"]
    ensures LoggerSinks.UniqueKeys(StatsAssigned(c))
  {
  }

  /** The extracted object's values: the window counts of the report. */
  lemma StatsAssignedValues(c: TicketCounters)
    ensures LoggerSinks.Lookup(StatsAssigned(c), "issued") == Some(LoggerSinks.JsNumber(StatsTicked(c).1.issued))
    ensures LoggerSinks.Lookup(StatsAssigned(c), "verified") == Some(LoggerSinks.JsNumber(StatsTicked(c).1.verified))
    ensures LoggerSinks.Lookup(StatsAssigned(c), "tickets") == Some(LoggerSinks.JsNumber(StatsTicked(c).1.tickets))
  {
    var s := StatsAssigned(c);
    assert "issued" != "verified" && "issued" != "tickets" && "verified" != "tickets";
    assert s[1..][1..] == [s[2]];
    assert LoggerSinks.Lookup(s[1..][1..], "tickets") == Some(s[2].1);
    assert LoggerSinks.Lookup(s[1..], "tickets") == LoggerSinks.Lookup(s[1..][1..], "tickets");
    assert LoggerSinks.Lookup(s[1..], "verified") == Some(s[1].1);
  }

  /** The tick as written: `logger.stats` reaches the MQTT sink, which
      builds its stats message before the reset; that message is refused
      unless a reserved field is present. The error passes up through
      `logger.stats` and out of the interval callback, where nothing catches
      it, so the process ends at the first tick with the counters untouched. */
  function StatsTickedAsWritten(c: TicketCounters, loggerName: string, isoTime: string)
    : (res: (TicketCounters, Result<StatsReport, string>))
    ensures res.1.Failure? ==> res.0 == c
    ensures res.1.Success? ==> res.0 == StatsTicked(c).0 && res.1.value == StatsTicked(c).1
  {
    match LoggerSinks.StatsObject(StatsArguments(c))
    case Failure(e) => (c, Failure(e))
    case Success(stats) =>
      match LoggerSinks.StatsMessageAsWritten(loggerName, stats, isoTime)
      case Failure(e) => (c, Failure(e))
      case Success(_) => (StatsTicked(c).0, Success(StatsTicked(c).1))
  }

  /** As written every tick throws before the reset. The exception is
      uncaught, so the service stops at its first stats tick without having
      reset any counter or published any report. */
  lemma StatsTickNeverResetsAsWritten(c: TicketCounters, loggerName: string, isoTime: string)
    ensures StatsTickedAsWritten(c, loggerName, isoTime) == (c, Failure(LoggerSinks.DisallowedMessage))
  {
    StatsArgumentsObject(c);
    StatsAssignedKeys(c);
    assert forall f :: f in LoggerSinks.DisallowedFields ==> f !in LoggerSinks.Keys(StatsAssigned(c));
  }

  /** With the field check the right way round, the tick's stats object is
      accepted and the message carries the three window counts, so the
      report of `StatsTicked` goes out and the window is restarted. */
  lemma StatsTickAcceptedIntended(c: TicketCounters, loggerName: string, isoTime: string)
    ensures var stats := LoggerSinks.StatsObject(StatsArguments(c));
            && stats.Success?
            && LoggerSinks.StatsMessage(loggerName, stats.value, isoTime).Success?
            && var p := LoggerSinks.StatsMessage(loggerName, stats.value, isoTime).value;
               && LoggerSinks.Lookup(p, "issued") == Some(LoggerSinks.JsNumber(StatsTicked(c).1.issued))
               && LoggerSinks.Lookup(p, "verified") == Some(LoggerSinks.JsNumber(StatsTicked(c).1.verified))
               && LoggerSinks.Lookup(p, "tickets") == Some(LoggerSinks.JsNumber(StatsTicked(c).1.tickets))
  {
    StatsArgumentsObject(c);
    StatsAssignedKeys(c);
    StatsAssignedValues(c);
    var stats := StatsAssigned(c);
    assert forall f :: f in LoggerSinks.DisallowedFields ==> f !in LoggerSinks.Keys(stats);
    assert "issued" in LoggerSinks.Keys(stats) && "verified" in LoggerSinks.Keys(stats) && "tickets" in LoggerSinks.Keys(stats);
    LoggerSinks.StatsMessageFields(loggerName, stats, isoTime);
  }

  // ---------------------------------------------------------------------
  // The served key pairs

  /** `keysMap.get(uuid)`: the index of the pair with that uuid, or -1. */
  function FindKey(keys: seq<KeyPair>, u: string): (i: int)
    ensures -1 <= i < |keys|
    ensures i < 0 <==> forall k :: 0 <= k < |keys| ==> keys[k].uuid != u
    ensures i >= 0 ==> keys[i].uuid == u
  {
    if keys == [] then -1
    else if keys[|keys| - 1].uuid == u then |keys| - 1
    else FindKey(keys[..|keys| - 1], u)
  }

  /** With distinct uuids the pair found is the only one with its uuid. */
  lemma FindKeyUnique(keys: seq<KeyPair>, k: nat)
    requires UniqueKeys(keys) && k < |keys|
    ensures FindKey(keys, keys[k].uuid) == k
  {
    var i := FindKey(keys, keys[k].uuid);
    assert keys[i].uuid == keys[k].uuid;
  }

  /** What the service keeps about its pairs: distinct uuids, and the
      current pair is the only one holding a private key. */
  predicate Serving(keys: seq<KeyPair>, current: nat) {
    current < |keys| && UniqueKeys(keys)
    && forall k :: 0 <= k < |keys| ==> (keys[k].privateKeyPem.Some? <==> k == current)
  }

  /** The rotation tick: when the current pair is older than the maximum
      age, the new pair is stored under its uuid (in place when the uuid is
      already known, appended otherwise), the old current pair releases its
      private key, and the new pair becomes current. */
  function Rotated(keys: seq<KeyPair>, current: nat, now: int, maxAge: int, created: NewKeyPair)
    : (r: (seq<KeyPair>, nat))
    requires current < |keys|
    ensures r.1 < |r.0| && (|r.0| > |keys| ==> r.1 == |keys|)
    ensures Serving(keys, current) ==> Serving(r.0, r.1)
    ensures !TooOld(keys[current].time, now, maxAge) ==> r == (keys, current)
    ensures TooOld(keys[current].time, now, maxAge) ==> r.0[r.1] == created.Pair()
    ensures |keys| <= |r.0| <= |keys| + 1
    ensures forall k :: 0 <= k < |keys| ==> r.0[k].uuid == keys[k].uuid
    ensures forall k :: 0 <= k < |keys| && keys[k].uuid != created.uuid ==> r.0[k].publicKeyPem == keys[k].publicKeyPem
  {
    if !TooOld(keys[current].time, now, maxAge) then (keys, current)
    else
      var released := keys[current := keys[current].(privateKeyPem := None)];
      var i := FindKey(keys, created.uuid);
      if i < 0 then (released + [created.Pair()], |keys|)
      else (released[i := created.Pair()], i)
  }

  /** The current pair after a rotation tick with a pair created at the
      tick's time is young enough not to be replaced again at that time. */
  lemma RotationRenews(keys: seq<KeyPair>, current: nat, now: int, maxAge: int, created: NewKeyPair)
    requires current < |keys| && created.time == now && maxAge >= 0
    ensures var r := Rotated(keys, current, now, maxAge, created);
            !TooOld(r.0[r.1].time, now, maxAge) && Rotated(r.0, r.1, now, maxAge, created) == r
  {
  }

  /** `verifyTicket` of timestamp/index.js: a schema error first, then the
      cert the ticket names must be one of the served pairs, then the
      signature verdict on that pair's public key. */
  function VerifyWithKeys(schema: SchemaResult, keys: seq<KeyPair>, cert: string, signatureValid: string -> bool)
    : (error: Option<string>)
    ensures error.None? <==> schema.SchemaValid? && FindKey(keys, cert) >= 0 && signatureValid(keys[FindKey(keys, cert)].publicKeyPem)
    ensures schema.SchemaValid? && FindKey(keys, cert) < 0 ==> error == Some("Unknown cert id")
    ensures schema.SchemaInvalid? || FindKey(keys, cert) >= 0 ==>
              error == VerifyTicket(schema, FindKey(keys, cert) >= 0 && signatureValid(keys[FindKey(keys, cert)].publicKeyPem))
  {
    if schema.SchemaInvalid? then VerifyTicket(schema, false)
    else
      var i := FindKey(keys, cert);
      if i < 0 then Some("Unknown cert id")
      else VerifyTicket(schema, signatureValid(keys[i].publicKeyPem))
  }

  /** A rotation does not change the verdict on any ticket whose cert is
      not the new pair's uuid: retired pairs keep their public keys. */
  lemma RotationKeepsVerdicts(keys: seq<KeyPair>, current: nat, now: int, maxAge: int, created: NewKeyPair,
                              schema: SchemaResult, cert: string, signatureValid: string -> bool)
    requires Serving(keys, current) && cert != created.uuid
    ensures VerifyWithKeys(schema, Rotated(keys, current, now, maxAge, created).0, cert, signatureValid)
            == VerifyWithKeys(schema, keys, cert, signatureValid)
  {
    var r := Rotated(keys, current, now, maxAge, created);
    var i := FindKey(keys, cert);
    var j := FindKey(r.0, cert);
    if i >= 0 {
      FindKeyUnique(r.0, i);
      assert j == i;
    } else {
      forall k | 0 <= k < |r.0|
        ensures r.0[k].uuid != cert
      {
        if k >= |keys| {
          assert r.0[k] == created.Pair();
        }
      }
    }
  }

  /** The key route: a uuid in the path selects that pair, no uuid (or an
      empty one) the current pair; an unknown uuid is answered 404. */
  function CertResponse(keys: seq<KeyPair>, current: nat, uuid: string): (r: Response)
    requires current < |keys|
    ensures r.contentType == TextPlain
    ensures r.status == 404 <==> uuid != "" && forall k :: 0 <= k < |keys| ==> keys[k].uuid != uuid
    ensures r.status == 404 ==> r.body == Text("Unknown key id")
    ensures r.status != 404 ==>
              && r.status == 200
              && exists k :: 0 <= k < |keys| && r.body == Text(keys[k].publicKeyPem)
                             && (if uuid == "" then k == current else keys[k].uuid == uuid)
  {
    var i := if uuid == "" then current else FindKey(keys, uuid);
    if i < 0 then Response(404, TextPlain, Text("Unknown key id"))
    else Response(200, TextPlain, Text(keys[i].publicKeyPem))
  }

  /** A served pair's public key is available under its uuid. */
  lemma CertServed(keys: seq<KeyPair>, current: nat, k: nat)
    requires Serving(keys, current) && k < |keys| && keys[k].uuid != ""
    ensures CertResponse(keys, current, keys[k].uuid) == Response(200, TextPlain, Text(keys[k].publicKeyPem))
  {
    FindKeyUnique(keys, k);
  }

  // ---------------------------------------------------------------------
  // The service

  /** The module-level state of timestamp/index.js once started. */
  class Service {
    /** `keysMap`, in insertion order. */
    var keys: seq<KeyPair>
    /** The index of `currentKeyPair`. */
    var current: nat
    var issued: int
    var issuedPrev: int
    var verified: int
    var verifiedPrev: int
    var visits: int
    var visitsPrev: int
    /** `keyPairMaxAge` and `maxNumCustomDataBytes`. */
    const maxAge: int
    const limit: Option<int>

    function Counters(): TicketCounters
      reads this
    {
      TicketCounters(issued, issuedPrev, verified, verifiedPrev, visits, visitsPrev)
    }

    ghost predicate Valid()
      reads this
    {
      Serving(keys, current) && Counters().Valid()
    }

    /** The state after `loadKeys`, before any request. */
    constructor (loaded: LoadedKeys, maxAge: int, limit: Option<int>)
      requires Serving(loaded.keys, loaded.newest)
      ensures Valid() && keys == loaded.keys && current == loaded.newest
      ensures Counters() == NoCounts && this.maxAge == maxAge && this.limit == limit
    {
      keys, current := loaded.keys, loaded.newest;
      issued, issuedPrev, verified, verifiedPrev, visits, visitsPrev := 0, 0, 0, 0, 0, 0;
      this.maxAge, this.limit := maxAge, limit;
    }

    /** The ten-minute rotation callback. */
    method RotationTick(now: int, created: NewKeyPair)
      requires Valid()
      modifies this
      ensures (keys, current) == Rotated(old(keys), old(current), now, maxAge, created)
      ensures Counters() == old(Counters()) && Valid()
    {
      if now - keys[current].time > maxAge {
        var i := FindKey(keys, created.uuid);
        var index: nat := if i < 0 then |keys| else i;
        ghost var released := keys[current := keys[current].(privateKeyPem := None)];
        keys := if i < 0 then keys + [created.Pair()] else keys[i := created.Pair()];
        // releasing the old pair's key touches the map only when the new
        // pair did not replace it
        if current != index {
          keys := keys[current := keys[current].(privateKeyPem := None)];
        }
        assert keys == if i < 0 then released + [created.Pair()] else released[i := created.Pair()];
        current := index;
      }
    }

    /** The five-minute stats callback. */
    method StatsTick() returns (report: StatsReport)
      requires Valid()
      modifies this
      ensures (Counters(), report) == StatsTicked(old(Counters()))
      ensures keys == old(keys) && current == old(current) && Valid()
    {
      report := StatsReport(issued - issuedPrev, issued, verified - verifiedPrev, verified,
                            visits - visitsPrev, visits);
      issuedPrev, verifiedPrev, visitsPrev := issued, verified, visits;
    }

    /** `GET /`: the home page, and one more visit. */
    method Home() returns (r: Response)
      requires Valid()
      modifies this
      ensures r == Response(200, Html, PageBody(HomePage))
      ensures Counters() == Counted(old(Counters()), PageVisited)
      ensures keys == old(keys) && current == old(current) && Valid()
    {
      r := Response(200, Html, PageBody(HomePage));
      visits := visits + 1;
    }

    /** `GET /v1/api/cert/:uuid?`. */
    method Cert(uuid: string) returns (r: Response)
      requires Valid()
      ensures r == CertResponse(keys, current, uuid)
    {
      var i := if uuid == "" then current else FindKey(keys, uuid);
      if i < 0 {
        r := Response(404, TextPlain, Text("Unknown key id"));
        return;
      }
      r := Response(200, TextPlain, Text(keys[i].publicKeyPem));
    }

    /** `GET /v1/api/ticket`, returning after the 414 answer: a ticket is
      signed with the current pair, which holds the only private key, and
      counted exactly when it is sent. `cert` is the uuid the ticket names. */
    method IssueTicket(url: string) returns (run: TicketRun, cert: Option<string>)
      requires Valid()
      modifies this
      ensures keys == old(keys) && current == old(current) && Valid()
      ensures run == Ticket(url, limit)
      ensures cert.Some? <==> run.signed
      ensures cert.Some? ==> cert.value == keys[current].uuid && keys[current].privateKeyPem.Some?
      ensures Counters() == if run.signed then Counted(old(Counters()), TicketIssued) else old(Counters())
    {
      run := Ticket(url, limit);
      if !run.signed {
        cert := None;
        return;
      }
      cert := Some(keys[current].uuid);
      issued := issued + 1;
    }

    /** `POST /v1/api/verify`: every request is counted, whatever the
      verdict. */
    method Verify(schema: SchemaResult, ticketCert: string, signatureValid: string -> bool) returns (r: Response)
      requires Valid()
      modifies this
      ensures r == VerifyResponse(VerifyWithKeys(schema, keys, ticketCert, signatureValid))
      ensures Counters() == Counted(old(Counters()), TicketVerified)
      ensures keys == old(keys) && current == old(current) && Valid()
    {
      var error := VerifyWithKeys(schema, keys, ticketCert, signatureValid);
      r := VerifyResponse(error);
      verified := verified + 1;
    }
  }

  /** Startup: load the keys, then serve them. Loading fails as `loadKeys`
      throws. */
  method Start(files: seq<KeyFile>, now: int, maxAge: int, limit: Option<int>, created: NewKeyPair,
               read: string -> string)
    returns (r: Result<Service, string>)
    ensures r.Success? <==> LoadKeys(files, now, maxAge, created, read).Success?
    ensures r.Failure? ==> r == Failure(LoadKeys(files, now, maxAge, created, read).error)
    ensures r.Success? ==> fresh(r.value) && r.value.Valid() && r.value.Counters() == NoCounts
                           && r.value.keys == LoadKeys(files, now, maxAge, created, read).value.keys
                           && r.value.current == LoadKeys(files, now, maxAge, created, read).value.newest
  {
    var loaded := LoadKeysFromFiles(files, now, maxAge, created, read);
    if loaded.Failure? {
      return Failure(loaded.error);
    }
    LoadKeysPrivate(files, now, maxAge, created, read);
    var service := new Service(loaded.value, maxAge, limit);
    r := Success(service);
  }
}
