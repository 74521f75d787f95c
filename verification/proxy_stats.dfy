/** The gateway's traffic counters (proxy/index.js): totals of forwarded
    websockets and requests, the number of open websockets and its peak,
    and the 30-second tick that reports the window's deltas over MQTT. The
    counters are JavaScript BigInts, so they are unbounded integers here. */
module ProxyStats {
  import opened Wrappers

  /** The six counters, as a value. */
  datatype Counters = Counters(
    websocketCount: int, prevWebsocketCount: int,
    requestCount: int, prevRequestCount: int,
    activeWebsocketCount: int, maxActiveWebsocketCount: int)
  {
    /** Totals never fall behind their last reported value, and the peak
        never falls below the current number of open websockets. */
    predicate Valid() {
      prevWebsocketCount <= websocketCount && prevRequestCount <= requestCount
      && activeWebsocketCount <= maxActiveWebsocketCount
    }

    /** The state right after a reset: the window is empty. */
    predicate WindowStart() {
      websocketCount == prevWebsocketCount && requestCount == prevRequestCount
      && maxActiveWebsocketCount == activeWebsocketCount
    }
  }

  /** The events the proxying library emits. */
  datatype ProxyEvent = OpenEvent | CloseEvent | ProxyResEvent

  /** The packet body of a stats report (its timestamp and type left out). */
  datatype StatsReport = StatsReport(websockets: int, requests: int, activeWebsockets: int)

  const Initial := Counters(0, 0, 0, 0, 0, 0)

  function Max(a: int, b: int): int { if a < b then b else a }

  /** The 'open' handler. */
  function Opened(c: Counters): (d: Counters)
    ensures c.Valid() ==> d.Valid()
    ensures d.websocketCount == c.websocketCount + 1 && d.activeWebsocketCount == c.activeWebsocketCount + 1
    ensures d.maxActiveWebsocketCount >= d.activeWebsocketCount && d.maxActiveWebsocketCount >= c.maxActiveWebsocketCount
    ensures d.maxActiveWebsocketCount == c.maxActiveWebsocketCount || d.maxActiveWebsocketCount == d.activeWebsocketCount
    ensures d.requestCount == c.requestCount && d.prevWebsocketCount == c.prevWebsocketCount
            && d.prevRequestCount == c.prevRequestCount
  {
    var active := c.activeWebsocketCount + 1;
    c.(websocketCount := c.websocketCount + 1, activeWebsocketCount := active,
       maxActiveWebsocketCount := Max(c.maxActiveWebsocketCount, active))
  }

  /** The 'close' handler. */
  function Closed(c: Counters): (d: Counters)
    ensures c.Valid() ==> d.Valid()
    ensures d.activeWebsocketCount == c.activeWebsocketCount - 1
    ensures d.websocketCount == c.websocketCount && d.requestCount == c.requestCount
            && d.prevWebsocketCount == c.prevWebsocketCount && d.prevRequestCount == c.prevRequestCount
            && d.maxActiveWebsocketCount == c.maxActiveWebsocketCount
  {
    c.(activeWebsocketCount := c.activeWebsocketCount - 1)
  }

  /** The 'proxyRes' handler. */
  function ProxyResponded(c: Counters): (d: Counters)
    ensures c.Valid() ==> d.Valid()
    ensures d.requestCount == c.requestCount + 1
    ensures d.websocketCount == c.websocketCount && d.activeWebsocketCount == c.activeWebsocketCount
            && d.prevWebsocketCount == c.prevWebsocketCount && d.prevRequestCount == c.prevRequestCount
            && d.maxActiveWebsocketCount == c.maxActiveWebsocketCount
  {
    c.(requestCount := c.requestCount + 1)
  }

  function Step(c: Counters, e: ProxyEvent): Counters {
    match e
    case OpenEvent => Opened(c)
    case CloseEvent => Closed(c)
    case ProxyResEvent => ProxyResponded(c)
  }

  /** The counters after a sequence of events. */
  function Run(c: Counters, evs: seq<ProxyEvent>): Counters
    decreases |evs|
  {
    if evs == [] then c else Step(Run(c, evs[..|evs| - 1]), evs[|evs| - 1])
  }

  function Count(evs: seq<ProxyEvent>, e: ProxyEvent): nat
    decreases |evs|
  {
    if evs == [] then 0 else Count(evs[..|evs| - 1], e) + (if evs[|evs| - 1] == e then 1 else 0)
  }

  /** The timer's tick: without an MQTT client nothing is reported and
      nothing is reset, so the next report covers everything since the
      last reset. */
  function Ticked(c: Counters, hasClient: bool): (res: (Counters, Option<StatsReport>))
    ensures c.Valid() ==> res.0.Valid()
    ensures !hasClient <==> res.1.None?
    ensures !hasClient ==> res.0 == c
    ensures hasClient ==> res.0.WindowStart()
    ensures res.0.websocketCount == c.websocketCount && res.0.requestCount == c.requestCount
    ensures res.0.activeWebsocketCount == c.activeWebsocketCount
    ensures hasClient ==> res.1 == Some(StatsReport(c.websocketCount - c.prevWebsocketCount,
                                                    c.requestCount - c.prevRequestCount,
                                                    c.maxActiveWebsocketCount))
    ensures c.Valid() && hasClient ==> res.1.value.websockets >= 0 && res.1.value.requests >= 0
  {
    if hasClient then
      (c.(prevWebsocketCount := c.websocketCount, prevRequestCount := c.requestCount,
          maxActiveWebsocketCount := c.activeWebsocketCount),
       Some(StatsReport(c.websocketCount - c.prevWebsocketCount,
                        c.requestCount - c.prevRequestCount,
                        c.maxActiveWebsocketCount)))
    else (c, None)
  }

  /** Events change the totals by their counts, leave the reported values
      alone and keep the peak at or above every number of open websockets
      seen along the way. */
  lemma {:induction false} RunCounts(c: Counters, evs: seq<ProxyEvent>)
    requires c.Valid()
    ensures Run(c, evs).websocketCount == c.websocketCount + Count(evs, OpenEvent)
    ensures Run(c, evs).requestCount == c.requestCount + Count(evs, ProxyResEvent)
    ensures Run(c, evs).activeWebsocketCount
            == c.activeWebsocketCount + Count(evs, OpenEvent) - Count(evs, CloseEvent)
    ensures Run(c, evs).prevWebsocketCount == c.prevWebsocketCount
    ensures Run(c, evs).prevRequestCount == c.prevRequestCount
    ensures Run(c, evs).maxActiveWebsocketCount >= c.maxActiveWebsocketCount
    ensures forall k :: 0 <= k <= |evs| ==>
              Run(c, evs).maxActiveWebsocketCount >= Run(c, evs[..k]).activeWebsocketCount
    ensures Run(c, evs).Valid()
    decreases |evs|
  {
    if evs != [] {
      var init := evs[..|evs| - 1];
      RunCounts(c, init);
      forall k | 0 <= k <= |evs|
        ensures Run(c, evs).maxActiveWebsocketCount >= Run(c, evs[..k]).activeWebsocketCount
      {
        if k < |evs| {
          assert evs[..k] == init[..k];
        } else {
          assert evs[..k] == evs;
        }
      }
    } else {
      forall k | 0 <= k <= |evs|
        ensures Run(c, evs[..k]) == c
      {
        assert evs[..k] == [];
      }
    }
  }

  /** The peak is attained: it is the starting peak or the number of open
      websockets after some prefix of the events. */
  lemma {:induction false} RunPeakAttained(c: Counters, evs: seq<ProxyEvent>)
    ensures Run(c, evs).maxActiveWebsocketCount == c.maxActiveWebsocketCount
            || exists k :: 0 < k <= |evs| && Run(c, evs).maxActiveWebsocketCount == Run(c, evs[..k]).activeWebsocketCount
    decreases |evs|
  {
    if evs != [] {
      var init := evs[..|evs| - 1];
      RunPeakAttained(c, init);
      if Run(c, evs).maxActiveWebsocketCount != Run(c, init).maxActiveWebsocketCount {
        assert evs[..|evs|] == evs;
      } else if Run(c, init).maxActiveWebsocketCount != c.maxActiveWebsocketCount {
        var k :| 0 < k <= |init| && Run(c, init).maxActiveWebsocketCount == Run(c, init[..k]).activeWebsocketCount;
        assert evs[..k] == init[..k];
      }
    }
  }

  /** A report covering one window: from a reset, the report counts the
      websockets opened and the requests answered in the window, and its
      active figure is the window's peak of open websockets. */
  lemma WindowReport(c: Counters, evs: seq<ProxyEvent>)
    requires c.WindowStart()
    ensures Ticked(Run(c, evs), true).1 ==
              Some(StatsReport(Count(evs, OpenEvent), Count(evs, ProxyResEvent),
                               Run(c, evs).maxActiveWebsocketCount))
    ensures forall k :: 0 <= k <= |evs| ==>
              Run(c, evs).maxActiveWebsocketCount >= Run(c, evs[..k]).activeWebsocketCount
    ensures exists k :: 0 <= k <= |evs| &&
              Run(c, evs).maxActiveWebsocketCount == Run(c, evs[..k]).activeWebsocketCount
  {
    RunCounts(c, evs);
    RunPeakAttained(c, evs);
    if Run(c, evs).maxActiveWebsocketCount == c.maxActiveWebsocketCount {
      assert evs[..0] == [];
    }
  }

  /** The counters as the proxy process holds them. */
  class StatsCounters {
    var websocketCount: int
    var prevWebsocketCount: int
    var requestCount: int
    var prevRequestCount: int
    var activeWebsocketCount: int
    var maxActiveWebsocketCount: int

    function State(): Counters
      reads this
    {
      Counters(websocketCount, prevWebsocketCount, requestCount, prevRequestCount,
               activeWebsocketCount, maxActiveWebsocketCount)
    }

    ghost predicate Valid()
      reads this
    {
      State().Valid()
    }

    constructor ()
      ensures Valid() && State() == Initial && State().WindowStart()
    {
      websocketCount, prevWebsocketCount := 0, 0;
      requestCount, prevRequestCount := 0, 0;
      activeWebsocketCount, maxActiveWebsocketCount := 0, 0;
    }

    method Open()
      requires Valid()
      modifies this
      ensures Valid() && State() == Opened(old(State()))
    {
      websocketCount := websocketCount + 1;
      activeWebsocketCount := activeWebsocketCount + 1;
      maxActiveWebsocketCount := Max(maxActiveWebsocketCount, activeWebsocketCount);
    }

    method Close()
      requires Valid()
      modifies this
      ensures Valid() && State() == Closed(old(State()))
    {
      activeWebsocketCount := activeWebsocketCount - 1;
    }

    method ProxyRes()
      requires Valid()
      modifies this
      ensures Valid() && State() == ProxyResponded(old(State()))
    {
      requestCount := requestCount + 1;
    }

    /** The interval callback; `hasClient` says whether an MQTT client exists. */
    method Tick(hasClient: bool) returns (report: Option<StatsReport>)
      requires Valid()
      modifies this
      ensures Valid() && (State(), report) == Ticked(old(State()), hasClient)
    {
      if hasClient {
        report := Some(StatsReport(websocketCount - prevWebsocketCount,
                                   requestCount - prevRequestCount,
                                   maxActiveWebsocketCount));
        prevWebsocketCount := websocketCount;
        prevRequestCount := requestCount;
        maxActiveWebsocketCount := activeWebsocketCount;
      } else {
        report := None;
      }
    }
  }

  /** JavaScript truthiness of a configuration value. */
  datatype ConfigValue = CNull | CBool(b: bool) | CNumber(n: int) | CString(s: string) | CObject

  function Truthy(v: ConfigValue): bool {
    match v
    case CNull => false
    case CBool(b) => b
    case CNumber(n) => n != 0
    case CString(s) => s != ""
    case CObject => true
  }

  /** Whether startup creates an MQTT client: an `mqtt` section must exist,
      and the top-level `enable` field (not one inside `mqtt`) must be
      absent or truthy. */
  function HasMqttClient(hasMqttSection: bool, enable: Option<ConfigValue>): (b: bool)
    ensures b ==> hasMqttSection
    ensures hasMqttSection && enable.None? ==> b
    ensures enable == Some(CBool(false)) ==> !b
  {
    hasMqttSection && (enable.None? || Truthy(enable.value))
  }
}
