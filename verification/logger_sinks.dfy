/** What the sinks do with one logging call (mqtt-logger/index.mjs):
    `MessageArguments` caches the message text and the time text,
    `_extractStatsObjectFromArgs` collects named values, `MqttStatsMessage`
    validates and builds a stats packet, and `_paddedAndColoredName` pads a
    logger name. Logged values are modelled by a small JSON-like datatype;
    `util.inspect` and the colour functions are parameters. */
module LoggerSinks {
  import opened Wrappers
  import opened JsText

  /** A value passed to `log(...)` or `stats(...)`. The properties of an
      object are listed in the order `Object.keys` reports them; numbers are
      integers. */
  datatype JsValue =
    | JsNull
    | JsUndefined
    | JsBool(b: bool)
    | JsNumber(n: int)
    | JsString(s: string)
    | JsArray(items: seq<JsValue>)
    | JsObject(props: seq<(string, JsValue)>)

  /** The string keys of a property list, in order. */
  function Keys(props: seq<(string, JsValue)>): (r: seq<string>)
    ensures |r| == |props| && forall i :: 0 <= i < |props| ==> r[i] == props[i].0
  {
    if props == [] then [] else [props[0].0] + Keys(props[1..])
  }

  /** No key occurs twice, as in every JavaScript object. */
  predicate UniqueKeys(props: seq<(string, JsValue)>) {
    forall i, j :: 0 <= i < j < |props| ==> props[i].0 != props[j].0
  }

  /** `obj[k]`: the value of the first property named `k`. */
  function Lookup(props: seq<(string, JsValue)>, k: string): (r: Option<JsValue>)
    ensures r.None? <==> k !in Keys(props)
  {
    if props == [] then None
    else if props[0].0 == k then Some(props[0].1)
    else Lookup(props[1..], k)
  }

  /** `obj[k] = v`: an existing property keeps its place, a new one is
      appended. (JavaScript lists integer-like keys such as `"2"` first
      whatever the insertion order; only the field order of published JSON
      would differ, and publishing is not modelled.) */
  function Assign(props: seq<(string, JsValue)>, k: string, v: JsValue): (r: seq<(string, JsValue)>)
    ensures Lookup(r, k) == Some(v)
    ensures forall j :: j != k ==> Lookup(r, j) == Lookup(props, j)
  {
    if props == [] then [(k, v)]
    else if props[0].0 == k then [(k, v)] + props[1..]
    else [props[0]] + Assign(props[1..], k, v)
  }

  /** An assigned key keeps its place or comes last. */
  lemma {:induction false} AssignKeys(props: seq<(string, JsValue)>, k: string, v: JsValue)
    ensures Keys(Assign(props, k, v)) == if k in Keys(props) then Keys(props) else Keys(props) + [k]
  {
    if props != [] && props[0].0 != k {
      AssignKeys(props[1..], k, v);
      assert Keys(props) == [props[0].0] + Keys(props[1..]);
    }
  }

  /** Assigning keeps the keys unique. */
  lemma AssignUnique(props: seq<(string, JsValue)>, k: string, v: JsValue)
    requires UniqueKeys(props)
    ensures UniqueKeys(Assign(props, k, v))
  {
    var r := Assign(props, k, v);
    AssignKeys(props, k, v);
    forall i, j | 0 <= i < j < |r| ensures r[i].0 != r[j].0 {
      assert Keys(r)[i] == r[i].0 && Keys(r)[j] == r[j].0;
      assert Keys(props)[i] == props[i].0;
      if j < |props| {
        assert Keys(props)[j] == props[j].0;
      }
    }
  }

  // -----------------------------------------------------------------------
  // `_extractStatsObjectFromArgs`

  /** The error `Object.keys(null)` throws. */
  const NullToObject := "TypeError: Cannot convert undefined or null to object"

  /** `Object.keys(arg)[0]` with its value, for an argument whose `typeof` is
      `object`; `None` for any other argument and for an object without
      keys. An array's first key is `"0"`. */
  function FirstEntry(arg: JsValue): (r: Result<Option<(string, JsValue)>, string>)
    ensures r.Failure? <==> arg == JsNull
  {
    match arg
    case JsNull => Failure(NullToObject)
    case JsArray(items) => Success(if items == [] then None else Some(("0", items[0])))
    case JsObject(props) => Success(if props == [] then None else Some(props[0]))
    case _ => Success(None)
  }

  /** One argument of the `forEach`: a first entry with a non-empty key is
      copied into the stats object. */
  function Absorb(stats: seq<(string, JsValue)>, arg: JsValue): Result<seq<(string, JsValue)>, string> {
    match FirstEntry(arg)
    case Failure(e) => Failure(e)
    case Success(entry) =>
      if entry.Some? && |entry.value.0| > 0 then Success(Assign(stats, entry.value.0, entry.value.1))
      else Success(stats)
  }

  /** The stats object built from the arguments, or the error thrown. */
  function StatsObject(args: seq<JsValue>): Result<seq<(string, JsValue)>, string> {
    if args == [] then Success([])
    else
      match StatsObject(args[..|args| - 1])
      case Failure(e) => Failure(e)
      case Success(stats) => Absorb(stats, args[|args| - 1])
  }

  /** `_extractStatsObjectFromArgs`. */
  method ExtractStatsObject(args: seq<JsValue>) returns (r: Result<seq<(string, JsValue)>, string>)
    ensures r == StatsObject(args)
  {
    var stats: seq<(string, JsValue)> := [];
    for i := 0 to |args|
      invariant StatsObject(args[..i]) == Success(stats)
    {
      assert args[..i + 1][..i] == args[..i];
      var arg := args[i];
      var entry := FirstEntry(arg);
      if entry.Failure? {
        StatsObjectFailurePersists(args, i + 1);
        return Failure(entry.error);
      }
      if entry.value.Some? && |entry.value.value.0| > 0 {
        stats := Assign(stats, entry.value.value.0, entry.value.value.1);
      }
    }
    assert args[..|args|] == args;
    r := Success(stats);
  }

  /** Once an argument has thrown, the whole call throws that error. */
  lemma {:induction false} StatsObjectFailurePersists(args: seq<JsValue>, n: nat)
    requires n <= |args| && StatsObject(args[..n]).Failure?
    ensures StatsObject(args) == StatsObject(args[..n])
    decreases |args| - n
  {
    if n < |args| {
      assert args[..n + 1][..n] == args[..n];
      StatsObjectFailurePersists(args, n + 1);
    } else {
      assert args[..n] == args;
    }
  }

  /** The named value an argument contributes, if any. */
  function Named(arg: JsValue): Option<(string, JsValue)> {
    match FirstEntry(arg)
    case Success(Some(e)) => if |e.0| > 0 then Some(e) else None
    case _ => None
  }

  /** The value the last argument naming `k` carries. */
  function LastNamed(args: seq<JsValue>, k: string): Option<JsValue> {
    if args == [] then None
    else
      var e := Named(args[|args| - 1]);
      if e.Some? && e.value.0 == k then Some(e.value.1) else LastNamed(args[..|args| - 1], k)
  }

  /** The call throws exactly when some argument is `null`; otherwise every
      key holds the value of the last argument naming it, no other key is
      present, and no key occurs twice. */
  lemma {:induction false} StatsObjectContents(args: seq<JsValue>)
    ensures StatsObject(args).Failure? <==> JsNull in args
    ensures StatsObject(args).Success? ==>
              && UniqueKeys(StatsObject(args).value)
              && forall k :: Lookup(StatsObject(args).value, k) == LastNamed(args, k)
  {
    if args != [] {
      var init := args[..|args| - 1];
      var last := args[|args| - 1];
      StatsObjectContents(init);
      assert args == init + [last];
      match StatsObject(init)
      case Failure(_) =>
      case Success(stats) =>
        if Named(last).Some? {
          AssignUnique(stats, Named(last).value.0, Named(last).value.1);
        }
    }
  }

  /** Later arguments win: a repeated name keeps the last value. */
  lemma LaterArgumentWins(k: string, v1: JsValue, v2: JsValue)
    requires |k| > 0
    ensures StatsObject([JsObject([(k, v1)]), JsObject([(k, v2)])]) == Success([(k, v2)])
  {
    var args := [JsObject([(k, v1)]), JsObject([(k, v2)])];
    assert args[..1] == [JsObject([(k, v1)])];
    assert args[..1][..0] == [];
    assert StatsObject(args[..1]) == Success([(k, v1)]);
    assert FirstEntry(args[1]) == Success(Some((k, v2)));
    assert Assign([(k, v1)], k, v2) == [(k, v2)];
    assert StatsObject(args) == Absorb([(k, v1)], args[1]);
  }

  // -----------------------------------------------------------------------
  // `MqttStatsMessage`

  /** `MqttStatsMessage._disallowedFields`. */
  const DisallowedFields: seq<string> := ["toJSONString", "logger", "time", "type"]

  const DisallowedMessage := "Disallows field name in stats object"

  /** `_validate` as written: it throws unless the stats object owns at
      least one disallowed field. */
  function ValidateAsWritten(stats: seq<(string, JsValue)>): (r: Result<(), string>)
    ensures r.Success? <==> exists f :: f in DisallowedFields && f in Keys(stats)
  {
    if exists f :: f in DisallowedFields && f in Keys(stats) then Success(()) else Failure(DisallowedMessage)
  }

  /** `_validate` as its message says: it throws when the stats object owns
      a disallowed field. */
  function Validate(stats: seq<(string, JsValue)>): (r: Result<(), string>)
    ensures r.Success? <==> forall f :: f in DisallowedFields ==> f !in Keys(stats)
  {
    if exists f :: f in DisallowedFields && f in Keys(stats) then Failure(DisallowedMessage) else Success(())
  }

  /** The packet's own fields in construction order: `time` and `type` from
      `MqttMessage`, the stats fields by `Object.assign`, then `logger`. */
  function StatsPacket(loggerName: string, stats: seq<(string, JsValue)>, isoTime: string): seq<(string, JsValue)> {
    Assign(AssignAll([("time", JsString(isoTime)), ("type", JsString("stats"))], stats), "logger", JsString(loggerName))
  }

  /** `Object.assign(target, source)`. */
  function AssignAll(target: seq<(string, JsValue)>, source: seq<(string, JsValue)>): seq<(string, JsValue)>
    decreases |source|
  {
    if source == [] then target
    else AssignAll(Assign(target, source[0].0, source[0].1), source[1..])
  }

  /** After `Object.assign` every key of the source holds the source's
      value and every other key keeps the target's. */
  lemma {:induction false} AssignAllLookup(target: seq<(string, JsValue)>, source: seq<(string, JsValue)>)
    requires UniqueKeys(source)
    ensures forall k :: k in Keys(source) ==> Lookup(AssignAll(target, source), k) == Lookup(source, k)
    ensures forall k :: k !in Keys(source) ==> Lookup(AssignAll(target, source), k) == Lookup(target, k)
    decreases |source|
  {
    if source != [] {
      var t := Assign(target, source[0].0, source[0].1);
      AssignAllLookup(t, source[1..]);
      assert Keys(source) == [source[0].0] + Keys(source[1..]);
    }
  }

  /** `new MqttStatsMessage(...)` as written. */
  function StatsMessageAsWritten(loggerName: string, stats: seq<(string, JsValue)>, isoTime: string)
    : (r: Result<seq<(string, JsValue)>, string>)
    ensures r.Success? <==> exists f :: f in DisallowedFields && f in Keys(stats)
    ensures r.Failure? ==> r.error == DisallowedMessage
    ensures r.Success? ==> r.value == StatsPacket(loggerName, stats, isoTime)
  {
    match ValidateAsWritten(stats)
    case Failure(e) => Failure(e)
    case Success(_) => Success(StatsPacket(loggerName, stats, isoTime))
  }

  /** `new MqttStatsMessage(...)` with the check the other way round. */
  function StatsMessage(loggerName: string, stats: seq<(string, JsValue)>, isoTime: string)
    : (r: Result<seq<(string, JsValue)>, string>)
    ensures r.Success? <==> forall f :: f in DisallowedFields ==> f !in Keys(stats)
    ensures r.Failure? ==> r.error == DisallowedMessage
    ensures r.Success? ==> r.value == StatsPacket(loggerName, stats, isoTime)
  {
    match Validate(stats)
    case Failure(e) => Failure(e)
    case Success(_) => Success(StatsPacket(loggerName, stats, isoTime))
  }

  /** As written, ordinary stats such as `{rx: 1}` are refused. */
  lemma StatsMessageAsWrittenRefuses(loggerName: string, isoTime: string)
    ensures StatsMessageAsWritten(loggerName, [("rx", JsNumber(1))], isoTime) == Failure(DisallowedMessage)
  {
    assert Keys([("rx", JsNumber(1))]) == ["rx"];
  }

  /** As written, a stats object that is let through with a `type` field
      replaces the packet's own type. */
  lemma StatsMessageAsWrittenClobbers(loggerName: string, stats: seq<(string, JsValue)>, isoTime: string)
    requires UniqueKeys(stats) && "type" in Keys(stats)
    ensures StatsMessageAsWritten(loggerName, stats, isoTime).Success?
    ensures Lookup(StatsMessageAsWritten(loggerName, stats, isoTime).value, "type") == Lookup(stats, "type")
  {
    assert "type" in DisallowedFields;
    AssignAllLookup([("time", JsString(isoTime)), ("type", JsString("stats"))], stats);
  }

  /** With the check the right way round, ordinary stats are sent, and the
      packet carries its own time, type and logger next to every stats
      value. */
  lemma StatsMessageFields(loggerName: string, stats: seq<(string, JsValue)>, isoTime: string)
    requires UniqueKeys(stats)
    ensures StatsMessage(loggerName, stats, isoTime).Success? <==> forall f :: f in DisallowedFields ==> f !in Keys(stats)
    ensures StatsMessage(loggerName, stats, isoTime).Success? ==>
              var p := StatsMessage(loggerName, stats, isoTime).value;
              && Lookup(p, "time") == Some(JsString(isoTime))
              && Lookup(p, "type") == Some(JsString("stats"))
              && Lookup(p, "logger") == Some(JsString(loggerName))
              && forall k :: k in Keys(stats) ==> Lookup(p, k) == Lookup(stats, k)
  {
    if Validate(stats).Success? {
      var base := [("time", JsString(isoTime)), ("type", JsString("stats"))];
      assert Lookup(base, "time") == Some(JsString(isoTime));
      assert Lookup(base, "type") == Some(JsString("stats"));
      assert "time" in DisallowedFields && "type" in DisallowedFields && "logger" in DisallowedFields;
      AssignAllLookup(base, stats);
    }
  }

  // -----------------------------------------------------------------------
  // `MessageArguments`

  /** `args.map(x => typeof x === 'string' ? x : util.inspect(x)).join(' ')`. */
  function MessageText(args: seq<JsValue>, inspect: JsValue -> string): string {
    Join(seq(|args|, i requires 0 <= i < |args| => if args[i].JsString? then args[i].s else inspect(args[i])), " ")
  }

  /** The arguments of one logging call, with the message text and the time
      text computed on first use and reused by every later sink. */
  class MessageArguments {
    const args: seq<JsValue>
    /** `util.inspect`. */
    const inspect: JsValue -> string
    var messageString: Option<string>
    var formattedTime: Option<string>

    /** A cached message text is the text of the arguments. */
    predicate Valid()
      reads this
    {
      messageString.Some? ==> messageString.value == MessageText(args, inspect)
    }

    constructor(args: seq<JsValue>, inspect: JsValue -> string)
      ensures this.args == args && this.inspect == inspect
      ensures messageString == None && formattedTime == None && Valid()
    {
      this.args := args;
      this.inspect := inspect;
      messageString := None;
      formattedTime := None;
    }

    /** `messageString()`: every call answers the text of the arguments;
      only the first computes it. */
    method MessageString() returns (s: string)
      requires Valid()
      modifies this
      ensures s == MessageText(args, inspect)
      ensures messageString == Some(s) && formattedTime == old(formattedTime) && Valid()
    {
      if messageString != None {
        return messageString.value;
      }
      messageString := Some(MessageText(args, inspect));
      s := messageString.value;
    }

    /** `timeString(sink)`: `sinkTime` is what `sink._printTime()` would
      format now; the first call's answer is kept for every later call. */
    method TimeString(sinkTime: string) returns (s: string)
      requires Valid()
      modifies this
      ensures old(formattedTime).Some? ==> s == old(formattedTime).value
      ensures old(formattedTime).None? ==> s == sinkTime
      ensures formattedTime == Some(s) && messageString == old(messageString) && Valid()
    {
      if formattedTime != None {
        return formattedTime.value;
      }
      formattedTime := Some(sinkTime);
      s := sinkTime;
    }
  }

  // -----------------------------------------------------------------------
  // `_paddedAndColoredName`

  /** `name.padEnd(longest)`: the name followed by spaces up to the width. */
  function PaddedName(name: string, longest: nat): (r: string)
    ensures |r| == if |name| >= longest then |name| else longest
    ensures r[..|name|] == name
    ensures forall i :: |name| <= i < |r| ==> r[i] == ' '
  {
    var r := PadEnd(name, longest);
    assert r[..|name|] == name;
    r
  }

  /** `_paddedAndColoredName`: the padded name, passed through the logger's
      colour function when `colored` is set. */
  function NameField(name: string, longest: nat, colored: bool, color: string -> string): string {
    if colored then color(PaddedName(name, longest)) else PaddedName(name, longest)
  }

  /** With the longest registered name as width, uncoloured name fields of
      registered loggers all have that width and start with the name. */
  lemma NameFieldsAligned(names: seq<string>, longest: nat, i: nat, j: nat)
    requires forall k :: 0 <= k < |names| ==> |names[k]| <= longest
    requires i < |names| && j < |names|
    ensures |NameField(names[i], longest, false, s => s)| == |NameField(names[j], longest, false, s => s)| == longest
    ensures NameField(names[i], longest, false, s => s)[..|names[i]|] == names[i]
  {
  }
}
