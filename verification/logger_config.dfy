/** `LoggerConfig` and the `Logger` constructor (mqtt-logger/index.mjs): the
    global registry of loggers and sinks. Attaching, closing and the
    sinks' output are left to the sink modules. */
module LoggerRegistry {
  import opened Wrappers
  import opened JsText
  import LoggerFiles
  import LoggerSinks

  /** The sink objects `init` receives; only whether one is a
      `ConsoleSink` matters to the registry. */
  datatype Sink =
    | ConsoleSink(showStats: bool)
    | FileSink(config: LoggerFiles.FileSinkConfig)
    | MqttSink(broker: string, path: string)

  /** `_consoleSink`: none before `init`, else the first `ConsoleSink` of the
      list (by index) or a separate one created by `init`. */
  datatype ConsoleChoice = NoConsoleSink | InList(index: nat) | FreshConsole

  /** The name of the logger the framework creates for itself. */
  const InternalLoggerName := "Logger"

  const MultipleConfigs := "Cannot define multiple logger configs"
  const InitTwice := "The logger config may only be initialized once"

  /** The longest name length, 0 for no names. */
  function MaxLength(names: seq<string>): (m: nat)
    ensures forall i :: 0 <= i < |names| ==> |names[i]| <= m
    ensures names != [] ==> exists i :: 0 <= i < |names| && |names[i]| == m
    ensures names == [] ==> m == 0
  {
    if names == [] then 0
    else
      var m := MaxLength(names[..|names| - 1]);
      var n := |names[|names| - 1]|;
      if m < n then n else m
  }

  /** The sink list `init` installs: the given one, or a default
      `ConsoleSink` when none is given. */
  function InstalledSinks(given: seq<Sink>): (r: seq<Sink>)
    ensures r != []
    ensures given != [] ==> r == given
    ensures given == [] ==> r == [ConsoleSink(true)]
  {
    if given == [] then [ConsoleSink(true)] else given
  }

  /** `sinks.some(s => s instanceof ConsoleSink ? this._consoleSink = s : false)`,
      falling back to a fresh `ConsoleSink`. */
  function FindConsole(sinks: seq<Sink>): (c: ConsoleChoice)
    ensures c != NoConsoleSink
    ensures c.InList? ==> c.index < |sinks| && sinks[c.index].ConsoleSink?
                          && forall j :: 0 <= j < c.index ==> !sinks[j].ConsoleSink?
    ensures c == FreshConsole <==> forall j :: 0 <= j < |sinks| ==> !sinks[j].ConsoleSink?
  {
    if sinks == [] then FreshConsole
    else if sinks[0].ConsoleSink? then InList(0)
    else
      match FindConsole(sinks[1..])
      case InList(i) => InList(i + 1)
      case _ => FreshConsole
  }

  /** `config.name || \`logger-${this.id}\`` as written: the object has no
      `id` property, so every unnamed logger is called `logger-undefined`. */
  function DefaultLoggerNameAsWritten(name: string): (r: string)
    ensures name != "" ==> r == name
    ensures name == "" ==> r == "logger-undefined"
  {
    if name == "" then "logger-undefined" else name
  }

  /** The default name built from the id the logger is about to receive. */
  function DefaultLoggerName(name: string, id: nat): (r: string)
    ensures name != [] ==> r == name
  {
    if name == "" then "logger-" + NatToString(id) else name
  }

  /** As written, two unnamed loggers share one name. */
  lemma UnnamedLoggersCollide()
    ensures DefaultLoggerNameAsWritten("") == DefaultLoggerNameAsWritten("") == "logger-undefined"
  {
  }

  /** Named after their ids, unnamed loggers get distinct names. */
  lemma UnnamedLoggersDistinct(a: nat, b: nat)
    requires a != b
    ensures DefaultLoggerName("", a) != DefaultLoggerName("", b)
  {
    if DefaultLoggerName("", a) == DefaultLoggerName("", b) {
      var p := "logger-";
      assert (p + NatToString(a))[|p|..] == NatToString(a);
      assert (p + NatToString(b))[|p|..] == NatToString(b);
      NatToStringInjective(a, b);
    }
  }

  lemma NatToStringInjective(a: nat, b: nat)
    requires NatToString(a) == NatToString(b)
    ensures a == b
  {
    ParseIntPadded(a, 0);
    ParseIntPadded(b, 0);
    assert PadStart(NatToString(a), 0, '0') == NatToString(a);
    assert PadStart(NatToString(b), 0, '0') == NatToString(b);
  }

  /** Padded to the longest registered name, every registered logger's name
      field has the same width and starts with its name. */
  lemma RegisteredNamesAligned(names: seq<string>, i: nat)
    requires i < |names|
    ensures |LoggerSinks.PaddedName(names[i], MaxLength(names))| == MaxLength(names)
    ensures LoggerSinks.PaddedName(names[i], MaxLength(names))[..|names[i]|] == names[i]
  {
  }

  /** The registry. */
  class LoggerConfig {
    /** `_sinks`: `None` until `init`. */
    var sinks: Option<seq<Sink>>
    /** The names of `_activeLoggers`, in registration order. */
    var activeLoggers: seq<string>
    var uniqueIdCounter: nat
    var longestLoggerNameLength: nat
    var consoleSink: ConsoleChoice

    /** Every registered logger received its index as id, and the longest
      name length is the maximum over them. */
    predicate Counting()
      reads this
    {
      uniqueIdCounter == |activeLoggers| && longestLoggerNameLength == MaxLength(activeLoggers)
    }

    /** The internal logger is registered first, and after `init` there is
      a sink list and a console sink chosen from it. */
    predicate Valid()
      reads this
    {
      && Counting()
      && |activeLoggers| >= 1 && activeLoggers[0] == InternalLoggerName
      && (sinks.None? <==> consoleSink == NoConsoleSink)
      && (sinks.Some? ==> sinks.value != [] && consoleSink == FindConsole(sinks.value))
    }

    /** The body of `new LoggerConfig()` after the singleton check: empty
      state, then the internal logger registers itself. */
    constructor ()
      ensures Valid()
      ensures sinks == None && activeLoggers == [InternalLoggerName]
      ensures uniqueIdCounter == 1 && longestLoggerNameLength == |InternalLoggerName|
    {
      sinks := None;
      activeLoggers := [];
      uniqueIdCounter := 0;
      longestLoggerNameLength := 0;
      consoleSink := NoConsoleSink;
      new;
      var id := RegisterLogger(InternalLoggerName);
    }

    /** `registerLogger`: the new logger's id is the number of loggers
      registered before it. */
    method RegisterLogger(name: string) returns (id: nat)
      requires Counting()
      modifies this
      ensures id == old(uniqueIdCounter) && id < |activeLoggers| && activeLoggers[id] == name
      ensures activeLoggers == old(activeLoggers) + [name]
      ensures longestLoggerNameLength == if |name| > old(longestLoggerNameLength) then |name| else old(longestLoggerNameLength)
      ensures sinks == old(sinks) && consoleSink == old(consoleSink)
      ensures Counting()
    {
      activeLoggers := activeLoggers + [name];
      assert activeLoggers[..|activeLoggers| - 1] == old(activeLoggers);
      if |name| > longestLoggerNameLength {
        longestLoggerNameLength := |name|;
      }
      id := uniqueIdCounter;
      uniqueIdCounter := uniqueIdCounter + 1;
    }

    /** `init(...sinks)`: only once; an empty list gets a default
      `ConsoleSink`; the console sink is the first `ConsoleSink` or a fresh
      one. */
    method Init(given: seq<Sink>) returns (r: Result<(), string>)
      requires Valid()
      modifies this
      ensures old(sinks).Some? ==> r == Failure(InitTwice) && sinks == old(sinks) && consoleSink == old(consoleSink)
      ensures old(sinks).None? ==> r == Success(()) && sinks == Some(InstalledSinks(given))
      ensures activeLoggers == old(activeLoggers) && uniqueIdCounter == old(uniqueIdCounter)
      ensures longestLoggerNameLength == old(longestLoggerNameLength)
      ensures Valid()
    {
      if sinks != None {
        return Failure(InitTwice);
      }
      var installed := if given == [] then [ConsoleSink(true)] else given;
      sinks := Some(installed);
      // `some` stops at the first console sink
      var i := 0;
      while i < |installed| && !installed[i].ConsoleSink?
        invariant i <= |installed|
        invariant forall j :: 0 <= j < i ==> !installed[j].ConsoleSink?
      {
        i := i + 1;
      }
      consoleSink := if i < |installed| then InList(i) else FreshConsole;
      r := Success(());
    }

    /** `_ensureInit`: an uninitialised registry initialises itself with
      the default console sink. */
    method EnsureInit()
      requires Valid()
      modifies this
      ensures old(sinks).Some? ==> sinks == old(sinks)
      ensures old(sinks).None? ==> sinks == Some([ConsoleSink(true)]) && consoleSink == InList(0)
      ensures activeLoggers == old(activeLoggers) && sinks.Some? && Valid()
    {
      if sinks == None {
        var r := Init([]);
      }
    }

    /** `internalInstance`: the logger the framework registered first. */
    method InternalInstance() returns (name: string, id: nat)
      requires Valid()
      modifies this
      ensures name == InternalLoggerName && id == 0 && sinks.Some?
      ensures activeLoggers == old(activeLoggers) && Valid()
    {
      EnsureInit();
      name, id := activeLoggers[0], 0;
    }

    /** `new Logger({name})` registering itself. An unnamed logger is given
      the corrected default name built from the id it receives; as written
      it would be `logger-undefined` (`DefaultLoggerNameAsWritten`). */
    method NewLogger(name: string) returns (loggerName: string, id: nat)
      requires Valid()
      modifies this
      ensures loggerName == DefaultLoggerName(name, old(uniqueIdCounter)) && id == old(uniqueIdCounter)
      ensures activeLoggers == old(activeLoggers) + [loggerName] && activeLoggers[id] == loggerName
      ensures sinks == old(sinks) && Valid()
    {
      loggerName := DefaultLoggerName(name, uniqueIdCounter);
      id := RegisterLogger(loggerName);
    }
  }

  /** `LoggerConfig._instance` and the two ways of creating it. */
  class LoggerConfigStatic {
    var instance: LoggerConfig?

    predicate Valid()
      reads this, instance
    {
      instance != null ==> instance.Valid()
    }

    constructor ()
      ensures instance == null && Valid()
    {
      instance := null;
    }

    /** `new LoggerConfig()`: a second configuration is refused. */
    method Construct() returns (r: Result<LoggerConfig, string>)
      requires Valid()
      modifies this
      ensures old(instance) != null ==> r == Failure(MultipleConfigs) && instance == old(instance)
      ensures old(instance) == null ==> r.Success? && instance == r.value && fresh(r.value)
      ensures r.Success? ==> r.value.activeLoggers == [InternalLoggerName] && r.value.sinks.None?
      ensures Valid()
    {
      if instance != null {
        return Failure(MultipleConfigs);
      }
      var c := new LoggerConfig();
      instance := c;
      r := Success(c);
    }

    /** `LoggerConfig.the()`: the one configuration, created on first use. */
    method The() returns (c: LoggerConfig)
      requires Valid()
      modifies this
      ensures old(instance) != null ==> c == old(instance)
      ensures old(instance) == null ==> fresh(c) && c.activeLoggers == [InternalLoggerName]
      ensures instance == c && Valid()
    {
      if instance == null {
        var r := Construct();
        c := r.value;
      } else {
        c := instance;
      }
    }
  }
}
