/** The MMDVM monitor's protocol providers (mmdvm-monitor/providers.js):
    a first-match chain of patterns per protocol that turns a log line into
    a start or end packet, and the YSF provider's memory of the last start
    packet, which a network watchdog line turns into an end packet. */
module MmdvmProviders {
  import opened Wrappers
  import opened JsText
  import opened MmdvmPatterns

  datatype PacketAction = Start | End

  /** The published packet; `kind` is its JSON `type` field. */
  datatype Packet = Packet(kind: string, action: PacketAction, from: string, to: string, external: bool)

  /** A template literal's rendering of a group that may be undefined. */
  function GroupText(g: Option<string>): string {
    if g.Some? then g.value else "undefined"
  }

  /** `new Matcher(line)`: a chain of `match` calls over one line, in which
      the first pattern whose handler gives a packet wins. */
  class Matcher {
    const line: string
    var packet: Option<Packet>

    constructor (line: string)
      ensures this.line == line && packet == None
    {
      this.line := line;
      packet := None;
    }

    /** The test in `match`: the groups the handler is called with, or None
        when it is not called, because a packet is already held or the
        pattern matches nowhere in the line. Nothing changes. */
    method Match(p: Pattern) returns (groups: Option<Groups>)
      ensures groups.Some? <==> packet.None? && Exec(p, line).Some?
      ensures groups.Some? ==> groups == Exec(p, line)
    {
      if packet.None? {
        groups := Exec(p, line);
      } else {
        groups := None;
      }
    }

    /** The store in `match`: `this.packet = handler(...) || null`. A null
        handler result leaves the matcher open for the later patterns. */
    method Accept(handled: Option<Packet>)
      requires packet.None?
      modifies this
      ensures packet == handled
    {
      packet := handled;
    }
  }

  // -----------------------------------------------------------------------
  // DMR

  /** `DmrProvider._packet`. */
  function DmrPacket(g: Groups, action: PacketAction): Packet
    requires g.Named?
  {
    Packet("DMR TS " + GroupText(g.slot), action, g.from,
           (if g.tg.Some? then "TG " else "PC ") + g.to, g.external != "RF")
  }

  /** What `DmrProvider.tryConsumeLine` returns: the start pattern first. */
  function DmrConsume(line: string): Option<Packet> {
    var s := Exec(DmrStart, line);
    if s.Some? then Some(DmrPacket(s.value, Start))
    else
      var e := Exec(DmrEnd, line);
      if e.Some? then Some(DmrPacket(e.value, End)) else None
  }

  /** `DmrProvider.tryConsumeLine`. */
  method DmrTryConsumeLine(line: string) returns (packet: Option<Packet>)
    ensures packet == DmrConsume(line)
  {
    var m := new Matcher(line);
    var g := m.Match(DmrStart);
    if g.Some? {
      m.Accept(Some(DmrPacket(g.value, Start)));
    }
    g := m.Match(DmrEnd);
    if g.Some? {
      m.Accept(Some(DmrPacket(g.value, End)));
    }
    packet := m.packet;
  }

  /** A voice header line gives a start packet for its slot, with `TG` or
      `PC` before the destination and `external` for network traffic. */
  lemma DmrStartLinePacket(stamp: string, slot: char, external: string,
                           from: string, tg: bool, to: string, tail: string)
    requires IsStamp(stamp) && IsDigit(slot) && external in {"RF", "network"}
    requires IsNumber(from) && IsNumber(to) && (tail == [] || !IsDigit(tail[0]))
    ensures DmrConsume(DmrLine(stamp, slot, external, "voice header", from, tg, to, tail))
            == Some(Packet("DMR TS " + [slot], Start, from, (if tg then "TG " else "PC ") + to, external == "network"))
  {
    DmrLineGroups(stamp, slot, external, "voice header", from, tg, to, tail);
    DmrAnchoredExec(DmrLine(stamp, slot, external, "voice header", from, tg, to, tail),
                    Named(Some([slot]), external, from, if tg then Some("TG") else None, to));
  }

  /** An end line gives an end packet: the start pattern matches nowhere in
      it, provided its tail carries no further `M`. */
  lemma DmrEndLinePacket(stamp: string, slot: char, external: string,
                         from: string, tg: bool, to: string, tail: string)
    requires IsStamp(stamp) && IsDigit(slot) && external in {"RF", "network"}
    requires IsNumber(from) && IsNumber(to) && (tail == [] || !IsDigit(tail[0])) && 'M' !in tail
    ensures DmrConsume(DmrLine(stamp, slot, external, "end of voice transmission", from, tg, to, tail))
            == Some(Packet("DMR TS " + [slot], End, from, (if tg then "TG " else "PC ") + to, external == "network"))
  {
    var line := DmrLine(stamp, slot, external, "end of voice transmission", from, tg, to, tail);
    assert line[0..] == line;
    DmrLineGroups(stamp, slot, external, "end of voice transmission", from, tg, to, tail);
    DmrStartMissesEndLine(stamp, slot, external, from, tg, to, tail);
  }

  /** The start pattern matches nowhere in an end line: not at its start,
      where the phrase differs, and not after it, where no `M:` occurs. */
  lemma DmrStartMissesEndLine(stamp: string, slot: char, external: string,
                              from: string, tg: bool, to: string, tail: string)
    requires IsStamp(stamp) && IsDigit(slot) && external in {"RF", "network"}
    requires IsNumber(from) && IsNumber(to) && 'M' !in tail
    ensures Exec(DmrStart, DmrLine(stamp, slot, external, "end of voice transmission", from, tg, to, tail)) == None
  {
    var line := DmrLine(stamp, slot, external, "end of voice transmission", from, tg, to, tail);
    DmrStartMissesEndLineHere(stamp, slot, external, from, tg, to, tail);
    assert line[0..] == line;
    DmrLineOneStamp(stamp, slot, external, "end of voice transmission", from, tg, to, tail);
    ExecFromNoStamp(DmrStart, line, 1);
  }

  lemma DmrStartMissesEndLineHere(stamp: string, slot: char, external: string,
                              from: string, tg: bool, to: string, tail: string)
    requires IsStamp(stamp) && IsDigit(slot) && external in {"RF", "network"}
    requires IsNumber(from) && IsNumber(to) && 'M' !in tail
    ensures DmrAnchored(DmrLine(stamp, slot, external, "end of voice transmission", from, tg, to, tail), "voice header") == None
  {
    var phrase := "end of voice transmission";
    var line := DmrLine(stamp, slot, external, phrase, from, tg, to, tail);
    var r5 := from + (" to" + ((if tg then " TG " else " ") + (to + tail)));
    var r4 := (" " + phrase + " from ") + r5;
    assert line == "M: " + (stamp + ("DMR Slot " + ([slot] + (", received " + (external + r4)))));
    DmrAnchoredOf(stamp, slot, "voice header", ", received " + (external + r4));
    LitMismatch(r4, " " + "voice header" + " from ", 1);
    DmrSourcePhraseMismatch([slot], external, "voice header", r4);
  }

  /** The DMR source part fails when the phrase after it differs. */
  lemma DmrSourcePhraseMismatch(slot: string, external: string, phrase: string, r4: string)
    requires external in {"RF", "network"} && Lit(r4, " " + phrase + " from ") == None
    ensures DmrSource(", received " + (external + r4), slot, phrase) == None
  {
    var r3 := external + r4;
    LitOf(", received ", r3);
    if external == "RF" {
      LitOf("RF", r4);
    } else {
      LitMismatch(r3, "RF", 0);
      LitOf("network", r4);
    }
  }

  /** A literal is not read where the text differs from it. */
  lemma LitMismatch(t: string, lit: string, k: nat)
    requires k < |lit| && k < |t| && t[k] != lit[k]
    ensures Lit(t, lit) == None
  {
    assert !StartsWith(t, lit) by {
      if |lit| <= |t| {
        assert t[..|lit|][k] == t[k];
      }
    }
  }

  // -----------------------------------------------------------------------
  // YSF

  /** `YsfProvider._packet`, without its update of the memory. */
  function YsfPacket(g: Groups, action: PacketAction): Packet
    requires g.Named?
  {
    Packet("YSF", action, g.from, g.to, !StartsWith(g.external, "RF"))
  }

  /** What `YsfProvider.tryConsumeLine` returns, and the new value of
      `lastStartPacket`. */
  function YsfStep(last: Option<Packet>, line: string): (Option<Packet>, Option<Packet>) {
    var s := Exec(YsfStart, line);
    if s.Some? then
      var p := YsfPacket(s.value, Start);
      (Some(p), Some(p))
    else
      var e := Exec(YsfEnd, line);
      if e.Some? then (Some(YsfPacket(e.value, End)), None)
      else if Exec(YsfWatchdog, line).Some? then
        ((if last.Some? then Some(last.value.(action := End)) else None), None)
      else (None, last)
  }

  /** The YSF provider and its one-slot memory. */
  class YsfProvider {
    var lastStartPacket: Option<Packet>

    constructor ()
      ensures lastStartPacket == None
    {
      lastStartPacket := None;
    }

    /** `_packet`: builds the packet and remembers it when it is a start. */
    method MakePacket(g: Groups, action: PacketAction) returns (p: Packet)
      requires g.Named?
      modifies this
      ensures p == YsfPacket(g, action)
      ensures lastStartPacket == if action == Start then Some(p) else None
    {
      p := Packet("YSF", action, g.from, g.to, !StartsWith(g.external, "RF"));
      lastStartPacket := if action == Start then Some(p) else None;
    }

    /** `_timeoutPacket`: the remembered start packet, now an end packet,
        and the memory cleared. */
    method TimeoutPacket() returns (p: Option<Packet>)
      modifies this
      ensures p == if old(lastStartPacket).Some? then Some(old(lastStartPacket).value.(action := End)) else None
      ensures lastStartPacket == None
    {
      p := lastStartPacket;
      lastStartPacket := None;
      if p.Some? {
        p := Some(p.value.(action := End));
      }
    }

    method TryConsumeLine(line: string) returns (packet: Option<Packet>)
      modifies this
      ensures (packet, lastStartPacket) == YsfStep(old(lastStartPacket), line)
    {
      var m := new Matcher(line);
      var g := m.Match(YsfStart);
      if g.Some? {
        var p := MakePacket(g.value, Start);
        m.Accept(Some(p));
      }
      g := m.Match(YsfEnd);
      if g.Some? {
        var p := MakePacket(g.value, End);
        m.Accept(Some(p));
      }
      g := m.Match(YsfWatchdog);
      if g.Some? {
        var p := TimeoutPacket();
        m.Accept(p);
      }
      packet := m.packet;
    }
  }

  /** A line that is only a watchdog line. */
  predicate WatchdogOnly(line: string) {
    Exec(YsfStart, line).None? && Exec(YsfEnd, line).None? && Exec(YsfWatchdog, line).Some?
  }

  /** A watchdog line closes the remembered transmission: the start packet
      comes back as an end packet with the same source and destination, and
      the memory is cleared; with nothing remembered nothing is published. */
  lemma YsfStartThenWatchdog(last: Option<Packet>, startLine: string, watchdogLine: string)
    requires Exec(YsfStart, startLine).Some? && WatchdogOnly(watchdogLine)
    ensures var (p1, mem1) := YsfStep(last, startLine);
            var (p2, mem2) := YsfStep(mem1, watchdogLine);
            p1.Some? && p1.value.action == Start && mem1 == p1
            && p2 == Some(p1.value.(action := End)) && mem2 == None
    ensures var (_, mem2) := YsfStep(last, startLine);
            var (_, mem3) := YsfStep(mem2, watchdogLine);
            YsfStep(mem3, watchdogLine) == (None, None)
  {
  }

  /** An end line clears the memory, so a later watchdog line publishes
      nothing; lines no YSF pattern matches leave the memory alone. */
  lemma YsfEndForgetsStart(last: Option<Packet>, endLine: string, watchdogLine: string, other: string)
    requires Exec(YsfStart, endLine).None? && Exec(YsfEnd, endLine).Some? && WatchdogOnly(watchdogLine)
    requires Exec(YsfStart, other).None? && Exec(YsfEnd, other).None? && Exec(YsfWatchdog, other).None?
    ensures YsfStep(last, endLine).1 == None
    ensures YsfStep(YsfStep(last, endLine).1, watchdogLine) == (None, None)
    ensures YsfStep(last, other) == (None, last)
  {
  }

  /** A YSF start line read back: the packet carries the line's source and
      destination, is external exactly for network data, and is remembered. */
  lemma YsfStartLinePacket(last: Option<Packet>, stamp: string, external: string, from: string, spaces: string,
                           dgId: bool, to: string, tail: string)
    requires IsStamp(stamp) && external in {"RF header", "network data"}
    requires from != [] && AllIn(from, Word) && spaces != [] && AllIn(spaces, Space)
    requires IsNumber(to) && (tail == [] || !IsDigit(tail[0]))
    ensures var dest := (if dgId then "DG-ID " else "") + to;
            var p := Packet("YSF", Start, from, dest, external == "network data");
            YsfStep(last, YsfLine(stamp, true, external, from, spaces, dest, tail)) == (Some(p), Some(p))
  {
    var dest := (if dgId then "DG-ID " else "") + to;
    var g := Named(None, external, from, None, dest);
    YsfLineGroups(stamp, true, external, from, spaces, dgId, to, tail);
    YsfAnchoredExec(YsfLine(stamp, true, external, from, spaces, dest, tail), g);
    YsfStepStart(last, YsfLine(stamp, true, external, from, spaces, dest, tail), g);
    assert !StartsWith("network data", "RF") by {
      assert "network data"[..2][0] == 'n';
    }
  }

  /** A line the start pattern matches gives a start packet, which is
      remembered. */
  lemma YsfStepStart(last: Option<Packet>, line: string, g: Groups)
    requires Exec(YsfStart, line) == Some(g) && g.Named?
    ensures YsfStep(last, line) == (Some(YsfPacket(g, Start)), Some(YsfPacket(g, Start)))
  {
  }

  // -----------------------------------------------------------------------
  // D-Star and M17

  /** `DStarProvider._packet`. */
  function DStarPacket(g: Groups, action: PacketAction): Packet
    requires g.Named?
  {
    Packet("D-Star", action, g.from, g.to, g.external != "RF")
  }

  function DStarConsume(line: string): Option<Packet> {
    var s := Exec(DStarStart, line);
    if s.Some? then Some(DStarPacket(s.value, Start))
    else
      var e := Exec(DStarEnd, line);
      if e.Some? then Some(DStarPacket(e.value, End)) else None
  }

  /** `DStarProvider.tryConsumeLine`. */
  method DStarTryConsumeLine(line: string) returns (packet: Option<Packet>)
    ensures packet == DStarConsume(line)
  {
    var m := new Matcher(line);
    var g := m.Match(DStarStart);
    if g.Some? {
      m.Accept(Some(DStarPacket(g.value, Start)));
    }
    g := m.Match(DStarEnd);
    if g.Some? {
      m.Accept(Some(DStarPacket(g.value, End)));
    }
    packet := m.packet;
  }

  /** A D-Star header line with a callsign suffix gives a start packet whose
      destination is the word after the line's last ` to `. */
  lemma DStarStartLinePacket(stamp: string, external: string, from: string, spaces: string,
                             suffix: string, to: string, tail: string)
    requires IsStamp(stamp) && external in {"RF", "network"}
    requires from != [] && AllIn(from, Word) && spaces != [] && AllIn(spaces, Space)
    requires AllIn(suffix, AnyButLineEnd) && to != [] && AllIn(to, Word)
    requires tail == [] || IsLineTerminator(tail[0])
    ensures DStarConsume(DStarLine(stamp, external, "header", from, spaces, suffix, to, tail))
            == Some(Packet("D-Star", Start, from, to, external == "network"))
  {
    DStarLineGroups(stamp, external, "header", from, spaces, suffix, to, tail);
    DStarAnchoredExec(DStarLine(stamp, external, "header", from, spaces, suffix, to, tail), Named(None, external, from, None, to));
  }

  /** `M17Provider._packet`. */
  function M17Packet(g: Groups, action: PacketAction): Packet
    requires g.Named?
  {
    Packet("M17", action, g.from, g.to, g.external != "RF")
  }

  function M17Consume(line: string): Option<Packet> {
    var s := Exec(M17Start, line);
    if s.Some? then Some(M17Packet(s.value, Start))
    else
      var e := Exec(M17End, line);
      if e.Some? then Some(M17Packet(e.value, End)) else None
  }

  /** `M17Provider.tryConsumeLine`. */
  method M17TryConsumeLine(line: string) returns (packet: Option<Packet>)
    ensures packet == M17Consume(line)
  {
    var m := new Matcher(line);
    var g := m.Match(M17Start);
    if g.Some? {
      m.Accept(Some(M17Packet(g.value, Start)));
    }
    g := m.Match(M17End);
    if g.Some? {
      m.Accept(Some(M17Packet(g.value, End)));
    }
    packet := m.packet;
  }

  /** The start pattern captures the whole phrase (`RF voice transmission`),
      which is never `RF`: every M17 start packet, RF ones included, is
      marked external. */
  lemma M17StartAlwaysExternal(line: string)
    requires M17Consume(line).Some? && M17Consume(line).value.action == Start
    ensures M17Consume(line).value.external
  {
    ExecLeftmost(M17Start, line);
  }

  /** An M17 RF start line: marked external although it came over RF. */
  lemma M17RfStartLinePacket(stamp: string, from: string, to: string, tail: string)
    requires IsStamp(stamp)
    requires from != [] && AllIn(from, Word) && to != [] && AllIn(to, Word)
    requires tail == [] || !IsWordChar(tail[0])
    ensures M17Consume(M17Line(stamp, true, "RF voice transmission", from, to, tail))
            == Some(Packet("M17", Start, from, to, true))
  {
    M17StartExec(stamp, "RF voice transmission", from, to, tail);
  }

  // -----------------------------------------------------------------------
  // The monitor's line handler (mmdvm-monitor/index.js)

  /** The packet published for a line and the YSF provider's new memory:
      the providers are asked in order and the first packet wins, so the
      YSF provider only sees lines the DMR provider did not consume. */
  function MonitorStep(last: Option<Packet>, line: string): (r: (Option<Packet>, Option<Packet>))
    ensures DmrConsume(line).Some? ==> r == (DmrConsume(line), last)
    ensures DmrConsume(line).None? && YsfStep(last, line).0.Some? ==> r == YsfStep(last, line)
    ensures DmrConsume(line).None? && YsfStep(last, line).0.None? && DStarConsume(line).Some?
            ==> r == (DStarConsume(line), YsfStep(last, line).1)
    ensures DmrConsume(line).None? && YsfStep(last, line).0.None? && DStarConsume(line).None?
            ==> r == (M17Consume(line), YsfStep(last, line).1)
    ensures r.0.None? <==> DmrConsume(line).None? && YsfStep(last, line).0.None?
                           && DStarConsume(line).None? && M17Consume(line).None?
  {
    var dmr := DmrConsume(line);
    if dmr.Some? then (dmr, last)
    else
      var (ysf, mem) := YsfStep(last, line);
      if ysf.Some? then (ysf, mem)
      else
        var dstar := DStarConsume(line);
        if dstar.Some? then (dstar, mem)
        else (M17Consume(line), mem)
  }

  /** The tail's `line` handler over the four providers. */
  method OnLine(ysf: YsfProvider, line: string) returns (published: Option<Packet>)
    modifies ysf
    ensures (published, ysf.lastStartPacket) == MonitorStep(old(ysf.lastStartPacket), line)
  {
    published := DmrTryConsumeLine(line);
    if published.Some? {
      return;
    }
    published := ysf.TryConsumeLine(line);
    if published.Some? {
      return;
    }
    published := DStarTryConsumeLine(line);
    if published.Some? {
      return;
    }
    published := M17TryConsumeLine(line);
  }
}
