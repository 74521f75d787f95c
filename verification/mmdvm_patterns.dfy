/** The nine log-line patterns of the MMDVM monitor's providers
    (mmdvm-monitor/providers.js), as hand-written recognisers that give the
    same groups as the JavaScript regular expressions. Each pattern is
    searched for anywhere in the line: the leftmost position where the
    anchored recogniser succeeds wins.

    Every pattern is deterministic except where noted: at each alternation
    at most one branch can match the literal text that follows, and each
    greedy run is followed by a character outside its class, so
    backtracking never changes the groups. */
module MmdvmPatterns {
  import opened Wrappers
  import opened JsText

  /** The character classes the patterns use. */
  datatype CharClass =
    | Digits          // \d
    | Word            // \w
    | Space           // \s
    | AnyButLineEnd   // .
    | StampChar       // [\d\-:\. ]

  predicate InClass(c: char, k: CharClass) {
    match k
    case Digits => IsDigit(c)
    case Word => IsWordChar(c)
    case Space => IsSpace(c)
    case AnyButLineEnd => !IsLineTerminator(c)
    case StampChar => IsDigit(c) || c == '-' || c == ':' || c == '.' || c == ' '
  }

  predicate AllIn(w: string, k: CharClass) {
    forall i :: 0 <= i < |w| ==> InClass(w[i], k)
  }

  /** The greedy run `k*` at the start of `t`, and the text after it. */
  function Span(t: string, k: CharClass): (r: (string, string))
    ensures r.0 + r.1 == t
    ensures AllIn(r.0, k)
    ensures r.1 == [] || !InClass(r.1[0], k)
    decreases |t|
  {
    if t != [] && InClass(t[0], k) then
      var rest := Span(t[1..], k);
      var run := [t[0]] + rest.0;
      assert forall i | 1 <= i < |run| :: run[i] == rest.0[i - 1];
      assert run + rest.1 == [t[0]] + t[1..] == t;
      (run, rest.1)
    else ([], t)
  }

  /** The greedy run `k+`. */
  function Span1(t: string, k: CharClass): Option<(string, string)> {
    var r := Span(t, k);
    if r.0 == [] then None else Some(r)
  }

  /** A literal: the text after it. */
  function Lit(t: string, lit: string): Option<string> {
    if StartsWith(t, lit) then Some(t[|lit|..]) else None
  }

  /** `(a|b)` where the two branches start differently. */
  function Choice(t: string, a: string, b: string): Option<(string, string)> {
    if StartsWith(t, a) then Some((a, t[|a|..]))
    else if StartsWith(t, b) then Some((b, t[|b|..]))
    else None
  }

  /** `M: [\d\-:\. ]{24}`, the prefix every pattern starts with. */
  function Stamp(t: string): Option<string> {
    var r :- Lit(t, "M: ");
    if |r| >= 24 && AllIn(r[..24], StampChar) then Some(r[24..]) else None
  }

  predicate Stamped(t: string) {
    Stamp(t).Some?
  }

  /** The named groups of a match; the watchdog pattern has none. */
  datatype Groups =
    | NoGroups
    | Named(slot: Option<string>, external: string, from: string, tg: Option<string>, to: string)

  datatype Pattern =
    | DmrStart | DmrEnd
    | YsfStart | YsfEnd | YsfWatchdog
    | DStarStart | DStarEnd
    | M17Start | M17End

  // -----------------------------------------------------------------------
  // DMR: `DMR Slot (?<slot>\d), received (?<external>RF|network) <phrase>
  //       from (?<from>\d+) to( (?<tg>TG))? (?<to>\d+)`

  /** `( (?<tg>TG))? (?<to>\d+)`: the optional group is taken when a digit
      follows it, otherwise skipped. */
  function DmrTarget(t: string): Option<(Option<string>, string)> {
    if StartsWith(t, " TG ") && |t| > 4 && IsDigit(t[4]) then Some((Some("TG"), Span(t[4..], Digits).0))
    else if StartsWith(t, " ") && |t| > 1 && IsDigit(t[1]) then Some((None, Span(t[1..], Digits).0))
    else None
  }

  function DmrAnchored(t: string, phrase: string): (g: Option<Groups>)
    ensures g.Some? ==> Stamped(t) && g.value.Named? && g.value.slot.Some? && g.value.external in {"RF", "network"}
  {
    var r :- Stamp(t);
    var r :- Lit(r, "DMR Slot ");
    if r == [] || !IsDigit(r[0]) then None
    else DmrSource(r[1..], [r[0]], phrase)
  }

  function DmrSource(t: string, slot: string, phrase: string): (g: Option<Groups>)
    ensures g.Some? ==> g.value.Named? && g.value.slot == Some(slot) && g.value.external in {"RF", "network"}
  {
    var r :- Lit(t, ", received ");
    var e :- Choice(r, "RF", "network");
    var r' :- Lit(e.1, " " + phrase + " from ");
    DmrFromTo(r', slot, e.0)
  }

  function DmrFromTo(t: string, slot: string, external: string): (g: Option<Groups>)
    ensures g.Some? ==> g.value.Named? && g.value.slot == Some(slot) && g.value.external == external
  {
    var f :- Span1(t, Digits);
    var r :- Lit(f.1, " to");
    var target :- DmrTarget(r);
    Some(Named(Some(slot), external, f.0, target.0, target.1))
  }

  // -----------------------------------------------------------------------
  // YSF: `YSF, received (?<external>RF header|network data) from (?<from>\w+)\s+to
  //       (?<to>(DG-ID )?\d+)` and the end form with `RF|network`

  function YsfTarget(t: string): Option<string> {
    if StartsWith(t, "DG-ID ") && |t| > 6 && IsDigit(t[6]) then Some("DG-ID " + Span(t[6..], Digits).0)
    else if t != [] && IsDigit(t[0]) then Some(Span(t, Digits).0)
    else None
  }

  function YsfAnchored(t: string, start: bool): (g: Option<Groups>)
    ensures g.Some? ==> Stamped(t) && g.value.Named?
    ensures g.Some? ==> g.value.external in (if start then {"RF header", "network data"} else {"RF", "network"})
  {
    var r :- Stamp(t);
    var r :- Lit(r, "YSF, received ");
    var e :- YsfSource(r, start);
    YsfFromTo(e.1, e.0)
  }

  /** The source group and the words up to `from `. */
  function YsfSource(t: string, start: bool): (r: Option<(string, string)>)
    ensures r.Some? ==> r.value.0 in (if start then {"RF header", "network data"} else {"RF", "network"})
  {
    var e :- if start then Choice(t, "RF header", "network data") else Choice(t, "RF", "network");
    var r :- Lit(e.1, if start then " from " else " end of transmission from ");
    Some((e.0, r))
  }

  function YsfFromTo(t: string, external: string): (g: Option<Groups>)
    ensures g.Some? ==> g.value.Named? && g.value.external == external
  {
    var f :- Span1(t, Word);
    var w :- Span1(f.1, Space);
    var r :- Lit(w.1, "to ");
    var to :- YsfTarget(r);
    Some(Named(None, external, f.0, None, to))
  }

  function WatchdogAnchored(t: string): (g: Option<Groups>)
    ensures g.Some? ==> Stamped(t) && g.value.NoGroups?
  {
    var r :- Stamp(t);
    var _ :- Lit(r, "YSF, network watchdog has expired");
    Some(NoGroups)
  }

  // -----------------------------------------------------------------------
  // D-Star: `D-Star, received (?<external>RF|network) <phrase> from (?<from>\w+)
  //          \s+(\/.*)? to (?<to>\w+)`

  /** ` to ` followed by a word character, at position `r` of `u`. */
  predicate ToAt(u: string, r: nat) {
    r + 5 <= |u| && u[r..r + 4] == " to " && IsWordChar(u[r + 4])
  }

  /** The rightmost position in [0, n] where ` to \w` starts: where `.*`
      stops after backtracking from its longest run. */
  function RightmostTo(u: string, n: nat): (r: Option<nat>)
    requires n <= |u|
    ensures r.Some? ==> r.value <= n && ToAt(u, r.value) && forall m :: r.value < m <= n ==> !ToAt(u, m)
    ensures r.None? ==> forall m :: 0 <= m <= n ==> !ToAt(u, m)
  {
    if ToAt(u, n) then Some(n)
    else if n == 0 then None
    else RightmostTo(u, n - 1)
  }

  /** `\s+(\/.*)? to (?<to>\w+)` after the `from` word: the only pattern
      part that needs backtracking. With a `/`, `.*` gives back characters
      until ` to \w` follows; without one, the whitespace run gives back its
      last character, which must be a space followed by `to \w`. */
  function DStarTail(t: string): Option<string> {
    var ws := Span(t, Space);
    if ws.0 == [] then None
    else if ws.1 != [] && ws.1[0] == '/' then
      var u := ws.1[1..];
      var r :- RightmostTo(u, |Span(u, AnyButLineEnd).0|);
      Some(Span(u[r + 4..], Word).0)
    else if |ws.0| >= 2 && ws.0[|ws.0| - 1] == ' ' && StartsWith(ws.1, "to ") && |ws.1| > 3 && IsWordChar(ws.1[3]) then
      Some(Span(ws.1[3..], Word).0)
    else None
  }

  function DStarAnchored(t: string, phrase: string): (g: Option<Groups>)
    ensures g.Some? ==> Stamped(t) && g.value.Named? && g.value.external in {"RF", "network"}
  {
    var r :- Stamp(t);
    var r :- Lit(r, "D-Star, received ");
    var e :- Choice(r, "RF", "network");
    var r' :- Lit(e.1, " " + phrase + " from ");
    var f :- Span1(r', Word);
    var to :- DStarTail(f.1);
    Some(Named(None, e.0, f.0, None, to))
  }

  // -----------------------------------------------------------------------
  // M17: `M17, received (?<external>RF (late entry )?voice transmission|network voice
  //       transmission) from (?<from>\w+|(\w+\s+\w))\s+to (?<to>\w+)` and the end form

  /** The start form's source group is the whole phrase. */
  function M17StartSource(t: string): Option<(string, string)> {
    if StartsWith(t, "RF late entry voice transmission") then
      Some(("RF late entry voice transmission", t[|"RF late entry voice transmission"|..]))
    else Choice(t, "RF voice transmission", "network voice transmission")
  }

  predicate ToWord(u: string) {
    StartsWith(u, "to ") && |u| > 3 && IsWordChar(u[3])
  }

  /** `(?<from>\w+|(\w+\s+\w))\s+to (?<to>\w+)`: the one-word branch is tried
      first; the second takes one more word character after the spaces. */
  function M17FromTo(t: string): Option<(string, string)> {
    var w :- Span1(t, Word);
    var sp := Span(w.1, Space);
    if sp.0 == [] then None
    else if ToWord(sp.1) then Some((w.0, Span(sp.1[3..], Word).0))
    else if sp.1 != [] && IsWordChar(sp.1[0]) then
      var sp2 := Span(sp.1[1..], Space);
      if sp2.0 != [] && ToWord(sp2.1) then Some((w.0 + sp.0 + [sp.1[0]], Span(sp2.1[3..], Word).0))
      else None
    else None
  }

  function M17Anchored(t: string, start: bool): (g: Option<Groups>)
    ensures g.Some? ==> Stamped(t) && g.value.Named?
    ensures g.Some? && start ==>
              g.value.external in {"RF voice transmission", "RF late entry voice transmission", "network voice transmission"}
    ensures g.Some? && !start ==> g.value.external in {"RF", "network"}
  {
    var r :- Stamp(t);
    var r :- Lit(r, "M17, received ");
    var e :- M17Source(r, start);
    var ft :- M17FromTo(e.1);
    Some(Named(None, e.0, ft.0, None, ft.1))
  }

  /** The source group and the words up to `from `. */
  function M17Source(t: string, start: bool): (r: Option<(string, string)>)
    ensures r.Some? && start ==>
              r.value.0 in {"RF voice transmission", "RF late entry voice transmission", "network voice transmission"}
    ensures r.Some? && !start ==> r.value.0 in {"RF", "network"}
  {
    var e :- if start then M17StartSource(t) else Choice(t, "RF", "network");
    var r :- Lit(e.1, if start then " from " else " end of transmission from ");
    Some((e.0, r))
  }

  // -----------------------------------------------------------------------
  // Search

  /** The pattern matched at the very start of `t`. Every match starts
      with `M: ` and its 24 timestamp characters, has groups unless it is
      the watchdog's, and its source group is one of the pattern's own
      alternatives. */
  function Anchored(p: Pattern, t: string): (g: Option<Groups>)
    ensures g.Some? ==> Stamped(t)
    ensures g.Some? ==> (g.value.NoGroups? <==> p == YsfWatchdog)
    ensures g.Some? && (p.DmrStart? || p.DmrEnd?) ==> g.value.slot.Some?
    ensures g.Some? && p == M17Start ==>
              g.value.external in {"RF voice transmission", "RF late entry voice transmission", "network voice transmission"}
    ensures g.Some? && p == YsfStart ==> g.value.external in {"RF header", "network data"}
    ensures g.Some? && (p.DmrStart? || p.DmrEnd? || p.YsfEnd? || p.DStarStart? || p.DStarEnd? || p.M17End?) ==>
              g.value.external in {"RF", "network"}
  {
    match p
    case DmrStart => DmrAnchored(t, "voice header")
    case DmrEnd => DmrAnchored(t, "end of voice transmission")
    case YsfStart => YsfAnchored(t, true)
    case YsfEnd => YsfAnchored(t, false)
    case YsfWatchdog => WatchdogAnchored(t)
    case DStarStart => DStarAnchored(t, "header")
    case DStarEnd => DStarAnchored(t, "end of transmission")
    case M17Start => M17Anchored(t, true)
    case M17End => M17Anchored(t, false)
  }

  /** The search from position `i` on. */
  function ExecFrom(p: Pattern, s: string, i: nat): (g: Option<Groups>)
    requires i <= |s|
    ensures g.Some? ==> (g.value.NoGroups? <==> p == YsfWatchdog)
    decreases |s| - i
  {
    var here := Anchored(p, s[i..]);
    if here.Some? then here
    else if i == |s| then None
    else ExecFrom(p, s, i + 1)
  }

  /** `line.match(regex)` for a pattern without the global flag. */
  function Exec(p: Pattern, line: string): (g: Option<Groups>)
    ensures g.Some? ==> (g.value.NoGroups? <==> p == YsfWatchdog)
  {
    ExecFrom(p, line, 0)
  }

  predicate NoMatchBefore(p: Pattern, s: string, i: nat, k: nat)
    requires i <= k <= |s|
  {
    forall j :: i <= j < k ==> Anchored(p, s[j..]).None?
  }

  /** The search finds the leftmost position where the pattern matches,
      and finds nothing only when it matches nowhere. */
  lemma {:induction false} ExecFromLeftmost(p: Pattern, s: string, i: nat)
    requires i <= |s|
    ensures ExecFrom(p, s, i).Some? ==>
              exists k :: i <= k <= |s| && Anchored(p, s[k..]) == ExecFrom(p, s, i) && NoMatchBefore(p, s, i, k)
    ensures ExecFrom(p, s, i).None? <==> NoMatchBefore(p, s, i, |s|) && Anchored(p, s[|s|..]).None?
    decreases |s| - i
  {
    if Anchored(p, s[i..]).Some? {
      assert NoMatchBefore(p, s, i, i);
    } else if i < |s| {
      ExecFromLeftmost(p, s, i + 1);
      if ExecFrom(p, s, i).Some? {
        var k :| i + 1 <= k <= |s| && Anchored(p, s[k..]) == ExecFrom(p, s, i) && NoMatchBefore(p, s, i + 1, k);
        assert NoMatchBefore(p, s, i, k);
      }
    }
  }

  /** `line.match(regex)`: the groups of the leftmost match, or None when the
      pattern matches at no position. */
  lemma ExecLeftmost(p: Pattern, line: string)
    ensures Exec(p, line).Some? ==>
              exists k :: 0 <= k <= |line| && Anchored(p, line[k..]) == Exec(p, line) && NoMatchBefore(p, line, 0, k)
    ensures Exec(p, line).None? <==> forall k :: 0 <= k <= |line| ==> Anchored(p, line[k..]).None?
  {
    ExecFromLeftmost(p, line, 0);
  }

  // -----------------------------------------------------------------------
  // Lines as MMDVMHost writes them, and what the recognisers read back

  lemma {:induction false} SpanOf(w: string, rest: string, k: CharClass)
    requires AllIn(w, k) && (rest == [] || !InClass(rest[0], k))
    ensures Span(w + rest, k) == (w, rest)
    decreases |w|
  {
    if w != [] {
      assert (w + rest)[0] == w[0];
      assert (w + rest)[1..] == w[1..] + rest;
      SpanOf(w[1..], rest, k);
      assert [w[0]] + w[1..] == w;
    } else {
      assert w + rest == rest;
    }
  }

  lemma LitOf(lit: string, rest: string)
    ensures Lit(lit + rest, lit) == Some(rest)
  {
    assert (lit + rest)[..|lit|] == lit;
    assert (lit + rest)[|lit|..] == rest;
  }

  lemma StampOf(stamp: string, rest: string)
    requires |stamp| == 24 && AllIn(stamp, StampChar)
    ensures Stamp("M: " + (stamp + rest)) == Some(rest)
  {
    LitOf("M: ", stamp + rest);
    assert (stamp + rest)[..24] == stamp;
    assert (stamp + rest)[24..] == rest;
  }

  /** A DMR voice header or end line: `phrase` is `voice header` or
      `end of voice transmission`, `tg` says whether the destination is a
      talk group. */
  function DmrLine(stamp: string, slot: char, external: string, phrase: string,
                   from: string, tg: bool, to: string, tail: string): string
  {
    "M: " + (stamp + ("DMR Slot " + ([slot] + (", received " + (external + ((" " + phrase + " from ")
      + (from + (" to" + ((if tg then " TG " else " ") + (to + tail))))))))))
  }

  predicate IsStamp(stamp: string) {
    |stamp| == 24 && AllIn(stamp, StampChar)
  }

  predicate IsNumber(w: string) {
    w != [] && AllIn(w, Digits)
  }

  lemma DmrTargetOf(tg: bool, to: string, tail: string)
    requires IsNumber(to) && (tail == [] || !IsDigit(tail[0]))
    ensures DmrTarget((if tg then " TG " else " ") + (to + tail)) == Some((if tg then Some("TG") else None, to))
  {
    SpanOf(to, tail, Digits);
    if tg {
      LitOf(" TG ", to + tail);
      assert (" TG " + (to + tail))[4] == to[0];
    } else {
      LitOf(" ", to + tail);
      assert (" " + (to + tail))[1] == to[0];
    }
  }

  lemma DmrFromToOf(slot: string, external: string, from: string, tg: bool, to: string, tail: string)
    requires IsNumber(from) && IsNumber(to) && (tail == [] || !IsDigit(tail[0]))
    ensures DmrFromTo(from + (" to" + ((if tg then " TG " else " ") + (to + tail))), slot, external)
            == Some(Named(Some(slot), external, from, if tg then Some("TG") else None, to))
  {
    var r := " to" + ((if tg then " TG " else " ") + (to + tail));
    assert r[0] == ' ';
    SpanOf(from, r, Digits);
    LitOf(" to", (if tg then " TG " else " ") + (to + tail));
    DmrTargetOf(tg, to, tail);
  }

  lemma DmrSourceOf(slot: string, external: string, phrase: string, rest: string)
    requires external in {"RF", "network"}
    ensures DmrSource(", received " + (external + ((" " + phrase + " from ") + rest)), slot, phrase)
            == DmrFromTo(rest, slot, external)
  {
    var r4 := (" " + phrase + " from ") + rest;
    LitOf(", received ", external + r4);
    if external == "RF" {
      ChoiceFirst("RF", "network", r4);
    } else {
      ChoiceSecond("RF", "network", r4);
    }
    LitOf(" " + phrase + " from ", rest);
  }

  lemma ChoiceFirst(a: string, b: string, rest: string)
    ensures Choice(a + rest, a, b) == Some((a, rest))
  {
    LitOf(a, rest);
  }

  lemma ChoiceSecond(a: string, b: string, rest: string)
    requires a != [] && b != [] && a[0] != b[0]
    ensures Choice(b + rest, a, b) == Some((b, rest))
  {
    assert (b + rest)[0] == b[0];
    LitOf(b, rest);
  }

  lemma DmrAnchoredOf(stamp: string, slot: char, phrase: string, rest: string)
    requires IsStamp(stamp) && IsDigit(slot)
    ensures DmrAnchored("M: " + (stamp + ("DMR Slot " + ([slot] + rest))), phrase) == DmrSource(rest, [slot], phrase)
  {
    StampOf(stamp, "DMR Slot " + ([slot] + rest));
    LitOf("DMR Slot ", [slot] + rest);
    assert ([slot] + rest)[1..] == rest;
  }

  /** Reading a DMR line back gives the fields it was written from. */
  lemma DmrLineGroups(stamp: string, slot: char, external: string, phrase: string,
                      from: string, tg: bool, to: string, tail: string)
    requires IsStamp(stamp) && IsDigit(slot) && external in {"RF", "network"}
    requires IsNumber(from) && IsNumber(to) && (tail == [] || !IsDigit(tail[0]))
    ensures DmrAnchored(DmrLine(stamp, slot, external, phrase, from, tg, to, tail), phrase)
            == Some(Named(Some([slot]), external, from, if tg then Some("TG") else None, to))
  {
    var r5 := from + (" to" + ((if tg then " TG " else " ") + (to + tail)));
    var r2 := ", received " + (external + ((" " + phrase + " from ") + r5));
    DmrAnchoredOf(stamp, slot, phrase, r2);
    DmrSourceOf([slot], external, phrase, r5);
    DmrFromToOf([slot], external, from, tg, to, tail);
  }

  /** A YSF start or end line. */
  function YsfLine(stamp: string, start: bool, external: string, from: string, spaces: string,
                   to: string, tail: string): string
  {
    "M: " + (stamp + ("YSF, received " + (external
      + ((if start then " from " else " end of transmission from ") + (from + (spaces + ("to " + (to + tail))))))))
  }

  lemma YsfTargetOf(dgId: bool, to: string, tail: string)
    requires IsNumber(to) && (tail == [] || !IsDigit(tail[0]))
    ensures YsfTarget((if dgId then "DG-ID " else "") + to + tail) == Some((if dgId then "DG-ID " else "") + to)
  {
    SpanOf(to, tail, Digits);
    if dgId {
      assert "DG-ID " + to + tail == "DG-ID " + (to + tail);
      LitOf("DG-ID ", to + tail);
      assert ("DG-ID " + (to + tail))[6] == to[0];
    } else {
      var t := to + tail;
      assert "" + to + tail == t;
      assert t[0] == to[0] && IsDigit(t[0]);
      assert !StartsWith(t, "DG-ID ") by {
        if |t| >= 6 {
          assert t[..6][0] == t[0];
        }
      }
      assert YsfTarget(t) == Some(Span(t, Digits).0);
      assert "" + to == to;
    }
  }

  lemma YsfFromToOf(external: string, from: string, spaces: string, dest: string, tail: string)
    requires from != [] && AllIn(from, Word) && spaces != [] && AllIn(spaces, Space)
    requires YsfTarget(dest + tail).Some?
    ensures YsfFromTo(from + (spaces + ("to " + (dest + tail))), external)
            == Some(Named(None, external, from, None, YsfTarget(dest + tail).value))
  {
    var r5 := "to " + (dest + tail);
    assert (spaces + r5)[0] == spaces[0];
    SpanOf(from, spaces + r5, Word);
    assert r5[0] == 't';
    SpanOf(spaces, r5, Space);
    LitOf("to ", dest + tail);
  }

  lemma YsfSourceOf(start: bool, external: string, rest: string)
    requires if start then external in {"RF header", "network data"} else external in {"RF", "network"}
    ensures YsfSource(external + ((if start then " from " else " end of transmission from ") + rest), start)
            == Some((external, rest))
  {
    var r3 := (if start then " from " else " end of transmission from ") + rest;
    var r2 := external + r3;
    if external == "RF header" {
      LitOf("RF header", r3);
    } else if external == "network data" {
      assert r2[0] == 'n';
      LitOf("network data", r3);
    } else if external == "RF" {
      LitOf("RF", r3);
    } else {
      assert r2[0] == 'n';
      LitOf("network", r3);
    }
    LitOf(if start then " from " else " end of transmission from ", rest);
  }

  lemma YsfAnchoredOf(stamp: string, start: bool, external: string, rest: string)
    requires IsStamp(stamp)
    requires if start then external in {"RF header", "network data"} else external in {"RF", "network"}
    ensures YsfAnchored("M: " + (stamp + ("YSF, received " + (external
              + ((if start then " from " else " end of transmission from ") + rest)))), start)
            == YsfFromTo(rest, external)
  {
    var r2 := external + ((if start then " from " else " end of transmission from ") + rest);
    StampOf(stamp, "YSF, received " + r2);
    LitOf("YSF, received ", r2);
    YsfSourceOf(start, external, rest);
  }

  /** Reading a YSF line back: the `from` word, the destination as written
      (a number, or `DG-ID ` and a number). */
  lemma YsfLineGroups(stamp: string, start: bool, external: string, from: string, spaces: string,
                      dgId: bool, to: string, tail: string)
    requires IsStamp(stamp)
    requires if start then external in {"RF header", "network data"} else external in {"RF", "network"}
    requires from != [] && AllIn(from, Word) && spaces != [] && AllIn(spaces, Space)
    requires IsNumber(to) && (tail == [] || !IsDigit(tail[0]))
    ensures YsfAnchored(YsfLine(stamp, start, external, from, spaces, (if dgId then "DG-ID " else "") + to, tail), start)
            == Some(Named(None, external, from, None, (if dgId then "DG-ID " else "") + to))
  {
    var dest := (if dgId then "DG-ID " else "") + to;
    YsfTargetOf(dgId, to, tail);
    assert dest + tail == (if dgId then "DG-ID " else "") + to + tail;
    YsfFromToOf(external, from, spaces, dest, tail);
    YsfAnchoredOf(stamp, start, external, from + (spaces + ("to " + (dest + tail))));
  }

  /** An M17 line with a one-word source, as the start and end forms
      print it. */
  function M17Line(stamp: string, start: bool, external: string, from: string, to: string, tail: string): string
  {
    "M: " + (stamp + ("M17, received " + (external
      + ((if start then " from " else " end of transmission from ") + (from + (" to " + (to + tail)))))))
  }

  lemma M17FromToOf(from: string, to: string, tail: string)
    requires from != [] && AllIn(from, Word) && to != [] && AllIn(to, Word)
    requires tail == [] || !IsWordChar(tail[0])
    ensures M17FromTo(from + (" to " + (to + tail))) == Some((from, to))
  {
    var r := "to " + (to + tail);
    assert " to " + (to + tail) == " " + r;
    SpanOf(from, " " + r, Word);
    SpanOf(" ", r, Space);
    LitOf("to ", to + tail);
    assert r[3] == to[0];
    SpanOf(to, tail, Word);
  }

  lemma M17SourceOf(start: bool, external: string, rest: string)
    requires if start then external in {"RF voice transmission", "RF late entry voice transmission", "network voice transmission"}
             else external in {"RF", "network"}
    ensures M17Source(external + ((if start then " from " else " end of transmission from ") + rest), start)
            == Some((external, rest))
  {
    var r3 := (if start then " from " else " end of transmission from ") + rest;
    var r2 := external + r3;
    if external == "RF late entry voice transmission" {
      LitOf("RF late entry voice transmission", r3);
    } else if external == "RF voice transmission" {
      assert !StartsWith(r2, "RF late entry voice transmission") by {
        if |r2| >= 32 {
          assert r2[..32][3] == r2[3] == 'v';
        }
      }
      LitOf("RF voice transmission", r3);
    } else if external == "network voice transmission" {
      assert !StartsWith(r2, "RF late entry voice transmission") && !StartsWith(r2, "RF voice transmission") by {
        assert r2[..2][0] == r2[0] == 'n';
      }
      LitOf("network voice transmission", r3);
    } else if external == "RF" {
      LitOf("RF", r3);
    } else {
      assert !StartsWith(r2, "RF") by {
        assert r2[..2][0] == r2[0] == 'n';
      }
      LitOf("network", r3);
    }
    LitOf(if start then " from " else " end of transmission from ", rest);
  }

  lemma M17AnchoredOf(stamp: string, start: bool, external: string, rest: string)
    requires IsStamp(stamp)
    requires if start then external in {"RF voice transmission", "RF late entry voice transmission", "network voice transmission"}
             else external in {"RF", "network"}
    requires M17FromTo(rest).Some?
    ensures M17Anchored("M: " + (stamp + ("M17, received " + (external
              + ((if start then " from " else " end of transmission from ") + rest)))), start)
            == Some(Named(None, external, M17FromTo(rest).value.0, None, M17FromTo(rest).value.1))
  {
    var r2 := external + ((if start then " from " else " end of transmission from ") + rest);
    StampOf(stamp, "M17, received " + r2);
    LitOf("M17, received ", r2);
    M17SourceOf(start, external, rest);
  }

  /** Reading an M17 line back: the start form's source group is the whole
      phrase it was written with. */
  lemma M17LineGroups(stamp: string, start: bool, external: string, from: string, to: string, tail: string)
    requires IsStamp(stamp)
    requires if start then external in {"RF voice transmission", "RF late entry voice transmission", "network voice transmission"}
             else external in {"RF", "network"}
    requires from != [] && AllIn(from, Word) && to != [] && AllIn(to, Word)
    requires tail == [] || !IsWordChar(tail[0])
    ensures M17Anchored(M17Line(stamp, start, external, from, to, tail), start)
            == Some(Named(None, external, from, None, to))
  {
    M17FromToOf(from, to, tail);
    M17AnchoredOf(stamp, start, external, from + (" to " + (to + tail)));
  }

  /** An M17 start line is matched at its beginning. */
  lemma M17StartExec(stamp: string, external: string, from: string, to: string, tail: string)
    requires IsStamp(stamp)
    requires external in {"RF voice transmission", "RF late entry voice transmission", "network voice transmission"}
    requires from != [] && AllIn(from, Word) && to != [] && AllIn(to, Word)
    requires tail == [] || !IsWordChar(tail[0])
    ensures Exec(M17Start, M17Line(stamp, true, external, from, to, tail)) == Some(Named(None, external, from, None, to))
  {
    M17LineGroups(stamp, true, external, from, to, tail);
    M17AnchoredExec(M17Line(stamp, true, external, from, to, tail), Named(None, external, from, None, to));
  }

  lemma M17AnchoredExec(line: string, g: Groups)
    requires M17Anchored(line, true) == Some(g)
    ensures Exec(M17Start, line) == Some(g)
  {
    assert Anchored(M17Start, line) == M17Anchored(line, true);
    ExecAtStart(M17Start, line);
  }

  lemma YsfAnchoredExec(line: string, g: Groups)
    requires YsfAnchored(line, true) == Some(g)
    ensures Exec(YsfStart, line) == Some(g)
  {
    assert Anchored(YsfStart, line) == YsfAnchored(line, true);
    ExecAtStart(YsfStart, line);
  }

  lemma DStarAnchoredExec(line: string, g: Groups)
    requires DStarAnchored(line, "header") == Some(g)
    ensures Exec(DStarStart, line) == Some(g)
  {
    assert Anchored(DStarStart, line) == DStarAnchored(line, "header");
    ExecAtStart(DStarStart, line);
  }

  lemma DmrAnchoredExec(line: string, g: Groups)
    requires DmrAnchored(line, "voice header") == Some(g)
    ensures Exec(DmrStart, line) == Some(g)
  {
    assert Anchored(DmrStart, line) == DmrAnchored(line, "voice header");
    ExecAtStart(DmrStart, line);
  }

  /** A pattern that matches at the start of a line is the match `Exec`
      answers. */
  lemma ExecAtStart(p: Pattern, line: string)
    requires Anchored(p, line).Some?
    ensures Exec(p, line) == Anchored(p, line)
  {
    assert line[0..] == line;
  }

  /** No ` to \w` starts in (r, n]. */
  predicate NoToBetween(u: string, r: nat, n: nat) {
    forall m :: r < m <= n ==> !ToAt(u, m)
  }

  lemma {:induction false} RightmostToOf(u: string, n: nat, r: nat)
    requires r <= n <= |u| && ToAt(u, r)
    requires NoToBetween(u, r, n)
    ensures RightmostTo(u, n) == Some(r)
    decreases n
  {
    if n > r {
      RightmostToOf(u, n - 1, r);
    }
  }

  lemma AllInConcat(a: string, b: string, k: CharClass)
    requires AllIn(a, k) && AllIn(b, k)
    ensures AllIn(a + b, k)
  {
    forall i | 0 <= i < |a + b|
      ensures InClass((a + b)[i], k)
    {
      if i < |a| {
        assert (a + b)[i] == a[i];
      } else {
        assert (a + b)[i] == b[i - |a|];
      }
    }
  }

  /** After the `/` suffix: `.*` gives back characters until the last
      ` to \w` of the line, which is the one the line was written with. */
  lemma DStarSuffixOf(suffix: string, to: string, tail: string)
    requires AllIn(suffix, AnyButLineEnd) && to != [] && AllIn(to, Word)
    requires tail == [] || IsLineTerminator(tail[0])
    ensures var u := suffix + (" to " + (to + tail));
            RightmostTo(u, |Span(u, AnyButLineEnd).0|) == Some(|suffix|)
            && Span(u[|suffix| + 4..], Word).0 == to
  {
    var u := suffix + (" to " + (to + tail));
    DStarLineEndOf(suffix, to, tail);
    DStarRightmostTo(suffix, to, tail);
    assert u[|suffix| + 4..] == to + tail;
    SpanOf(to, tail, Word);
  }

  /** `.*` in a D-Star suffix line stops at the line's end. */
  lemma DStarLineEndOf(suffix: string, to: string, tail: string)
    requires AllIn(suffix, AnyButLineEnd) && AllIn(to, Word)
    requires tail == [] || IsLineTerminator(tail[0])
    ensures var u := suffix + (" to " + (to + tail));
            |Span(u, AnyButLineEnd).0| == |suffix| + 4 + |to|
  {
    var line := suffix + " to " + to;
    assert AllIn(to, AnyButLineEnd);
    assert AllIn(" to ", AnyButLineEnd);
    AllInConcat(suffix, " to ", AnyButLineEnd);
    AllInConcat(suffix + " to ", to, AnyButLineEnd);
    assert suffix + (" to " + (to + tail)) == line + tail;
    SpanOf(line, tail, AnyButLineEnd);
  }

  /** ` to ` at `r`, then word characters up to `n`, where the line ends. */
  predicate ToWordEnd(u: string, r: nat, n: nat) {
    && r + 4 < n <= |u|
    && u[r..r + 4] == " to "
    && (forall i :: r + 4 <= i < n ==> IsWordChar(u[i]))
    && (n == |u| || IsLineTerminator(u[n]))
  }

  /** No ` to \w` starts inside the ` to <word>` that ends a line. */
  lemma NoToAfterAt(u: string, r: nat, n: nat, m: nat)
    requires ToWordEnd(u, r, n) && r < m <= n
    ensures !ToAt(u, m)
  {
    if m + 5 <= |u| {
      var w := u[m..m + 4];
      assert w[0] == u[m] && w[1] == u[m + 1] && w[2] == u[m + 2] && w[3] == u[m + 3];
      var t := u[r..r + 4];
      if m < r + 3 {
        assert u[m] == t[m - r];
      } else if m == r + 3 {
        if n > r + 6 {
          assert IsWordChar(u[r + 6]);
        } else if n == r + 6 {
          assert IsLineTerminator(u[m + 3]);
        } else {
          assert IsLineTerminator(u[m + 2]);
        }
      } else if m < n {
        assert IsWordChar(u[m]);
      } else {
        assert IsLineTerminator(u[m]);
      }
    }
  }

  /** The last ` to \w` up to the line's end is the one at `r`. */
  lemma RightmostToWord(u: string, r: nat, n: nat)
    requires ToWordEnd(u, r, n)
    ensures RightmostTo(u, n) == Some(r)
  {
    assert IsWordChar(u[r + 4]);
    forall m | r < m <= n
      ensures !ToAt(u, m)
    {
      NoToAfterAt(u, r, n, m);
    }
    RightmostToOf(u, n, r);
  }

  /** A D-Star suffix line has its ` to <word>` at the line's end. */
  lemma ToWordEndOf(suffix: string, to: string, tail: string)
    requires to != [] && AllIn(to, Word) && (tail == [] || IsLineTerminator(tail[0]))
    ensures ToWordEnd(suffix + (" to " + (to + tail)), |suffix|, |suffix| + 4 + |to|)
  {
    var u := suffix + (" to " + (to + tail));
    var r := |suffix|;
    assert u[r..r + 4] == " to ";
    forall i | r + 4 <= i < r + 4 + |to|
      ensures IsWordChar(u[i])
    {
      assert u[i] == to[i - r - 4];
    }
    if r + 4 + |to| < |u| {
      assert u[r + 4 + |to|] == tail[0];
    }
  }

  /** The last ` to ` before the line's end is the one after the suffix. */
  lemma DStarRightmostTo(suffix: string, to: string, tail: string)
    requires to != [] && AllIn(to, Word) && (tail == [] || IsLineTerminator(tail[0]))
    ensures RightmostTo(suffix + (" to " + (to + tail)), |suffix| + 4 + |to|) == Some(|suffix|)
  {
    ToWordEndOf(suffix, to, tail);
    RightmostToWord(suffix + (" to " + (to + tail)), |suffix|, |suffix| + 4 + |to|);
  }

  /** The D-Star line form with a callsign suffix: `from`, padding, `/`,
      the suffix, then ` to ` and the destination. */
  function DStarLine(stamp: string, external: string, phrase: string, from: string, spaces: string,
                     suffix: string, to: string, tail: string): string
  {
    "M: " + (stamp + ("D-Star, received " + (external + ((" " + phrase + " from ")
      + (from + (spaces + ("/" + (suffix + (" to " + (to + tail))))))))))
  }

  lemma DStarTailOf(spaces: string, suffix: string, to: string, tail: string)
    requires spaces != [] && AllIn(spaces, Space)
    requires AllIn(suffix, AnyButLineEnd) && to != [] && AllIn(to, Word)
    requires tail == [] || IsLineTerminator(tail[0])
    ensures DStarTail(spaces + ("/" + (suffix + (" to " + (to + tail))))) == Some(to)
  {
    var u := suffix + (" to " + (to + tail));
    SpanOf(spaces, "/" + u, Space);
    assert ("/" + u)[1..] == u;
    DStarSuffixOf(suffix, to, tail);
  }

  lemma DStarAnchoredOf(stamp: string, external: string, phrase: string, from: string, rest: string)
    requires IsStamp(stamp) && external in {"RF", "network"}
    requires from != [] && AllIn(from, Word) && rest != [] && IsSpace(rest[0])
    ensures DStarAnchored("M: " + (stamp + ("D-Star, received " + (external + ((" " + phrase + " from ")
              + (from + rest))))), phrase)
            == (if DStarTail(rest).Some? then Some(Named(None, external, from, None, DStarTail(rest).value)) else None)
  {
    var r4 := (" " + phrase + " from ") + (from + rest);
    var r3 := external + r4;
    StampOf(stamp, "D-Star, received " + r3);
    LitOf("D-Star, received ", r3);
    if external == "RF" {
      LitOf("RF", r4);
    } else {
      assert !StartsWith(r3, "RF") by {
        assert r3[..2][0] == r3[0] == 'n';
      }
      LitOf("network", r4);
    }
    LitOf(" " + phrase + " from ", from + rest);
    SpanOf(from, rest, Word);
  }

  /** Reading a D-Star line with a callsign suffix back: the destination is
      the word after the last ` to ` of the line. */
  lemma DStarLineGroups(stamp: string, external: string, phrase: string, from: string, spaces: string,
                        suffix: string, to: string, tail: string)
    requires IsStamp(stamp) && external in {"RF", "network"}
    requires from != [] && AllIn(from, Word) && spaces != [] && AllIn(spaces, Space)
    requires AllIn(suffix, AnyButLineEnd) && to != [] && AllIn(to, Word)
    requires tail == [] || IsLineTerminator(tail[0])
    ensures DStarAnchored(DStarLine(stamp, external, phrase, from, spaces, suffix, to, tail), phrase)
            == Some(Named(None, external, from, None, to))
  {
    var rest := spaces + ("/" + (suffix + (" to " + (to + tail))));
    assert rest[0] == spaces[0];
    DStarTailOf(spaces, suffix, to, tail);
    DStarAnchoredOf(stamp, external, phrase, from, rest);
  }

  // -----------------------------------------------------------------------
  // Where a search can succeed

  /** No `M:` starts at or after position `i`. */
  predicate NoStampFrom(s: string, i: nat) {
    forall j :: i <= j && j + 1 < |s| ==> !(s[j] == 'M' && s[j + 1] == ':')
  }

  /** Every pattern starts with `M: `, so a text without `M:` from `i` on
      matches nowhere there. */
  lemma {:induction false} ExecFromNoStamp(p: Pattern, s: string, i: nat)
    requires i <= |s| && NoStampFrom(s, i)
    ensures ExecFrom(p, s, i) == None
    decreases |s| - i
  {
    assert !StartsWith(s[i..], "M: ") by {
      if |s| - i >= 3 {
        assert s[i..][..3][0] == s[i] && s[i..][..3][1] == s[i + 1];
      }
    }
    if i < |s| {
      ExecFromNoStamp(p, s, i + 1);
    }
  }

  lemma NotInClassNotIn(w: string, k: CharClass, c: char)
    requires AllIn(w, k) && !InClass(c, k)
    ensures c !in w
  {
    forall i | 0 <= i < |w|
      ensures w[i] != c
    {
      assert InClass(w[i], k);
    }
  }

  /** A DMR line holds `M:` only at its start, as long as its tail has no `M`. */
  lemma DmrLineOneStamp(stamp: string, slot: char, external: string, phrase: string,
                        from: string, tg: bool, to: string, tail: string)
    requires IsStamp(stamp) && IsDigit(slot) && external in {"RF", "network"}
    requires IsNumber(from) && IsNumber(to) && 'M' !in phrase && 'M' !in tail
    ensures NoStampFrom(DmrLine(stamp, slot, external, phrase, from, tg, to, tail), 1)
  {
    var rest := [slot] + (", received " + (external + ((" " + phrase + " from ")
      + (from + (" to" + ((if tg then " TG " else " ") + (to + tail)))))));
    DmrLineSplit(stamp, rest);
    DmrRestNoM(slot, external, phrase, from, tg, to, tail);
    DmrPrefixOneStamp(stamp);
    NoStampConcat("M: " + stamp + "DM", "R Slot " + rest);
  }

  lemma DmrLineSplit(stamp: string, rest: string)
    ensures "M: " + (stamp + ("DMR Slot " + rest)) == ("M: " + stamp + "DM") + ("R Slot " + rest)
  {
  }

  /** After `DM` a DMR line holds no `M`. */
  lemma DmrRestNoM(slot: char, external: string, phrase: string, from: string, tg: bool, to: string, tail: string)
    requires IsDigit(slot) && external in {"RF", "network"}
    requires IsNumber(from) && IsNumber(to) && 'M' !in phrase && 'M' !in tail
    ensures 'M' !in "R Slot " + ([slot] + (", received " + (external + ((" " + phrase + " from ")
      + (from + (" to" + ((if tg then " TG " else " ") + (to + tail))))))))
  {
    NotInClassNotIn(from, Digits, 'M');
    NotInClassNotIn(to, Digits, 'M');
    var t := to + tail;
    NotInConcat('M', to, tail);
    var tgText := if tg then " TG " else " ";
    NotInConcat('M', tgText, t);
    NotInConcat('M', " to", tgText + t);
    var f := from + (" to" + (tgText + t));
    NotInConcat('M', from, " to" + (tgText + t));
    var ph := " " + phrase + " from ";
    NotInConcat('M', " ", phrase);
    NotInConcat('M', " " + phrase, " from ");
    NotInConcat('M', ph, f);
    NotInConcat('M', external, ph + f);
    NotInConcat('M', ", received ", external + (ph + f));
    NotInConcat('M', [slot], ", received " + (external + (ph + f)));
    NotInConcat('M', "R Slot ", [slot] + (", received " + (external + (ph + f))));
  }

  lemma NotInConcat(c: char, a: string, b: string)
    requires c !in a && c !in b
    ensures c !in a + b
  {
  }

  /** `M: <stamp>DM` holds `M:` only at its start. */
  lemma DmrPrefixOneStamp(stamp: string)
    requires IsStamp(stamp)
    ensures NoStampFrom("M: " + stamp + "DM", 1)
  {
    var a := "M: " + stamp + "DM";
    NotInClassNotIn(stamp, StampChar, 'M');
    forall j | 1 <= j && j + 1 < |a|
      ensures !(a[j] == 'M' && a[j + 1] == ':')
    {
      if j < 3 {
        assert a[j] != 'M';
      } else if j < 27 {
        assert a[j] == stamp[j - 3];
      } else {
        assert a[j] == 'D';
      }
    }
  }

  /** No `M:` arises by appending a text without `M` unless the join forms one. */
  lemma NoStampConcat(a: string, b: string)
    requires NoStampFrom(a, 1) && 'M' !in b
    requires a != [] && a[|a| - 1] == 'M' && b != [] ==> b[0] != ':'
    ensures NoStampFrom(a + b, 1)
  {
    var s := a + b;
    forall j | 1 <= j && j + 1 < |s|
      ensures !(s[j] == 'M' && s[j + 1] == ':')
    {
      if j + 1 < |a| {
        assert s[j] == a[j] && s[j + 1] == a[j + 1];
      } else if j + 1 == |a| {
        assert s[j + 1] == b[0];
      } else {
        assert s[j] == b[j - |a|];
      }
    }
  }
}
