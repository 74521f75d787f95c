/** The dashboard's caller-id table (digital-voice-dashboard/callerIdNames.js):
    a CSV file of `<id>;<name>;` lines read into a map from radio id to
    name. Blank lines are skipped, malformed lines are reported and
    skipped, and a later line for the same id replaces an earlier one. */
module CallerIdNames {
  import opened Wrappers
  import opened JsText

  /** What the line handler makes of one line. */
  datatype LineResult = Blank | Invalid | Entry(id: int, name: string)

  /** The line handler: the id is `parseInt` of the text before the first
      `;`, the name the trimmed text between the first and the last `;`. */
  function ParseLine(raw: string): (r: LineResult)
    ensures r.Blank? <==> Trim(raw) == []
    ensures r.Entry? ==> r.name != [] && ';' !in r.name && Trim(r.name) == r.name
  {
    ParseTrimmed(Trim(raw))
  }

  function ParseTrimmed(line: string): (r: LineResult)
    ensures r.Blank? <==> line == []
    ensures r.Entry? ==> r.name != [] && ';' !in r.name && Trim(r.name) == r.name
  {
    if line == [] then Blank
    else Checked(ParseInt(IdText(line), DefaultRadix), Trim(NameText(line)))
  }

  /** `line.substring(0, line.indexOf(';'))`. */
  function IdText(line: string): string {
    Substring(line, 0, IndexOf(line, ';'))
  }

  /** `line.substring(line.indexOf(';') + 1, line.lastIndexOf(';'))`. */
  function NameText(line: string): string {
    Substring(line, IndexOf(line, ';') + 1, LastIndexOf(line, ';'))
  }

  /** The validity test on the parsed id and the trimmed name. */
  function Checked(id: Option<int>, name: string): (r: LineResult)
    ensures r.Entry? ==> r.name != [] && ';' !in r.name && r.name == name
  {
    if id.None? || name == [] || IndexOf(name, ';') != -1 then Invalid
    else Entry(id.value, name)
  }

  /** An accepted line holds exactly two semicolons, its id is read from
      the text before the first and its name is the trimmed text between
      them: a line with no `;`, with one, or with more than two is rejected. */
  lemma EntryShape(raw: string)
    requires ParseLine(raw).Entry?
    ensures var line := Trim(raw);
            var d, l := IndexOf(line, ';'), LastIndexOf(line, ';');
            && 0 <= d < l
            && multiset(line)[';'] == 2
            && ParseInt(line[..d], DefaultRadix) == Some(ParseLine(raw).id)
            && ParseLine(raw).name == Trim(line[d + 1..l])
  {
    var line := Trim(raw);
    SemicolonsOfEntry(line);
    TwoSemicolons(line, IndexOf(line, ';'), LastIndexOf(line, ';'));
  }

  /** A line whose only semicolons sit at `d` and `l` holds two of them. */
  lemma TwoSemicolons(line: string, d: nat, l: nat)
    requires d < l < |line| && line[d] == ';' && line[l] == ';'
    requires ';' !in line[..d] && ';' !in line[d + 1..l] && ';' !in line[l + 1..]
    ensures multiset(line)[';'] == 2
  {
    assert line == line[..d] + [';'] + line[d + 1..l] + [';'] + line[l + 1..];
    assert multiset(line[..d])[';'] == 0;
    assert multiset(line[d + 1..l])[';'] == 0;
    assert multiset(line[l + 1..])[';'] == 0;
  }

  /** The two semicolons of an accepted line are its first and last ones,
      and no other lies between them. */
  lemma SemicolonsOfEntry(line: string)
    requires ParseTrimmed(line).Entry?
    ensures var d, l := IndexOf(line, ';'), LastIndexOf(line, ';');
            && 0 <= d < l
            && IdText(line) == line[..d] && NameText(line) == line[d + 1..l]
            && ';' !in line[d + 1..l]
  {
    NoSemicolonRejected(line);
    OneSemicolonRejected(line);
    InnerSemicolonRejected(line);
    var d := IndexOf(line, ';');
    if d >= 0 {
      LastIndexOfBound(line, ';', d);
    }
  }

  /** Without a `;` the id text is empty, and `parseInt('')` is NaN. */
  lemma NoSemicolonRejected(line: string)
    ensures line != [] && ';' !in line ==> ParseTrimmed(line) == Invalid
  {
    if line != [] && ';' !in line {
      assert IdText(line) == [];
    }
  }

  /** With a single `;` the swapped bounds of `substring` take the `;`
      itself into the name, which is then rejected. */
  lemma OneSemicolonRejected(line: string)
    ensures line != [] && 0 <= IndexOf(line, ';') == LastIndexOf(line, ';') ==> ParseTrimmed(line) == Invalid
  {
    var d := IndexOf(line, ';');
    if line != [] && 0 <= d == LastIndexOf(line, ';') {
      assert NameText(line) == [';'];
      assert Trim([';']) == [';'];
    }
  }

  /** A `;` between the first and the last survives trimming, so the name
      is rejected. */
  lemma InnerSemicolonRejected(line: string)
    ensures var d, l := IndexOf(line, ';'), LastIndexOf(line, ';');
            line != [] && 0 <= d < l && ';' in line[d + 1..l] ==> ParseTrimmed(line) == Invalid
  {
    var d, l := IndexOf(line, ';'), LastIndexOf(line, ';');
    if line != [] && 0 <= d < l && ';' in line[d + 1..l] {
      var k :| 0 <= k < |line[d + 1..l]| && line[d + 1..l][k] == ';';
      assert NameText(line) == line[d + 1..l];
      TrimKeeps(NameText(line), k);
    }
  }

  /** A well-formed line reads back as the id and name it was written from. */
  lemma ParseWrittenLine(id: nat, name: string)
    requires name != [] && ';' !in name && Trim(name) == name
    ensures ParseLine(NatToString(id) + ";" + name + ";") == Entry(id, name)
  {
    var digits := NatToString(id);
    var line := digits + ";" + name + ";";
    assert !IsSpace(line[0]) by {
      assert line[0] == digits[0];
    }
    assert line[|line| - 1] == ';';
    assert Trim(line) == line;
    WrittenLineFields(digits, name);
    NatToStringValue(id);
    ParseIntDigits(digits);
    ParseTrimmedFields(line, id, name);
  }

  /** A line whose id text parses and whose name text is a clean name is
      that entry. */
  lemma ParseTrimmedFields(line: string, id: int, name: string)
    requires line != [] && ParseInt(IdText(line), DefaultRadix) == Some(id) && NameText(line) == name
    requires name != [] && ';' !in name && Trim(name) == name
    ensures ParseTrimmed(line) == Entry(id, name)
  {
  }

  /** The id and name texts of `<digits>;<name>;`. */
  lemma WrittenLineFields(digits: string, name: string)
    requires forall i :: 0 <= i < |digits| ==> IsDigit(digits[i])
    requires ';' !in name
    ensures var line := digits + ";" + name + ";";
            IdText(line) == digits && NameText(line) == name
  {
    var line := digits + ";" + name + ";";
    assert ';' !in digits by {
      forall i | 0 <= i < |digits| ensures digits[i] != ';' {
        assert IsDigit(digits[i]);
      }
    }
    assert line[..|digits|] == digits;
    IndexOfAt(line, ';', |digits|);
    assert line[|line| - 1..][1..] == [];
    LastIndexOfAt(line, ';', |line| - 1);
    assert line[|digits| + 1..|line| - 1] == name;
  }

  /** `f` applied to every element, in order. */
  function MapSeq<A, B>(f: A -> B, xs: seq<A>): (ys: seq<B>)
    ensures |ys| == |xs|
    ensures forall k :: 0 <= k < |xs| ==> ys[k] == f(xs[k])
  {
    if xs == [] then [] else MapSeq(f, xs[..|xs| - 1]) + [f(xs[|xs| - 1])]
  }

  lemma MapSeqStep<A, B>(f: A -> B, xs: seq<A>, i: nat)
    requires i < |xs|
    ensures MapSeq(f, xs[..i + 1]) == MapSeq(f, xs[..i]) + [f(xs[i])]
  {
    assert xs[..i + 1][..i] == xs[..i];
  }

  /** The handler's verdict on each line of a file, in order. */
  function Parse(lines: seq<string>): (rs: seq<LineResult>)
    ensures |rs| == |lines|
    ensures forall i :: 0 <= i < |lines| ==> rs[i] == ParseLine(lines[i])
  {
    MapSeq(ParseLine, lines)
  }

  /** Reading one more line extends the verdicts by that line's. */
  lemma ParseStep(lines: seq<string>, i: nat)
    requires i < |lines|
    ensures Parse(lines[..i + 1]) == Parse(lines[..i]) + [ParseLine(lines[i])]
  {
    MapSeqStep(ParseLine, lines, i);
  }

  /** Adding a verdict at the end is one `map.set` or nothing. */
  lemma TableStep(rs: seq<LineResult>, r: LineResult)
    ensures Table(rs + [r]) == if r.Entry? then Table(rs)[r.id := r.name] else Table(rs)
  {
    assert (rs + [r])[..|rs|] == rs;
  }

  /** The map after `map.set(id, name)` for every accepted line, in order. */
  function Table(rs: seq<LineResult>): map<int, string>
    decreases |rs|
  {
    if rs == [] then map[]
    else
      var names := Table(rs[..|rs| - 1]);
      var r := rs[|rs| - 1];
      if r.Entry? then names[r.id := r.name] else names
  }

  /** The table read from a file. */
  function Names(lines: seq<string>): map<int, string> {
    Table(Parse(lines))
  }

  predicate IsEntryFor(r: LineResult, id: int) {
    r.Entry? && r.id == id
  }

  /** Result `i` is the last accepted line for `id`. */
  predicate LastEntryFor(rs: seq<LineResult>, id: int, i: nat) {
    i < |rs| && IsEntryFor(rs[i], id)
    && forall j :: i < j < |rs| ==> !IsEntryFor(rs[j], id)
  }

  /** The table holds exactly the ids of accepted lines. */
  lemma {:induction false} TableDomain(rs: seq<LineResult>)
    ensures forall id :: id in Table(rs) <==> exists i :: 0 <= i < |rs| && IsEntryFor(rs[i], id)
    decreases |rs|
  {
    if rs != [] {
      var n := |rs| - 1;
      var init := rs[..n];
      TableDomain(init);
      forall id
        ensures id in Table(rs) <==> exists i :: 0 <= i < |rs| && IsEntryFor(rs[i], id)
      {
        if exists i :: 0 <= i < |init| && IsEntryFor(init[i], id) {
          var i :| 0 <= i < |init| && IsEntryFor(init[i], id);
          assert rs[i] == init[i];
        }
        if exists i :: 0 <= i < |rs| && IsEntryFor(rs[i], id) {
          var i :| 0 <= i < |rs| && IsEntryFor(rs[i], id);
          if i < n {
            assert init[i] == rs[i];
          }
        }
      }
    }
  }

  /** A later line for an id replaces an earlier one: the table holds the
      name of the last accepted line for each id. */
  lemma {:induction false} TableLastWins(rs: seq<LineResult>, id: int, i: nat)
    requires LastEntryFor(rs, id, i)
    ensures id in Table(rs) && Table(rs)[id] == rs[i].name
    decreases |rs|
  {
    var n := |rs| - 1;
    var init := rs[..n];
    if i < n {
      assert LastEntryFor(init, id, i) by {
        forall j | i < j < |init| ensures !IsEntryFor(init[j], id) {
          assert init[j] == rs[j];
        }
        assert init[i] == rs[i];
      }
      TableLastWins(init, id, i);
      assert !IsEntryFor(rs[n], id);
    }
  }

  /** Every name in the table is non-empty and free of `;`. */
  lemma {:induction false} TableWellFormed(rs: seq<LineResult>)
    requires forall i :: 0 <= i < |rs| && rs[i].Entry? ==> rs[i].name != [] && ';' !in rs[i].name
    ensures forall id :: id in Table(rs) ==> Table(rs)[id] != [] && ';' !in Table(rs)[id]
    decreases |rs|
  {
    if rs != [] {
      TableWellFormed(rs[..|rs| - 1]);
    }
  }

  lemma NamesWellFormed(lines: seq<string>)
    ensures forall id :: id in Names(lines) ==> Names(lines)[id] != [] && ';' !in Names(lines)[id]
  {
    var rs := Parse(lines);
    TableWellFormed(rs);
  }

  /** Blank and rejected lines leave the table as it is. */
  lemma SkippedLineKeepsNames(lines: seq<string>, line: string)
    requires !ParseLine(line).Entry?
    ensures Names(lines + [line]) == Names(lines)
  {
    ParseStep(lines + [line], |lines|);
    assert (lines + [line])[..|lines|] == lines;
    assert (lines + [line])[..|lines| + 1] == lines + [line];
    TableStep(Parse(lines), ParseLine(line));
  }

  /** The readline loop over the file's lines. */
  method ReadCallerIdNames(lines: seq<string>) returns (names: map<int, string>)
    ensures names == Names(lines)
  {
    names := map[];
    for i := 0 to |lines|
      invariant names == Table(Parse(lines[..i]))
    {
      var r := ParseLine(lines[i]);
      ParseStep(lines, i);
      TableStep(Parse(lines[..i]), r);
      if r.Entry? {
        names := names[r.id := r.name];
      }
    }
    assert lines[..|lines|] == lines;
  }
}
