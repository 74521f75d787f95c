/** The logger's time fields (mqtt-logger/index.mjs): `Sink._printTime`
    formats a UTC time for log prefixes and log file names, `_readTime` reads
    the fields of a file name back, and the file-name pattern of
    `FileSink._loadFiles` splits a name into those fields. The month table
    is kept as written, with eleven names and no `Oct`, next to the
    twelve-name table the format evidently intends. */
module LoggerTime {
  import opened Wrappers
  import opened JsText

  /** `Sink._monthNames` as written. */
  const MonthNames: seq<string> := ["Jan", "Feb", "Mar", "Apr", "May", "Jun", "Jul", "Aug", "Sep", "Nov", "Dec"]

  /** The table with `Oct` in its place. */
  const MonthNamesFixed: seq<string> :=
    ["Jan", "Feb", "Mar", "Apr", "May", "Jun", "Jul", "Aug", "Sep", "Oct", "Nov", "Dec"]

  /** A time as the `getUTC*` getters report it; `month` counts from 0. */
  datatype UtcTime = UtcTime(year: nat, month: nat, day: nat, hour: nat, min: nat, sec: nat)
  {
    /** A calendar time with a four-digit year. */
    predicate Valid() {
      1000 <= year <= 9999 && month < 12 && 1 <= day <= 31 && hour < 24 && min < 60 && sec < 60
    }
  }

  /** The six text fields of a formatted time; they are also the named
      groups of the file-name pattern. */
  datatype TimeFields = TimeFields(hour: string, min: string, sec: string, day: string, month: string, year: string)

  /** `num.toString().padStart(2, '0')`. */
  function Padded(n: nat): string {
    PadStart(NatToString(n), 2, '0')
  }

  /** `table[m]` inside a template literal: past the end it is `undefined`. */
  function MonthText(table: seq<string>, m: nat): string {
    if m < |table| then table[m] else "undefined"
  }

  function FieldsOf(t: UtcTime, table: seq<string>): TimeFields {
    TimeFields(Padded(t.hour), Padded(t.min), Padded(t.sec), Padded(t.day), MonthText(table, t.month), NatToString(t.year))
  }

  /** `HH-MM-SS_DD-Mon-YYYY`, the form used in file names. */
  function DashedText(f: TimeFields): string {
    f.hour + "-" + f.min + "-" + f.sec + "_" + f.day + "-" + f.month + "-" + f.year
  }

  /** `HH:MM:SS DD-Mon-YYYY`, the form used in log prefixes. */
  function SpacedText(f: TimeFields): string {
    f.hour + ":" + f.min + ":" + f.sec + " " + f.day + "-" + f.month + "-" + f.year
  }

  /** `_printTime(onlyDashes)` over a month table; the clock reading is the
      parameter `t`. */
  function FormatTime(t: UtcTime, onlyDashes: bool, table: seq<string>): (r: string)
    ensures t.Valid() && |MonthText(table, t.month)| == 3 ==>
              && |r| == 20
              && r[2] == r[5] == (if onlyDashes then '-' else ':')
              && r[8] == (if onlyDashes then '_' else ' ')
              && r[11] == r[15] == '-'
  {
    var f := FieldsOf(t, table);
    if t.Valid() && |MonthText(table, t.month)| == 3 then
      PaddedShape(t.hour); PaddedShape(t.min); PaddedShape(t.sec); PaddedShape(t.day);
      YearRead(t.year);
      TextShape(f);
      if onlyDashes then DashedText(f) else SpacedText(f)
    else if onlyDashes then DashedText(f) else SpacedText(f)
  }

  /** Both forms put their separators at fixed offsets when the fields have
      their printed widths. */
  lemma TextShape(f: TimeFields)
    requires |f.hour| == 2 && |f.min| == 2 && |f.sec| == 2 && |f.day| == 2 && |f.month| == 3 && |f.year| == 4
    ensures |DashedText(f)| == 20 && |SpacedText(f)| == 20
    ensures DashedText(f)[2] == DashedText(f)[5] == '-' && DashedText(f)[8] == '_'
    ensures SpacedText(f)[2] == SpacedText(f)[5] == ':' && SpacedText(f)[8] == ' '
    ensures DashedText(f)[11] == DashedText(f)[15] == '-' && SpacedText(f)[11] == SpacedText(f)[15] == '-'
  {
  }

  /** `_monthNames.findIndex(x => x.toLowerCase() === name.toLowerCase())`. */
  function FindMonth(table: seq<string>, name: string): (i: int)
    ensures -1 <= i < |table|
    ensures i >= 0 ==> ToLowerAscii(table[i]) == ToLowerAscii(name)
    ensures forall j :: 0 <= j < |table| && (i < 0 || j < i) ==> ToLowerAscii(table[j]) != ToLowerAscii(name)
    decreases |table|
  {
    if table == [] then -1
    else if ToLowerAscii(table[0]) == ToLowerAscii(name) then 0
    else
      var k := FindMonth(table[1..], name);
      if k < 0 then -1 else k + 1
  }

  /** The fields `_readTime` hands to the `Date` setters; `month` is an
      index into the table. */
  datatype ParsedTime = ParsedTime(day: int, month: nat, year: int, hour: int, min: int, sec: int)

  function ParsedOf(t: UtcTime): ParsedTime {
    ParsedTime(t.day, t.month, t.year, t.hour, t.min, t.sec)
  }

  /** `_readTime`: null when a number field does not parse or the month
      name is not in the table. */
  function ReadTime(table: seq<string>, f: TimeFields): (r: Option<ParsedTime>)
    ensures r.Some? <==>
              && FindMonth(table, f.month) >= 0 && ParseInt(f.day, DefaultRadix).Some?
              && ParseInt(f.year, DefaultRadix).Some? && ParseInt(f.hour, DefaultRadix).Some?
              && ParseInt(f.min, DefaultRadix).Some? && ParseInt(f.sec, DefaultRadix).Some?
    ensures r.Some? ==> r.value.month < |table| && ToLowerAscii(table[r.value.month]) == ToLowerAscii(f.month)
  {
    var day := ParseInt(f.day, DefaultRadix);
    var month := FindMonth(table, f.month);
    var year := ParseInt(f.year, DefaultRadix);
    var hour := ParseInt(f.hour, DefaultRadix);
    var min := ParseInt(f.min, DefaultRadix);
    var sec := ParseInt(f.sec, DefaultRadix);
    if day.None? || month < 0 || year.None? || hour.None? || min.None? || sec.None? then None
    else Some(ParsedTime(day.value, month, year.value, hour.value, min.value, sec.value))
  }

  // -----------------------------------------------------------------------
  // Reading printed times back

  /** A two-digit field reads back as its number. */
  lemma PaddedRead(n: nat)
    requires n < 100
    ensures |Padded(n)| == 2 && AllDigits(Padded(n))
    ensures ParseInt(Padded(n), DefaultRadix) == Some(n)
  {
    ParseIntPadded(n, 2);
    PaddedShape(n);
  }

  lemma PaddedShape(n: nat)
    requires n < 100
    ensures |Padded(n)| == 2 && AllDigits(Padded(n))
  {
    if n >= 10 {
      assert NatToString(n) == NatToString(n / 10) + [DigitChar(n % 10)];
    }
  }

  predicate AllDigits(s: string) {
    forall i :: 0 <= i < |s| ==> IsDigit(s[i])
  }

  predicate AllLetters(s: string) {
    forall i :: 0 <= i < |s| ==> ('a' <= s[i] <= 'z' || 'A' <= s[i] <= 'Z')
  }

  /** A four-digit year reads back as its number. */
  lemma YearRead(y: nat)
    requires 1000 <= y <= 9999
    ensures |NatToString(y)| == 4 && AllDigits(NatToString(y))
    ensures ParseInt(NatToString(y), DefaultRadix) == Some(y)
  {
    ParseIntPadded(y, 0);
    assert PadStart(NatToString(y), 0, '0') == NatToString(y);
    var a := y / 10;
    var b := a / 10;
    var c := b / 10;
    assert 1 <= c < 10;
    DigitsLength(b);
    DigitsLength(a);
    DigitsLength(y);
  }

  lemma DigitsLength(n: nat)
    requires n >= 10
    ensures |NatToString(n)| == |NatToString(n / 10)| + 1
  {
  }

  /** The lower-cased names `findIndex` compares. */
  const MonthKeysFixed: seq<string> :=
    ["jan", "feb", "mar", "apr", "may", "jun", "jul", "aug", "sep", "oct", "nov", "dec"]

  /** A capitalised three-letter name lower-cases by its first letter. */
  lemma LowerTitle(s: string)
    requires |s| == 3 && 'A' <= s[0] <= 'Z' && 'a' <= s[1] <= 'z' && 'a' <= s[2] <= 'z'
    ensures ToLowerAscii(s) == [(s[0] as int + 32) as char, s[1], s[2]]
  {
    assert ToLowerAscii(s[2..]) == [s[2]];
    assert ToLowerAscii(s[1..]) == [s[1], s[2]];
  }

  lemma MonthKey(m: nat)
    requires m < 12
    ensures ToLowerAscii(MonthNamesFixed[m]) == MonthKeysFixed[m]
  {
    LowerTitle(MonthNamesFixed[m]);
  }

  /** `findIndex` answers the first index whose key matches. */
  lemma {:induction false} FindMonthAt(table: seq<string>, name: string, m: nat)
    requires m < |table| && ToLowerAscii(table[m]) == ToLowerAscii(name)
    requires forall j :: 0 <= j < m ==> ToLowerAscii(table[j]) != ToLowerAscii(name)
    ensures FindMonth(table, name) == m
    decreases m
  {
    if m > 0 {
      FindMonthAt(table[1..], name, m - 1);
    }
  }

  /** Every name in the fixed table is found at its own index. */
  lemma FindMonthFixed(m: nat)
    requires m < 12
    ensures FindMonth(MonthNamesFixed, MonthNamesFixed[m]) == m
  {
    forall j | 0 <= j < 12 ensures ToLowerAscii(MonthNamesFixed[j]) == MonthKeysFixed[j] {
      MonthKey(j);
    }
    FindMonthAt(MonthNamesFixed, MonthNamesFixed[m], m);
  }

  /** Every name in the table as written is found at its own index. */
  lemma FindMonthAsWritten(m: nat)
    requires m < 11
    ensures FindMonth(MonthNames, MonthNames[m]) == m
  {
    forall j | 0 <= j < 11 ensures ToLowerAscii(MonthNames[j]) == AsWrittenKey(j) {
      MonthKey(if j < 9 then j else j + 1);
    }
    FindMonthAt(MonthNames, MonthNames[m], m);
  }

  function AsWrittenKey(j: nat): string
    requires j < 11
  {
    MonthKeysFixed[if j < 9 then j else j + 1]
  }

  /** With twelve names every printed time reads back as the time printed. */
  lemma ReadPrintedTime(t: UtcTime)
    requires t.Valid()
    ensures ReadTime(MonthNamesFixed, FieldsOf(t, MonthNamesFixed)) == Some(ParsedOf(t))
  {
    PaddedRead(t.day);
    PaddedRead(t.hour);
    PaddedRead(t.min);
    PaddedRead(t.sec);
    YearRead(t.year);
    FindMonthFixed(t.month);
  }

  /** As written the shift cancels out on reading: every month but December
      reads back as the month printed, October included (printed `Nov`,
      found at index 9). */
  lemma ReadPrintedTimeAsWritten(t: UtcTime)
    requires t.Valid() && t.month < 11
    ensures ReadTime(MonthNames, FieldsOf(t, MonthNames)) == Some(ParsedOf(t))
  {
    PaddedRead(t.day);
    PaddedRead(t.hour);
    PaddedRead(t.min);
    PaddedRead(t.sec);
    YearRead(t.year);
    FindMonthAsWritten(t.month);
  }

  /** As written, a December time prints the month as `undefined`, which
      `_readTime` cannot read back. */
  lemma DecemberUnreadable(t: UtcTime)
    requires t.Valid() && t.month == 11
    ensures FieldsOf(t, MonthNames).month == "undefined"
    ensures ReadTime(MonthNames, FieldsOf(t, MonthNames)) == None
  {
    assert FindMonth(MonthNames, "undefined") == -1;
  }

  /** As written, October prints as `Nov`, November as `Dec` and December
      as `undefined`. */
  lemma OctoberShifted()
    ensures MonthText(MonthNames, 9) == "Nov" && MonthText(MonthNames, 10) == "Dec"
    ensures MonthText(MonthNames, 11) == "undefined"
  {
  }

  /** As written, an `Oct` field is not read at all; the fixed table reads
      it as month 9 (`FindMonthFixed`). */
  lemma OctMissing()
    ensures FindMonth(MonthNames, "Oct") == -1
  {
    LowerTitle("Oct");
    forall j | 0 <= j < 11 ensures ToLowerAscii(MonthNames[j]) != "oct" {
      var k := if j < 9 then j else j + 1;
      MonthKey(k);
      assert MonthKeysFixed[k][0] != 'o';
    }
  }

  // -----------------------------------------------------------------------
  // The log file name pattern

  /** `\w+` */
  predicate IsWord(s: string) {
    s != [] && forall i :: 0 <= i < |s| ==> IsWordChar(s[i])
  }

  /** The named groups of a matching file name. */
  datatype FileNameGroups = FileNameGroups(name: string, time: TimeFields, extension: string)

  /** `_<hour>-<min>-<sec>_<day>-<month>-<year>` with two-digit number
      fields, a three-letter month and a four-digit year. */
  function ParseStamp(t: string): (r: Option<TimeFields>)
    requires |t| == 21
    ensures r.Some? ==> "_" + DashedText(r.value) == t
  {
    if && t[0] == '_' && t[3] == '-' && t[6] == '-' && t[9] == '_' && t[12] == '-' && t[16] == '-'
       && AllDigits(t[1..3]) && AllDigits(t[4..6]) && AllDigits(t[7..9]) && AllDigits(t[10..12])
       && AllLetters(t[13..16]) && AllDigits(t[17..21])
    then
      var f := TimeFields(t[1..3], t[4..6], t[7..9], t[10..12], t[13..16], t[17..21]);
      assert "_" + DashedText(f) == t;
      Some(f)
    else None
  }

  /** `name.match(/^(?<name>\w+)_(?<hour>\d\d)-…-(?<year>\d{4})\.(?<extension>\w+)$/)`.
      No group may hold a `.`, so the literal `.` is the first one in the
      name, the time part is the 21 characters before it, and the match is
      unique when it exists. */
  function SplitLogFileName(s: string): (r: Option<FileNameGroups>)
    ensures r.Some? ==> s == r.value.name + "_" + DashedText(r.value.time) + "." + r.value.extension
    ensures r.Some? ==> IsWord(r.value.name) && IsWord(r.value.extension)
  {
    var d := IndexOf(s, '.');
    if d < 21 then None
    else
      var name, ext := s[..d - 21], s[d + 1..];
      var f :- ParseStamp(s[d - 21..d]);
      if IsWord(name) && IsWord(ext) then
        SplitParts(s, d, f);
        Some(FileNameGroups(name, f, ext))
      else None
  }

  /** A name split around the time part that ends at the first `.`. */
  lemma SplitParts(s: string, d: nat, f: TimeFields)
    requires 21 <= d < |s| && s[d] == '.' && "_" + DashedText(f) == s[d - 21..d]
    ensures s == s[..d - 21] + "_" + DashedText(f) + "." + s[d + 1..]
  {
    assert s == s[..d - 21] + s[d - 21..d] + "." + s[d + 1..];
  }

  /** `${fileName}_${formatted}.${fileExtension}` from `_createFilePath`. */
  function LogFileName(fileName: string, t: UtcTime, ext: string, table: seq<string>): (r: string)
    ensures StartsWith(r, fileName + "_") && EndsWith(r, "." + ext)
    ensures t.Valid() && |MonthText(table, t.month)| == 3 ==> |r| == |fileName| + |ext| + 22
  {
    var r := fileName + "_" + FormatTime(t, true, table) + "." + ext;
    assert r[..|fileName| + 1] == fileName + "_";
    assert r[|r| - |ext| - 1..] == "." + ext;
    r
  }

  /** The pieces of a well-shaped time stamp are found at their offsets. */
  lemma ParseStampOf(f: TimeFields)
    requires |f.hour| == 2 && |f.min| == 2 && |f.sec| == 2 && |f.day| == 2 && |f.month| == 3 && |f.year| == 4
    requires AllDigits(f.hour) && AllDigits(f.min) && AllDigits(f.sec) && AllDigits(f.day)
    requires AllLetters(f.month) && AllDigits(f.year)
    ensures |"_" + DashedText(f)| == 21 && ParseStamp("_" + DashedText(f)) == Some(f)
  {
    var t := "_" + DashedText(f);
    assert t == "_" + f.hour + "-" + f.min + "-" + f.sec + "_" + f.day + "-" + f.month + "-" + f.year;
    assert t[1..3] == f.hour;
    assert t[4..6] == f.min;
    assert t[7..9] == f.sec;
    assert t[10..12] == f.day;
    assert t[13..16] == f.month;
    assert t[17..21] == f.year;
  }

  lemma MonthLetters(m: nat)
    requires m < 12
    ensures |MonthNamesFixed[m]| == 3 && AllLetters(MonthNamesFixed[m])
  {
  }

  /** A log file name splits back into the configured name, the time
      printed and the extension whenever the month prints as three letters. */
  lemma LogFileNameSplits(fileName: string, t: UtcTime, ext: string, table: seq<string>)
    requires IsWord(fileName) && IsWord(ext) && t.Valid()
    requires |MonthText(table, t.month)| == 3 && AllLetters(MonthText(table, t.month))
    ensures SplitLogFileName(LogFileName(fileName, t, ext, table))
            == Some(FileNameGroups(fileName, FieldsOf(t, table), ext))
  {
    PaddedShape(t.hour);
    PaddedShape(t.min);
    PaddedShape(t.sec);
    PaddedShape(t.day);
    YearRead(t.year);
    SplitOf(fileName, FieldsOf(t, table), ext);
  }

  /** With twelve names every log file name splits back. */
  lemma LogFileNameRoundTrip(fileName: string, t: UtcTime, ext: string)
    requires IsWord(fileName) && IsWord(ext) && t.Valid()
    ensures SplitLogFileName(LogFileName(fileName, t, ext, MonthNamesFixed))
            == Some(FileNameGroups(fileName, FieldsOf(t, MonthNamesFixed), ext))
  {
    MonthLetters(t.month);
    LogFileNameSplits(fileName, t, ext, MonthNamesFixed);
  }

  /** As written every month but December still splits back. */
  lemma LogFileNameRoundTripAsWritten(fileName: string, t: UtcTime, ext: string)
    requires IsWord(fileName) && IsWord(ext) && t.Valid() && t.month < 11
    ensures SplitLogFileName(LogFileName(fileName, t, ext, MonthNames))
            == Some(FileNameGroups(fileName, FieldsOf(t, MonthNames), ext))
  {
    var k := if t.month < 9 then t.month else t.month + 1;
    assert MonthNames[t.month] == MonthNamesFixed[k];
    MonthLetters(k);
    LogFileNameSplits(fileName, t, ext, MonthNames);
  }

  /** A name built from well-shaped fields splits back into them. */
  lemma SplitOf(fileName: string, f: TimeFields, ext: string)
    requires IsWord(fileName) && IsWord(ext)
    requires |f.hour| == 2 && |f.min| == 2 && |f.sec| == 2 && |f.day| == 2 && |f.month| == 3 && |f.year| == 4
    requires AllDigits(f.hour) && AllDigits(f.min) && AllDigits(f.sec) && AllDigits(f.day)
    requires AllLetters(f.month) && AllDigits(f.year)
    ensures SplitLogFileName(fileName + "_" + DashedText(f) + "." + ext) == Some(FileNameGroups(fileName, f, ext))
  {
    ParseStampOf(f);
    var stamp := "_" + DashedText(f);
    NoDotsInNumbers(f);
    NoDotInLetters(f.month);
    NoDotInStamp(f);
    var s := fileName + stamp + "." + ext;
    assert s == fileName + "_" + DashedText(f) + "." + ext;
    DotAfter(fileName, stamp, ext);
    var d := |fileName| + 21;
    assert s[..d - 21] == fileName;
    assert s[d - 21..d] == stamp;
    assert s[d + 1..] == ext;
  }

  /** The first `.` of `w + stamp + "." + ext` is the one after `stamp`
      when neither `w` nor `stamp` holds one. */
  lemma DotAfter(w: string, stamp: string, ext: string)
    requires IsWord(w) && '.' !in stamp
    ensures IndexOf(w + stamp + "." + ext, '.') == |w| + |stamp|
  {
    var s := w + stamp + "." + ext;
    var d := |w| + |stamp|;
    assert s[..d] == w + stamp;
    forall i | 0 <= i < d ensures s[i] != '.' {
      if i < |w| {
        assert IsWordChar(w[i]);
      } else {
        assert s[i] == stamp[i - |w|];
      }
    }
    IndexOfAt(s, '.', d);
  }

  /** No field of a stamp holds a `.`. */
  lemma NoDotInStamp(f: TimeFields)
    requires '.' !in f.hour && '.' !in f.min && '.' !in f.sec && '.' !in f.day
    requires '.' !in f.month && '.' !in f.year
    ensures '.' !in "_" + DashedText(f)
  {
    assert "_" + DashedText(f) == "_" + f.hour + "-" + f.min + "-" + f.sec + "_" + f.day + "-" + f.month + "-" + f.year;
  }

  lemma NoDotsInNumbers(f: TimeFields)
    requires AllDigits(f.hour) && AllDigits(f.min) && AllDigits(f.sec) && AllDigits(f.day) && AllDigits(f.year)
    ensures '.' !in f.hour && '.' !in f.min && '.' !in f.sec && '.' !in f.day && '.' !in f.year
  {
    NoDotInDigits(f.hour);
    NoDotInDigits(f.min);
    NoDotInDigits(f.sec);
    NoDotInDigits(f.day);
    NoDotInDigits(f.year);
  }

  lemma NoDotInDigits(s: string)
    requires AllDigits(s)
    ensures '.' !in s
  {
  }

  lemma NoDotInLetters(s: string)
    requires AllLetters(s)
    ensures '.' !in s
  {
  }

  /** As written, a December file name carries `undefined` where the
      pattern wants three letters, so `_loadFiles` never recognises it. */
  lemma DecemberFileNameUnmatched(fileName: string, t: UtcTime, ext: string)
    requires IsWord(fileName) && IsWord(ext) && t.Valid() && t.month == 11
    ensures SplitLogFileName(LogFileName(fileName, t, ext, MonthNames)) == None
  {
    PaddedShape(t.hour);
    PaddedShape(t.min);
    PaddedShape(t.sec);
    PaddedShape(t.day);
    YearRead(t.year);
    UndefinedUnsplit(fileName, FieldsOf(t, MonthNames), ext);
  }

  lemma UndefinedUnsplit(fileName: string, f: TimeFields, ext: string)
    requires IsWord(fileName)
    requires |f.hour| == 2 && |f.min| == 2 && |f.sec| == 2 && |f.day| == 2 && |f.year| == 4
    requires AllDigits(f.hour) && AllDigits(f.min) && AllDigits(f.sec) && AllDigits(f.day)
    requires f.month == "undefined" && AllDigits(f.year)
    ensures SplitLogFileName(fileName + "_" + DashedText(f) + "." + ext) == None
  {
    var stamp := "_" + DashedText(f);
    NoDotsInNumbers(f);
    NoDotInStamp(f);
    var s := fileName + stamp + "." + ext;
    assert s == fileName + "_" + DashedText(f) + "." + ext;
    DotAfter(fileName, stamp, ext);
    assert |stamp| == 27;
    // the 21 characters before the `.` start with the `-` after the minutes
    assert s[|fileName| + 6] == stamp[6] == '-';
    SplitNoneAt(s, |fileName| + 27);
  }

  /** When the 21 characters before the first `.` do not start with `_`,
      the name does not match. */
  lemma SplitNoneAt(s: string, d: nat)
    requires IndexOf(s, '.') == d && d >= 21 && s[d - 21] != '_'
    ensures SplitLogFileName(s) == None
  {
    assert s[d - 21..d][0] == s[d - 21];
  }
}
