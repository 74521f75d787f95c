/** `FileSink._loadFiles` and `attach` (mqtt-logger/index.mjs): the scan
    of the log directory that picks the file to keep appending to and the
    files to compress. Directory reading, `fs.statSync` and `path.join` are
    replaced by a list of entries that carry their size, and the `Date` a
    file name reads back as is given by the parameter `millis`. */
module LoggerFiles {
  import opened Wrappers
  import opened LoggerTime

  /** A directory entry with the size `fs.statSync` would report. */
  datatype DirEntry = DirEntry(name: string, size: int)

  /** The options `FileSink` keeps from its configuration. */
  datatype FileSinkConfig = FileSinkConfig(
    fileName: string, fileExtension: string, maxFileSize: int, maxFileAge: int, compressOldFiles: bool)

  /** The defaults `Object.assign` starts from: `logfile`, `log`, 10 MiB,
      30 days, compression on. */
  const DefaultConfig := FileSinkConfig("logfile", "log", 10 * 1024 * 1024, 30, true)

  /** `Date.now() - maxFileAge * 24 * 60 * 60 * 1000`. */
  function Threshold(now: int, maxFileAge: int): (r: int)
    ensures maxFileAge >= 0 ==> r <= now
  {
    now - maxFileAge * 24 * 60 * 60 * 1000
  }

  /** What one scan works with: the sink's options, the age threshold, the
      milliseconds of the `Date` built from parsed fields, and the month
      table (`MonthNames` as written, `MonthNamesFixed` corrected). */
  datatype Scanner = Scanner(config: FileSinkConfig, threshold: int, millis: ParsedTime -> int, months: seq<string>)

  /** What the loop learns about an entry before comparing it with the
      newest file: whether the name matches the pattern with the configured
      name and extension, and then its time and size. */
  datatype Seen = Other | Own(name: string, time: int, size: int)

  /** `time` is `null` when `_readTime` fails; `null` compares as 0. */
  function Classify(k: Scanner, e: DirEntry): Seen {
    match SplitLogFileName(e.name)
    case None => Other
    case Some(g) =>
      if g.name != k.config.fileName || g.extension != k.config.fileExtension then Other
      else Own(e.name, match ReadTime(k.months, g.time) case None => 0 case Some(p) => k.millis(p), e.size)
  }

  function Classified(k: Scanner, entries: seq<DirEntry>): (cs: seq<Seen>)
    ensures |cs| == |entries|
    ensures forall i :: 0 <= i < |entries| ==> cs[i] == Classify(k, entries[i])
  {
    seq(|entries|, i requires 0 <= i < |entries| => Classify(k, entries[i]))
  }

  /** Recent enough and small enough to be appended to. */
  predicate Usable(k: Scanner, c: Seen) {
    c.Own? && c.time >= k.threshold && c.size < k.config.maxFileSize
  }

  /** The scan's variables: `newestFile`, `newestTime`, `filesToCompress`. */
  datatype Scan = Scan(newestFile: Option<string>, newestTime: int, filesToCompress: seq<string>)

  function Listed(o: Option<string>): seq<string> {
    if o.Some? then [o.value] else []
  }

  /** One pass of the loop: a usable file newer than the newest so far
      takes its place and sends the old one to compression; every other own
      file is compressed; other entries are ignored. */
  function Step(k: Scanner, s: Scan, c: Seen): Scan {
    if c.Other? then s
    else if Usable(k, c) && (s.newestFile.None? || s.newestTime < c.time) then
      Scan(Some(c.name), c.time, s.filesToCompress + Listed(s.newestFile))
    else
      s.(filesToCompress := s.filesToCompress + [c.name])
  }

  /** The scan over the entries in the order the directory yields them. */
  function Scans(k: Scanner, cs: seq<Seen>): Scan {
    if cs == [] then Scan(None, 0, [])
    else Step(k, Scans(k, cs[..|cs| - 1]), cs[|cs| - 1])
  }

  function LoadFiles(k: Scanner, entries: seq<DirEntry>): Scan {
    Scans(k, Classified(k, entries))
  }

  /** The body of the `_loadFiles` loop for one entry, once its name has
      been matched: `continue` after taking a new newest file becomes the
      early `return`. */
  method Consider(k: Scanner, newestFile: Option<string>, newestTime: int, filesToCompress: seq<string>, c: Seen)
    returns (newestFile': Option<string>, newestTime': int, filesToCompress': seq<string>)
    ensures Scan(newestFile', newestTime', filesToCompress') == Step(k, Scan(newestFile, newestTime, filesToCompress), c)
  {
    newestFile', newestTime', filesToCompress' := newestFile, newestTime, filesToCompress;
    if c.Own? {
      if c.time >= k.threshold && (newestFile == None || newestTime < c.time) && c.size < k.config.maxFileSize {
        if newestFile != None {
          filesToCompress' := filesToCompress + [newestFile.value];
        }
        newestTime' := c.time;
        newestFile' := Some(c.name);
        return;
      }
      filesToCompress' := filesToCompress + [c.name];
    }
  }

  /** `_loadFiles`: one pass over the directory entries. */
  method ScanDirectory(k: Scanner, entries: seq<DirEntry>) returns (newestFile: Option<string>, filesToCompress: seq<string>)
    ensures newestFile == LoadFiles(k, entries).newestFile
    ensures filesToCompress == LoadFiles(k, entries).filesToCompress
  {
    newestFile := None;
    var newestTime := 0;
    filesToCompress := [];
    ghost var cs := Classified(k, entries);
    for i := 0 to |entries|
      invariant Scans(k, cs[..i]) == Scan(newestFile, newestTime, filesToCompress)
    {
      var c := Classify(k, entries[i]);
      ScansStep(k, cs, i);
      newestFile, newestTime, filesToCompress := Consider(k, newestFile, newestTime, filesToCompress, c);
    }
    assert cs[..|entries|] == cs;
  }

  lemma ScansStep(k: Scanner, cs: seq<Seen>, i: nat)
    requires i < |cs|
    ensures Scans(k, cs[..i + 1]) == Step(k, Scans(k, cs[..i]), cs[i])
  {
    assert cs[..i + 1][..i] == cs[..i];
  }

  /** The names of the sink's own files, in directory order. */
  function OwnNames(cs: seq<Seen>): (r: seq<string>)
    ensures |r| <= |cs|
  {
    if cs == [] then []
    else OwnNames(cs[..|cs| - 1]) + (if cs[|cs| - 1].Own? then [cs[|cs| - 1].name] else [])
  }

  /** Every own file is either kept as the newest or compressed, exactly
      once; nothing else is touched. */
  lemma {:induction false} ScansPartition(k: Scanner, cs: seq<Seen>)
    ensures multiset(Scans(k, cs).filesToCompress) + multiset(Listed(Scans(k, cs).newestFile))
            == multiset(OwnNames(cs))
  {
    if cs != [] {
      var init := cs[..|cs| - 1];
      ScansPartition(k, init);
      StepPartition(k, Scans(k, init), cs[|cs| - 1]);
      assert OwnNames(cs) == OwnNames(init) + OwnNamesOf(cs[|cs| - 1]);
    }
  }

  function OwnNamesOf(c: Seen): seq<string> {
    if c.Own? then [c.name] else []
  }

  /** One pass of the loop moves the entry's name, if it is an own file,
      into the kept-or-compressed names. */
  lemma StepPartition(k: Scanner, s: Scan, c: Seen)
    ensures multiset(Step(k, s, c).filesToCompress) + multiset(Listed(Step(k, s, c).newestFile))
            == multiset(s.filesToCompress) + multiset(Listed(s.newestFile)) + multiset(OwnNamesOf(c))
  {
    if c.Own? && Usable(k, c) && (s.newestFile.None? || s.newestTime < c.time) {
      assert Step(k, s, c).filesToCompress == s.filesToCompress + Listed(s.newestFile);
    } else if c.Own? {
      assert Step(k, s, c).filesToCompress == s.filesToCompress + [c.name];
    }
  }

  /** A file is kept exactly when some file is usable; the one kept is
      usable, carries the newest time, and no usable file is newer. */
  lemma {:induction false} ScansNewest(k: Scanner, cs: seq<Seen>)
    ensures Scans(k, cs).newestFile.Some? <==> exists i :: 0 <= i < |cs| && Usable(k, cs[i])
    ensures Scans(k, cs).newestFile.Some? ==>
              exists i :: 0 <= i < |cs| && Usable(k, cs[i])
                          && cs[i].name == Scans(k, cs).newestFile.value && cs[i].time == Scans(k, cs).newestTime
    ensures forall i :: 0 <= i < |cs| && Usable(k, cs[i]) ==> cs[i].time <= Scans(k, cs).newestTime
  {
    if cs != [] {
      var init := cs[..|cs| - 1];
      ScansNewest(k, init);
      var s := Scans(k, init);
      if s.newestFile.Some? {
        var j :| 0 <= j < |init| && Usable(k, init[j]) && init[j].name == s.newestFile.value && init[j].time == s.newestTime;
        assert cs[j] == init[j];
      }
    }
  }

  /** `_loadFiles` over a directory: every own file is kept or compressed
      exactly once, and the kept one is the newest usable file. */
  lemma LoadFilesSpec(k: Scanner, entries: seq<DirEntry>)
    ensures var cs := Classified(k, entries);
            && multiset(LoadFiles(k, entries).filesToCompress) + multiset(Listed(LoadFiles(k, entries).newestFile))
               == multiset(OwnNames(cs))
            && (LoadFiles(k, entries).newestFile.Some? <==> exists i :: 0 <= i < |cs| && Usable(k, cs[i]))
            && (forall i :: 0 <= i < |cs| && Usable(k, cs[i]) ==> cs[i].time <= LoadFiles(k, entries).newestTime)
  {
    ScansPartition(k, Classified(k, entries));
    ScansNewest(k, Classified(k, entries));
  }

  /** The plan `attach` follows: the path it opens and the files it
      compresses. */
  datatype AttachPlan = AttachPlan(path: string, compress: seq<string>)

  /** `attach`: append to the newest file or to a new one named after the
      current time; compress the rest only when configured to and when
      there is something to compress. */
  function Attach(k: Scanner, s: Scan, now: UtcTime): (p: AttachPlan)
    ensures s.newestFile.Some? ==> p.path == s.newestFile.value
    ensures s.newestFile.None? ==> p.path == LogFileName(k.config.fileName, now, k.config.fileExtension, k.months)
    ensures p.compress == (if k.config.compressOldFiles then s.filesToCompress else [])
  {
    var c := k.config;
    var path := if s.newestFile.None? then LogFileName(c.fileName, now, c.fileExtension, k.months) else s.newestFile.value;
    AttachPlan(path, if c.compressOldFiles && |s.filesToCompress| > 0 then s.filesToCompress else [])
  }

  /** With twelve month names a file the sink has just created is one of
      its own files on the next start, and it reads back as the time it was
      created. */
  lemma CreatedFileFound(k: Scanner, now: UtcTime, size: int)
    requires k.months == MonthNamesFixed
    requires IsWord(k.config.fileName) && IsWord(k.config.fileExtension) && now.Valid()
    ensures Classify(k, DirEntry(LogFileName(k.config.fileName, now, k.config.fileExtension, k.months), size))
            == Own(LogFileName(k.config.fileName, now, k.config.fileExtension, k.months), k.millis(ParsedOf(now)), size)
  {
    LogFileNameRoundTrip(k.config.fileName, now, k.config.fileExtension);
    ReadPrintedTime(now);
  }

  /** As written the same holds for every month but December. */
  lemma CreatedFileFoundAsWritten(k: Scanner, now: UtcTime, size: int)
    requires k.months == MonthNames
    requires IsWord(k.config.fileName) && IsWord(k.config.fileExtension) && now.Valid() && now.month < 11
    ensures Classify(k, DirEntry(LogFileName(k.config.fileName, now, k.config.fileExtension, k.months), size))
            == Own(LogFileName(k.config.fileName, now, k.config.fileExtension, k.months), k.millis(ParsedOf(now)), size)
  {
    LogFileNameRoundTripAsWritten(k.config.fileName, now, k.config.fileExtension);
    ReadPrintedTimeAsWritten(now);
  }

  /** As written, a file created in December is never one of the sink's
      own files: it is neither reused nor compressed on the next start. */
  lemma DecemberFileIgnored(k: Scanner, now: UtcTime, size: int)
    requires k.months == MonthNames
    requires IsWord(k.config.fileName) && IsWord(k.config.fileExtension) && now.Valid() && now.month == 11
    ensures Classify(k, DirEntry(LogFileName(k.config.fileName, now, k.config.fileExtension, k.months), size)) == Other
  {
    DecemberFileNameUnmatched(k.config.fileName, now, k.config.fileExtension);
  }

  /** An entry that is not one of the sink's files changes nothing. */
  lemma OtherIgnored(k: Scanner, cs: seq<Seen>)
    ensures Scans(k, cs + [Other]) == Scans(k, cs)
  {
    assert (cs + [Other])[..|cs|] == cs;
  }
}
