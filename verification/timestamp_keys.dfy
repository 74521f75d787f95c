/** `loadKeys` of the timestamp service (timestamp/index.js): the key files
    found in the keys directory are grouped into key pairs by uuid, checked
    for consistency, the newest pair is chosen (or a new one created when it
    is too old), and every pair's public key is loaded while only the newest
    keeps its private key. Directory iteration, the file-name pattern and
    the reading of the time from hex are left out: the loader receives the
    matched files already split into path, uuid, time and type. File
    contents come from the parameter `read`, and the pair `createKeyPair`
    would generate is an input. */
module TimestampKeys {
  import opened Wrappers

  datatype KeyFileType = PrivateFile | PublicFile

  /** A key file whose name matched the pattern. */
  datatype KeyFile = KeyFile(path: string, uuid: string, time: int, kind: KeyFileType)

  /** A `keysMap` entry while the directory is read: the uuid, the time of
      its first file and the path recorded for each type. */
  datatype Pending = Pending(uuid: string, time: int, privatePath: Option<string>, publicPath: Option<string>)
  {
    function PathOf(kind: KeyFileType): Option<string> {
      if kind == PrivateFile then privatePath else publicPath
    }

    function With(kind: KeyFileType, path: string): (p: Pending)
      ensures p.uuid == uuid && p.time == time
      ensures p.PathOf(kind) == Some(path)
      ensures forall other :: other != kind ==> p.PathOf(other) == PathOf(other)
    {
      if kind == PrivateFile then this.(privatePath := Some(path)) else this.(publicPath := Some(path))
    }

    predicate Complete() {
      privatePath.Some? && publicPath.Some?
    }
  }

  /** A loaded key pair: the public key's PEM text and, for the current pair
      only, its private key. */
  datatype KeyPair = KeyPair(uuid: string, time: int, publicKeyPem: string, privateKeyPem: Option<string>)

  /** What `createKeyPair` returns: a fresh pair that holds its private key. */
  datatype NewKeyPair = NewKeyPair(uuid: string, time: int, publicKeyPem: string, privateKeyPem: string)
  {
    function Pair(): (p: KeyPair)
      ensures p.uuid == uuid && p.time == time && p.privateKeyPem.Some?
    {
      KeyPair(uuid, time, publicKeyPem, Some(privateKeyPem))
    }
  }

  function MismatchingTimes(uuid: string): string {
    "Key files '" + uuid + "' have mismatching times"
  }

  function MultipleFiles(uuid: string): string {
    "Key files '" + uuid + "' have multiple files for each key file type"
  }

  function MissingFile(uuid: string): string {
    "Key files '" + uuid + " is missing a key file type (private or public)'"
  }

  // ---------------------------------------------------------------------
  // Lookup by uuid (`Map.get` / `Map.set` on the uuid keys)

  /** The position of the entry for `u`, or -1. */
  function FindEntry(m: seq<Pending>, u: string): (i: int)
    ensures -1 <= i < |m|
    ensures i >= 0 ==> m[i].uuid == u
    ensures i < 0 <==> forall k :: 0 <= k < |m| ==> m[k].uuid != u
  {
    if m == [] then -1
    else if m[|m| - 1].uuid == u then |m| - 1
    else FindEntry(m[..|m| - 1], u)
  }

  /** One entry per uuid. */
  predicate UniqueEntries(m: seq<Pending>) {
    forall i, j :: 0 <= i < j < |m| ==> m[i].uuid != m[j].uuid
  }

  // ---------------------------------------------------------------------
  // Grouping the files by uuid

  /** One pass of the directory loop: get or create the uuid's entry, refuse
      a time that differs from the entry's or a second file of one type,
      and record the path. */
  function AddFile(m: seq<Pending>, f: KeyFile): Result<seq<Pending>, string> {
    var i := FindEntry(m, f.uuid);
    var m' := if i < 0 then m + [Pending(f.uuid, f.time, None, None)] else m;
    var k := if i < 0 then |m| else i;
    if m'[k].time != f.time then Failure(MismatchingTimes(f.uuid))
    else if m'[k].PathOf(f.kind).Some? then Failure(MultipleFiles(f.uuid))
    else Success(m'[k := m'[k].With(f.kind, f.path)])
  }

  /** The directory loop: the entries in the order their uuid first
      appears, or the first error. */
  function Group(files: seq<KeyFile>): Result<seq<Pending>, string> {
    if files == [] then Success([])
    else
      match Group(files[..|files| - 1])
      case Failure(e) => Failure(e)
      case Success(m) => AddFile(m, files[|files| - 1])
  }

  /** No two files of one uuid disagree on the time or share a type. */
  predicate Consistent(files: seq<KeyFile>) {
    forall i, j :: 0 <= i < j < |files| && files[i].uuid == files[j].uuid ==>
      files[i].time == files[j].time && files[i].kind != files[j].kind
  }

  /** The entries describe the files exactly: one entry per uuid, each
      entry's time and paths come from its files, and every file is
      recorded in its uuid's entry. */
  predicate Describes(files: seq<KeyFile>, m: seq<Pending>) {
    UniqueEntries(m) && TimesFromFiles(files, m) && PathsFromFiles(files, m) && AllRecorded(files, m)
  }

  /** Each entry's time is that of the last file of its uuid. */
  predicate TimesFromFiles(files: seq<KeyFile>, m: seq<Pending>) {
    forall k :: 0 <= k < |m| ==> FindFile(files, m[k].uuid) >= 0 && files[FindFile(files, m[k].uuid)].time == m[k].time
  }

  /** The position of the last file of uuid `u`, or -1. */
  function FindFile(files: seq<KeyFile>, u: string): (i: int)
    ensures -1 <= i < |files|
    ensures i >= 0 ==> files[i].uuid == u
    ensures i < 0 <==> forall j :: 0 <= j < |files| ==> files[j].uuid != u
  {
    if files == [] then -1
    else if files[|files| - 1].uuid == u then |files| - 1
    else FindFile(files[..|files| - 1], u)
  }

  /** Each recorded path is that of the last file of the entry's uuid and
      that type. */
  predicate PathsFromFiles(files: seq<KeyFile>, m: seq<Pending>) {
    forall k, kind :: 0 <= k < |m| && m[k].PathOf(kind).Some? ==>
      FindKind(files, m[k].uuid, kind) >= 0 && files[FindKind(files, m[k].uuid, kind)].path == m[k].PathOf(kind).value
  }

  /** The position of the last file of uuid `u` and type `kind`, or -1. */
  function FindKind(files: seq<KeyFile>, u: string, kind: KeyFileType): (i: int)
    ensures -1 <= i < |files|
    ensures i >= 0 ==> files[i].uuid == u && files[i].kind == kind
    ensures i < 0 <==> forall j :: 0 <= j < |files| ==> files[j].uuid != u || files[j].kind != kind
  {
    if files == [] then -1
    else if files[|files| - 1].uuid == u && files[|files| - 1].kind == kind then |files| - 1
    else FindKind(files[..|files| - 1], u, kind)
  }

  predicate AllRecorded(files: seq<KeyFile>, m: seq<Pending>) {
    forall i :: 0 <= i < |files| ==> RecordedIn(m, files[i])
  }

  /** The entry for the file's uuid records the file. */
  predicate RecordedIn(m: seq<Pending>, f: KeyFile) {
    var k := FindEntry(m, f.uuid);
    k >= 0 && Records(m[k], f)
  }

  predicate Records(p: Pending, f: KeyFile) {
    p.uuid == f.uuid && p.time == f.time && p.PathOf(f.kind) == Some(f.path)
  }

  /** The last file agrees with every earlier file of its uuid. */
  predicate Fits(init: seq<KeyFile>, f: KeyFile) {
    forall j :: 0 <= j < |init| && init[j].uuid == f.uuid ==> init[j].time == f.time && init[j].kind != f.kind
  }

  /** Grouping succeeds exactly for consistent files, and then describes
      them. */
  lemma {:induction false} GroupSpec(files: seq<KeyFile>)
    ensures Group(files).Success? <==> Consistent(files)
    ensures Group(files).Success? ==> Describes(files, Group(files).value)
  {
    if files != [] {
      var init := files[..|files| - 1];
      var f := files[|files| - 1];
      assert init + [f] == files;
      GroupSpec(init);
      ConsistentSnoc(init, f);
      if Group(init).Success? {
        var m := Group(init).value;
        AddFileFits(init, m, f);
        if AddFile(m, f).Success? {
          AddFileDescribes(init, m, f);
        }
      }
    }
  }

  lemma ConsistentSnoc(init: seq<KeyFile>, f: KeyFile)
    ensures Consistent(init + [f]) <==> Consistent(init) && Fits(init, f)
  {
    var files := init + [f];
    assert forall i :: 0 <= i < |init| ==> files[i] == init[i];
    assert files[|init|] == f;
    if Consistent(files) {
      forall j | 0 <= j < |init| && init[j].uuid == f.uuid
        ensures init[j].time == f.time && init[j].kind != f.kind
      {
        assert files[j] == init[j];
      }
    }
  }

  /** Two entries with one uuid are the same entry. */
  lemma SameUuid(m: seq<Pending>, a: nat, b: nat)
    requires UniqueEntries(m) && a < |m| && b < |m| && m[a].uuid == m[b].uuid
    ensures a == b
  {
    if a < b {
    } else if b < a {
    }
  }

  /** Adding a file succeeds exactly when it fits the earlier files. */
  lemma AddFileFits(init: seq<KeyFile>, m: seq<Pending>, f: KeyFile)
    requires Describes(init, m)
    ensures AddFile(m, f).Success? <==> Fits(init, f)
  {
    var i := FindEntry(m, f.uuid);
    if i < 0 {
      FitsNew(init, m, f);
    } else if m[i].time != f.time {
      TimeClash(init, m, f, i);
    } else if m[i].PathOf(f.kind).Some? {
      var j := FindKind(init, f.uuid, f.kind);
      assert init[j].uuid == f.uuid && init[j].kind == f.kind;
    } else {
      FitsExisting(init, m, f, i);
    }
  }

  lemma FitsNew(init: seq<KeyFile>, m: seq<Pending>, f: KeyFile)
    requires AllRecorded(init, m) && FindEntry(m, f.uuid) < 0
    ensures Fits(init, f)
  {
    forall j | 0 <= j < |init|
      ensures init[j].uuid != f.uuid
    {
      assert RecordedIn(m, init[j]);
    }
  }

  lemma TimeClash(init: seq<KeyFile>, m: seq<Pending>, f: KeyFile, i: nat)
    requires TimesFromFiles(init, m) && i < |m| && m[i].uuid == f.uuid && m[i].time != f.time
    ensures !Fits(init, f)
  {
    var j := FindFile(init, m[i].uuid);
    assert init[j].uuid == f.uuid && init[j].time != f.time;
  }

  lemma FitsExisting(init: seq<KeyFile>, m: seq<Pending>, f: KeyFile, i: nat)
    requires UniqueEntries(m) && AllRecorded(init, m)
    requires i < |m| && m[i].uuid == f.uuid && m[i].time == f.time && m[i].PathOf(f.kind).None?
    ensures Fits(init, f)
  {
    forall j | 0 <= j < |init| && init[j].uuid == f.uuid
      ensures init[j].time == f.time && init[j].kind != f.kind
    {
      assert RecordedIn(m, init[j]);
      SameUuid(m, FindEntry(m, init[j].uuid), i);
    }
  }

  lemma AddFileDescribes(init: seq<KeyFile>, m: seq<Pending>, f: KeyFile)
    requires Describes(init, m) && AddFile(m, f).Success?
    ensures Describes(init + [f], AddFile(m, f).value)
  {
    var i := FindEntry(m, f.uuid);
    if i < 0 {
      var p := Pending(f.uuid, f.time, None, None).With(f.kind, f.path);
      var m' := m + [Pending(f.uuid, f.time, None, None)];
      assert AddFile(m, f).value == m'[|m| := m'[|m|].With(f.kind, f.path)] == m + [p];
      NewTimes(init, m, f);
      NewPaths(init, m, f);
      NewRecorded(init, m, f);
      NewUnique(m, p);
    } else {
      AddFileFits(init, m, f);
      var p := m[i].With(f.kind, f.path);
      assert AddFile(m, f).value == m[i := p];
      ExistingTimes(init, m, f, i);
      ExistingPaths(init, m, f, i);
      ExistingRecorded(init, m, f, i);
      ExistingUnique(m, i, p);
    }
  }

  lemma NewUnique(m: seq<Pending>, p: Pending)
    requires UniqueEntries(m) && FindEntry(m, p.uuid) < 0
    ensures UniqueEntries(m + [p])
  {
    assert forall k :: 0 <= k < |m| ==> (m + [p])[k] == m[k];
  }

  lemma ExistingUnique(m: seq<Pending>, i: nat, p: Pending)
    requires UniqueEntries(m) && i < |m| && p.uuid == m[i].uuid
    ensures UniqueEntries(m[i := p])
  {
    assert forall k :: 0 <= k < |m| ==> m[i := p][k].uuid == m[k].uuid;
  }

  lemma NewTimes(init: seq<KeyFile>, m: seq<Pending>, f: KeyFile)
    requires TimesFromFiles(init, m) && FindEntry(m, f.uuid) < 0
    ensures TimesFromFiles(init + [f], m + [Pending(f.uuid, f.time, None, None).With(f.kind, f.path)])
  {
    var files := init + [f];
    var r := m + [Pending(f.uuid, f.time, None, None).With(f.kind, f.path)];
    assert files[..|files| - 1] == init;
    forall k | 0 <= k < |r|
      ensures FindFile(files, r[k].uuid) >= 0 && files[FindFile(files, r[k].uuid)].time == r[k].time
    {
      if k < |m| {
        assert r[k] == m[k];
      }
    }
  }

  lemma NewPaths(init: seq<KeyFile>, m: seq<Pending>, f: KeyFile)
    requires PathsFromFiles(init, m) && FindEntry(m, f.uuid) < 0
    ensures PathsFromFiles(init + [f], m + [Pending(f.uuid, f.time, None, None).With(f.kind, f.path)])
  {
    var files := init + [f];
    var r := m + [Pending(f.uuid, f.time, None, None).With(f.kind, f.path)];
    assert files[..|files| - 1] == init;
    forall k, kind | 0 <= k < |r| && r[k].PathOf(kind).Some?
      ensures FindKind(files, r[k].uuid, kind) >= 0 && files[FindKind(files, r[k].uuid, kind)].path == r[k].PathOf(kind).value
    {
      if k < |m| {
        assert r[k] == m[k];
      }
    }
  }

  lemma NewRecorded(init: seq<KeyFile>, m: seq<Pending>, f: KeyFile)
    requires AllRecorded(init, m) && FindEntry(m, f.uuid) < 0
    ensures AllRecorded(init + [f], m + [Pending(f.uuid, f.time, None, None).With(f.kind, f.path)])
  {
    var files := init + [f];
    var r := m + [Pending(f.uuid, f.time, None, None).With(f.kind, f.path)];
    assert r[..|r| - 1] == m;
    forall j | 0 <= j < |files|
      ensures RecordedIn(r, files[j])
    {
      if j < |init| {
        assert files[j] == init[j] && RecordedIn(m, init[j]);
        assert FindEntry(r, init[j].uuid) == FindEntry(m, init[j].uuid);
      } else {
        assert files[j] == f;
      }
    }
  }

  lemma ExistingTimes(init: seq<KeyFile>, m: seq<Pending>, f: KeyFile, i: nat)
    requires TimesFromFiles(init, m) && i < |m| && m[i].uuid == f.uuid && m[i].time == f.time
    ensures TimesFromFiles(init + [f], m[i := m[i].With(f.kind, f.path)])
  {
    var files := init + [f];
    var r := m[i := m[i].With(f.kind, f.path)];
    assert files[..|files| - 1] == init;
    forall k | 0 <= k < |r|
      ensures FindFile(files, r[k].uuid) >= 0 && files[FindFile(files, r[k].uuid)].time == r[k].time
    {
      assert r[k].uuid == m[k].uuid && r[k].time == m[k].time;
    }
  }

  lemma ExistingPaths(init: seq<KeyFile>, m: seq<Pending>, f: KeyFile, i: nat)
    requires PathsFromFiles(init, m) && UniqueEntries(m) && i < |m| && m[i].uuid == f.uuid
    ensures PathsFromFiles(init + [f], m[i := m[i].With(f.kind, f.path)])
  {
    var files := init + [f];
    var r := m[i := m[i].With(f.kind, f.path)];
    assert files[..|files| - 1] == init;
    forall k, kind | 0 <= k < |r| && r[k].PathOf(kind).Some?
      ensures FindKind(files, r[k].uuid, kind) >= 0 && files[FindKind(files, r[k].uuid, kind)].path == r[k].PathOf(kind).value
    {
      if k != i {
        assert r[k] == m[k];
      } else if kind != f.kind {
        assert r[k].PathOf(kind) == m[k].PathOf(kind);
      }
    }
  }

  lemma ExistingRecorded(init: seq<KeyFile>, m: seq<Pending>, f: KeyFile, i: nat)
    requires AllRecorded(init, m) && UniqueEntries(m) && i < |m| && Fits(init, f)
    requires m[i].uuid == f.uuid && m[i].time == f.time
    ensures AllRecorded(init + [f], m[i := m[i].With(f.kind, f.path)])
  {
    var files := init + [f];
    var r := m[i := m[i].With(f.kind, f.path)];
    forall j | 0 <= j < |files|
      ensures RecordedIn(r, files[j])
    {
      FindEntrySameUuids(m, r, files[j].uuid);
      if j < |init| {
        assert files[j] == init[j] && RecordedIn(m, init[j]);
        var k := FindEntry(m, init[j].uuid);
        if k == i {
          assert init[j].kind != f.kind;
        }
      } else {
        assert files[j] == f;
        SameUuid(m, FindEntry(m, f.uuid), i);
      }
    }
  }

  /** The lookup only looks at the uuids. */
  lemma {:induction false} FindEntrySameUuids(m: seq<Pending>, r: seq<Pending>, u: string)
    requires |m| == |r| && forall k :: 0 <= k < |m| ==> m[k].uuid == r[k].uuid
    ensures FindEntry(m, u) == FindEntry(r, u)
  {
    if m != [] {
      FindEntrySameUuids(m[..|m| - 1], r[..|r| - 1], u);
    }
  }


  // ---------------------------------------------------------------------
  // Choosing the newest pair

  /** The second loop: every entry must have both files; the newest is the
      first entry with the greatest time. */
  function Select(m: seq<Pending>): (r: Result<Option<nat>, string>)
    ensures r.Success? && r.value.Some? ==> r.value.value < |m|
  {
    if m == [] then Success(None)
    else
      match Select(m[..|m| - 1])
      case Failure(e) => Failure(e)
      case Success(n) =>
        var e := m[|m| - 1];
        if !e.Complete() then Failure(MissingFile(e.uuid))
        else if n.None? || m[n.value].time < e.time then Success(Some(|m| - 1))
        else Success(n)
  }

  /** The selection fails exactly when an entry lacks a file, naming the
      first such entry; otherwise it finds an entry whenever there is one,
      with the greatest time, and strictly newer than every entry before it. */
  lemma {:induction false} SelectSpec(m: seq<Pending>)
    ensures Select(m).Success? <==> forall k :: 0 <= k < |m| ==> m[k].Complete()
    ensures Select(m).Failure? ==>
              exists k :: 0 <= k < |m| && !m[k].Complete() && Select(m).error == MissingFile(m[k].uuid)
                          && forall j :: 0 <= j < k ==> m[j].Complete()
    ensures Select(m).Success? ==> (Select(m).value.None? <==> m == [])
    ensures Select(m).Success? && Select(m).value.Some? ==>
              var n := Select(m).value.value;
              && (forall k :: 0 <= k < |m| ==> m[k].time <= m[n].time)
              && (forall k :: 0 <= k < n ==> m[k].time < m[n].time)
  {
    if m != [] {
      var init := m[..|m| - 1];
      SelectSpec(init);
      assert forall k :: 0 <= k < |init| ==> m[k] == init[k];
    }
  }

  // ---------------------------------------------------------------------
  // Creating a pair and loading the keys

  /** A `keysMap` value after the second loop: an entry still holding paths,
      or the pair `createKeyPair` returned, already loaded. */
  datatype Entry = Waiting(pending: Pending) | Ready(pair: KeyPair)
  {
    function Uuid(): string {
      if Waiting? then pending.uuid else pair.uuid
    }
  }

  /** `now - time > keyPairMaxAge`. */
  predicate TooOld(time: int, now: int, maxAge: int) {
    now - time > maxAge
  }

  /** Whether `loadKeys` creates a pair: no newest pair, or one too old. */
  predicate NeedsNewPair(m: seq<Pending>, newest: Option<nat>, now: int, maxAge: int)
    requires newest.Some? ==> newest.value < |m|
  {
    newest.None? || TooOld(m[newest.value].time, now, maxAge)
  }

  /** The third step: without a newest pair, or with one that is too old,
      the created pair is set under its uuid (in place if the uuid is
      already a key, else at the end) and becomes the newest. Returns the
      map's values in order and the newest one's position. */
  function Install(m: seq<Pending>, newest: Option<nat>, now: int, maxAge: int, created: NewKeyPair): (r: (seq<Entry>, nat))
    requires newest.Some? ==> newest.value < |m|
    ensures |r.0| == |m| || (|r.0| == |m| + 1 && r.1 == |m| && FindEntry(m, created.uuid) < 0)
    ensures r.1 < |r.0|
    ensures forall k :: 0 <= k < |m| && k != r.1 ==> r.0[k] == Waiting(m[k])
    ensures NeedsNewPair(m, newest, now, maxAge) ==> r.0[r.1] == Ready(created.Pair())
    ensures !NeedsNewPair(m, newest, now, maxAge) ==> r == (seq(|m|, k requires 0 <= k < |m| => Waiting(m[k])), newest.value)
    ensures forall k :: 0 <= k < |r.0| ==> r.0[k].Uuid() == if k < |m| then m[k].uuid else created.uuid
  {
    var entries := seq(|m|, k requires 0 <= k < |m| => Waiting(m[k]));
    if NeedsNewPair(m, newest, now, maxAge) then
      var i := FindEntry(m, created.uuid);
      if i < 0 then (entries + [Ready(created.Pair())], |m|)
      else (entries[i := Ready(created.Pair())], i)
    else (entries, newest.value)
  }

  /** The path recorded for a file type, "" if none (which the second loop
      has ruled out). */
  function PathText(path: Option<string>): string {
    if path.Some? then path.value else ""
  }

  /** The last loop for one entry: a created pair is skipped; otherwise the
      public key is read, and the private key only for the newest entry. */
  function LoadEntry(e: Entry, isNewest: bool, read: string -> string): (pair: KeyPair)
    ensures pair.uuid == e.Uuid()
  {
    match e
    case Ready(pair) => pair
    case Waiting(p) =>
      KeyPair(p.uuid, p.time, read(PathText(p.publicPath)),
              if isNewest then Some(read(PathText(p.privatePath))) else None)
  }

  function LoadAll(entries: seq<Entry>, newest: nat, read: string -> string): (keys: seq<KeyPair>)
    ensures |keys| == |entries|
    ensures forall k :: 0 <= k < |entries| ==> keys[k] == LoadEntry(entries[k], k == newest, read)
  {
    seq(|entries|, k requires 0 <= k < |entries| => LoadEntry(entries[k], k == newest, read))
  }

  /** The keys `loadKeys` returns, and the position of the newest pair. */
  datatype LoadedKeys = LoadedKeys(keys: seq<KeyPair>, newest: nat)

  /** `loadKeys` over the matched key files, the current time, the maximum
      age, the pair `createKeyPair` would create and the file contents. */
  function LoadKeys(files: seq<KeyFile>, now: int, maxAge: int, created: NewKeyPair, read: string -> string)
    : Result<LoadedKeys, string>
  {
    match Group(files)
    case Failure(e) => Failure(e)
    case Success(m) =>
      match Select(m)
      case Failure(e) => Failure(e)
      case Success(n) =>
        var (entries, newest) := Install(m, n, now, maxAge, created);
        Success(LoadedKeys(LoadAll(entries, newest, read), newest))
  }

  // ---------------------------------------------------------------------
  // What loading guarantees

  /** Every uuid has files of both types. */
  predicate Paired(files: seq<KeyFile>) {
    forall i :: 0 <= i < |files| ==> FindKind(files, files[i].uuid, Other(files[i].kind)) >= 0
  }

  function Other(kind: KeyFileType): KeyFileType {
    if kind == PrivateFile then PublicFile else PrivateFile
  }


  /** Every key file is too old. */
  predicate AllTooOld(files: seq<KeyFile>, now: int, maxAge: int) {
    forall i :: 0 <= i < |files| ==> TooOld(files[i].time, now, maxAge)
  }

  predicate UniqueKeys(keys: seq<KeyPair>) {
    forall i, j :: 0 <= i < j < |keys| ==> keys[i].uuid != keys[j].uuid
  }

  /** Loading fails exactly when the files are inconsistent or a uuid lacks
      one of its two files. */
  lemma LoadKeysSucceeds(files: seq<KeyFile>, now: int, maxAge: int, created: NewKeyPair, read: string -> string)
    ensures LoadKeys(files, now, maxAge, created, read).Success? <==> Consistent(files) && Paired(files)
  {
    LoadKeysShape(files, now, maxAge, created, read);
    GroupConsistent(files);
    if Group(files).Success? {
      SelectSucceeds(Group(files).value);
      GroupPaired(files);
    }
  }

  lemma LoadKeysShape(files: seq<KeyFile>, now: int, maxAge: int, created: NewKeyPair, read: string -> string)
    ensures LoadKeys(files, now, maxAge, created, read).Success? <==>
              Group(files).Success? && Select(Group(files).value).Success?
  {
  }

  lemma GroupConsistent(files: seq<KeyFile>)
    ensures Group(files).Success? <==> Consistent(files)
  {
    GroupSpec(files);
  }

  lemma SelectSucceeds(m: seq<Pending>)
    ensures Select(m).Success? <==> forall k :: 0 <= k < |m| ==> m[k].Complete()
  {
    SelectSpec(m);
  }

  /** Over grouped files, every entry is complete exactly when every uuid
      has both files. */
  lemma GroupPaired(files: seq<KeyFile>)
    requires Group(files).Success?
    ensures (forall k :: 0 <= k < |Group(files).value| ==> Group(files).value[k].Complete()) <==> Paired(files)
  {
    GroupSpec(files);
    var m := Group(files).value;
    if forall k :: 0 <= k < |m| ==> m[k].Complete() {
      CompleteThenPaired(files, m);
    }
    if Paired(files) {
      PairedThenComplete(files, m);
    }
  }

  lemma CompleteThenPaired(files: seq<KeyFile>, m: seq<Pending>)
    requires AllRecorded(files, m) && PathsFromFiles(files, m)
    requires forall k :: 0 <= k < |m| ==> m[k].Complete()
    ensures Paired(files)
  {
    forall i | 0 <= i < |files|
      ensures FindKind(files, files[i].uuid, Other(files[i].kind)) >= 0
    {
      assert RecordedIn(m, files[i]);
      var k := FindEntry(m, files[i].uuid);
      assert m[k].PathOf(Other(files[i].kind)).Some?;
    }
  }

  lemma PairedThenComplete(files: seq<KeyFile>, m: seq<Pending>)
    requires TimesFromFiles(files, m) && UniqueEntries(m) && AllRecorded(files, m) && Paired(files)
    ensures forall k :: 0 <= k < |m| ==> m[k].Complete()
  {
    forall k | 0 <= k < |m|
      ensures m[k].Complete()
    {
      var i := FindFile(files, m[k].uuid);
      var j := FindKind(files, files[i].uuid, Other(files[i].kind));
      EntryOfFile(files, m, i, k);
      EntryOfFile(files, m, j, k);
    }
  }

  /** A file is recorded in the entry of its uuid. */
  lemma EntryOfFile(files: seq<KeyFile>, m: seq<Pending>, i: nat, k: nat)
    requires UniqueEntries(m) && AllRecorded(files, m) && i < |files| && k < |m| && files[i].uuid == m[k].uuid
    ensures Records(m[k], files[i])
  {
    assert RecordedIn(m, files[i]);
    SameUuid(m, FindEntry(m, files[i].uuid), k);
  }

  lemma GroupUnique(files: seq<KeyFile>)
    requires Group(files).Success?
    ensures UniqueEntries(Group(files).value)
  {
    GroupSpec(files);
  }

  lemma GroupPaths(files: seq<KeyFile>)
    requires Group(files).Success?
    ensures PathsFromFiles(files, Group(files).value)
  {
    GroupSpec(files);
  }

  lemma SelectComplete(m: seq<Pending>)
    requires Select(m).Success?
    ensures forall k :: 0 <= k < |m| ==> m[k].Complete()
  {
    SelectSpec(m);
  }

  /** The stages of a successful load. */
  lemma Stages(files: seq<KeyFile>, now: int, maxAge: int, created: NewKeyPair, read: string -> string)
    returns (m: seq<Pending>, n: Option<nat>, entries: seq<Entry>, newest: nat)
    requires LoadKeys(files, now, maxAge, created, read).Success?
    ensures Group(files) == Success(m) && Select(m) == Success(n)
    ensures n.Some? ==> n.value < |m|
    ensures (entries, newest) == Install(m, n, now, maxAge, created)
    ensures LoadKeys(files, now, maxAge, created, read).value == LoadedKeys(LoadAll(entries, newest, read), newest)
  {
    m := Group(files).value;
    n := Select(m).value;
    entries, newest := Install(m, n, now, maxAge, created).0, Install(m, n, now, maxAge, created).1;
  }

  /** After loading, exactly the newest pair holds its private key, and no
      two pairs share a uuid. */
  lemma LoadKeysPrivate(files: seq<KeyFile>, now: int, maxAge: int, created: NewKeyPair, read: string -> string)
    requires LoadKeys(files, now, maxAge, created, read).Success?
    ensures var r := LoadKeys(files, now, maxAge, created, read).value;
            && r.newest < |r.keys|
            && (forall k :: 0 <= k < |r.keys| ==> (r.keys[k].privateKeyPem.Some? <==> k == r.newest))
            && UniqueKeys(r.keys)
  {
    var m, n, entries, newest := Stages(files, now, maxAge, created, read);
    var keys := LoadAll(entries, newest, read);
    GroupUnique(files);
    forall i, j | 0 <= i < j < |keys|
      ensures keys[i].uuid != keys[j].uuid
    {
      if j >= |m| {
        assert FindEntry(m, created.uuid) < 0;
      }
    }
  }

  /** The newest pair: the created one when every key file is too old (or
      there are none); otherwise a loaded pair that is not too old and at
      least as new as every key file. */
  lemma LoadKeysNewest(files: seq<KeyFile>, now: int, maxAge: int, created: NewKeyPair, read: string -> string)
    requires LoadKeys(files, now, maxAge, created, read).Success?
    ensures var r := LoadKeys(files, now, maxAge, created, read).value;
            && r.newest < |r.keys|
            && (AllTooOld(files, now, maxAge) ==> r.keys[r.newest] == created.Pair())
            && (!AllTooOld(files, now, maxAge) ==>
                  && !TooOld(r.keys[r.newest].time, now, maxAge)
                  && (forall i :: 0 <= i < |files| ==> files[i].time <= r.keys[r.newest].time)
                  && exists i :: 0 <= i < |files| && files[i].uuid == r.keys[r.newest].uuid
                                 && files[i].time == r.keys[r.newest].time)
  {
    var m, n, entries, newest := Stages(files, now, maxAge, created, read);
    GroupSpec(files);
    SelectSpec(m);
    if n.Some? {
      NewestFileTime(files, m, n.value, now, maxAge);
    } else {
      NoEntriesNoFiles(files, m);
    }
  }

  lemma NoEntriesNoFiles(files: seq<KeyFile>, m: seq<Pending>)
    requires AllRecorded(files, m)
    ensures |m| == 0 ==> |files| == 0
  {
    if |files| > 0 {
      assert RecordedIn(m, files[0]);
    }
  }

  /** The newest entry's time is the greatest file time, so it is too old
      exactly when every file is. */
  lemma NewestFileTime(files: seq<KeyFile>, m: seq<Pending>, n: nat, now: int, maxAge: int)
    requires Describes(files, m) && n < |m| && forall k :: 0 <= k < |m| ==> m[k].time <= m[n].time
    ensures forall i :: 0 <= i < |files| ==> files[i].time <= m[n].time
    ensures exists i :: 0 <= i < |files| && files[i].uuid == m[n].uuid && files[i].time == m[n].time
    ensures AllTooOld(files, now, maxAge) <==> TooOld(m[n].time, now, maxAge)
  {
    forall i | 0 <= i < |files|
      ensures files[i].time <= m[n].time
    {
      assert RecordedIn(m, files[i]);
    }
    var i := FindFile(files, m[n].uuid);
    if AllTooOld(files, now, maxAge) {
      assert TooOld(files[i].time, now, maxAge);
    }
  }

  /** Every key file's uuid names a loaded pair. */
  lemma LoadKeysCovers(files: seq<KeyFile>, now: int, maxAge: int, created: NewKeyPair, read: string -> string)
    requires LoadKeys(files, now, maxAge, created, read).Success?
    ensures var r := LoadKeys(files, now, maxAge, created, read).value;
            forall i :: 0 <= i < |files| ==> exists k :: 0 <= k < |r.keys| && r.keys[k].uuid == files[i].uuid
  {
    var m, n, entries, newest := Stages(files, now, maxAge, created, read);
    var keys := LoadAll(entries, newest, read);
    GroupSpec(files);
    forall i | 0 <= i < |files|
      ensures exists k :: 0 <= k < |keys| && keys[k].uuid == files[i].uuid
    {
      assert RecordedIn(m, files[i]);
      var k := FindEntry(m, files[i].uuid);
      assert keys[k].uuid == entries[k].Uuid();
    }
  }

  /** A pair the loader did not create has the public key read from its
      public file. */
  lemma LoadKeysPublic(files: seq<KeyFile>, now: int, maxAge: int, created: NewKeyPair, read: string -> string)
    requires LoadKeys(files, now, maxAge, created, read).Success?
    ensures var r := LoadKeys(files, now, maxAge, created, read).value;
            forall k :: 0 <= k < |r.keys| && r.keys[k] != created.Pair() ==>
              exists i :: 0 <= i < |files| && files[i].uuid == r.keys[k].uuid && files[i].kind == PublicFile
                          && r.keys[k].publicKeyPem == read(files[i].path)
  {
    var m, n, entries, newest := Stages(files, now, maxAge, created, read);
    var keys := LoadAll(entries, newest, read);
    GroupPaths(files);
    SelectComplete(m);
    forall k | 0 <= k < |keys| && keys[k] != created.Pair()
      ensures exists i :: 0 <= i < |files| && files[i].uuid == keys[k].uuid && files[i].kind == PublicFile
                          && keys[k].publicKeyPem == read(files[i].path)
    {
      assert entries[k] == Waiting(m[k]);
      assert m[k].Complete();
      var i := FindKind(files, m[k].uuid, PublicFile);
      assert files[i].uuid == keys[k].uuid && files[i].path == m[k].publicPath.value;
    }
  }

  // ---------------------------------------------------------------------
  // The loops of `loadKeys`

  lemma GroupStep(files: seq<KeyFile>, i: nat)
    requires i < |files|
    ensures Group(files[..i + 1]) == match Group(files[..i]) case Failure(e) => Failure(e) case Success(m) => AddFile(m, files[i])
  {
    assert files[..i + 1][..i] == files[..i];
  }

  /** An error stops the directory loop: it is the result of the whole. */
  lemma {:induction false} GroupFailurePersists(files: seq<KeyFile>, i: nat)
    requires i <= |files| && Group(files[..i]).Failure?
    ensures Group(files) == Group(files[..i])
    decreases |files| - i
  {
    if i < |files| {
      GroupStep(files, i);
      GroupFailurePersists(files, i + 1);
    } else {
      assert files[..i] == files;
    }
  }

  lemma SelectStep(m: seq<Pending>, k: nat)
    requires k < |m|
    ensures Select(m[..k + 1]) ==
              match Select(m[..k])
              case Failure(e) => Failure(e)
              case Success(n) =>
                if !m[k].Complete() then Failure(MissingFile(m[k].uuid))
                else if n.None? || m[n.value].time < m[k].time then Success(Some(k))
                else Success(n)
  {
    assert m[..k + 1][..k] == m[..k];
    assert m[..k + 1][k] == m[k];
    if Select(m[..k]).Success? && Select(m[..k]).value.Some? {
      assert m[..k + 1][Select(m[..k]).value.value] == m[Select(m[..k]).value.value];
    }
  }

  lemma {:induction false} SelectFailurePersists(m: seq<Pending>, k: nat)
    requires k <= |m| && Select(m[..k]).Failure?
    ensures Select(m) == Select(m[..k])
    decreases |m| - k
  {
    if k < |m| {
      SelectStep(m, k);
      SelectFailurePersists(m, k + 1);
    } else {
      assert m[..k] == m;
    }
  }

  /** One file of the directory loop: get or create its uuid's entry,
      check the time and the type, record the path. */
  method AddFileTo(m: seq<Pending>, f: KeyFile) returns (r: Result<seq<Pending>, string>)
    ensures r == AddFile(m, f)
  {
    var k := FindEntry(m, f.uuid);
    var m' := m;
    if k < 0 {
      m' := m + [Pending(f.uuid, f.time, None, None)];
      k := |m|;
    }
    var entry := m'[k];
    if entry.time != f.time {
      return Failure(MismatchingTimes(f.uuid));
    }
    if entry.PathOf(f.kind).Some? {
      return Failure(MultipleFiles(f.uuid));
    }
    r := Success(m'[k := entry.With(f.kind, f.path)]);
  }

  /** The directory loop of `loadKeys`, stopping at the first error. */
  method GroupFiles(files: seq<KeyFile>) returns (r: Result<seq<Pending>, string>)
    ensures r == Group(files)
  {
    var m: seq<Pending> := [];
    for i := 0 to |files|
      invariant Group(files[..i]) == Success(m)
    {
      GroupStep(files, i);
      var step := AddFileTo(m, files[i]);
      if step.Failure? {
        GroupFailurePersists(files, i + 1);
        return step;
      }
      m := step.value;
    }
    assert files[..|files|] == files;
    r := Success(m);
  }

  /** The loop over the entries: a missing type is an error, otherwise the
      index of the newest entry. */
  method SelectNewest(m: seq<Pending>) returns (r: Result<Option<nat>, string>)
    ensures r == Select(m)
  {
    var newest: Option<nat> := None;
    for k := 0 to |m|
      invariant Select(m[..k]) == Success(newest)
    {
      SelectStep(m, k);
      if !m[k].Complete() {
        SelectFailurePersists(m, k + 1);
        return Failure(MissingFile(m[k].uuid));
      }
      if newest == None || m[newest.value].time < m[k].time {
        newest := Some(k);
      }
    }
    assert m[..|m|] == m;
    r := Success(newest);
  }

  /** The loading loop: the public key of every entry, the private key of
      the newest only; a created pair is already loaded. */
  method LoadEntries(entries: seq<Entry>, newest: nat, read: string -> string) returns (keys: seq<KeyPair>)
    ensures keys == LoadAll(entries, newest, read)
  {
    keys := [];
    for k := 0 to |entries|
      invariant |keys| == k
      invariant forall j :: 0 <= j < k ==> keys[j] == LoadEntry(entries[j], j == newest, read)
    {
      match entries[k]
      case Ready(pair) =>
        keys := keys + [pair];
      case Waiting(p) =>
        var privateKey := if k == newest then Some(read(PathText(p.privatePath))) else None;
        keys := keys + [KeyPair(p.uuid, p.time, read(PathText(p.publicPath)), privateKey)];
    }
  }

  /** `loadKeys` as the loops and the creation step it is written as. */
  method LoadKeysFromFiles(files: seq<KeyFile>, now: int, maxAge: int, created: NewKeyPair, read: string -> string)
    returns (r: Result<LoadedKeys, string>)
    ensures r == LoadKeys(files, now, maxAge, created, read)
  {
    var grouped := GroupFiles(files);
    if grouped.Failure? {
      return Failure(grouped.error);
    }
    var m := grouped.value;
    var selected := SelectNewest(m);
    if selected.Failure? {
      return Failure(selected.error);
    }
    var n := selected.value;
    // a new pair when there is none or the newest is too old
    var entries := seq(|m|, k requires 0 <= k < |m| => Waiting(m[k]));
    var newest: nat;
    if n == None || TooOld(m[n.value].time, now, maxAge) {
      var i := FindEntry(m, created.uuid);
      if i < 0 {
        entries, newest := entries + [Ready(created.Pair())], |m|;
      } else {
        entries, newest := entries[i := Ready(created.Pair())], i;
      }
    }  else {
      newest := n.value;
    }
    assert (entries, newest) == Install(m, n, now, maxAge, created);
    var keys := LoadEntries(entries, newest, read);
    r := Success(LoadedKeys(keys, newest));
  }
}
