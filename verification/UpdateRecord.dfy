/** How long an undo record is on disk, and which plans keep it short enough to
    be read back. */
module UpdateRecord {
  import opened Common
  import opened FileTree
  import opened UpdateTree

  const MAX_RECORD: nat := 32 * 1024 * 1024
  const MAX_JSON_BYTES: nat := 2 * 1024 * 1024
  const MAX_ARTIFACT_BYTES: nat := 8 * 1024 * 1024

  /** The files the planner may change; the last is the artifact. */
  const TARGETS: seq<Path> := [
    [Plain(".local-web-platform.json")],
    [Plain("index.html")],
    [Plain("local-web.json")],
    [Plain("package-lock.json")],
    [Plain("package.json")],
    [Plain("vendor"), Plain("local-web-ui.tgz")]]

  /** The longest name a file system gives a file. */
  const MAX_NAME: nat := 255

  /** What the system calls a temporary file. */
  const TemporaryName: nat -> string

  function Text(part: Part): string {
    match part
    case Plain(text) => text
    case Fresh(stamp) => TemporaryName(stamp)
  }

  /** JSON keeps printable ASCII but for the quote and the backslash. */
  function EscapedChar(c: char): nat {
    if c in "\"\\\n\r\t" || c == 8 as char || c == 12 as char then 2
    else if ' ' <= c <= '~' then 1
    else if c as int < 0x1_0000 then 6
    else 12
  }

  function EscapedLength(text: string): (n: nat)
    ensures n <= 12 * |text|
  {
    if text == "" then 0 else EscapedLength(text[..|text| - 1]) + EscapedChar(text[|text| - 1])
  }

  function JoinedLength(p: Path): nat {
    if p == [] then 0
    else JoinedLength(Parent(p)) + (if |p| == 1 then 0 else 1) + EscapedLength(Text(p[|p| - 1]))
  }

  /** The length of a path as a quoted JSON string. */
  function QuotedLength(p: Path): nat { 2 + JoinedLength(p) }

  function DecimalLength(n: nat): nat { if n < 10 then 1 else 1 + DecimalLength(n / 10) }

  /** `{"bytes":"…","mode":…,"path":…}` or `{"absent":true,"path":…}`. */
  function EntryLength(s: Saved): nat {
    match s
    case Present(path, bytes, mode) => 28 + Base64Length(|bytes|) + DecimalLength(mode) + QuotedLength(path)
    case Absent(path) => 23 + QuotedLength(path)
  }

  function EntriesLength(files: seq<Saved>): nat {
    if files == [] then 0 else EntriesLength(files[..|files| - 1]) + EntryLength(files[|files| - 1])
  }

  function PathsLength(paths: seq<Path>): nat {
    if paths == [] then 0 else PathsLength(paths[..|paths| - 1]) + QuotedLength(paths[|paths| - 1])
  }

  function Commas(n: nat): nat { if n == 0 then 0 else n - 1 }

  /** The canonical text: sorted keys, no spaces, one newline. */
  function RecordLength(r: UndoRecord): nat {
    75 + EntriesLength(r.files) + Commas(|r.files|) + PathsLength(r.directories) + Commas(|r.directories|)
    + PathsLength(r.temporaries) + Commas(|r.temporaries|)
  }

  /** The length of everything in a record but the saved contents. */
  function NamesLength(r: UndoRecord): nat {
    RecordLength(r) - ContentsLength(r.files)
  }

  function ContentsLength(files: seq<Saved>): (n: nat)
    ensures n <= EntriesLength(files)
  {
    if files == [] then 0
    else ContentsLength(files[..|files| - 1])
         + ContentLength(files[|files| - 1])
  }

  function ContentLength(s: Saved): (n: nat)
    ensures n <= EntryLength(s)
  {
    match s
    case Present(_, bytes, _) => Base64Length(|bytes|)
    case Absent(_) => 0
  }

  /** At most `limit` bytes saved of each file. */
  predicate Bounded(files: seq<Saved>, limit: nat) {
    forall s <- files :: s.Present? ==> |s.bytes| <= limit
  }

  lemma {:induction false} ContentsBounded(files: seq<Saved>, limit: nat)
    requires Bounded(files, limit)
    ensures ContentsLength(files) <= |files| * Base64Length(limit)
  {
    hide Base64Length, EntryLength, EntriesLength;
    if files != [] {
      var n := |files|;
      ContentsBounded(files[..n - 1], limit);
      assert files[n - 1] in files;
      if files[n - 1].Present? {
        Base64Monotone(|files[n - 1].bytes|, limit);
      }
      OneMore(n, Base64Length(limit));
    }
  }

  lemma {:induction false} ContentsJoined(a: seq<Saved>, b: seq<Saved>)
    ensures ContentsLength(a + b) == ContentsLength(a) + ContentsLength(b)
  {
    if b == [] {
      assert a + b == a;
    } else {
      ContentsJoined(a, b[..|b| - 1]);
      assert (a + b)[..|a + b| - 1] == a + b[..|b| - 1];
    }
  }

  // ----- the names ----------------------------------------------------------

  const MAX_QUOTED: nat := 2 * 12 * MAX_NAME + 3

  /** A path of at most two names. */
  predicate Short(p: Path) { |p| <= 2 && forall part <- p :: |Text(part)| <= MAX_NAME }

  lemma ShortQuoted(p: Path)
    requires Short(p)
    ensures QuotedLength(p) <= MAX_QUOTED
  {
    hide EscapedLength, Text;
    assert forall part <- p :: EscapedLength(Text(part)) <= 12 * MAX_NAME;
    if p == [] {
    } else {
      assert p[|p| - 1] in p;
      assert |p| == 1 ==> JoinedLength(Parent(p)) == 0;
      assert |p| == 2 ==> Parent(p) == [p[0]] && p[0] in p && JoinedLength([p[0]]) == EscapedLength(Text(p[0]));
    }
  }

  lemma {:induction false} PathsBounded(paths: seq<Path>)
    requires forall p <- paths :: Short(p)
    ensures PathsLength(paths) <= |paths| * MAX_QUOTED
  {
    hide Short, QuotedLength;
    if paths != [] {
      var n := |paths|;
      PathsBounded(paths[..n - 1]);
      ShortQuoted(paths[n - 1]);
      OneMore(n, MAX_QUOTED);
    }
  }

  lemma {:induction false} DecimalBounded(n: nat)
    ensures DecimalLength(n) <= n + 1
  {
    if n >= 10 {
      DecimalBounded(n / 10);
    }
  }

  const MAX_MODE: nat := 4095

  predicate ShortEntry(s: Saved) { Short(s.path) && (s.Present? ==> s.mode <= MAX_MODE) }

  lemma {:induction false} EntriesBounded(files: seq<Saved>)
    requires forall s <- files :: ShortEntry(s)
    ensures EntriesLength(files) <= ContentsLength(files) + |files| * (29 + MAX_MODE + MAX_QUOTED)
  {
    hide Short, QuotedLength, Base64Length;
    if files != [] {
      var n := |files|;
      var s := files[n - 1];
      assert ShortEntry(s);
      EntriesBounded(files[..n - 1]);
      ShortQuoted(s.path);
      if s.Present? {
        DecimalBounded(s.mode);
      }
      OneMore(n, 29 + MAX_MODE + MAX_QUOTED);
    }
  }

  // ----- the planner's record -----------------------------------------------

  function Limit(p: Path): nat { if p == TARGETS[5] then MAX_ARTIFACT_BYTES else MAX_JSON_BYTES }

  /** A record of some of the six targets, each read under its limit, of the one
      directory one of them needs, and of a temporary for each at most. */
  predicate Planned(r: UndoRecord) {
    && (forall i, j :: 0 <= i < j < |r.files| ==> r.files[i].path != r.files[j].path)
    && (forall s <- r.files :: s.path in TARGETS && (s.Present? ==> |s.bytes| <= Limit(s.path) && s.mode <= MAX_MODE))
    && (r.directories == [] || r.directories == [[Plain("vendor")]])
    && |r.temporaries| <= |r.files| && forall t <- r.temporaries :: Short(t)
  }

  lemma TargetsShort(p: Path)
    requires p in TARGETS
    ensures Short(p)
  {
  }

  lemma {:induction false} DistinctCount(paths: seq<Path>, among: set<Path>)
    requires (forall i, j :: 0 <= i < j < |paths| ==> paths[i] != paths[j]) && forall p <- paths :: p in among
    ensures |paths| <= |among|
  {
    if paths != [] {
      var n := |paths| - 1;
      assert paths[n] in paths;
      DistinctCount(paths[..n], among - {paths[n]});
    }
  }

  lemma PlannedFiles(r: UndoRecord)
    requires Planned(r)
    ensures |r.files| <= 6 && forall s <- r.files :: ShortEntry(s)
  {
    hide Short, Limit;
    var paths := seq(|r.files|, i requires 0 <= i < |r.files| => r.files[i].path);
    var among := {TARGETS[0], TARGETS[1], TARGETS[2], TARGETS[3], TARGETS[4], TARGETS[5]};
    forall p | p in paths ensures p in among {
      var i :| 0 <= i < |paths| && paths[i] == p;
      assert r.files[i] in r.files;
    }
    DistinctCount(paths, among);
    forall s | s in r.files ensures ShortEntry(s) {
      TargetsShort(s.path);
    }
  }

  lemma PlannedNames(r: UndoRecord)
    requires Planned(r)
    ensures NamesLength(r) <= 8_000_000
  {
    hide Short, Limit, ContentsLength, EntriesLength, PathsLength;
    PlannedFiles(r);
    EntriesBounded(r.files);
    if r.directories != [] {
      assert Short([Plain("vendor")]) by { VendorShort(); }
    }
    PathsBounded(r.directories);
    PathsBounded(r.temporaries);
  }

  lemma VendorShort()
    ensures Short([Plain("vendor")])
  {
  }

  /** The limits a planner reads its six targets under keep the record short
      enough, whatever was in them: five files of text and one artifact. */
  lemma PlannedRecordFits(r: UndoRecord)
    requires Planned(r)
    ensures RecordLength(r) <= MAX_RECORD
  {
    hide Planned, RecordLength;
    PlannedNames(r);
    PlannedFiles(r);
    if r.files != [] {
      var k := ArtifactAt(r);
      ContentsFit(r.files, k);
    }
  }

  /** The one file that may be long. */
  lemma ArtifactAt(r: UndoRecord) returns (k: nat)
    requires Planned(r) && r.files != []
    ensures k < |r.files| && Bounded(r.files[..k], MAX_JSON_BYTES) && Bounded(r.files[k + 1..], MAX_JSON_BYTES)
    ensures Bounded([r.files[k]], MAX_ARTIFACT_BYTES)
  {
    hide Short;
    k := 0;
    if i :| 0 <= i < |r.files| && r.files[i].path == TARGETS[5] {
      k := i;
    }
    forall j | 0 <= j < |r.files| && j != k
      ensures r.files[j].Present? ==> |r.files[j].bytes| <= MAX_JSON_BYTES
    {
      assert r.files[j] in r.files;
    }
    assert r.files[k] in r.files;
  }

  lemma ContentsFit(files: seq<Saved>, artifact: nat)
    requires |files| <= 6 && artifact < |files|
    requires Bounded(files[..artifact], MAX_JSON_BYTES) && Bounded(files[artifact + 1..], MAX_JSON_BYTES)
    requires Bounded([files[artifact]], MAX_ARTIFACT_BYTES)
    ensures ContentsLength(files) <= MAX_RECORD - 8_000_000
  {
    hide ContentsLength, Bounded;
    var before, one, after := files[..artifact], [files[artifact]], files[artifact + 1..];
    assert files == before + one + after;
    ContentsJoined(before, one);
    ContentsJoined(before + one, after);
    TextsBounded(before);
    ContentsBounded(one, MAX_ARTIFACT_BYTES);
    TextsBounded(after);
  }

  lemma TextsBounded(files: seq<Saved>)
    requires Bounded(files, MAX_JSON_BYTES)
    ensures ContentsLength(files) <= |files| * 2_796_204
  {
    hide ContentsLength, Bounded;
    ContentsBounded(files, MAX_JSON_BYTES);
    assert Base64Length(MAX_JSON_BYTES) == 2_796_204;
  }
}
