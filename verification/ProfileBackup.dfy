/** Private backups: a whole chain in one document, and back again. */
module ProfileBackup {
  import opened Common
  import opened ProfileDocuments
  import opened ProfileInspection
  import opened InspectionSteps
  import opened ArchiveState
  import opened PublicationCrash
  import opened RestorationCrash
  import opened StoreReader
  import opened SnapshotReader
  import opened CrashRecovery
  import opened StoreRuns
  import opened StoreFiles
  import opened ProfileStore

  /** One record of a backup: a file name, the digest it states, and what its
      base64 text decodes to, if it is the text an encoder writes. */
  datatype BackupRecord = BackupRecord(filename: Name, sha: Digest, encoded: Option<Content>)

  datatype Document = Document(createdAt: string, profile: BackupRecord, revisions: seq<BackupRecord>, canonical: bool)

  datatype Snapshot = Snapshot(profile: Bytes, revisions: seq<Envelope>)

  const RecordSize: BackupRecord -> nat
  const DocumentSize: Document -> nat

  const MAX_BACKUP: nat := 64 * 1024 * 1024

  // ----- reading a document -------------------------------------------------

  predicate RecordOk(r: BackupRecord, limit: nat) {
    r.encoded.Some? && Size(r.encoded.value) <= limit && Sha256(r.encoded.value) == r.sha
  }

  predicate IsRevisionRecord(r: BackupRecord, sequence: nat) {
    && RecordOk(r, MAX_REVISION) && r.filename == Revision(sequence, r.sha)
    && r.encoded.value.Sealed? && Parses(r.encoded.value.envelope)
    && RegistryAccepted(r.encoded.value.envelope.registry)
  }

  predicate RecordAt(records: seq<BackupRecord>, i: nat)
    requires i < |records|
  {
    IsRevisionRecord(records[i], i + 1)
  }

  function EnvelopesOf(records: seq<BackupRecord>): (revs: seq<Envelope>)
    requires forall i :: 0 <= i < |records| ==> RecordAt(records, i)
    ensures |revs| == |records|
    ensures forall i :: 0 <= i < |revs| ==> RecordAt(records, i) && Sealed(revs[i]) == records[i].encoded.value
  {
    seq(|records|, i requires 0 <= i < |records| => (assert RecordAt(records, i); records[i].encoded.value.envelope))
  }

  /** The digest chain: each revision follows the one before, and the first
      and only the first is an initialisation. */
  predicate Follows(revs: seq<Envelope>, i: nat)
    requires i < |revs|
  {
    revs[i].previous == PreviousSha(revs, i) && ((i == 0) <==> revs[i].operation == Initialisation)
  }

  predicate DocumentOk(d: Document) {
    && DocumentSize(d) <= MAX_BACKUP && d.canonical && TimestampParses(d.createdAt)
    && 1 <= |d.revisions| <= MAX_REVISIONS
    && RecordOk(d.profile, MAX_PROFILE) && d.profile.filename == Profile
    && d.profile.encoded.value.Raw? && RegistryAccepted(d.profile.encoded.value.bytes)
    && (forall i :: 0 <= i < |d.revisions| ==> RecordAt(d.revisions, i))
    && var revs := EnvelopesOf(d.revisions);
       && (forall i :: 0 <= i < |revs| ==> Follows(revs, i))
       && UniqueIds(revs)
       && d.profile.encoded.value.bytes == After(revs)
  }

  function ParseOf(d: Document): Option<Snapshot> {
    if DocumentOk(d) then Some(Snapshot(d.profile.encoded.value.bytes, EnvelopesOf(d.revisions))) else None
  }

  /** The first `k` records have passed and decode to `revs`. */
  predicate ReadRecords(records: seq<BackupRecord>, revs: seq<Envelope>) {
    && |revs| <= |records|
    && (forall i :: 0 <= i < |revs| ==> RecordAt(records, i) && records[i].encoded.value == Sealed(revs[i]))
    && (forall i :: 0 <= i < |revs| ==> Follows(revs, i))
    && UniqueIds(revs)
  }

  lemma RecordNext(d: Document, revs: seq<Envelope>)
    requires ReadRecords(d.revisions, revs) && |revs| < |d.revisions|
    ensures DocumentOk(d) ==>
              var r := d.revisions[|revs|];
              && IsRevisionRecord(r, |revs| + 1) && r.sha !in IdSet(revs)
              && r.encoded.value.envelope.previous == PreviousSha(revs, |revs|)
              && ((|revs| == 0) <==> r.encoded.value.envelope.operation == Initialisation)
  {
    hide Parses, RegistryAccepted, PreviousSha;
    if DocumentOk(d) {
      var all, k := EnvelopesOf(d.revisions), |revs|;
      assert revs == all[..k] by {
        forall i | 0 <= i < k ensures revs[i] == all[i] {
          assert Sealed(revs[i]) == d.revisions[i].encoded.value == Sealed(all[i]);
        }
      }
      assert Follows(all, k);
      PreviousOfPrefix(all, k);
      NotSeen(all, k);
    }
  }

  lemma PreviousOfPrefix(revs: seq<Envelope>, k: nat)
    requires k <= |revs|
    ensures PreviousSha(revs[..k], k) == PreviousSha(revs, k)
  {
  }

  lemma RecordRead(records: seq<BackupRecord>, revs: seq<Envelope>)
    requires ReadRecords(records, revs) && |revs| < |records|
    requires var r := records[|revs|];
             && IsRevisionRecord(r, |revs| + 1) && r.sha !in IdSet(revs)
             && r.encoded.value.envelope.previous == PreviousSha(revs, |revs|)
             && ((|revs| == 0) <==> r.encoded.value.envelope.operation == Initialisation)
    ensures ReadRecords(records, revs + [records[|revs|].encoded.value.envelope])
    ensures IdSet(revs + [records[|revs|].encoded.value.envelope]) == IdSet(revs) + {records[|revs|].sha}
  {
    var e := records[|revs|].encoded.value.envelope;
    hide Parses, RegistryAccepted, IdSet;
    UniqueMore(revs, e);
    var all := revs + [e];
    hide UniqueIds;
    forall i | 0 <= i < |all| ensures Follows(all, i) {
      if i < |revs| {
        assert Follows(revs, i);
      }
    }
  }

  /** Reads the record of one revision: its bytes and their digest, its name,
      then what it encodes. */
  method CheckRevision(r: BackupRecord, sequence: nat) returns (ok: bool)
    ensures ok <==> IsRevisionRecord(r, sequence)
  {
    if r.encoded.None? || Size(r.encoded.value) > MAX_REVISION || Sha256(r.encoded.value) != r.sha {
      return false;
    }
    if !r.filename.Revision? || r.filename.sequence != sequence || r.filename.id != r.sha || !r.encoded.value.Sealed? {
      return false;
    }
    ok := Parses(r.encoded.value.envelope) && RegistryAccepted(r.encoded.value.envelope.registry);
  }

  /** Reads a backup record by record. */
  method ParseBackup(d: Document) returns (r: Option<Snapshot>)
    ensures r == ParseOf(d)
  {
    hide IsRevisionRecord, IdSet, ReadRecords, Follows, UniqueIds;
    if DocumentSize(d) > MAX_BACKUP || !d.canonical || !TimestampParses(d.createdAt)
       || !(1 <= |d.revisions| <= MAX_REVISIONS) || !RecordOk(d.profile, MAX_PROFILE) || d.profile.filename != Profile
       || !d.profile.encoded.value.Raw? || !RegistryAccepted(d.profile.encoded.value.bytes) {
      return None;
    }
    var revs: seq<Envelope> := [];
    var seen: set<Digest> := {};
    var previous: Option<Digest> := None;
    NothingRead(d.revisions);
    while |revs| < |d.revisions|
      invariant ReadRecords(d.revisions, revs) && |revs| <= |d.revisions|
      invariant seen == IdSet(revs) && previous == PreviousSha(revs, |revs|)
    {
      var raw := d.revisions[|revs|];
      RecordNext(d, revs);
      var fits := CheckRevision(raw, |revs| + 1);
      if !fits || raw.sha in seen {
        return None;
      }
      var e := DecodedEnvelope(raw, |revs| + 1);
      if e.previous != previous || (|revs| == 0) != (e.operation == Initialisation) {
        return None;
      }
      RecordRead(d.revisions, revs);
      previous, seen, revs := Some(e.current), seen + {raw.sha}, revs + [e];
    }
    AllRead(d, revs);
    if After(revs) != d.profile.encoded.value.bytes {
      return None;
    }
    r := Some(Snapshot(d.profile.encoded.value.bytes, revs));
  }

  function DecodedEnvelope(r: BackupRecord, sequence: nat): (e: Envelope)
    requires IsRevisionRecord(r, sequence)
    ensures r.encoded == Some(Sealed(e))
  {
    r.encoded.value.envelope
  }

  lemma NothingRead(records: seq<BackupRecord>)
    ensures ReadRecords(records, []) && IdSet([]) == {}
  {
  }

  lemma AllRead(d: Document, revs: seq<Envelope>)
    requires ReadRecords(d.revisions, revs) && |revs| == |d.revisions|
    ensures forall i :: 0 <= i < |d.revisions| ==> RecordAt(d.revisions, i)
    ensures EnvelopesOf(d.revisions) == revs
    ensures (forall i :: 0 <= i < |revs| ==> Follows(revs, i)) && UniqueIds(revs)
  {
    hide IsRevisionRecord, Follows, UniqueIds;
    forall i | 0 <= i < |revs| ensures EnvelopesOf(d.revisions)[i] == revs[i] {
      assert Sealed(EnvelopesOf(d.revisions)[i]) == Sealed(revs[i]);
    }
  }

  // ----- writing a document -------------------------------------------------

  function Encoded(name: Name, c: Content): BackupRecord { BackupRecord(name, Sha256(c), Some(c)) }

  function EncodedRevisions(revs: seq<Envelope>): (records: seq<BackupRecord>)
    ensures |records| == |revs|
    ensures forall i :: 0 <= i < |revs| ==> records[i] == Encoded(NameAt(revs, i), Sealed(revs[i]))
  {
    seq(|revs|, i requires 0 <= i < |revs| => Encoded(NameAt(revs, i), Sealed(revs[i])))
  }

  function DocumentOf(createdAt: string, s: Snapshot): Document {
    Document(createdAt, Encoded(Profile, Raw(s.profile)), EncodedRevisions(s.revisions), true)
  }

  function RecordSizes(records: seq<BackupRecord>): nat {
    if records == [] then 0 else RecordSizes(records[..|records| - 1]) + RecordSize(records[|records| - 1])
  }

  predicate BuildFits(createdAt: string, s: Snapshot) {
    var d := DocumentOf(createdAt, s);
    && RecordSize(d.profile) + RecordSizes(d.revisions) <= MAX_BACKUP
    && DocumentSize(d) <= MAX_BACKUP
  }

  /** The clean snapshot a store gives out. */
  ghost predicate IsSnapshot(d: Disk, s: Snapshot) {
    && Inspect(d) == Clean && s.revisions != [] && IsChain(Contents(d.live), s.revisions, false)
    && At(Contents(d.live), Profile) == Some(Raw(s.profile))
    && |s.profile| <= MAX_PROFILE && |s.profile| + TotalSize(s.revisions) <= MAX_TOTAL
  }

  /** Reads the snapshot of a store with nothing pending; the profile and the
      revisions share one allowance. */
  method ReadSnapshot(d: Disk) returns (r: Option<Snapshot>)
    ensures r.Some? ==> IsSnapshot(d, r.value)
    ensures r.None? ==> forall s :: !IsSnapshot(d, s)
  {
    hide IsChain, ArchiveAccepts, InspectState, TotalSize;
    var c := Contents(d.live);
    NotRead(d);
    if Marker in c || !NoTemporaries(c) {
      return None;
    }
    var idle := ReadArchive(d, None);
    if !idle || Profile !in c || !c[Profile].Raw? || |c[Profile].bytes| > MAX_PROFILE {
      return None;
    }
    var chain := ReadChain(c, false);
    var profile := c[Profile].bytes;
    if chain.None? || chain.value == [] || |profile| + TotalSize(chain.value) > MAX_TOTAL || After(chain.value) != profile {
      return None;
    }
    CleanWhen(d, chain.value, profile);
    r := Some(Snapshot(profile, chain.value));
  }

  lemma CleanWhen(d: Disk, revs: seq<Envelope>, profile: Bytes)
    requires Marker !in d.live && NoTemporaries(Contents(d.live)) && ArchiveAccepts(d, None)
    requires ChainOf(Contents(d.live), false) == Some(revs) && revs != [] && After(revs) == profile
    requires At(Contents(d.live), Profile) == Some(Raw(profile)) && |profile| <= MAX_PROFILE
    ensures Inspect(d) == Clean
  {
    hide IsChain, ArchiveAccepts, InspectState, ChainOf;
    InspectCleanIs(Contents(d.live), Some(revs));
  }

  /** Every snapshot a store could give out passes each check of the reader. */
  lemma NotRead(d: Disk)
    ensures forall s :: IsSnapshot(d, s) ==>
              var c := Contents(d.live);
              && Marker !in c && NoTemporaries(c) && ArchiveAccepts(d, None)
              && ChainOf(c, false) == Some(s.revisions) && After(s.revisions) == s.profile
  {
    forall s | IsSnapshot(d, s)
      ensures var c := Contents(d.live);
              && Marker !in c && NoTemporaries(c) && ArchiveAccepts(d, None)
              && ChainOf(c, false) == Some(s.revisions) && After(s.revisions) == s.profile
    {
      hide Inspect, InspectState, ArchiveAccepts, IsChain;
      ArchiveClean(d);
      var revs := CleanMeans(d);
      OneChain(Contents(d.live), revs, s.revisions);
      ChainIs(Contents(d.live), s.revisions, false);
    }
  }

  lemma ArchiveClean(d: Disk)
    requires Inspect(d) == Clean
    ensures ArchiveAccepts(d, None)
  {
    hide InspectState, ArchiveAccepts;
  }

  lemma {:induction false} RecordSizesPrefix(records: seq<BackupRecord>, k: nat)
    requires k <= |records|
    ensures RecordSizes(records[..k]) <= RecordSizes(records)
    decreases |records|
  {
    if k < |records| {
      RecordSizesPrefix(records[..|records| - 1], k);
      assert records[..|records| - 1][..k] == records[..k];
    } else {
      assert records[..k] == records;
    }
  }

  lemma RecordSizesMore(records: seq<BackupRecord>, k: nat)
    requires k < |records|
    ensures RecordSizes(records[..k + 1]) == RecordSizes(records[..k]) + RecordSize(records[k]) <= RecordSizes(records)
  {
    assert records[..k + 1][..k] == records[..k];
    RecordSizesPrefix(records, k + 1);
  }

  /** Encodes a snapshot, giving up as soon as the records are too long, and
      reads the result back. */
  method BuildBackup(createdAt: string, s: Snapshot) returns (r: Option<(Document, Snapshot)>)
    ensures r.Some? <==> BuildFits(createdAt, s) && ParseOf(DocumentOf(createdAt, s)).Some?
    ensures r.Some? ==> r.value.0 == DocumentOf(createdAt, s) && ParseOf(r.value.0) == Some(r.value.1)
  {
    hide RecordSizes, ParseOf;
    var profile := Encoded(Profile, Raw(s.profile));
    var records: seq<BackupRecord> := [];
    var size := RecordSize(profile);
    ghost var all := EncodedRevisions(s.revisions);
    assert RecordSizes(all[..0]) == 0 by { NoSizes(all); }
    while |records| < |s.revisions|
      invariant |records| <= |s.revisions| && records == all[..|records|]
      invariant size == RecordSize(profile) + RecordSizes(records)
      invariant size <= MAX_BACKUP || records == []
    {
      var k := |records|;
      var record := Encoded(NameAt(s.revisions, k), Sealed(s.revisions[k]));
      size := size + RecordSize(record);
      RecordSizesMore(all, k);
      if size > MAX_BACKUP {
        return None;
      }
      records := records + [record];
      assert all[..k + 1] == all[..k] + [all[k]];
    }
    assert records == all;
    var d := Document(createdAt, profile, records, true);
    if DocumentSize(d) > MAX_BACKUP {
      return None;
    }
    var parsed := ParseBackup(d);
    TooLong(createdAt, s);
    if parsed.Some? {
      SomeRevisions(d);
      r := Some((d, parsed.value));
    } else {
      r := None;
    }
  }

  lemma NoSizes(records: seq<BackupRecord>)
    ensures RecordSizes(records[..0]) == 0
  {
  }

  lemma SomeRevisions(d: Document)
    requires ParseOf(d).Some?
    ensures d.revisions != []
  {
  }

  lemma TooLong(createdAt: string, s: Snapshot)
    ensures s.revisions == [] ==> ParseOf(DocumentOf(createdAt, s)).None?
  {
  }

  // ----- three validators, one chain ----------------------------------------

  /** What the store, a backup and a restoration all ask of a chain. */
  predicate Linked(revs: seq<Envelope>) {
    (forall i :: 0 <= i < |revs| ==> ValidLink(revs, i)) && UniqueIds(revs)
  }

  /** In a linked chain the first and only the first is an initialisation. */
  lemma LinkFollows(revs: seq<Envelope>, i: nat)
    requires i < |revs|
    ensures ValidLink(revs, i) <==> SnapshotLink(revs, i)
    ensures ValidLink(revs, i) ==> Follows(revs, i)
  {
    hide RegistryAccepted;
  }

  /** The store, the backup reader and the restorer accept the same chains:
      they differ only in the sizes they allow. */
  lemma ValidatorsAgree(s: Snapshot, createdAt: string)
    ensures ValidChain(s.revisions) <==>
              Linked(s.revisions) && |s.revisions| <= MAX_REVISIONS && TotalSize(s.revisions) <= MAX_TOTAL
    ensures SnapshotOk(s.revisions, s.profile) <==>
              && Linked(s.revisions) && 1 <= |s.revisions| <= MAX_REVISIONS && s.profile == After(s.revisions)
              && |s.profile| + TotalSize(s.revisions) <= MAX_TOTAL
    ensures ParseOf(DocumentOf(createdAt, s)).Some? <==>
              && Linked(s.revisions) && 1 <= |s.revisions| <= MAX_REVISIONS && s.profile == After(s.revisions)
              && TimestampParses(createdAt) && DocumentSize(DocumentOf(createdAt, s)) <= MAX_BACKUP
  {
    hide ValidLink, SnapshotLink, Parses, RegistryAccepted, RecordAt, TotalSize, UniqueIds, Follows;
    var revs := s.revisions;
    forall i | 0 <= i < |revs|
      ensures ValidLink(revs, i) <==> SnapshotLink(revs, i)
      ensures ValidLink(revs, i) ==> Follows(revs, i)
      ensures ValidLink(revs, i) ==> RegistryAccepted(revs[i].registry)
      ensures RecordAt(EncodedRevisions(revs), i) && Follows(revs, i) ==> ValidLink(revs, i)
      ensures ValidLink(revs, i) ==> RecordAt(EncodedRevisions(revs), i)
    {
      LinkFollows(revs, i);
      RecordLink(revs, i);
    }
    DocumentParts(s, createdAt);
  }

  lemma RecordLink(revs: seq<Envelope>, i: nat)
    requires i < |revs|
    ensures ValidLink(revs, i) ==> RegistryAccepted(revs[i].registry)
    ensures RecordAt(EncodedRevisions(revs), i) && Follows(revs, i) ==> ValidLink(revs, i)
    ensures ValidLink(revs, i) ==> RecordAt(EncodedRevisions(revs), i)
  {
    hide Parses, RegistryAccepted, PreviousSha;
  }

  /** What parsing a document that was just encoded asks of the snapshot. */
  lemma DocumentParts(s: Snapshot, createdAt: string)
    ensures ParseOf(DocumentOf(createdAt, s)).Some? <==>
              && DocumentSize(DocumentOf(createdAt, s)) <= MAX_BACKUP && TimestampParses(createdAt)
              && 1 <= |s.revisions| <= MAX_REVISIONS && RegistryAccepted(s.profile)
              && (forall i :: 0 <= i < |s.revisions| ==>
                    RecordAt(EncodedRevisions(s.revisions), i) && Follows(s.revisions, i))
              && UniqueIds(s.revisions) && s.profile == After(s.revisions)
    ensures ParseOf(DocumentOf(createdAt, s)).Some? ==> ParseOf(DocumentOf(createdAt, s)) == Some(s)
  {
    hide IsRevisionRecord, Follows, UniqueIds;
    var d := DocumentOf(createdAt, s);
    if forall i :: 0 <= i < |d.revisions| ==> RecordAt(d.revisions, i) {
      forall i | 0 <= i < |s.revisions| ensures EnvelopesOf(d.revisions)[i] == s.revisions[i] {
        assert Sealed(EnvelopesOf(d.revisions)[i]) == Sealed(s.revisions[i]);
      }
      assert EnvelopesOf(d.revisions) == s.revisions;
    }
  }

  // ----- round trip ---------------------------------------------------------

  /** A backup that was built reads back as the snapshot it was built from. */
  lemma BackupReadsBack(createdAt: string, s: Snapshot)
    requires ParseOf(DocumentOf(createdAt, s)).Some?
    ensures ParseOf(DocumentOf(createdAt, s)) == Some(s)
  {
    hide ParseOf, DocumentOf;
    DocumentParts(s, createdAt);
  }

  /** From a store, through a backup, into another store: whatever a clean
      store gave out, the document built from it parses to, a restorer accepts,
      and a store restored from it gives out again, byte for byte.  `d'` is what
      `Store.RestoreSnapshot` leaves when it succeeds. */
  lemma BackupRoundTrip(d: Disk, s: Snapshot, createdAt: string, d': Disk)
    requires IsSnapshot(d, s) && TimestampParses(createdAt) && BuildFits(createdAt, s)
    requires Inspect(d') == Clean && Contents(d'.live) == RestoreEnd(s.revisions, ProfilePlaced)
    ensures ParseOf(DocumentOf(createdAt, s)) == Some(s)
    ensures SnapshotOk(s.revisions, s.profile)
    ensures IsSnapshot(d', s)
  {
    hide IsChain, ValidChain, Inspect, SnapshotOk, Linked, TotalSize, RestoreMarker, ParseOf, DocumentOf, RestoreEnd;
    SnapshotLinked(d, s);
    ValidatorsAgree(s, createdAt);
    DocumentParts(s, createdAt);
    RestoredSnapshot(s, d');
  }

  /** A store with nothing in it, and a document that can be restored there. */
  ghost predicate Restorable(d: Disk, s: Option<Snapshot>) {
    s.Some? && SnapshotOk(s.value.revisions, s.value.profile) && Inspect(d) == Clean && d.live == map[]
  }

  /** Reads a backup and restores it into a store.  A store that comes of it
      gives out exactly the snapshot in the document, and one comes of it
      exactly when the document reads, the store is clean and empty, the system
      refuses nothing and the archive has room for the marker; a document or a
      store that will not do changes nothing. */
  method RestoreBackup(store: Store, d: Document) returns (ok: bool, ghost placed: seq<Disk>, ghost m: Content)
    requires store.files.Valid()
    modifies store.files
    ensures store.files.Valid() && store.files.refusals >= old(store.files.refusals)
    ensures ok ==> ParseOf(d).Some? && IsSnapshot(store.files.disk, ParseOf(d).value)
    ensures !Restorable(old(store.files.disk), ParseOf(d)) ==> !ok && store.files.disk == old(store.files.disk)
    ensures store.files.refusals == old(store.files.refusals) ==>
              (ok <==> && Restorable(old(store.files.disk), ParseOf(d)) && placed != []
                       && FinishFits(placed[|placed| - 1], ParseOf(d).value.revisions, m))
  {
    hide Inspect, ParseOf, SnapshotOk, IsSnapshot, RestoreEnd, FinishFits, FinishOffered, Contents;
    var parsed := ParseBackup(d);
    placed, m := [], Raw([]);
    if parsed.None? {
      return false, placed, m;
    }
    ghost var started;
    ok, started, placed, m := store.RestoreSnapshot(parsed.value.revisions, parsed.value.profile);
    if ok {
      GivenOut(d, parsed.value, store.files.disk);
    }
  }

  lemma GivenOut(doc: Document, s: Snapshot, d: Disk)
    requires ParseOf(doc) == Some(s) && SnapshotOk(s.revisions, s.profile)
    requires Inspect(d) == Clean && Contents(d.live) == RestoreEnd(s.revisions, ProfilePlaced)
    ensures IsSnapshot(d, s)
  {
    hide Inspect, Linked, TotalSize, IsChain, RestoreEnd, RestoreMarker, SnapshotOk, RecordAt, Follows, UniqueIds;
    assert |s.profile| <= MAX_PROFILE;
    ValidatorsAgree(s, doc.createdAt);
    RestoredSnapshot(s, d);
  }

  lemma SnapshotLinked(d: Disk, s: Snapshot)
    requires IsSnapshot(d, s)
    ensures Linked(s.revisions) && 1 <= |s.revisions| <= MAX_REVISIONS && s.profile == After(s.revisions)
  {
    hide Inspect, ValidLink, UniqueIds, TotalSize;
    var revs := CleanMeans(d);
    HeldOnce(Contents(d.live), revs, s.revisions);
    hide Holds;
  }

  lemma RestoredSnapshot(s: Snapshot, d': Disk)
    requires s.revisions != [] && Contents(d'.live) == RestoreEnd(s.revisions, ProfilePlaced)
    requires Linked(s.revisions) && |s.revisions| <= MAX_REVISIONS && TotalSize(s.revisions) <= MAX_TOTAL
    requires s.profile == After(s.revisions)
    ensures IsChain(Contents(d'.live), s.revisions, false)
    ensures At(Contents(d'.live), Profile) == Some(Raw(s.profile))
  {
    hide ValidLink, UniqueIds, TotalSize, RestoreMarker, Holds, Size;
    var revs := s.revisions;
    HistoryHolds(revs, |revs|);
    HistoryIsRevisions(revs, |revs|);
    assert revs[..|revs|] == revs;
    HoldsSame(History(revs, |revs|), Contents(d'.live), revs);
  }
}
