/** The documents kept by the private host-profile store, and what a reader of
    one document checks before believing it.

    Canonical JSON and base64 are modelled by the datatype `Content` itself: a
    document is equal to another exactly when its canonical bytes are.  A file
    that was being written when the machine stopped holds `Torn(whole, n)`, the
    first `n` bytes of `whole`.  SHA-256, the registry loader and the length of
    every encoded document but a restoration marker are uninterpreted constants,
    so everything proved here holds whatever they are.
 */
module ProfileDocuments {

  import opened Common

  /** A SHA-256 value, read as a number. */
  type Digest = nat

  datatype Operation =
    | Initialisation
    | Registration
    | ServiceCommandMigration
    | ServiceCommandRestoration
    | PublicBasePathMigration
    | PublicBasePathRestoration
    | BackupRestoration
    | UnknownOperation(name: string)

  /** The body of one immutable revision document. */
  datatype Envelope = Envelope(
    appId: Option<string>,
    createdAt: string,
    operation: Operation,
    previous: Option<Digest>,
    current: Digest,
    registry: Bytes)

  /** Every file name the store gives a meaning to.  `Revision` and
      `RevisionTmp` live in the history directory, the others beside it;
      `Foreign` is any other name found in the history directory. */
  datatype Name =
    | Profile
    | Marker
    | ProfileTmp
    | MarkerTmp
    | RevisionTmp
    | Revision(sequence: nat, id: Digest)
    | Foreign(name: string)

  datatype Action = RemoveUntouchedMarker | PublishCandidate | ClearMarker

  /** One line of a recovery manifest: a name, the digest and size of its
      bytes, and the identity of the file that held them. */
  datatype Record = Record(name: Name, sha: Digest, ino: nat, ctime: nat, size: nat)

  datatype Content =
    | Raw(bytes: Bytes)
    | Sealed(envelope: Envelope)
    | Transaction(planned: Digest, previousSha: Option<Digest>, candidateSha: Digest,
                  before: Option<Bytes>, after: Bytes)
    | Restoration(planned: Digest, candidateSha: Digest, after: Bytes, records: seq<(Name, Digest)>)
    | Manifest(markerSha: Digest, candidateSha: Digest, action: Action,
               historyIds: seq<Digest>, files: seq<Record>)
    | Torn(whole: Content, written: nat)

  const Sha256: Content -> Digest
  const RegistryLoads: Bytes -> bool
  const TimestampParses: string -> bool
  const EncodedSize: Content -> nat

  const MAX_PROFILE: nat := 5 * 1024 * 1024
  const MAX_REVISION: nat := 8 * 1024 * 1024
  const MAX_REVISIONS: nat := 10_000
  const MAX_TOTAL: nat := 64 * 1024 * 1024
  const MAX_BATCHES: nat := 128
  const MAX_RETAINED: nat := 256 * 1024 * 1024
  const MAX_MANIFEST: nat := 4 * 1024 * 1024
  /** A restoration marker with nothing in it, and one of its records with what
      separates it from the next. */
  const RESTORE_WRAPPER: nat := 275
  const RESTORE_RECORD: nat := 182
  /** The longest restoration marker: its wrapper, the longest profile in base64
      and 10,000 records. */
  const MAX_RESTORE_MARKER: nat := RESTORE_WRAPPER + Base64Length(MAX_PROFILE) + MAX_REVISIONS * RESTORE_RECORD - 1

  /** The length of a document.  A record of a restoration names a revision, so
      all are of one length. */
  function Size(c: Content): nat {
    match c
    case Raw(bytes) => |bytes|
    case Restoration(_, _, after, records) => RestorationLength(|after|, |records|)
    case Torn(_, written) => written
    case _ => EncodedSize(c)
  }

  function RestorationLength(after: nat, records: nat): nat {
    RESTORE_WRAPPER + Base64Length(after) + (if records == 0 then 0 else records * RESTORE_RECORD - 1)
  }

  /** What the file holds once `written` bytes of `whole` have reached it. */
  function Prefix(whole: Content, written: nat): (c: Content)
    ensures c == whole || (c.Torn? && c.whole == whole && c.written < Size(whole))
    ensures Size(whole) <= written ==> c == whole
  {
    if Size(whole) <= written then whole else Torn(whole, written)
  }

  predicate IsPrefix(c: Content, whole: Content) {
    c == whole || (c.Torn? && c.whole == whole && c.written < Size(whole))
  }

  predicate ValidAppId(id: string) {
    && id != ""
    && 'a' <= id[0] <= 'z'
    && forall i :: 0 <= i < |id| ==> 'a' <= id[i] <= 'z' || '0' <= id[i] <= '9' || id[i] == '-'
  }

  predicate OperationAgrees(e: Envelope) {
    match e.operation
    case Initialisation => e.appId.None? && e.previous.None?
    case BackupRestoration => e.appId.None? && e.previous.Some?
    case UnknownOperation(_) => false
    case _ => e.appId.Some? && ValidAppId(e.appId.value) && e.previous.Some?
  }

  /** The envelope a revision parser accepts. */
  predicate Parses(e: Envelope) {
    && OperationAgrees(e)
    && TimestampParses(e.createdAt)
    && e.current == Sha256(Raw(e.registry))
  }

  function Id(e: Envelope): Digest { Sha256(Sealed(e)) }

  predicate RegistryAccepted(registry: Bytes) {
    |registry| <= MAX_PROFILE && RegistryLoads(registry)
  }

  function ShaOf(registry: Option<Bytes>): Option<Digest> {
    match registry
    case None => None
    case Some(bytes) => Some(Sha256(Raw(bytes)))
  }

  function RawOf(registry: Option<Bytes>): Option<Content> {
    match registry
    case None => None
    case Some(bytes) => Some(Raw(bytes))
  }
}
