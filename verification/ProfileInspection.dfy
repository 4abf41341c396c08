/** Reading the store: the revision chain, and the classification of whatever a
    crash left on disk.  Everything here looks at file contents only. */
module ProfileInspection {
  import opened Common
  import opened ProfileDocuments

  /** What a directory listing shows: a name and the content behind it. */
  type Listing = map<Name, Content>

  // ----- the revision chain -------------------------------------------------

  function NameAt(revs: seq<Envelope>, i: nat): Name
    requires i < |revs|
  {
    Revision(i + 1, Id(revs[i]))
  }

  predicate IsHistoryName(n: Name) { n.Revision? || n.Foreign? }

  /** The history directory holds exactly the numbered files of `revs`. */
  ghost predicate Holds(c: Listing, revs: seq<Envelope>) {
    && (forall i :: 0 <= i < |revs| ==> NameAt(revs, i) in c && c[NameAt(revs, i)] == Sealed(revs[i]))
    && (forall n <- c :: IsHistoryName(n) ==>
          n.Revision? && 1 <= n.sequence <= |revs| && n == NameAt(revs, n.sequence - 1))
  }

  function TotalSize(revs: seq<Envelope>): nat {
    if revs == [] then 0 else TotalSize(revs[..|revs| - 1]) + Size(Sealed(revs[|revs| - 1]))
  }

  function PreviousSha(revs: seq<Envelope>, i: nat): Option<Digest>
    requires i <= |revs|
  {
    if i == 0 then None else Some(revs[i - 1].current)
  }

  predicate ValidLink(revs: seq<Envelope>, i: nat)
    requires i < |revs|
  {
    && Parses(revs[i])
    && RegistryAccepted(revs[i].registry)
    && Size(Sealed(revs[i])) <= MAX_REVISION
    && revs[i].previous == PreviousSha(revs, i)
  }

  predicate UniqueIds(revs: seq<Envelope>) {
    forall i, j :: 0 <= i < j < |revs| ==> Id(revs[i]) != Id(revs[j])
  }

  /** Links, identities and the size bounds enforced on reading. */
  predicate ValidChain(revs: seq<Envelope>) {
    && (forall i :: 0 <= i < |revs| ==> ValidLink(revs, i))
    && UniqueIds(revs)
    && TotalSize(revs) <= MAX_TOTAL
    && |revs| <= MAX_REVISIONS
  }

  lemma ChainLength(revs: seq<Envelope>)
    requires ValidChain(revs)
    ensures |revs| <= MAX_REVISIONS
  {
  }

  /** The chain a reader returns.  The listing limit counts a revision
      temporary even where the reader goes on to ignore it. */
  ghost predicate IsChain(c: Listing, revs: seq<Envelope>, allowTemporary: bool) {
    && Holds(c, revs)
    && ValidChain(revs)
    && (RevisionTmp in c ==> allowTemporary && |revs| < MAX_REVISIONS)
  }

  ghost function ChainOf(c: Listing, allowTemporary: bool): (r: Option<seq<Envelope>>)
    ensures r.Some? ==> IsChain(c, r.value, allowTemporary)
    ensures r.None? ==> forall revs :: !IsChain(c, revs, allowTemporary)
  {
    if revs :| IsChain(c, revs, allowTemporary) then Some(revs) else None
  }

  /** What one history has at a place, every other has there too. */
  lemma HeldAt(c: Listing, a: seq<Envelope>, b: seq<Envelope>, i: nat)
    requires Holds(c, a) && Holds(c, b) && i < |a|
    ensures i < |b| && a[i] == b[i]
  {
    hide Id;
    var n := NameAt(a, i);
    assert n in c && c[n] == Sealed(a[i]) && IsHistoryName(n);
    assert n == NameAt(b, i);
    assert c[n] == Sealed(b[i]);
  }

  lemma HeldOnce(c: Listing, a: seq<Envelope>, b: seq<Envelope>)
    requires Holds(c, a) && Holds(c, b)
    ensures a == b
  {
    hide Holds;
    if |a| < |b| {
      HeldAt(c, b, a, |a|);
    }
    forall i | 0 <= i < |a| ensures i < |b| && a[i] == b[i] {
      HeldAt(c, a, b, i);
    }
    if |b| < |a| {
      HeldAt(c, a, b, |b|);
    }
  }

  /** A listing has at most one chain, so finding one is finding the answer. */
  lemma ChainIs(c: Listing, revs: seq<Envelope>, allowTemporary: bool)
    requires IsChain(c, revs, allowTemporary)
    ensures ChainOf(c, allowTemporary) == Some(revs)
  {
    HeldOnce(c, revs, ChainOf(c, allowTemporary).value);
  }

  function Ids(revs: seq<Envelope>): (ids: seq<Digest>)
    ensures |ids| == |revs|
    ensures forall i :: 0 <= i < |revs| ==> ids[i] == Id(revs[i])
  {
    seq(|revs|, i requires 0 <= i < |revs| => Id(revs[i]))
  }

  function Tip(revs: seq<Envelope>): Option<Content> {
    if revs == [] then None else Some(Raw(revs[|revs| - 1].registry))
  }

  function At(c: Listing, n: Name): Option<Content> {
    if n in c then Some(c[n]) else None
  }

  // ----- what a recovery would do ------------------------------------------

  /** An opaque token for one exact recovery.  `restoring` lists the revisions a
      restoration marker planned, and is empty for an ordinary transaction. */
  datatype Plan = Plan(
    action: Action,
    planned: Digest,
    marker: Content,
    before: Option<Content>,
    candidate: Content,
    current: Option<Content>,
    history: seq<Digest>,
    restoring: seq<Digest>)

  datatype Inspection = Refused | Clean | Pending(plan: Plan)

  predicate Readable(c: Listing, n: Name, limit: nat) {
    n in c ==> Size(c[n]) <= limit
  }

  predicate NoTemporaries(c: Listing) {
    ProfileTmp !in c && MarkerTmp !in c && RevisionTmp !in c
  }

  /** Residue an ordinary transaction may leave beside its marker. */
  predicate ResidueAccepted(c: Listing, marker: Content, after: Content, planned: Digest, unpublished: bool) {
    && Readable(c, MarkerTmp, MAX_TOTAL) && Readable(c, ProfileTmp, MAX_TOTAL) && Readable(c, RevisionTmp, MAX_TOTAL)
    && (!unpublished ==>
          && (MarkerTmp in c ==> c[MarkerTmp] == marker)
          && (ProfileTmp in c ==> c[ProfileTmp] == after)
          && (RevisionTmp in c ==> c[RevisionTmp].Sealed? && Parses(c[RevisionTmp].envelope)
                                   && Sha256(c[RevisionTmp]) == planned))
  }

  /** The classification of an ordinary transaction over the chain `revs`. */
  function ClassifyTransaction(c: Listing, revs: seq<Envelope>): Inspection
    requires Marker in c && c[Marker].Transaction?
  {
    var m := c[Marker];
    var before, after := RawOf(m.before), Raw(m.after);
    var matching := revs != [] && Id(revs[|revs| - 1]) == m.planned;
    var prior := if matching then revs[..|revs| - 1] else revs;
    var current := At(c, Profile);
    if || Tip(prior) != before
       || (matching && (Tip(revs) != Some(after) || revs[|revs| - 1].previous != m.previousSha))
       || (!matching && m.planned in Ids(revs))
       || !Readable(c, Profile, MAX_TOTAL)
    then Refused
    else if current == before then
      if ResidueAccepted(c, m, after, m.planned, !matching) then
        Pending(Plan(if matching then PublishCandidate else RemoveUntouchedMarker,
                     m.planned, m, before, after, current, Ids(revs), []))
      else Refused
    else if current == Some(after) && matching then
      if ResidueAccepted(c, m, after, m.planned, false) then
        Pending(Plan(ClearMarker, m.planned, m, before, after, current, Ids(revs), []))
      else Refused
    else Refused
  }

  /** What a transaction marker must say about itself. */
  predicate TransactionReadable(m: Content)
    requires m.Transaction?
  {
    && m.previousSha == ShaOf(m.before) && m.candidateSha == Sha256(Raw(m.after))
    && m.before != Some(m.after)
    && RegistryAccepted(m.after)
  }

  predicate RecordsNumbered(records: seq<(Name, Digest)>) {
    && (forall i :: 0 <= i < |records| ==> records[i].0 == Revision(i + 1, records[i].1))
    && (forall i, j :: 0 <= i < j < |records| ==> records[i].1 != records[j].1)
  }

  function RecordIds(records: seq<(Name, Digest)>): (ids: seq<Digest>)
    ensures |ids| == |records|
    ensures forall i :: 0 <= i < |records| ==> ids[i] == records[i].1
  {
    seq(|records|, i requires 0 <= i < |records| => records[i].1)
  }

  /** Residue a restoration may leave: copies of what it publishes. */
  predicate RestoreResidueAccepted(c: Listing, marker: Content, after: Content, planned: seq<Digest>, published: nat) {
    && Readable(c, MarkerTmp, MAX_TOTAL) && (MarkerTmp in c ==> c[MarkerTmp] == marker)
    && Readable(c, ProfileTmp, MAX_TOTAL) && (ProfileTmp in c ==> c[ProfileTmp] == after)
    && Readable(c, RevisionTmp, MAX_REVISION)
    && (RevisionTmp in c ==>
          && c[RevisionTmp].Sealed? && Parses(c[RevisionTmp].envelope)
          && exists i :: 0 <= i < |planned| && published - 1 <= i <= published
                         && planned[i] == Sha256(c[RevisionTmp]))
  }

  /** What a restoration marker must say about itself. */
  predicate RestorationReadable(m: Content)
    requires m.Restoration?
  {
    && Size(m) <= MAX_RESTORE_MARKER
    && 1 <= |m.records| <= MAX_REVISIONS && RecordsNumbered(m.records)
    && m.planned == m.records[|m.records| - 1].1
    && m.candidateSha == Sha256(Raw(m.after))
    && RegistryAccepted(m.after)
  }

  /** The classification of a restoration over the chain `revs`. */
  function ClassifyRestoration(c: Listing, revs: seq<Envelope>): Inspection
    requires Marker in c && c[Marker].Restoration?
  {
    var m := c[Marker];
    var after := Raw(m.after);
    var planned := RecordIds(m.records);
    var complete := |revs| == |planned|;
    var current := At(c, Profile);
    if || !(Ids(revs) <= planned)
       || (complete && Tip(revs) != Some(after))
       || !Readable(c, Profile, MAX_PROFILE)
       || !RestoreResidueAccepted(c, m, after, planned, |revs|)
    then Refused
    else if current.None? then
      Pending(Plan(if complete then PublishCandidate else RemoveUntouchedMarker,
                   m.planned, m, None, after, None, Ids(revs), planned))
    else if complete && current == Some(after) then
      Pending(Plan(ClearMarker, m.planned, m, None, after, current, Ids(revs), planned))
    else Refused
  }

  function ClassifyClean(c: Listing, revs: seq<Envelope>): Inspection {
    if NoTemporaries(c) && Readable(c, Profile, MAX_TOTAL) && At(c, Profile) == Tip(revs) then Clean else Refused
  }

  /** The classification of one listing of the store. */
  ghost function InspectState(c: Listing): Inspection {
    var chain := ChainOf(c, Marker in c);
    if chain.None? then Refused
    else if Marker !in c then ClassifyClean(c, chain.value)
    else if Size(c[Marker]) > MAX_TOTAL then Refused
    else match c[Marker]
      case Transaction(_, _, _, _, _) =>
        if TransactionReadable(c[Marker]) then ClassifyTransaction(c, chain.value) else Refused
      case Restoration(_, _, _, _) =>
        if RestorationReadable(c[Marker]) then ClassifyRestoration(c, chain.value) else Refused
      case _ => Refused
  }
}
