/** The loops that read the store back: the revision chain, the batches of the
    archive, and the classification built on them. */
module StoreReader {
  import opened Common
  import opened ProfileDocuments
  import opened ProfileInspection
  import opened InspectionSteps
  import opened ArchiveState
  import opened BatchReader
  import opened MarkerReader
  import opened RecoverySteps

  function HistoryNames(c: Listing): set<Name> { set n | n in c && IsHistoryName(n) }

  lemma {:induction false} NumberedNames(revs: seq<Envelope>, names: set<Name>)
    requires forall i :: 0 <= i < |revs| ==> NameAt(revs, i) in names
    ensures |revs| <= |names|
    ensures |revs| == |names| ==> forall n <- names :: n.Revision? && 1 <= n.sequence <= |revs| && n == NameAt(revs, n.sequence - 1)
    decreases |revs|
  {
    if revs != [] {
      var k := |revs| - 1;
      var last := NameAt(revs, k);
      var prior := revs[..k];
      forall i | 0 <= i < k ensures NameAt(prior, i) in names - {last} {
        assert NameAt(prior, i) == NameAt(revs, i);
      }
      NumberedNames(prior, names - {last});
      if |revs| == |names| {
        forall n | n in names ensures n.Revision? && 1 <= n.sequence <= |revs| && n == NameAt(revs, n.sequence - 1) {
          if n != last {
            assert n in names - {last} && n == NameAt(prior, n.sequence - 1);
          }
        }
      }
    }
  }

  /** A listing that holds `revs` has exactly that many history files. */
  lemma HeldCount(c: Listing, revs: seq<Envelope>)
    requires Holds(c, revs)
    ensures |HistoryNames(c)| == |revs|
  {
    NumberedNames(revs, HistoryNames(c));
    var all := set i | 0 <= i < |revs| :: NameAt(revs, i);
    assert HistoryNames(c) <= all;
    CountOf(revs);
    SubsetSize(HistoryNames(c), all);
  }

  lemma {:induction false} CountOf(revs: seq<Envelope>)
    ensures |(set i | 0 <= i < |revs| :: NameAt(revs, i))| <= |revs|
  {
    if revs != [] {
      var k := |revs| - 1;
      CountOf(revs[..k]);
      var small := set i | 0 <= i < k :: NameAt(revs[..k], i);
      assert forall i :: 0 <= i < k ==> NameAt(revs[..k], i) == NameAt(revs, i);
      assert (set i | 0 <= i < |revs| :: NameAt(revs, i)) == small + {NameAt(revs, k)};
    }
  }

  /** A readable beginning of a chain. */
  ghost predicate ReadSoFar(c: Listing, revs: seq<Envelope>) {
    && (forall i :: 0 <= i < |revs| ==>
          ValidLink(revs, i) && NameAt(revs, i) in c && c[NameAt(revs, i)] == Sealed(revs[i]))
    && UniqueIds(revs) && TotalSize(revs) <= MAX_TOTAL
  }

  /** What is asked of the next file. */
  predicate NextAccepted(revs: seq<Envelope>, total: nat, seen: set<Digest>, name: Name, content: Content)
    requires total <= MAX_TOTAL && name.Revision?
  {
    && Size(content) <= (if MAX_REVISION < MAX_TOTAL - total then MAX_REVISION else MAX_TOTAL - total)
    && content.Sealed? && Parses(content.envelope)
    && RegistryAccepted(content.envelope.registry)
    && Id(content.envelope) == name.id && Id(content.envelope) !in seen
    && content.envelope.previous == PreviousSha(revs, |revs|)
  }

  function IdSet(revs: seq<Envelope>): set<Digest> { set i | 0 <= i < |revs| :: Id(revs[i]) }

  lemma UniqueMore(revs: seq<Envelope>, e: Envelope)
    requires UniqueIds(revs) && Id(e) !in IdSet(revs)
    ensures UniqueIds(revs + [e])
    ensures IdSet(revs + [e]) == IdSet(revs) + {Id(e)}
  {
    var all := revs + [e];
    forall i, j | 0 <= i < j < |all| ensures Id(all[i]) != Id(all[j]) {
      if j == |revs| {
        assert Id(revs[i]) in IdSet(revs);
      }
    }
    assert Id(all[|revs|]) == Id(e);
    assert forall i :: 0 <= i < |revs| ==> Id(all[i]) == Id(revs[i]);
  }

  lemma LastLink(revs: seq<Envelope>, total: nat, seen: set<Digest>, name: Name, content: Content)
    requires total <= MAX_TOTAL && name.Revision? && name.sequence == |revs| + 1
    requires NextAccepted(revs, total, seen, name, content)
    ensures content.Sealed?
    ensures ValidLink(revs + [content.envelope], |revs|) && NameAt(revs + [content.envelope], |revs|) == name
  {
    hide Parses, RegistryAccepted;
  }

  lemma LinksMore(c: Listing, revs: seq<Envelope>, name: Name)
    requires ReadSoFar(c, revs) && name in c && name.Revision? && name.sequence == |revs| + 1
    requires NextAccepted(revs, TotalSize(revs), IdSet(revs), name, c[name])
    ensures c[name].Sealed?
    ensures var all := revs + [c[name].envelope];
            forall i :: 0 <= i < |all| ==> ValidLink(all, i) && NameAt(all, i) in c && c[NameAt(all, i)] == Sealed(all[i])
  {
    hide NextAccepted, ValidLink, TotalSize, UniqueIds, IdSet;
    LastLink(revs, TotalSize(revs), IdSet(revs), name, c[name]);
    var e := c[name].envelope;
    Appended(revs, e);
    var all := revs + [e];
    forall i | 0 <= i < |revs| ensures ValidLink(all, i) && NameAt(all, i) in c && c[NameAt(all, i)] == Sealed(all[i]) {
      assert ValidLink(revs, i) && NameAt(all, i) == NameAt(revs, i);
    }
  }

  lemma ReadOneMore(c: Listing, revs: seq<Envelope>, name: Name)
    requires ReadSoFar(c, revs) && name in c && name.Revision? && name.sequence == |revs| + 1
    requires NextAccepted(revs, TotalSize(revs), IdSet(revs), name, c[name])
    ensures ReadSoFar(c, revs + [c[name].envelope])
    ensures IdSet(revs + [c[name].envelope]) == IdSet(revs) + {Id(c[name].envelope)}
    ensures TotalSize(revs + [c[name].envelope]) == TotalSize(revs) + Size(c[name]) <= MAX_TOTAL
  {
    LinksMore(c, revs, name);
    hide Parses, RegistryAccepted, ValidLink;
    Appended(revs, c[name].envelope);
    UniqueMore(revs, c[name].envelope);
    hide TotalSize, UniqueIds, IdSet;
  }

  /** The next envelope of a chain is one the reader accepts. */
  lemma NextPasses(spec: seq<Envelope>, k: nat)
    requires ValidChain(spec) && k < |spec|
    ensures TotalSize(spec[..k]) <= MAX_TOTAL
    ensures NextAccepted(spec[..k], TotalSize(spec[..k]), IdSet(spec[..k]), NameAt(spec, k), Sealed(spec[k]))
  {
    hide Parses, RegistryAccepted, TotalSize;
    assert ValidLink(spec, k);
    TotalOfPrefix(spec, k + 1);
    assert PreviousSha(spec[..k], k) == PreviousSha(spec, k);
    NotSeen(spec, k);
    hide IdSet;
  }

  /** Where there is a chain, the next file is the one it names, and passes. */
  lemma ChainNext(c: Listing, spec: seq<Envelope>, revs: seq<Envelope>, name: Name)
    requires Holds(c, spec) && ValidChain(spec) && revs < spec
    requires name in c && name.Revision? && name.sequence == |revs| + 1
    ensures name == NameAt(spec, |revs|) && c[name] == Sealed(spec[|revs|])
    ensures TotalSize(revs) <= MAX_TOTAL
    ensures NextAccepted(revs, TotalSize(revs), IdSet(revs), name, c[name])
    ensures revs + [c[name].envelope] <= spec
  {
    hide ValidChain, NextAccepted, TotalSize, IdSet;
    assert IsHistoryName(name) && name == NameAt(spec, name.sequence - 1);
    assert revs == spec[..|revs|];
    NextPasses(spec, |revs|);
  }

  lemma NotSeen(revs: seq<Envelope>, k: nat)
    requires UniqueIds(revs) && k < |revs|
    ensures Id(revs[k]) !in IdSet(revs[..k])
  {
    forall i | 0 <= i < k ensures Id(revs[..k][i]) != Id(revs[k]) {
      assert revs[..k][i] == revs[i];
    }
  }

  /** Reads the chain file by file, in numbered order, and stops at the first
      file that is missing, misnamed, too long, malformed, repeated or
      unlinked. */
  method ReadChain(c: Listing, allowTemporary: bool) returns (r: Option<seq<Envelope>>)
    ensures r == ChainOf(c, allowTemporary)
  {
    hide ValidChain, Holds, NextAccepted, ReadSoFar, IdSet, TotalSize;
    var names := HistoryNames(c);
    var listed := |names| + (if RevisionTmp in c then 1 else 0);
    ghost var spec := ChainOf(c, allowTemporary);
    if spec.Some? {
      HeldCount(c, spec.value);
      assert |spec.value| <= MAX_REVISIONS by { ChainLength(spec.value); }
    }
    if listed > MAX_REVISIONS || (RevisionTmp in c && !allowTemporary) {
      return None;
    }
    var result: seq<Envelope> := [];
    var seen: set<Digest> := {};
    var total := 0;
    ReadNone(c);
    while |result| < |names|
      invariant |result| <= |names|
      invariant spec.Some? ==> |spec.value| == |names| && result <= spec.value
      invariant ReadSoFar(c, result)
      invariant seen == IdSet(result)
      invariant total == TotalSize(result) <= MAX_TOTAL
    {
      var sequence := |result| + 1;
      var numbered := set n | n in names && n.Revision? && n.sequence == sequence;
      if spec.Some? {
        NextListed(c, spec.value, |result|);
        assert NameAt(spec.value, |result|) in numbered;
      }
      if numbered == {} {
        return None;
      }
      var name :| name in numbered;
      if spec.Some? {
        ChainNext(c, spec.value, result, name);
      }
      if !NextAccepted(result, total, seen, name, c[name]) {
        return None;
      }
      assert c[name].Sealed? by { AcceptedSealed(result, total, seen, name, c[name]); }
      ReadOneMore(c, result, name);
      seen := seen + {Id(c[name].envelope)};
      total := total + Size(c[name]);
      result := result + [c[name].envelope];
    }
    ReadAll(c, result);
    ChainIs(c, result, allowTemporary);
    r := Some(result);
  }

  lemma ReadNone(c: Listing)
    ensures ReadSoFar(c, []) && IdSet([]) == {} && TotalSize([]) == 0
  {
  }

  lemma NextListed(c: Listing, revs: seq<Envelope>, i: nat)
    requires Holds(c, revs) && i < |revs|
    ensures NameAt(revs, i) in HistoryNames(c)
  {
  }

  lemma AcceptedSealed(revs: seq<Envelope>, total: nat, seen: set<Digest>, name: Name, content: Content)
    requires total <= MAX_TOTAL && name.Revision? && NextAccepted(revs, total, seen, name, content)
    ensures content.Sealed?
  {
  }

  lemma ReadAll(c: Listing, revs: seq<Envelope>)
    requires ReadSoFar(c, revs) && |revs| == |HistoryNames(c)| <= MAX_REVISIONS
    ensures Holds(c, revs) && ValidChain(revs)
  {
    forall i | 0 <= i < |revs| ensures NameAt(revs, i) in HistoryNames(c) {
    }
    NumberedNames(revs, HistoryNames(c));
    forall n | n in c && IsHistoryName(n)
      ensures n.Revision? && 1 <= n.sequence <= |revs| && n == NameAt(revs, n.sequence - 1)
    {
      assert n in HistoryNames(c);
    }
  }

  lemma Appended(revs: seq<Envelope>, e: Envelope)
    ensures TotalSize(revs + [e]) == TotalSize(revs) + Size(Sealed(e))
    ensures forall i :: 0 <= i < |revs| && ValidLink(revs, i) ==> ValidLink(revs + [e], i)
    ensures forall i :: 0 <= i < |revs| ==> NameAt(revs + [e], i) == NameAt(revs, i)
  {
    assert (revs + [e])[..|revs|] == revs;
  }

  lemma {:induction false} TotalOfPrefix(revs: seq<Envelope>, k: nat)
    requires 0 < k <= |revs|
    ensures TotalSize(revs[..k - 1]) + Size(Sealed(revs[k - 1])) <= TotalSize(revs)
  {
    PrefixSizes(revs, k);
    assert revs[..k][..k - 1] == revs[..k - 1];
  }

  /** Classifies the store as it stands. */
  method ReadState(c: Listing) returns (r: Inspection)
    ensures r == InspectState(c)
  {
    hide ClassifyTransaction, ClassifyRestoration, ClassifyClean, TransactionReadable, RestorationReadable, IsChain;
    var chain := ReadChain(c, Marker in c);
    if chain.None? {
      return Refused;
    }
    var revs := chain.value;
    if Marker !in c {
      r := ReadClean(c, revs);
      return;
    }
    var marker := c[Marker];
    if Size(marker) > MAX_TOTAL {
      return Refused;
    }
    if marker.Transaction? {
      var readable := CheckTransaction(marker);
      if readable {
        r := ReadTransaction(c, revs);
        return;
      }
    } else if marker.Restoration? {
      var readable := CheckRestoration(marker);
      if readable {
        r := ReadRestoration(c, revs);
        return;
      }
    }
    r := Refused;
  }

  // ----- the archive --------------------------------------------------------

  /** Adds up one batch, entry by entry. */
  method BatchTotal(b: Batch) returns (total: nat)
    ensures total == BatchBytes(b)
  {
    total := 0;
    var rest := b;
    while rest != map[]
      invariant total + BatchBytes(rest) == BatchBytes(b)
      decreases |rest|
    {
      var e :| e in rest;
      BatchBytesCut(rest, e);
      total := total + Size(rest[e].content);
      rest := rest - {e};
    }
    assert Sizes(map[]) == map[];
  }

  predicate BatchAccepted(b: Batch, id: BatchId, pending: Option<BatchId>, hint: Hint) {
    if pending == Some(id) then |b| <= MAX_ENTRIES && Load(b, id, hint) != Bad
    else Complete(b, id)
  }

  /** The pending batch must read; any other must be finished. */
  method ReadBatch(b: Batch, id: BatchId, pending: Option<BatchId>, hint: Hint) returns (ok: bool)
    ensures ok <==> BatchAccepted(b, id, pending, hint)
  {
    hide Complete, Load;
    if pending != Some(id) {
      ok := ReadFinished(b, id);
      return;
    }
    if |b| > MAX_ENTRIES {
      return false;
    }
    var loaded := LoadBatch(b, id, hint);
    ok := loaded != Bad;
  }

  ghost function RootBytes(root: map<BatchId, Batch>): nat { Sum(RootSizes(root)) }

  lemma RootBytesCut(root: map<BatchId, Batch>, id: BatchId)
    requires id in root
    ensures RootBytes(root) == BatchBytes(root[id]) + RootBytes(root - {id})
  {
    SumWithout(RootSizes(root), id);
    assert RootSizes(root - {id}) == RootSizes(root) - {id};
  }

  lemma RootBytesNone()
    ensures RootBytes(map[]) == 0
  {
    assert RootSizes(map[]) == map[];
  }

  ghost predicate InventoryAccepts(root: map<BatchId, Batch>, pending: Option<BatchId>, hint: Hint) {
    && |root| <= MAX_BATCHES
    && RootBytes(root) <= MAX_RETAINED
    && forall i <- root :: BatchAccepted(root[i], i, pending, hint)
  }

  /** Walks the batches: bounds their number and their total, requires every
      batch but the pending one to be complete and the pending one to read. */
  method Inventory(root: map<BatchId, Batch>, pending: Option<BatchId>, hint: Hint) returns (ok: bool, total: nat)
    ensures ok <==> InventoryAccepts(root, pending, hint)
    ensures ok ==> total == RootBytes(root)
  {
    hide RootBytes, BatchAccepted, BatchBytes;
    if |root| > MAX_BATCHES {
      return false, 0;
    }
    ok, total := true, 0;
    var rest := root;
    while rest != map[]
      invariant rest.Keys <= root.Keys && forall i <- rest :: rest[i] == root[i]
      invariant ok && total + RootBytes(rest) == RootBytes(root)
      invariant total <= MAX_RETAINED
      invariant forall i <- root :: i in rest || BatchAccepted(root[i], i, pending, hint)
      decreases |rest|
    {
      var id :| id in rest;
      var size := BatchTotal(rest[id]);
      RootBytesCut(rest, id);
      total := total + size;
      if total > MAX_RETAINED {
        return false, total;
      }
      ok := ReadBatch(root[id], id, pending, hint);
      if !ok {
        return;
      }
      rest := rest - {id};
    }
    RootBytesNone();
  }

  /** What the walk establishes, in the archive's own terms. */
  lemma InventoryMeans(root: map<BatchId, Batch>, pending: Option<BatchId>, hint: Hint)
    ensures InventoryAccepts(root, pending, hint) <==>
            (&& OthersComplete(root, pending)
             && (pending.Some? && pending.value in root ==>
                   BatchAccepted(root[pending.value], pending.value, pending, hint)))
  {
    hide Complete, Load;
  }

  /** Checks the archive against the plan the store's state suggests. */
  method ReadArchive(d: Disk, plan: Option<Plan>) returns (ok: bool)
    requires plan.Some? ==> Marker in d.live
    ensures ok <==> ArchiveAccepts(d, plan)
  {
    hide Complete, Load, Agrees, OthersComplete;
    if d.root.None? {
      return true;
    }
    var root := d.root.value;
    if plan.None? {
      var total;
      ok, total := Inventory(root, None, NoHint);
      InventoryMeans(root, None, NoHint);
      return;
    }
    var id := BatchOf(d.live, plan.value);
    var hint := HintFor(d.live, plan.value);
    var total;
    ok, total := Inventory(root, Some(id), hint);
    InventoryMeans(root, Some(id), hint);
    if ok && id in root {
      var loaded := LoadBatch(root[id], id, hint);
      if loaded.Holding? {
        LoadedManifest(root[id], id, hint);
        ok := CheckPending(d.live, root[id], loaded.manifest, plan.value);
      }
    }
  }

  /** The full inspection of a disk. */
  method ReadDisk(d: Disk) returns (r: Inspection)
    ensures r == Inspect(d)
  {
    hide InspectState, ArchiveAccepts;
    r := ReadState(Contents(d.live));
    if r.Clean? {
      var ok := ReadArchive(d, None);
      if !ok {
        r := Refused;
      }
    } else if r.Pending? {
      if Marker !in d.live {
        return Refused;
      }
      var ok := ReadArchive(d, Some(r.plan));
      if !ok {
        r := Refused;
      }
    }
  }
}
