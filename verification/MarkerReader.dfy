/** Reading what a marker says, and what stands beside it, step by step. */
module MarkerReader {
  import opened Common
  import opened ProfileDocuments
  import opened ProfileInspection

  /** Reads a store without a marker. */
  method ReadClean(c: Listing, revs: seq<Envelope>) returns (r: Inspection)
    ensures r == ClassifyClean(c, revs)
  {
    if ProfileTmp in c || MarkerTmp in c || RevisionTmp in c {
      return Refused;
    }
    if Profile !in c {
      return if revs == [] then Clean else Refused;
    }
    if Size(c[Profile]) > MAX_TOTAL || revs == [] || c[Profile] != Raw(revs[|revs| - 1].registry) {
      return Refused;
    }
    r := Clean;
  }

  // ----- an ordinary transaction --------------------------------------------

  /** The marker must agree with itself. */
  method CheckTransaction(m: Content) returns (ok: bool)
    requires m.Transaction?
    ensures ok <==> TransactionReadable(m)
  {
    var previous := if m.before.Some? then Some(Sha256(Raw(m.before.value))) else None;
    if m.previousSha != previous || m.candidateSha != Sha256(Raw(m.after)) || m.before == Some(m.after) {
      return false;
    }
    ok := |m.after| <= MAX_PROFILE && RegistryLoads(m.after);
  }

  /** Temporaries must be copies of what was being published, unless nothing
      was published yet. */
  method CheckResidue(c: Listing, marker: Content, after: Content, planned: Digest, unpublished: bool) returns (ok: bool)
    ensures ok <==> ResidueAccepted(c, marker, after, planned, unpublished)
  {
    if MarkerTmp in c && (Size(c[MarkerTmp]) > MAX_TOTAL || (!unpublished && c[MarkerTmp] != marker)) {
      return false;
    }
    if ProfileTmp in c && (Size(c[ProfileTmp]) > MAX_TOTAL || (!unpublished && c[ProfileTmp] != after)) {
      return false;
    }
    if RevisionTmp in c {
      if Size(c[RevisionTmp]) > MAX_TOTAL {
        return false;
      }
      if !unpublished && !(c[RevisionTmp].Sealed? && Parses(c[RevisionTmp].envelope) && Id(c[RevisionTmp].envelope) == planned) {
        return false;
      }
    }
    ok := true;
  }

  /** Whether the revision the marker plans is in place, and what had been
      there before it. */
  method ReadPrior(revs: seq<Envelope>, planned: Digest) returns (matching: bool, prior: Option<Bytes>)
    ensures matching <==> revs != [] && Id(revs[|revs| - 1]) == planned
    ensures RawOf(prior) == Tip(if matching then revs[..|revs| - 1] else revs)
  {
    matching := revs != [] && Id(revs[|revs| - 1]) == planned;
    var before := if matching then |revs| - 1 else |revs|;
    prior := if before == 0 then None else Some(revs[before - 1].registry);
  }

  /** Reads a transaction against the revisions there are. */
  method ReadTransaction(c: Listing, revs: seq<Envelope>) returns (r: Inspection)
    requires Marker in c && c[Marker].Transaction?
    ensures r == ClassifyTransaction(c, revs)
  {
    hide ResidueAccepted, Parses;
    var m := c[Marker];
    var matching, prior := ReadPrior(revs, m.planned);
    if prior != m.before {
      return Refused;
    }
    if matching {
      var last := revs[|revs| - 1];
      if last.registry != m.after || last.previous != m.previousSha {
        return Refused;
      }
    } else {
      var k := 0;
      while k < |revs|
        invariant k <= |revs| && forall i :: 0 <= i < k ==> Id(revs[i]) != m.planned
      {
        if Id(revs[k]) == m.planned {
          assert Ids(revs)[k] == m.planned;
          return Refused;
        }
        k := k + 1;
      }
    }
    if Profile in c && Size(c[Profile]) > MAX_TOTAL {
      return Refused;
    }
    r := ReadAction(c, revs, matching);
  }

  /** What is to be done about a transaction: which side the profile is on. */
  method ReadAction(c: Listing, revs: seq<Envelope>, matching: bool) returns (r: Inspection)
    requires Marker in c && c[Marker].Transaction?
    ensures var m := c[Marker];
            var before, after, current := RawOf(m.before), Raw(m.after), At(c, Profile);
            var publish := current == before;
            r == if (publish || (current == Some(after) && matching))
                    && ResidueAccepted(c, m, after, m.planned, publish && !matching)
                 then Pending(Plan(if !publish then ClearMarker else if matching then PublishCandidate else RemoveUntouchedMarker,
                                   m.planned, m, before, after, current, Ids(revs), []))
                 else Refused
  {
    hide ResidueAccepted, Parses;
    var m := c[Marker];
    var before := if m.before.Some? then Some(Raw(m.before.value)) else None;
    var current := if Profile in c then Some(c[Profile]) else None;
    var action;
    if current == before {
      action := if matching then PublishCandidate else RemoveUntouchedMarker;
    } else if current == Some(Raw(m.after)) && matching {
      action := ClearMarker;
    } else {
      return Refused;
    }
    var ok := CheckResidue(c, m, Raw(m.after), m.planned, action == RemoveUntouchedMarker);
    r := if ok then Pending(Plan(action, m.planned, m, before, Raw(m.after), current, Ids(revs), [])) else Refused;
  }

  // ----- a restoration ------------------------------------------------------

  /** The marker must number its revisions in order, none twice, and plan the
      last of them. */
  method CheckRestoration(m: Content) returns (ok: bool)
    requires m.Restoration?
    ensures ok <==> RestorationReadable(m)
  {
    if Size(m) > MAX_RESTORE_MARKER || !(1 <= |m.records| <= MAX_REVISIONS) {
      return false;
    }
    ok := CheckRecords(m.records);
    if !ok {
      return;
    }
    if m.planned != m.records[|m.records| - 1].1 || m.candidateSha != Sha256(Raw(m.after)) {
      return false;
    }
    ok := |m.after| <= MAX_PROFILE && RegistryLoads(m.after);
  }

  method CheckRecords(records: seq<(Name, Digest)>) returns (ok: bool)
    ensures ok <==> RecordsNumbered(records)
  {
    var seen: set<Digest> := {};
    var k := 0;
    while k < |records|
      invariant k <= |records| && seen == (set i | 0 <= i < k :: records[i].1)
      invariant forall i :: 0 <= i < k ==> records[i].0 == Revision(i + 1, records[i].1)
      invariant forall i, j :: 0 <= i < j < k ==> records[i].1 != records[j].1
    {
      if records[k].1 in seen || records[k].0 != Revision(k + 1, records[k].1) {
        return false;
      }
      seen := seen + {records[k].1};
      k := k + 1;
    }
    ok := true;
  }

  /** Temporaries must be copies of what is published, the revision that of the
      last one in place or of the next. */
  method CheckRestoreResidue(c: Listing, marker: Content, after: Content, planned: seq<Digest>, published: nat) returns (ok: bool)
    ensures ok <==> RestoreResidueAccepted(c, marker, after, planned, published)
  {
    hide Parses, Size;
    if MarkerTmp in c && (Size(c[MarkerTmp]) > MAX_TOTAL || c[MarkerTmp] != marker) {
      return false;
    }
    if ProfileTmp in c && (Size(c[ProfileTmp]) > MAX_TOTAL || c[ProfileTmp] != after) {
      return false;
    }
    if RevisionTmp !in c {
      return true;
    }
    if Size(c[RevisionTmp]) > MAX_REVISION || !c[RevisionTmp].Sealed? || !Parses(c[RevisionTmp].envelope) {
      return false;
    }
    ok := NextOrLast(Id(c[RevisionTmp].envelope), planned, published);
  }

  method NextOrLast(id: Digest, planned: seq<Digest>, published: nat) returns (ok: bool)
    ensures ok <==> exists i :: 0 <= i < |planned| && published - 1 <= i <= published && planned[i] == id
  {
    var last := published >= 1 && published - 1 < |planned| && planned[published - 1] == id;
    var next := published < |planned| && planned[published] == id;
    ok := last || next;
  }

  /** Reads a restoration against the revisions there are. */
  method ReadRestoration(c: Listing, revs: seq<Envelope>) returns (r: Inspection)
    requires Marker in c && c[Marker].Restoration?
    ensures r == ClassifyRestoration(c, revs)
  {
    hide RestoreResidueAccepted;
    var m := c[Marker];
    var planned := RecordIds(m.records);
    if |revs| > |planned| {
      return Refused;
    }
    var k := 0;
    while k < |revs|
      invariant k <= |revs| && forall i :: 0 <= i < k ==> Id(revs[i]) == planned[i]
    {
      if Id(revs[k]) != planned[k] {
        assert Ids(revs)[k] != planned[k];
        return Refused;
      }
      k := k + 1;
    }
    assert Ids(revs) <= planned;
    var complete := |revs| == |planned|;
    if complete && (revs == [] || revs[|revs| - 1].registry != m.after) {
      return Refused;
    }
    if Profile in c && (Size(c[Profile]) > MAX_PROFILE || !complete || c[Profile] != Raw(m.after)) {
      return Refused;
    }
    var ok := CheckRestoreResidue(c, m, Raw(m.after), planned, |revs|);
    if !ok {
      return Refused;
    }
    var action := if Profile in c then ClearMarker else if complete then PublishCandidate else RemoveUntouchedMarker;
    r := Pending(Plan(action, m.planned, m, None, Raw(m.after), At(c, Profile), Ids(revs), planned));
  }
}
