/** The order in which a recovery retires files, and why a freshly prepared
    manifest reads back. */
module ManifestOrder {
  import opened Common
  import opened ProfileDocuments
  import opened ProfileInspection
  import opened InspectionSteps
  import opened ArchiveState

  predicate IsRevisionOf(n: Name, ids: seq<Digest>) {
    n.Revision? && 1 <= n.sequence <= |ids| && n.id == ids[n.sequence - 1]
  }

  lemma OrderMembers(temporaries: set<Name>, ids: seq<Digest>, n: Name)
    ensures n in RetirementOrder(temporaries, ids) <==>
            (n == Marker || (IsTemporary(n) && n in temporaries) || IsRevisionOf(n, ids))
  {
    var t, r := TempNames(temporaries), RevisionNames(ids);
    assert RetirementOrder(temporaries, ids) == t + r + [Marker];
    if IsRevisionOf(n, ids) {
      assert r[|ids| - n.sequence] == n;
    }
  }

  lemma OrderDistinct(temporaries: set<Name>, ids: seq<Digest>)
    ensures Distinct(RetirementOrder(temporaries, ids))
  {
    var t, r := TempNames(temporaries), RevisionNames(ids);
    assert Distinct(t) && forall i :: 0 <= i < |t| ==> IsTemporary(t[i]);
    assert Distinct(r);
  }

  /** Only which temporaries are present matters to the order. */
  lemma OrderCongruent(a: set<Name>, b: set<Name>, ids: seq<Digest>)
    requires forall n :: IsTemporary(n) ==> (n in a <==> n in b)
    ensures RetirementOrder(a, ids) == RetirementOrder(b, ids)
  {
  }

  lemma ManifestNamesDistinct(m: Content, id: BatchId)
    requires ManifestOk(m, id)
    ensures Distinct(NamesOf(m.files))
  {
    OrderDistinct(NameSet(NamesOf(m.files)), if Listed(m.files) then m.historyIds else []);
  }

  /** The names a readable manifest can contain. */
  lemma ManifestMembers(m: Content, id: BatchId, n: Name)
    requires ManifestOk(m, id)
    ensures n in NamesOf(m.files) ==>
              (n == Marker || IsTemporary(n) || (Listed(m.files) && IsRevisionOf(n, m.historyIds)))
    ensures (Listed(m.files) && IsRevisionOf(n, m.historyIds)) ==> n in NamesOf(m.files)
    ensures NamesOf(m.files)[|m.files| - 1] == Marker
  {
    OrderMembers(NameSet(NamesOf(m.files)), if Listed(m.files) then m.historyIds else [], n);
  }

  /** Distinct revisions give distinct identities. */
  lemma ChainIdsDistinct(revs: seq<Envelope>)
    requires ValidChain(revs)
    ensures Distinct(Ids(revs)) && |Ids(revs)| <= MAX_REVISIONS
  {
  }

  /** The revisions a plan retires: all of them, or none. */
  function Retired(plan: Plan): seq<Digest> { if RollsBack(plan) then plan.history else [] }

  lemma RetiredRevision(c: Listing, plan: Plan, revs: seq<Envelope>, n: Name)
    requires Describes(c, plan, revs) && IsRevisionOf(n, Retired(plan))
    ensures n in c && Size(c[n]) <= MAX_TOTAL && Sha256(c[n]) == n.id
  {
    assert n == NameAt(revs, n.sequence - 1);
    assert ValidLink(revs, n.sequence - 1);
  }

  /** Every file a recovery selects is there and short enough to read. */
  lemma SelectionPresent(live: map<Name, File>, plan: Plan, revs: seq<Envelope>)
    requires Describes(Contents(live), plan, revs)
    ensures Prepare(live, plan).Some?
    ensures NamesOf(Prepare(live, plan).value.files) == Selection(live, plan)
    ensures forall n <- Selection(live, plan) :: n in live && Size(live[n].content) <= MAX_TOTAL
  {
    hide Describes, RetirementOrder;
    forall n | n in Selection(live, plan) ensures n in live && Size(live[n].content) <= MAX_TOTAL {
      SelectedPresent(live, plan, revs, n);
    }
  }

  lemma SelectedPresent(live: map<Name, File>, plan: Plan, revs: seq<Envelope>, n: Name)
    requires Describes(Contents(live), plan, revs) && n in Selection(live, plan)
    ensures n in live && Size(live[n].content) <= MAX_TOTAL
  {
    assert n in RetirementOrder(live.Keys, Retired(plan));
    OrderMembers(live.Keys, Retired(plan), n);
    hide RetirementOrder, IsChain, Selection;
    var c := Contents(live);
    if n.Revision? {
      RetiredRevision(c, plan, revs, n);
    } else if IsTemporary(n) {
      assert n in [ProfileTmp, MarkerTmp, RevisionTmp];
      assert Readable(c, n, MAX_TOTAL);
    }
  }

  /** Whether a fresh manifest lists revisions, from its names alone. */
  lemma ListedNames(files: seq<Record>, temporaries: set<Name>, ids: seq<Digest>)
    requires NamesOf(files) == RetirementOrder(temporaries, ids)
    ensures Listed(files) <==> ids != []
    ensures files[|files| - 1].name == Marker
  {
    if ids != [] {
      var n := Revision(|ids|, ids[|ids| - 1]);
      OrderMembers(temporaries, ids, n);
      var i :| 0 <= i < |files| && NamesOf(files)[i] == n;
      assert files[i].name.Revision?;
    }
    if Listed(files) {
      var r :| r in files && r.name.Revision?;
      var i :| 0 <= i < |files| && files[i] == r;
      assert NamesOf(files)[i] == r.name;
      OrderMembers(temporaries, ids, r.name);
    }
  }

  lemma OrderFromNames(files: seq<Record>, temporaries: set<Name>, ids: seq<Digest>)
    requires NamesOf(files) == RetirementOrder(temporaries, ids)
    ensures RetirementOrder(NameSet(NamesOf(files)), ids) == NamesOf(files)
    ensures |files| <= |ids| + 4
  {
    var names := NamesOf(files);
    forall n | IsTemporary(n) ensures n in temporaries <==> n in NameSet(names) {
      OrderMembers(temporaries, ids, n);
    }
    OrderCongruent(temporaries, NameSet(names), ids);
  }

  lemma PreparedRecords(live: map<Name, File>, plan: Plan, revs: seq<Envelope>, r: Record)
    requires Describes(Contents(live), plan, revs)
    requires Prepare(live, plan).Some? && r in Prepare(live, plan).value.files
    ensures r.name in Selection(live, plan) && r.name in live && r == RecordOf(r.name, live[r.name])
    ensures r.size <= MAX_TOTAL && (r.name.Revision? ==> r.sha == r.name.id)
  {
    hide Describes, RetirementOrder, IsChain;
    SelectionPresent(live, plan, revs);
    var files := Prepare(live, plan).value.files;
    var i :| 0 <= i < |files| && files[i] == r;
    assert r.name == Selection(live, plan)[i];
    OrderMembers(live.Keys, Retired(plan), r.name);
    if r.name.Revision? {
      RetiredRevision(Contents(live), plan, revs, r.name);
    }
  }

  /** A freshly prepared manifest is one the reader accepts. */
  lemma PreparedReads(live: map<Name, File>, plan: Plan, revs: seq<Envelope>)
    requires Describes(Contents(live), plan, revs)
    ensures Prepare(live, plan).Some?
    ensures ManifestOk(Prepare(live, plan).value, BatchOf(live, plan))
    ensures Listed(Prepare(live, plan).value.files) <==> Retired(plan) != []
  {
    SelectionPresent(live, plan, revs);
    ChainIdsDistinct(revs);
    var m := Prepare(live, plan).value;
    ListedNames(m.files, live.Keys, Retired(plan));
    OrderFromNames(m.files, live.Keys, Retired(plan));
    forall r | r in m.files ensures r.size <= MAX_TOTAL && (r.name.Revision? ==> r.sha == r.name.id) {
      PreparedRecords(live, plan, revs, r);
    }
    hide RetirementOrder, ValidChain, Holds;
    assert m.files[|m.files| - 1] == RecordOf(Marker, live[Marker]) by {
      PreparedRecords(live, plan, revs, m.files[|m.files| - 1]);
    }
  }

  /** Before anything has moved, a fresh manifest agrees with its plan. */
  lemma PreparedAgrees(live: map<Name, File>, b: Batch, plan: Plan, revs: seq<Envelope>)
    requires Describes(Contents(live), plan, revs)
    requires forall n :: Archived(n) !in b
    ensures Prepare(live, plan).Some? && Agrees(live, b, Prepare(live, plan).value, plan)
  {
    hide IsChain, RetirementOrder, ManifestOk, Listed;
    PreparedReads(live, plan, revs);
    SelectionPresent(live, plan, revs);
    var m := Prepare(live, plan).value;
    hide Prepare;
    forall n | n in [ProfileTmp, MarkerTmp, RevisionTmp] && n in live ensures n in NamesOf(m.files) {
      OrderMembers(live.Keys, Retired(plan), n);
    }
    forall i | 0 <= i < |m.files|
      ensures AtSource(live, m.files[i]) && Match(live[m.files[i].name], m.files[i], false)
    {
      PreparedRecords(live, plan, revs, m.files[i]);
    }
  }

  // ----- how many entries a batch can have ----------------------------------

  lemma {:induction false} SetOfSeq<T>(s: seq<T>)
    ensures |(set x | x in s)| <= |s|
  {
    if s != [] {
      SetOfSeq(s[1..]);
      assert (set x | x in s) == {s[0]} + (set x | x in s[1..]);
    }
  }

  lemma {:induction false} ArchivedCount(b: Batch, names: set<Name>)
    requires forall e <- b :: e.Archived? && e.name in names
    ensures |b| <= |names|
    decreases |b|
  {
    if b != map[] {
      var e :| e in b;
      ArchivedCount(b - {e}, names - {e.name});
      assert (b - {e}).Keys == b.Keys - {e};
    }
  }

  lemma EntryCount(b: Batch, files: nat, names: set<Name>, fixed: set<Entry>)
    requires |names| <= files
    requires forall e <- b :: e in fixed || (e.Archived? && e.name in names)
    requires forall n :: Archived(n) !in fixed
    ensures |b| <= |fixed| + files
  {
    var kept := b.Keys * fixed;
    var moved := b - fixed;
    ArchivedCount(moved, names);
    SubsetSize(kept, fixed);
    assert b.Keys == kept + moved.Keys;
  }

  /** The entry limit of a batch is never what refuses it: a manifest that lists
      revisions has no candidate, and one that has a candidate is short. */
  lemma EntriesBounded(b: Batch, id: BatchId, hint: Hint)
    requires Load(b, id, hint) != Bad
    ensures |b| <= MAX_ENTRIES
  {
    if Load(b, id, hint).Holding? && b.Keys != {PlanTmp} {
      var m := Load(b, id, hint).manifest;
      var names := NameSet(NamesOf(m.files));
      SetOfSeq(NamesOf(m.files));
      if m.action == PublishCandidate {
        assert NamesOf(m.files) == RetirementOrder(names, []);
        hide Load, ManifestOk, CandidatesAllowed, RetirementOrder;
        assert |m.files| <= 4 by {
          OrderFromNames(m.files, names, []);
        }
        EntryCount(b, |m.files|, names, {PlanJson, PlanTmp, CandidateTmp, CandidatePublish});
      } else {
        assert CandidateTmp !in b && CandidatePublish !in b;
        hide Load, CandidatesAllowed, RetirementOrder;
        EntryCount(b, |m.files|, names, {PlanJson, PlanTmp});
      }
    }
  }
}
