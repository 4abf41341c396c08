/** The disks a restoration passes through, one per stage. */
module RestorationStages {
  import opened Common
  import opened ProfileDocuments
  import opened ProfileInspection
  import opened InspectionSteps
  import opened ArchiveState
  import opened RecoverySteps
  import opened PublicationCrash
  import opened RestorationCrash
  import opened StoreFiles
  import opened FileWriting
  import opened PublicationStages

  ghost predicate AtRestoreStage(d0: Disk, revs: seq<Envelope>, stage: RestoreStage, d: Disk) {
    && revs != [] && StageFits(revs, stage)
    && Contents(d.live) == RestoreListing(revs, stage)
    && d.root == d0.root && d0.clock <= d.clock
    && (Marker in d.live ==> d0.clock <= d.live[Marker].ino)
  }

  ghost predicate AnyRestoreStage(d0: Disk, revs: seq<Envelope>, d: Disk) {
    exists stage :: AtRestoreStage(d0, revs, stage, d)
  }

  ghost predicate OnlyRestoreStages(before: seq<Disk>, after: seq<Disk>, d0: Disk, revs: seq<Envelope>) {
    before <= after && forall i :: |before| <= i < |after| ==> AnyRestoreStage(d0, revs, after[i])
  }

  lemma OnlyRestoreStagesNothing(trace: seq<Disk>, d0: Disk, revs: seq<Envelope>)
    ensures OnlyRestoreStages(trace, trace, d0, revs)
  {
  }

  lemma OnlyRestoreStagesJoin(a: seq<Disk>, b: seq<Disk>, c: seq<Disk>, d0: Disk, revs: seq<Envelope>)
    requires OnlyRestoreStages(a, b, d0, revs) && OnlyRestoreStages(b, c, d0, revs)
    ensures OnlyRestoreStages(a, c, d0, revs)
  {
    hide AnyRestoreStage;
    forall i | |a| <= i < |c| ensures AnyRestoreStage(d0, revs, c[i]) {
      if i < |b| {
        assert c[i] == b[i];
      }
    }
  }

  /** Cloning one file into place takes one stage to the next through the
      stages in which its temporary is being written and the one in which both
      names exist. */
  ghost predicate Across(revs: seq<Envelope>, w: Writing, from: RestoreStage, linked: RestoreStage, to: RestoreStage,
                         writing: nat -> RestoreStage)
    requires revs != []
  {
    && w.Publication? && StageFits(revs, from) && StageFits(revs, linked) && StageFits(revs, to)
    && RestoreListing(revs, to) == RestoreListing(revs, from)[w.destination := w.content]
    && RestoreListing(revs, linked) == RestoreListing(revs, from)[w.name := w.content][w.destination := w.content]
    && forall n :: StageFits(revs, writing(n))
                   && RestoreListing(revs, writing(n)) == RestoreListing(revs, from)[w.name := Prefix(w.content, n)]
  }

  lemma AcrossStages(d0: Disk, revs: seq<Envelope>, w: Writing, from: RestoreStage, linked: RestoreStage,
                     to: RestoreStage, writing: nat -> RestoreStage, d1: Disk, d: Disk)
    requires revs != [] && Across(revs, w, from, linked, to, writing)
    requires AtRestoreStage(d0, revs, from, d1) && During(w, d1, d) && w.name != Marker
    ensures AnyRestoreStage(d0, revs, d)
    ensures Replaced(d1, w.destination, w.content, d) ==> AtRestoreStage(d0, revs, to, d)
  {
    hide RestoreListing, StageFits, Contents, Prefix;
    if Replaced(d1, w.destination, w.content, d) {
      var f :| FileWriting.Placed(d1, w.destination, w.content, d, f);
      ContentsWith(d1.live, w.destination, f);
      assert AtRestoreStage(d0, revs, to, d);
    } else if Unwritten(d1, d) {
      assert AtRestoreStage(d0, revs, from, d);
    } else if PartWritten(d1, w.name, w.content, d) {
      var n, f :| Staged(d1, w.name, w.content, d, n, f);
      ContentsWith(d1.live, w.name, f);
      assert AtRestoreStage(d0, revs, writing(n), d);
    } else {
      var t, f :| Linked(d1, w.name, w.destination, w.content, d, t, f);
      ContentsWith(d1.live, w.name, t);
      ContentsWith(d1.live[w.name := t], w.destination, f);
      assert AtRestoreStage(d0, revs, linked, d);
    }
  }

  lemma GainedAcross(t1: seq<Disk>, t2: seq<Disk>, d0: Disk, revs: seq<Envelope>, w: Writing, from: RestoreStage,
                     linked: RestoreStage, to: RestoreStage, writing: nat -> RestoreStage, d1: Disk, d: Disk)
    requires revs != [] && Across(revs, w, from, linked, to, writing)
    requires AtRestoreStage(d0, revs, from, d1) && w.name != Marker
    requires Gained(t1, t2, w, d1) && During(w, d1, d)
    ensures OnlyRestoreStages(t1, t2, d0, revs) && AnyRestoreStage(d0, revs, d)
    ensures Replaced(d1, w.destination, w.content, d) ==> AtRestoreStage(d0, revs, to, d)
  {
    hide Across, AtRestoreStage, AnyRestoreStage, During, Replaced;
    AcrossStages(d0, revs, w, from, linked, to, writing, d1, d);
    forall i | |t1| <= i < |t2| ensures AnyRestoreStage(d0, revs, t2[i]) {
      AcrossStages(d0, revs, w, from, linked, to, writing, d1, t2[i]);
    }
  }

  // ----- the three kinds of file --------------------------------------------

  lemma MarkerAcross(revs: seq<Envelope>)
    requires revs != []
    ensures Across(revs, Publication(MarkerTmp, Marker, RestoreMarker(revs)), Absent, RestoreMarkerLinked, Placed(0),
                   (n: nat) => RestoreMarkerWriting(n))
  {
    hide RestoreMarker, Prefix;
    var linked := RestoreListing(revs, RestoreMarkerLinked);
    assert linked == map[MarkerTmp := RestoreMarker(revs)][Marker := RestoreMarker(revs)];
  }

  lemma RevisionAcross(revs: seq<Envelope>, k: nat)
    requires k < |revs|
    ensures Across(revs, Publication(RevisionTmp, NameAt(revs, k), Sealed(revs[k])), Placed(k), RevisionLinked(k),
                   Placed(k + 1), (n: nat) => PlacingRevision(k, n))
  {
    hide RestoreMarker, Prefix;
    var h, marker, name, whole := History(revs, k), RestoreMarker(revs), NameAt(revs, k), Sealed(revs[k]);
    assert History(revs, k + 1) == h[name := whole];
    assert h[name := whole][Marker := marker] == h[Marker := marker][name := whole];
    assert h[name := whole][Marker := marker][RevisionTmp := whole] == h[Marker := marker][RevisionTmp := whole][name := whole];
  }

  lemma ProfileAcross(revs: seq<Envelope>)
    requires revs != []
    ensures Across(revs, Publication(ProfileTmp, Profile, Raw(After(revs))), Placed(|revs|), ProfileLinked, ProfilePlaced,
                   (n: nat) => PlacingProfile(n))
  {
    hide RestoreMarker, Prefix, History;
  }

  /** Between the revisions of a restoration no temporary is left, and the
      next revision's name is free. */
  lemma NextIsFree(d0: Disk, revs: seq<Envelope>, k: nat, d: Disk)
    requires AtRestoreStage(d0, revs, Placed(k), d)
    ensures RevisionTmp !in d.live && ProfileTmp !in d.live && Profile !in d.live
    ensures k < |revs| ==> NameAt(revs, k) !in d.live
  {
    hide RestoreMarker;
    HistoryHolds(revs, k);
    HistoryIsRevisions(revs, k);
    assert forall n :: n in d.live <==> n in Contents(d.live);
  }

  lemma StartsAbsent(d0: Disk, revs: seq<Envelope>)
    requires revs != [] && d0.live == map[]
    ensures AtRestoreStage(d0, revs, Absent, d0) && AnyRestoreStage(d0, revs, d0)
  {
    hide RestoreMarker;
    assert AtRestoreStage(d0, revs, Absent, d0);
  }
}
