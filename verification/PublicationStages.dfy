/** The disks a publication passes through, one per stage. */
module PublicationStages {
  import opened Common
  import opened ProfileDocuments
  import opened ProfileInspection
  import opened InspectionSteps
  import opened ArchiveState
  import opened RecoverySteps
  import opened RecoveryTheorems
  import opened PublicationCrash
  import opened StoreFiles
  import opened FileWriting

  ghost predicate AtStage(d0: Disk, revs: seq<Envelope>, e: Envelope, stage: Stage, d: Disk) {
    && Contents(d.live) == StageListing(Contents(d0.live), revs, e, stage)
    && StageReached(revs, e, stage)
    && d.root == d0.root && d0.clock <= d.clock
    && (Marker in d.live ==> d0.clock <= d.live[Marker].ino)
  }

  ghost predicate AnyStage(d0: Disk, revs: seq<Envelope>, e: Envelope, d: Disk) {
    exists stage :: AtStage(d0, revs, e, stage, d)
  }

  ghost predicate OnlyStages(before: seq<Disk>, after: seq<Disk>, d0: Disk, revs: seq<Envelope>, e: Envelope) {
    before <= after && forall i :: |before| <= i < |after| ==> AnyStage(d0, revs, e, after[i])
  }

  lemma OnlyStagesNothing(trace: seq<Disk>, d0: Disk, revs: seq<Envelope>, e: Envelope)
    ensures OnlyStages(trace, trace, d0, revs, e)
  {
  }

  lemma OnlyStagesJoin(a: seq<Disk>, b: seq<Disk>, c: seq<Disk>, d0: Disk, revs: seq<Envelope>, e: Envelope)
    requires OnlyStages(a, b, d0, revs, e) && OnlyStages(b, c, d0, revs, e)
    ensures OnlyStages(a, c, d0, revs, e)
  {
    hide AnyStage;
    forall i | |a| <= i < |c| ensures AnyStage(d0, revs, e, c[i]) {
      if i < |b| {
        assert c[i] == b[i];
      }
    }
  }

  lemma OnlyStagesOne(a: seq<Disk>, b: seq<Disk>, d0: Disk, revs: seq<Envelope>, e: Envelope, d: Disk)
    requires OnlyStages(a, b, d0, revs, e) && AnyStage(d0, revs, e, d)
    ensures OnlyStages(a, b + [d], d0, revs, e)
  {
    hide AnyStage;
  }

  lemma StartsAtStage(d0: Disk, revs: seq<Envelope>, e: Envelope)
    requires MayPublish(Contents(d0.live), revs, e)
    ensures AtStage(d0, revs, e, NotStarted, d0) && AnyStage(d0, revs, e, d0)
    ensures MarkerTmp !in d0.live && RevisionTmp !in d0.live && ProfileTmp !in d0.live && Marker !in d0.live
  {
    hide InspectState, IsChain, Parses, RegistryAccepted, MarkerFor;
    CleanHasNone(Contents(d0.live));
    assert Marker !in Contents(d0.live) && NoTemporaries(Contents(d0.live));
    hide MayPublish;
    assert AtStage(d0, revs, e, NotStarted, d0);
  }

  /** Between the files of a publication no temporary is left. */
  lemma NoneLeft(d0: Disk, revs: seq<Envelope>, e: Envelope, stage: Stage, d: Disk)
    requires MayPublish(Contents(d0.live), revs, e) && AtStage(d0, revs, e, stage, d)
    requires stage.NotStarted? || stage.MarkerSet? || stage.RevisionSet? || stage.ProfileSet?
    ensures MarkerTmp !in d.live && RevisionTmp !in d.live && ProfileTmp !in d.live
    ensures Size(Raw(e.registry)) <= MAX_TOTAL
  {
    hide InspectState, IsChain, Parses, MarkerFor;
    CleanHasNone(Contents(d0.live));
    assert NoTemporaries(Contents(d.live));
  }

  lemma NameIsNew(d0: Disk, revs: seq<Envelope>, e: Envelope)
    requires MayPublish(Contents(d0.live), revs, e)
    ensures NewName(revs, e) !in d0.live
  {
    hide InspectState, Parses, RegistryAccepted, ValidChain;
    assert NewName(revs, e) in d0.live ==> NewName(revs, e) in Contents(d0.live);
  }

  /** Replacing one file takes one stage to the next through the stages in
      which its temporary is being written. */
  ghost predicate Between(d0: Disk, revs: seq<Envelope>, e: Envelope, w: Writing, from: Stage, to: Stage,
                          writing: nat -> Stage) {
    var c := Contents(d0.live);
    && w.Replacement?
    && StageListing(c, revs, e, to) == StageListing(c, revs, e, from)[w.destination := w.content]
    && forall n :: StageListing(c, revs, e, writing(n)) == StageListing(c, revs, e, from)[w.name := Prefix(w.content, n)]
                   && StageReached(revs, e, writing(n))
  }

  lemma BetweenStages(d0: Disk, revs: seq<Envelope>, e: Envelope, w: Writing, from: Stage, to: Stage,
                      writing: nat -> Stage, d1: Disk, d: Disk)
    requires Between(d0, revs, e, w, from, to, writing) && AtStage(d0, revs, e, from, d1) && During(w, d1, d)
    requires StageReached(revs, e, to) && w.name != Marker
    ensures AnyStage(d0, revs, e, d)
    ensures Replaced(d1, w.destination, w.content, d) ==> AtStage(d0, revs, e, to, d)
  {
    hide StageListing, StageReached, Contents, Prefix;
    if Replaced(d1, w.destination, w.content, d) {
      var f :| Placed(d1, w.destination, w.content, d, f);
      ContentsWith(d1.live, w.destination, f);
      assert AtStage(d0, revs, e, to, d);
    } else if Unwritten(d1, d) {
      assert AtStage(d0, revs, e, from, d);
    } else {
      var n, f :| Staged(d1, w.name, w.content, d, n, f);
      ContentsWith(d1.live, w.name, f);
      assert AtStage(d0, revs, e, writing(n), d);
    }
  }

  lemma ContentsWith(live: map<Name, File>, n: Name, f: File)
    ensures Contents(live[n := f]) == Contents(live)[n := f.content]
  {
  }

  lemma GainedStages(t1: seq<Disk>, t2: seq<Disk>, d0: Disk, revs: seq<Envelope>, e: Envelope, w: Writing,
                     from: Stage, to: Stage, writing: nat -> Stage, d1: Disk, d: Disk)
    requires Between(d0, revs, e, w, from, to, writing) && AtStage(d0, revs, e, from, d1)
    requires StageReached(revs, e, to) && w.name != Marker
    requires Gained(t1, t2, w, d1) && During(w, d1, d)
    ensures OnlyStages(t1, t2, d0, revs, e) && AnyStage(d0, revs, e, d)
    ensures Replaced(d1, w.destination, w.content, d) ==> AtStage(d0, revs, e, to, d)
  {
    hide Between, AtStage, AnyStage, During, Replaced, StageReached;
    BetweenStages(d0, revs, e, w, from, to, writing, d1, d);
    forall i | |t1| <= i < |t2| ensures AnyStage(d0, revs, e, t2[i]) {
      BetweenStages(d0, revs, e, w, from, to, writing, d1, t2[i]);
    }
  }

  lemma MarkerStages(t1: seq<Disk>, t2: seq<Disk>, d0: Disk, revs: seq<Envelope>, e: Envelope, d1: Disk, d: Disk)
    requires AtStage(d0, revs, e, NotStarted, d1)
    requires Gained(t1, t2, Replacement(MarkerTmp, Marker, MarkerFor(revs, e)), d1)
    requires During(Replacement(MarkerTmp, Marker, MarkerFor(revs, e)), d1, d)
    requires Size(MarkerFor(revs, e)) > MAX_TOTAL ==> d == d1 && t2 == t1
    ensures OnlyStages(t1, t2, d0, revs, e) && AnyStage(d0, revs, e, d)
    ensures Replaced(d1, Marker, MarkerFor(revs, e), d) && Size(MarkerFor(revs, e)) <= MAX_TOTAL
            ==> AtStage(d0, revs, e, MarkerSet, d)
  {
    if Size(MarkerFor(revs, e)) <= MAX_TOTAL {
      GainedStages(t1, t2, d0, revs, e, Replacement(MarkerTmp, Marker, MarkerFor(revs, e)), NotStarted, MarkerSet,
                   (n: nat) => MarkerWriting(n), d1, d);
    }
  }

  lemma RevisionStages(t1: seq<Disk>, t2: seq<Disk>, d0: Disk, revs: seq<Envelope>, e: Envelope, d1: Disk, d: Disk)
    requires AtStage(d0, revs, e, MarkerSet, d1)
    requires Gained(t1, t2, Replacement(RevisionTmp, NewName(revs, e), Sealed(e)), d1)
    requires During(Replacement(RevisionTmp, NewName(revs, e), Sealed(e)), d1, d)
    requires Size(Sealed(e)) > MAX_TOTAL ==> d == d1 && t2 == t1
    ensures OnlyStages(t1, t2, d0, revs, e) && AnyStage(d0, revs, e, d)
    ensures Replaced(d1, NewName(revs, e), Sealed(e), d) && Size(Sealed(e)) <= MAX_TOTAL
            ==> AtStage(d0, revs, e, RevisionSet, d)
  {
    if Size(Sealed(e)) <= MAX_TOTAL {
      GainedStages(t1, t2, d0, revs, e, Replacement(RevisionTmp, NewName(revs, e), Sealed(e)), MarkerSet, RevisionSet,
                   (n: nat) => RevisionWriting(n), d1, d);
    }
  }

  lemma ProfileStages(t1: seq<Disk>, t2: seq<Disk>, d0: Disk, revs: seq<Envelope>, e: Envelope, d1: Disk, d: Disk)
    requires AtStage(d0, revs, e, RevisionSet, d1)
    requires Gained(t1, t2, Replacement(ProfileTmp, Profile, Raw(e.registry)), d1)
    requires During(Replacement(ProfileTmp, Profile, Raw(e.registry)), d1, d)
    ensures OnlyStages(t1, t2, d0, revs, e) && AnyStage(d0, revs, e, d)
    ensures Replaced(d1, Profile, Raw(e.registry), d) ==> AtStage(d0, revs, e, ProfileSet, d)
  {
    GainedStages(t1, t2, d0, revs, e, Replacement(ProfileTmp, Profile, Raw(e.registry)), RevisionSet, ProfileSet,
                 (n: nat) => ProfileWriting(n), d1, d);
  }

  lemma FinishedIsStage(d0: Disk, revs: seq<Envelope>, e: Envelope, d: Disk)
    requires AtStage(d0, revs, e, ProfileSet, d) && Stamped(d)
    ensures var d' := WithoutFile(d, Marker);
            AtStage(d0, revs, e, Finished, d') && AnyStage(d0, revs, e, d') && Stamped(d')
  {
    var d' := WithoutFile(d, Marker);
    assert Contents(d'.live) == Without(Contents(d.live), Marker);
    assert AtStage(d0, revs, e, Finished, d');
  }
}
