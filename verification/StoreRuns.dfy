/** What holds of the store over every run of its operations, each ended by
    returning, by an exception or by a crash. */
module StoreRuns {
  import opened Common
  import opened ProfileDocuments
  import opened ProfileInspection
  import opened InspectionSteps
  import opened ArchiveState
  import opened ManifestOrder
  import opened RecoverySteps
  import opened RecoveryProgress
  import opened RecoveryTheorems
  import opened RecoveryArchive
  import opened PublicationCrash
  import opened RestorationCrash
  import opened StoreFiles
  import opened PublicationStages
  import opened RestorationStages
  import opened CrashRecovery

  ghost predicate PublishesTo(d: Disk, d': Disk, revs: seq<Envelope>, e: Envelope, stage: Stage) {
    Inspect(d) == Clean && MayPublish(Contents(d.live), revs, e) && AtStage(d, revs, e, stage, d')
  }

  ghost predicate RestoresTo(d: Disk, d': Disk, revs: seq<Envelope>, profile: Bytes, stage: RestoreStage) {
    && Inspect(d) == Clean && d.live == map[] && revs != [] && StageFits(revs, stage)
    && SnapshotOk(revs, profile) && AtRestoreStage(d, revs, stage, d')
  }

  /** A publication that got as far as some stage and stopped. */
  ghost predicate PublicationCall(d: Disk, d': Disk) { exists revs, e, stage :: PublishesTo(d, d', revs, e, stage) }

  /** A restoration that got as far as some stage and stopped. */
  ghost predicate RestorationCall(d: Disk, d': Disk) {
    exists revs, profile, stage :: RestoresTo(d, d', revs, profile, stage)
  }

  /** One operation, one step of a recovery, or one directory made for a
      recovery the archive turns out to have no room for. */
  ghost predicate StoreStep(d: Disk, d': Disk) {
    && Stamped(d) && Stamped(d')
    && (PublicationCall(d, d') || RestorationCall(d, d') || RecoveryStep(d, d') || DirectoryStep(d, d'))
  }

  ghost predicate IsStoreRun(ds: seq<Disk>) {
    ds != [] && forall i :: 0 <= i < |ds| - 1 ==> StoreStep(ds[i], ds[i + 1])
  }

  /** The store's chain is there and continues `base`. */
  ghost predicate HasHistory(c: Listing, base: seq<Envelope>) {
    InspectState(c) == Clean && exists revs :: IsChain(c, revs, false) && base <= revs
  }

  ghost predicate Recovering(d: Disk, plan: Plan, m: Content, base: seq<Envelope>) {
    && Marker in d.live && m.Manifest? && Offered(d, plan, m) && ListsHistory(plan, m) && HonestCandidate(d, plan)
    && HasHistory(Outcome(Contents(d.live), plan), base)
  }

  /** Clean, with a chain that continues `base`, or recoverable to that. */
  ghost predicate Healthy(d: Disk, base: seq<Envelope>) {
    || (Inspect(d) == Clean && HasHistory(Contents(d.live), base))
    || (exists plan, m :: Recovering(d, plan, m, base))
  }

  /** The stops inspection refuses, as the two classifications describe them. */
  ghost predicate RefusedStop(d: Disk, d': Disk) {
    || (exists revs, e, stage :: PublishesTo(d, d', revs, e, stage) && StageRefused(revs, e, stage))
    || (exists revs, profile, stage :: RestoresTo(d, d', revs, profile, stage) && RestoreRefused(revs, stage))
  }

  // ----- what a clean store holds -------------------------------------------

  /** What clean means: numbered, linked and unique revisions, the first and
      only the first an initialisation, the profile equal to the last, and
      nothing left over. */
  lemma CleanMeans(d: Disk) returns (revs: seq<Envelope>)
    requires Inspect(d) == Clean
    ensures IsChain(Contents(d.live), revs, false) && At(Contents(d.live), Profile) == Tip(revs)
    ensures NoTemporaries(Contents(d.live)) && Marker !in d.live
    ensures forall i :: 0 <= i < |revs| ==> (revs[i].operation == Initialisation <==> i == 0)
  {
    hide ArchiveAccepts, ValidChain, Holds;
    var c := Contents(d.live);
    assert InspectState(c) == Clean;
    CleanHasNone(c);
    revs := ChainOf(c, false).value;
    hide InspectState;
    InitialisedFirst(revs);
  }

  lemma InitialisedFirst(revs: seq<Envelope>)
    requires ValidChain(revs)
    ensures forall i :: 0 <= i < |revs| ==> (revs[i].operation == Initialisation <==> i == 0)
  {
    hide RegistryAccepted, TotalSize, UniqueIds;
    forall i | 0 <= i < |revs| ensures revs[i].operation == Initialisation <==> i == 0 {
      assert ValidLink(revs, i);
    }
  }

  lemma CleanHistory(c: Listing)
    requires InspectState(c) == Clean
    ensures HasHistory(c, [])
  {
    hide IsChain, ClassifyClean;
    CleanHasNone(c);
    var revs := ChainOf(c, false).value;
    hide InspectState;
    assert IsChain(c, revs, false) && [] <= revs;
  }

  lemma OneChain(c: Listing, a: seq<Envelope>, b: seq<Envelope>)
    requires IsChain(c, a, false) && IsChain(c, b, false)
    ensures a == b
  {
    hide ValidChain, Holds;
    HeldOnce(c, a, b);
  }

  // ----- one operation ------------------------------------------------------

  /** A whole publication extends the chain by exactly the new revision. */
  lemma CommittedHistory(c: Listing, revs: seq<Envelope>, e: Envelope, base: seq<Envelope>)
    requires MayPublish(c, revs, e) && HasHistory(c, base) && Capacity(revs, e)
    ensures HasHistory(Committed(c, revs, e), base)
  {
    hide IsChain, Capacity, StageListing, Parses, RegistryAccepted;
    FinishedStage(c, revs, e);
    StageChain(c, revs, e, Finished);
    var s := Committed(c, revs, e);
    assert Marker !in s by { CommittedUnmarked(c, revs, e); }
    hide InspectState;
    var old_ :| IsChain(c, old_, false) && base <= old_;
    OneChain(c, revs, old_);
    assert IsChain(s, revs + [e], false) && base <= revs + [e];
  }

  lemma CommittedUnmarked(c: Listing, revs: seq<Envelope>, e: Envelope)
    ensures Marker !in Committed(c, revs, e)
  {
    hide MarkerFor;
  }

  /** Where a publication stops, other than finished or not begun. */
  lemma PublicationStops(d: Disk, d': Disk, revs: seq<Envelope>, e: Envelope, stage: Stage, base: seq<Envelope>)
    requires PublishesTo(d, d', revs, e, stage) && Stamped(d)
    requires HasHistory(Contents(d.live), base) && !StageRefused(revs, e, stage)
    ensures Healthy(d', base)
  {
    hide Inspect, MayPublish, AtStage, Stamped, HasHistory, Offered, StagePlan, Since, ListsHistory,
         HonestCandidate, Outcome, Fits, Sound, Committed, Recovering, StageRefused;
    var c := Contents(d.live);
    StageInspected(d, revs, e, stage, d');
    if Published(stage) {
      NotRefusedCapacity(revs, e, stage);
      CommittedHistory(c, revs, e, base);
    }
    if stage.NotStarted? || stage.Finished? {
      CommittedIs(d, revs, e, stage, d');
    } else {
      var plan := StagePlan(revs, e, stage);
      var m := FreshSound(d, d', plan);
      StageOutcome(d, revs, e, stage, d');
      IsRecovering(d', plan, m, base);
    }
  }

  lemma IsRecovering(d: Disk, plan: Plan, m: Content, base: seq<Envelope>)
    requires Marker in d.live && m.Manifest? && Offered(d, plan, m) && ListsHistory(plan, m) && HonestCandidate(d, plan)
    requires HasHistory(Outcome(Contents(d.live), plan), base)
    ensures Recovering(d, plan, m, base)
  {
    hide Offered, ListsHistory, HonestCandidate, HasHistory, Outcome;
  }

  lemma NotRefusedCapacity(revs: seq<Envelope>, e: Envelope, stage: Stage)
    requires !StageRefused(revs, e, stage) && Published(stage)
    ensures Capacity(revs, e)
  {
    hide Capacity;
  }

  lemma RestorationStops(d: Disk, d': Disk, revs: seq<Envelope>, profile: Bytes, stage: RestoreStage)
    requires revs != [] && StageFits(revs, stage) && !RestoreRefused(revs, stage)
    requires RestoresTo(d, d', revs, profile, stage) && Stamped(d)
    ensures Healthy(d', [])
  {
    hide Inspect, SnapshotOk, AtRestoreStage, Stamped, HasHistory, Offered, RestorePlan, Since, Marked,
         ListsHistory, HonestCandidate, Outcome, Fits, Sound, Recovering, RestoreRefused, RestoreEnd, RestoreListing,
         StageFits;
    RestoreStageInspected(d, revs, profile, stage, d');
    RestoreEndClean(revs, profile, stage);
    if Marked(stage) {
      var plan := RestorePlan(revs, stage);
      var m := FreshSound(d, d', plan);
      RestoreOutcome(d, revs, stage, d');
      IsRecovering(d', plan, m, []);
    } else {
      UnmarkedOutcome(d, revs, stage, d');
    }
  }

  lemma RestoreEndClean(revs: seq<Envelope>, profile: Bytes, stage: RestoreStage)
    requires SnapshotOk(revs, profile)
    ensures HasHistory(RestoreEnd(revs, stage), [])
  {
    hide SnapshotOk, InspectState, HasHistory, RestoreMarker;
    if RestoreEnd(revs, stage) == map[] {
      EmptyChain(map[]);
    } else {
      RestoreClassified(revs, profile, Restored);
    }
    CleanHistory(RestoreEnd(revs, stage));
  }

  // ----- one recovery step --------------------------------------------------

  /** The plan and the manifest are read off the disk. */
  lemma OfferedOnce(d: Disk, plan: Plan, m: Content, plan': Plan, m': Content)
    requires Offered(d, plan, m) && Recoverable(d, plan', m')
    ensures plan == plan' && m == m' && Recoverable(d, plan, m)
  {
    hide InspectState, Load, Prepare, ManifestOk, Agrees, OthersComplete, Fits;
  }

  lemma SoundOffered(d: Disk, plan: Plan, m: Content)
    requires Sound(d, plan, m)
    ensures Marker in d.live && m.Manifest? && Offered(d, plan, m) && ListsHistory(plan, m) && HonestCandidate(d, plan)
  {
    hide InspectState, WorksTo, ManifestOk, Agrees, OthersComplete, Fits, ListsHistory, HonestCandidate;
  }

  lemma RecoveryContinues(d: Disk, d': Disk, plan: Plan, m: Content, base: seq<Envelope>)
    requires Recovering(d, plan, m, base) && RecoveryStep(d, d')
    ensures Healthy(d', base)
  {
    hide Offered, Recoverable, ListsHistory, HonestCandidate, HasHistory, Outcome, Sound, Inspect, Advance;
    var p, n, chunk :| StepsBy(d, d', p, n, chunk);
    OfferedOnce(d, plan, m, p, n);
    IsSound(d, plan, m);
    StepLeads(d, d', plan, m);
    LeadsHealthy(d, d', plan, m, base);
  }

  /** A directory made for a recovery changes nothing that recovery needs. */
  lemma DirectoryContinues(d: Disk, d': Disk, plan: Plan, m: Content, base: seq<Envelope>)
    requires Recovering(d, plan, m, base) && DirectoryStep(d, d') && Stamped(d)
    ensures Healthy(d', base)
  {
    hide Offered, Fits, ListsHistory, HonestCandidate, HasHistory, Outcome, Stamped, Preparing;
    var p, n :| MakesDirectory(d, d', p, n);
    DirectoryOffered(d, d', plan, m, p, n);
    IsRecovering(d', plan, m, base);
  }

  lemma LeadsHealthy(d: Disk, d': Disk, plan: Plan, m: Content, base: seq<Envelope>)
    requires Leads(d, d', plan, m, Outcome(Contents(d.live), plan)) && HasHistory(Outcome(Contents(d.live), plan), base)
    ensures Healthy(d', base)
  {
    hide SoundAfter, HasHistory, Outcome, Recovering, Inspect;
    var outcome := Outcome(Contents(d.live), plan);
    if !(Inspect(d') == Clean && Contents(d'.live) == outcome) {
      var plan' :| SoundAfter(d, d', plan, plan', m, outcome);
      AfterParts(d, d', plan, plan', m, outcome);
      SoundOffered(d', plan', m);
      IsRecovering(d', plan', m, base);
    }
  }

  lemma AfterParts(d: Disk, d': Disk, plan: Plan, plan': Plan, m: Content, outcome: Listing)
    requires SoundAfter(d, d', plan, plan', m, outcome)
    ensures Sound(d', plan', m) && Outcome(Contents(d'.live), plan') == outcome
  {
    hide Sound, Outcome, Work;
  }

  // ----- whole runs ---------------------------------------------------------

  /** Every operation, however it ends, leaves a healthy store whose history
      continues the one before, or stops where the classifications say
      inspection refuses. */
  lemma StepHealthy(d: Disk, d': Disk, base: seq<Envelope>)
    requires Healthy(d, base) && StoreStep(d, d')
    ensures Healthy(d', base) || (Inspect(d') == Refused && RefusedStop(d, d'))
  {
    hide Recovering, HasHistory, PublishesTo, RestoresTo, RecoveryStep, DirectoryStep, Inspect, StageRefused, RestoreRefused, Stamped,
         StageFits;
    if PublicationCall(d, d') {
      var revs, e, stage :| PublishesTo(d, d', revs, e, stage);
      PublicationEnds(d, d', revs, e, stage, base);
    } else if RestorationCall(d, d') {
      var revs, profile, stage :| RestoresTo(d, d', revs, profile, stage);
      RestorationEnds(d, d', revs, profile, stage, base);
    } else if DirectoryStep(d, d') {
      DirectoryEnds(d, d', base);
    } else if Inspect(d) == Clean {
      CleanStops(d);
      StoppedHas(d, d');
    } else {
      var plan, m :| Recovering(d, plan, m, base);
      RecoveryContinues(d, d', plan, m, base);
    }
  }

  lemma DirectoryEnds(d: Disk, d': Disk, base: seq<Envelope>)
    requires Healthy(d, base) && DirectoryStep(d, d') && Stamped(d)
    ensures Healthy(d', base)
  {
    hide Recovering, HasHistory, Inspect, Stamped, Offered;
    var p, n :| MakesDirectory(d, d', p, n);
    OfferedInspects(d, p, n);
    var plan, m :| Recovering(d, plan, m, base);
    DirectoryContinues(d, d', plan, m, base);
  }

  lemma StoppedHas(d: Disk, d': Disk)
    requires Stopped(d)
    ensures !RecoveryStep(d, d')
  {
    hide RecoveryStep;
  }

  lemma CleanHealthy(d: Disk, base: seq<Envelope>)
    requires Healthy(d, base) && Inspect(d) == Clean
    ensures HasHistory(Contents(d.live), base)
  {
    hide HasHistory, Offered, ListsHistory, HonestCandidate, Outcome, Inspect;
    if !HasHistory(Contents(d.live), base) {
      var plan, m :| Recovering(d, plan, m, base);
      OfferedInspects(d, plan, m);
    }
  }

  lemma PublicationEnds(d: Disk, d': Disk, revs: seq<Envelope>, e: Envelope, stage: Stage, base: seq<Envelope>)
    requires PublishesTo(d, d', revs, e, stage) && Healthy(d, base) && Stamped(d)
    ensures Healthy(d', base) || (Inspect(d') == Refused && RefusedStop(d, d'))
  {
    hide Healthy, HasHistory, Inspect, StageRefused, Stamped, MayPublish, AtStage, Since, StagePlan,
         RestoresTo;
    CleanHealthy(d, base);
    if StageRefused(revs, e, stage) {
      StageInspected(d, revs, e, stage, d');
    } else {
      PublicationStops(d, d', revs, e, stage, base);
    }
  }

  lemma EmptyBase(c: Listing, base: seq<Envelope>)
    requires HasHistory(c, base) && c == map[]
    ensures base == []
  {
    hide InspectState, ValidChain;
    var revs :| IsChain(c, revs, false) && base <= revs;
    if revs != [] {
      SomethingHeld(c, revs);
    }
  }

  lemma SomethingHeld(c: Listing, revs: seq<Envelope>)
    requires IsChain(c, revs, false) && revs != []
    ensures c != map[]
  {
    hide ValidChain;
    assert NameAt(revs, 0) in c;
  }

  lemma RestorationEnds(d: Disk, d': Disk, revs: seq<Envelope>, profile: Bytes, stage: RestoreStage, base: seq<Envelope>)
    requires RestoresTo(d, d', revs, profile, stage) && Healthy(d, base) && Stamped(d)
    ensures Healthy(d', base) || (Inspect(d') == Refused && RefusedStop(d, d'))
  {
    hide Healthy, HasHistory, Inspect, RestoreRefused, Stamped, SnapshotOk, AtRestoreStage, Since,
         RestorePlan, PublishesTo, StageFits;
    CleanHealthy(d, base);
    EmptyBase(Contents(d.live), base);
    if RestoreRefused(revs, stage) {
      RestoreStageInspected(d, revs, profile, stage, d');
    } else {
      RestorationStops(d, d', revs, profile, stage);
    }
  }

  lemma RefusedEnds(d: Disk, d': Disk)
    requires Inspect(d) == Refused
    ensures !StoreStep(d, d')
  {
    hide Inspect, MayPublish, AtStage, SnapshotOk, AtRestoreStage, Recoverable, Stamped, Offered, HonestFor;
    if DirectoryStep(d, d') {
      var plan, m :| MakesDirectory(d, d', plan, m);
      OfferedInspects(d, plan, m);
    }
    if RecoveryStep(d, d') {
      var plan, m, chunk :| StepsBy(d, d', plan, m, chunk);
      RecoverableInspects(d, plan, m);
    }
  }

  /** Safety of the store over every run: each disk is healthy, its history a
      continuation of the first one's, save that a run may end at a stop that
      inspection refuses. */
  lemma {:induction false} RunHealthy(ds: seq<Disk>, base: seq<Envelope>)
    requires IsStoreRun(ds) && Healthy(ds[0], base)
    ensures forall i :: 0 <= i < |ds| - 1 ==> Healthy(ds[i], base)
    ensures var last := ds[|ds| - 1]; Healthy(last, base) || Inspect(last) == Refused
    decreases |ds|
  {
    hide Healthy, StoreStep, Inspect, RefusedStop;
    if |ds| > 1 {
      assert StoreStep(ds[0], ds[1]);
      StepHealthy(ds[0], ds[1], base);
      var rest := ds[1..];
      forall i | 0 <= i < |rest| - 1 ensures StoreStep(rest[i], rest[i + 1]) {
        assert StoreStep(ds[i + 1], ds[i + 2]);
      }
      if Healthy(ds[1], base) {
        RunHealthy(rest, base);
        forall i | 0 <= i < |ds| - 1 ensures Healthy(ds[i], base) {
          if i > 0 {
            assert ds[i] == rest[i - 1];
          }
        }
      } else if |rest| > 1 {
        assert StoreStep(rest[0], rest[1]);
        RefusedEnds(rest[0], rest[1]);
      }
    }
  }

  /** Histories are append-only: between any two clean disks of a run the
      earlier chain is a prefix of the later one. */
  lemma HistoryOnlyGrows(ds: seq<Disk>, a: seq<Envelope>, b: seq<Envelope>)
    requires IsStoreRun(ds)
    requires Inspect(ds[0]) == Clean && IsChain(Contents(ds[0].live), a, false)
    requires Inspect(ds[|ds| - 1]) == Clean && IsChain(Contents(ds[|ds| - 1].live), b, false)
    ensures a <= b
  {
    hide StoreStep, Inspect, IsChain, InspectState, Recovering;
    var first, last := ds[0], ds[|ds| - 1];
    StateClean(first);
    assert HasHistory(Contents(first.live), a);
    RunHealthy(ds, a);
    CleanHealthy(last, a);
    var revs :| IsChain(Contents(last.live), revs, false) && a <= revs;
    OneChain(Contents(last.live), revs, b);
  }

  lemma StateClean(d: Disk)
    requires Inspect(d) == Clean
    ensures InspectState(Contents(d.live)) == Clean
  {
    hide InspectState, ArchiveAccepts;
  }
}
