/** The writing side of the host-profile store: publishing a revision,
    restoring a snapshot, and recovering what an interrupted run left. */
module ProfileStore {
  import opened Common
  import opened ProfileDocuments
  import opened ProfileInspection
  import opened InspectionSteps
  import opened ArchiveState
  import opened RecoverySteps
  import opened RecoveryTheorems
  import opened PublicationCrash
  import opened StoreReader
  import opened StoreFiles
  import opened RecoveryArchive
  import opened FileWriting
  import opened PublicationStages
  import opened RestorationCrash
  import opened RestorationStages
  import opened SnapshotReader
  import opened CrashRecovery

  /** What publishing a revision asks: the directories before anything is
      written, every file as it is written, the directories before the marker
      goes. */
  const PUBLISHING: seq<Question> := [Anchor] + [ReadBack, ReadBack, ReadBack] + [Anchor]

  /** What a change asks: the directories once more when they are left. */
  const CHANGING: seq<Question> := [Session] + PUBLISHING + [Anchor]

  /** What cloning `n` files into place asks: the directories before each. */
  function Cloning(n: nat): seq<Question> { if n == 0 then [] else Cloning(n - 1) + [Anchor, ReadBack] }

  /** What restoring `n` revisions asks: the same of the marker and of the
      profile, and the directories again before the recovery that retires the
      marker, in it, and when they are left. */
  function Restoring(n: nat): seq<Question> {
    [Session] + ([Anchor, ReadBack] + Cloning(n) + [Anchor, ReadBack]) + [Anchor, Anchor, Anchor]
  }

  lemma AnsweredOne(a: seq<Answer>, b: seq<Answer>, c: seq<Answer>, first: seq<Question>, second: seq<Question>, both: seq<Question>)
    requires Answered(a, b, first) && Answered(b, c, second) && both == first + second
    ensures Answered(a, c, both)
  {
    AnsweredBoth(a, b, c, first, second);
  }

  lemma NothingAnswered(answers: seq<Answer>)
    ensures Answered(answers, answers, Cloning(0))
  {
  }

  lemma OneCloned(a: seq<Answer>, b: seq<Answer>, c: seq<Answer>, d: seq<Answer>, k: nat)
    requires Answered(a, b, Cloning(k)) && Answered(b, c, [Anchor]) && Answered(c, d, [ReadBack])
    ensures Answered(a, d, Cloning(k + 1))
  {
    hide Answered;
    AnsweredOne(b, c, d, [Anchor], [ReadBack], [Anchor, ReadBack]);
    AnsweredOne(a, b, d, Cloning(k), [Anchor, ReadBack], Cloning(k + 1));
  }

  lemma RestoredAsked(a: seq<Answer>, b: seq<Answer>, c: seq<Answer>, d: seq<Answer>, e: seq<Answer>, f: seq<Answer>, n: nat)
    requires Answered(a, b, [Session]) && Answered(b, c, [Anchor, ReadBack] + Cloning(n) + [Anchor, ReadBack])
    requires Answered(c, d, [Anchor]) && Answered(d, e, [Anchor]) && Answered(e, f, [Anchor])
    ensures Answered(a, f, Restoring(n))
  {
    hide Answered, Cloning;
    AnsweredBoth(a, b, c, [Session], [Anchor, ReadBack] + Cloning(n) + [Anchor, ReadBack]);
    AnsweredOne(c, d, e, [Anchor], [Anchor], [Anchor, Anchor]);
    AnsweredOne(c, e, f, [Anchor, Anchor], [Anchor], [Anchor, Anchor, Anchor]);
    AnsweredBoth(a, c, f, [Session] + ([Anchor, ReadBack] + Cloning(n) + [Anchor, ReadBack]), [Anchor, Anchor, Anchor]);
  }

  class Store {
    const files: Files

    constructor (files: Files)
      ensures this.files == files
    {
      this.files := files;
    }

    /** Creates a temporary and writes it, byte by byte as far as the system
        lets it. */
    method Write(temporary: Name, content: Content) returns (ok: bool)
      requires files.Valid() && temporary !in files.disk.live && temporary != Marker
      modifies files`disk, files`trace, files`refusals
      ensures files.Valid()
      ensures Gained(old(files.trace), files.trace, Temporary(temporary, content), old(files.disk))
      ensures During(Temporary(temporary, content), old(files.disk), files.disk)
      ensures ok ==> temporary in files.disk.live && files.disk.live[temporary].content == content
      ensures files.refusals >= old(files.refusals) && (ok <==> files.refusals == old(files.refusals))
    {
      ghost var w, d0 := Temporary(temporary, content), files.disk;
      GainedNothing(files.trace, w, d0);
      CreatedStages(d0, temporary, content);
      hide Prefix, Stamped, During, StagedAt, Gained;
      var written: nat := 0;
      ok := files.SystemCall(WithFile(files.disk, temporary, File(Prefix(content, 0), files.disk.clock, files.disk.clock)));
      if !ok {
        return;
      }
      GainedMore(old(files.trace), old(files.trace), w, d0, files.disk);
      while written < Size(content)
        invariant files.Valid() && Gained(old(files.trace), files.trace, w, d0)
        invariant StagedAt(d0, temporary, content, files.disk, written) && During(w, d0, files.disk)
        invariant ok && files.refusals == old(files.refusals)
        decreases Size(content) - written
      {
        var chunk: nat :| chunk >= 0;
        ExtendedStages(d0, temporary, content, files.disk, written, written + chunk + 1);
        var f := files.disk.live[temporary];
        ghost var prior := files.trace;
        ok := files.SystemCall(WithFile(files.disk, temporary,
                                        File(Prefix(content, written + chunk + 1), f.ino, files.disk.clock)));
        if !ok {
          return;
        }
        GainedMore(old(files.trace), prior, w, d0, files.disk);
        written := written + chunk + 1;
      }
      WrittenWhole(d0, temporary, content, files.disk, written);
    }

    /** Writes a temporary and renames it over the destination.  An exception
        unlinks the temporary where it can; a crash does not. */
    method Atomic(temporary: Name, destination: Name, content: Content) returns (ok: bool)
      requires files.Valid() && temporary != destination && temporary != Marker
      modifies files
      ensures files.Valid()
      ensures Gained(old(files.trace), files.trace, Replacement(temporary, destination, content), old(files.disk))
      ensures During(Replacement(temporary, destination, content), old(files.disk), files.disk)
      ensures Size(content) > MAX_TOTAL ==> files.disk == old(files.disk) && files.trace == old(files.trace)
      ensures ok ==> Replaced(old(files.disk), destination, content, files.disk)
      ensures files.refusals >= old(files.refusals)
      ensures ok <==> files.refusals == old(files.refusals) && Size(content) <= MAX_TOTAL && temporary !in old(files.disk).live
      ensures temporary !in old(files.disk).live && files.refusals <= old(files.refusals) + 1 ==> temporary !in files.disk.live
      ensures ok ==> Answered(old(files.answers), files.answers, [ReadBack])
    {
      ghost var w, d0 := Replacement(temporary, destination, content), files.disk;
      GainedNothing(files.trace, w, d0);
      hide During, Gained, Stamped, Replaced, Size;
      if Size(content) > MAX_TOTAL || temporary in files.disk.live {
        return false;
      }
      ok := Write(temporary, content);
      GainedAs(old(files.trace), files.trace, w, d0);
      TemporaryIs(d0, w, files.disk);
      ghost var prior := files.trace;
      if ok {
        RenamedPlaces(d0, temporary, destination, content, files.disk);
        ok := files.SystemCall(Renamed(files.disk, temporary, destination));
        if ok {
          GainedMore(old(files.trace), prior, w, d0, files.disk);
          var readBack := files.Check(ReadBack);
          return readBack && files.disk.live[destination].content == content;
        }
      }
      if temporary in files.disk.live {
        UnlinkedRestores(d0, w, files.disk);
        var removed := files.SystemCall(WithoutFile(files.disk, temporary));
        if removed {
          GainedMore(old(files.trace), prior, w, d0, files.disk);
        }
      }
    }

    /** Writes a temporary and clones it to a name that must be new; the
        temporary goes afterwards, or at once if anything failed. */
    method Immutable(temporary: Name, destination: Name, content: Content, limit: nat) returns (ok: bool)
      requires files.Valid() && temporary != destination && temporary != Marker
      modifies files
      ensures files.Valid()
      ensures Gained(old(files.trace), files.trace, Publication(temporary, destination, content), old(files.disk))
      ensures During(Publication(temporary, destination, content), old(files.disk), files.disk)
      ensures Size(content) > limit ==> files.disk == old(files.disk) && files.trace == old(files.trace)
      ensures ok ==> Replaced(old(files.disk), destination, content, files.disk)
      ensures files.refusals >= old(files.refusals)
      ensures ok <==> files.refusals == old(files.refusals) && Size(content) <= limit
                      && temporary !in old(files.disk).live && destination !in old(files.disk).live
      ensures temporary !in old(files.disk).live
              && files.refusals <= old(files.refusals) + (if destination in files.disk.live then 0 else 1) ==>
                temporary !in files.disk.live
      ensures ok ==> Answered(old(files.answers), files.answers, [ReadBack])
    {
      ghost var w, d0 := Publication(temporary, destination, content), files.disk;
      GainedNothing(files.trace, w, d0);
      hide During, Gained, Stamped, Replaced, Doubled, Size;
      if Size(content) > limit || temporary in files.disk.live {
        return false;
      }
      ok := Write(temporary, content);
      GainedAs(old(files.trace), files.trace, w, d0);
      TemporaryIs(d0, w, files.disk);
      OthersStay(d0, w, files.disk, destination);
      ghost var prior := files.trace;
      if ok && destination !in files.disk.live {
        ClonedDoubles(d0, temporary, destination, content, files.disk);
        ok := files.SystemCall(WithFile(files.disk, destination, File(content, files.disk.clock, files.disk.clock)));
        if ok {
          GainedMore(old(files.trace), prior, w, d0, files.disk);
          DoubledPlaces(d0, temporary, destination, content, files.disk);
          prior := files.trace;
          var readBack := files.Check(ReadBack);
          var removed := files.SystemCall(WithoutFile(files.disk, temporary));
          if removed {
            GainedMore(old(files.trace), prior, w, d0, files.disk);
          }
          return readBack && removed;
        }
      }
      ok := false;
      if temporary in files.disk.live {
        UnlinkedRestores(d0, w, files.disk);
        var removed := files.SystemCall(WithoutFile(files.disk, temporary));
        if removed {
          GainedMore(old(files.trace), prior, w, d0, files.disk);
        }
      }
    }

    /** Another check of the directories, which may raise. */
    method VerifyAnchor() returns (ok: bool)
      modifies files`refusals, files`answers
      ensures files.refusals == old(files.refusals) + (if ok then 0 else 1)
      ensures ok ==> Answered(old(files.answers), files.answers, [Anchor])
    {
      ok := files.Check(Anchor);
    }

    /** Asks git about the repository and opens the store's directories. */
    method OpenSession() returns (ok: bool)
      modifies files`refusals, files`answers
      ensures files.refusals == old(files.refusals) + (if ok then 0 else 1)
      ensures ok ==> Answered(old(files.answers), files.answers, [Session])
    {
      ok := files.Check(Session);
    }

    /** Writes the marker, the revision and the profile, in that order. */
    method PlaceFiles(revs: seq<Envelope>, e: Envelope) returns (ok: bool)
      requires files.Valid() && MayPublish(Contents(files.disk.live), revs, e)
      modifies files
      ensures files.Valid()
      ensures OnlyStages(old(files.trace), files.trace, old(files.disk), revs, e)
      ensures AnyStage(old(files.disk), revs, e, files.disk)
      ensures ok ==> AtStage(old(files.disk), revs, e, ProfileSet, files.disk)
      ensures files.refusals >= old(files.refusals)
      ensures ok <==> files.refusals == old(files.refusals) && Writable(revs, e)
      ensures ok ==> Answered(old(files.answers), files.answers, [ReadBack, ReadBack, ReadBack])
    {
      ghost var d0, t0 := files.disk, files.trace;
      StartsAtStage(d0, revs, e);
      hide MayPublish, AtStage, AnyStage, OnlyStages, During, Gained, Replaced, Stamped, MarkerFor, Size, NewName, Writable, Answered;
      NewNameIs(revs, e);
      ok := Atomic(MarkerTmp, Marker, MarkerFor(revs, e));
      MarkerStages(t0, files.trace, d0, revs, e, d0, files.disk);
      FitsWhole(revs, e);
      if !ok {
        return;
      }
      ghost var d2, t2, a2 := files.disk, files.trace, files.answers;
      NoneLeft(d0, revs, e, MarkerSet, d2);
      ok := Atomic(RevisionTmp, NewName(revs, e), Sealed(e));
      RevisionStages(t2, files.trace, d0, revs, e, d2, files.disk);
      OnlyStagesJoin(t0, t2, files.trace, d0, revs, e);
      if !ok {
        return;
      }
      ghost var d3, t3, a3 := files.disk, files.trace, files.answers;
      AnsweredOne(old(files.answers), a2, a3, [ReadBack], [ReadBack], [ReadBack, ReadBack]);
      NoneLeft(d0, revs, e, RevisionSet, d3);
      ok := Atomic(ProfileTmp, Profile, Raw(e.registry));
      if ok {
        AnsweredOne(old(files.answers), a3, files.answers, [ReadBack, ReadBack], [ReadBack], [ReadBack, ReadBack, ReadBack]);
      }
      ProfileStages(t3, files.trace, d0, revs, e, d3, files.disk);
      OnlyStagesJoin(t0, t3, files.trace, d0, revs, e);
    }

    /** Publishes one revision: marker, revision, profile, then the marker
        goes.  Whatever happens, every state on the way is a stage of this
        publication; unless the system refuses something or a file is too
        long to write, it finishes. */
    method Publish(revs: seq<Envelope>, e: Envelope) returns (ok: bool)
      requires files.Valid() && MayPublish(Contents(files.disk.live), revs, e)
      modifies files
      ensures files.Valid()
      ensures OnlyStages(old(files.trace), files.trace, old(files.disk), revs, e)
      ensures AnyStage(old(files.disk), revs, e, files.disk)
      ensures ok ==> AtStage(old(files.disk), revs, e, Finished, files.disk)
      ensures files.refusals >= old(files.refusals)
      ensures ok <==> files.refusals == old(files.refusals) && Writable(revs, e)
      ensures ok ==> Answered(old(files.answers), files.answers, PUBLISHING)
    {
      ghost var d0 := files.disk;
      StartsAtStage(d0, revs, e);
      NameIsNew(d0, revs, e);
      hide MayPublish, AtStage, AnyStage, OnlyStages, Stamped, NewName, Writable, Answered;
      OnlyStagesNothing(files.trace, d0, revs, e);
      if NewName(revs, e) in files.disk.live {
        return false;
      }
      ok := VerifyAnchor();
      if !ok {
        return;
      }
      ghost var a1 := files.answers;
      ok := PlaceFiles(revs, e);
      if !ok {
        return;
      }
      ghost var a2 := files.answers;
      AnsweredBoth(old(files.answers), a1, a2, [Anchor], [ReadBack, ReadBack, ReadBack]);
      ok := VerifyAnchor();
      if !ok {
        return;
      }
      AnsweredBoth(old(files.answers), a2, files.answers, [Anchor] + [ReadBack, ReadBack, ReadBack], [Anchor]);
      FinishedIsStage(d0, revs, e, files.disk);
      ghost var t4 := files.trace;
      ok := files.SystemCall(WithoutFile(files.disk, Marker));
      if ok {
        OnlyStagesOne(old(files.trace), t4, d0, revs, e, files.disk);
      }
    }

    /** Leaves the directories, which must still be the ones that were opened. */
    method Close(result: ChangeResult) returns (r: ChangeResult)
      modifies files`refusals, files`answers
      ensures files.refusals >= old(files.refusals)
      ensures r == if files.refusals == old(files.refusals) then result else Rejected
      ensures !r.Rejected? ==> Answered(old(files.answers), files.answers, [Anchor])
    {
      var ok := VerifyAnchor();
      r := if ok then result else Rejected;
    }

    /** Publishes a revision and leaves the directories. */
    method PublishAndClose(revs: seq<Envelope>, e: Envelope) returns (r: ChangeResult)
      requires files.Valid() && MayPublish(Contents(files.disk.live), revs, e)
      modifies files
      ensures files.Valid() && (r == Published(Id(e)) || r.Rejected?)
      ensures OnlyStages(old(files.trace), files.trace, old(files.disk), revs, e)
      ensures AnyStage(old(files.disk), revs, e, files.disk)
      ensures r.Published? ==> AtStage(old(files.disk), revs, e, Finished, files.disk)
      ensures files.refusals >= old(files.refusals)
      ensures r.Published? <==> files.refusals == old(files.refusals) && Writable(revs, e)
      ensures r.Published? ==> Answered(old(files.answers), files.answers, PUBLISHING + [Anchor])
    {
      hide MayPublish, AtStage, AnyStage, OnlyStages, Stamped, Writable, Answered, Contents;
      r := Rejected;
      var ok := Publish(revs, e);
      if ok {
        ghost var published := files.answers;
        r := Close(Published(Id(e)));
        if r.Published? {
          AnsweredBoth(old(files.answers), published, files.answers, PUBLISHING, [Anchor]);
        }
      }
    }

    /** Checks the operation, reads the current chain, and publishes one
        revision on it.  `started` says whether publication began, and then
        every state on the way is a stage of publishing `e` after `revs`.
        Where the system refuses nothing, it does exactly what was asked. */
    method Change(operation: Operation, appId: Option<string>, createdAt: string, expectedBefore: Bytes,
                  expectedAfter: Bytes, expectedRevisions: Option<seq<Envelope>>)
      returns (r: ChangeResult, ghost started: bool, ghost revs: seq<Envelope>, ghost e: Envelope)
      requires files.Valid()
      modifies files
      ensures files.Valid()
      ensures !started ==> files.disk == old(files.disk) && files.trace == old(files.trace) && !r.Published?
      ensures started ==> Inspect(old(files.disk)) == Clean && MayPublish(Contents(old(files.disk).live), revs, e)
      ensures started ==> OnlyStages(old(files.trace), files.trace, old(files.disk), revs, e)
                          && AnyStage(old(files.disk), revs, e, files.disk)
      ensures r.Published? ==> AtStage(old(files.disk), revs, e, Finished, files.disk)
                               && r.id == Id(e) && e.registry == expectedAfter && e.operation == operation
                               && Before(revs) == Some(expectedBefore)
      ensures started ==> e == Envelope(appId, createdAt, operation, Some(Sha256(Raw(expectedBefore))),
                                        Sha256(Raw(expectedAfter)), expectedAfter)
      ensures r.Unchanged? ==> expectedBefore == expectedAfter && Inspect(files.disk) == Clean
                               && At(Contents(files.disk.live), Profile) == Some(Raw(expectedBefore))
      ensures files.refusals >= old(files.refusals)
      ensures files.refusals == old(files.refusals) ==>
                var asked := AsPreviewed(old(files.disk), operation, appId, expectedBefore, expectedRevisions);
                && (r.Unchanged? <==> asked && expectedBefore == expectedAfter)
                && (started <==> asked && expectedBefore != expectedAfter
                                 && NewRevision(old(files.disk), operation, appId, createdAt, expectedBefore, expectedAfter))
                && (r.Published? <==> started && Writable(revs, e))
      ensures r.Unchanged? ==> Answered(old(files.answers), files.answers, [Session, Anchor])
      ensures r.Published? ==> Answered(old(files.answers), files.answers, CHANGING)
    {
      hide Inspect, MayPublish, AtStage, AnyStage, OnlyStages, Stamped, Parses, RegistryAccepted, Writable, Contents, NewRevision,
           IsChain, HistoryNames, IdGiven, MayChangeBy, Answered;
      r, started, revs, e := Rejected, false, [], Envelope(None, "", operation, None, 0, []);
      IdGivenIs(operation, appId);
      if !AppIdFits(operation, appId) {
        return;
      }
      var open := OpenSession();
      if !open {
        return;
      }
      ghost var entered := files.answers;
      var state := ReadDisk(files.disk);
      if state != Clean {
        return;
      }
      var c := Contents(files.disk.live);
      var chain := ReadChain(c, false);
      if chain.None? || chain.value == [] {
        NotAsked(files.disk, operation, appId, expectedBefore, expectedRevisions);
        return;
      }
      CleanChain(files.disk, chain.value);
      AskedIs(files.disk, operation, appId, expectedBefore, expectedRevisions, chain.value);
      NewIs(files.disk, operation, appId, createdAt, expectedBefore, expectedAfter, chain.value);
      hide AsPreviewed, NewRevision;
      revs := chain.value;
      if Before(chain.value) != Some(expectedBefore) {
        return;
      }
      if expectedRevisions.Some? && expectedRevisions.value != chain.value {
        return;
      }
      if expectedBefore == expectedAfter {
        r := Close(Unchanged);
        if r.Unchanged? {
          AnsweredOne(old(files.answers), entered, files.answers, [Session], [Anchor], [Session, Anchor]);
        }
        return;
      }
      var envelope := Stamp(operation, appId, createdAt, Some(expectedBefore), expectedAfter);
      ChangeParses(envelope, operation, appId, createdAt, expectedBefore, expectedAfter);
      if !RegistryAccepted(expectedAfter) || !Parses(envelope) || Id(envelope) in Ids(chain.value) {
        return;
      }
      e := envelope;
      started := true;
      MayChange(files.disk, chain.value, envelope);
      r := PublishAndClose(chain.value, envelope);
      if r.Published? {
        AnsweredOne(old(files.answers), entered, files.answers, [Session], PUBLISHING + [Anchor], CHANGING);
      }
    }

    /** Publishes the first revision of a store that has none. */
    method Initialise(registry: Bytes, createdAt: string) returns (r: ChangeResult, ghost started: bool, ghost e: Envelope)
      requires files.Valid()
      modifies files
      ensures files.Valid()
      ensures !started ==> files.disk == old(files.disk) && files.trace == old(files.trace) && !r.Published?
      ensures started ==> Inspect(old(files.disk)) == Clean && MayPublish(Contents(old(files.disk).live), [], e)
      ensures started ==> OnlyStages(old(files.trace), files.trace, old(files.disk), [], e)
                          && AnyStage(old(files.disk), [], e, files.disk)
      ensures r.Published? ==> AtStage(old(files.disk), [], e, Finished, files.disk)
                               && r.id == Id(e)
      ensures started ==> e == Envelope(None, createdAt, Initialisation, None, Sha256(Raw(registry)), registry)
      ensures files.refusals >= old(files.refusals)
      ensures files.refusals == old(files.refusals) ==>
                && (started <==> Inspect(old(files.disk)) == Clean && old(files.disk).live == map[]
                                 && RegistryAccepted(registry) && TimestampParses(createdAt))
                && (r.Published? <==> started && Writable([], e))
      ensures r.Published? ==> Answered(old(files.answers), files.answers, CHANGING)
    {
      var envelope := Stamp(Initialisation, None, createdAt, None, registry);
      e := envelope;
      r, started := Rejected, false;
      hide Inspect, MayPublish, AtStage, AnyStage, OnlyStages, Stamped, Parses, RegistryAccepted, Writable, Contents, Answered;
      FirstParses(envelope, registry, createdAt);
      var open := OpenSession();
      if !open {
        return;
      }
      ghost var entered := files.answers;
      NothingIs(files.disk);
      var state := ReadDisk(files.disk);
      if state != Clean || Profile in files.disk.live || HistoryNames(Contents(files.disk.live)) != {} {
        return;
      }
      if !RegistryAccepted(registry) || !Parses(envelope) {
        return;
      }
      CleanEmpty(files.disk);
      started := true;
      MayChange(files.disk, [], envelope);
      r := PublishAndClose([], envelope);
      if r.Published? {
        AnsweredOne(old(files.answers), entered, files.answers, [Session], PUBLISHING + [Anchor], CHANGING);
      }
    }

    /** Clones every revision of a snapshot into place, in order. */
    method PlaceRevisions(revs: seq<Envelope>, ghost d0: Disk) returns (ok: bool)
      requires files.Valid() && AtRestoreStage(d0, revs, RestoreStage.Placed(0), files.disk)
      modifies files
      ensures files.Valid() && OnlyRestoreStages(old(files.trace), files.trace, d0, revs)
      ensures AnyRestoreStage(d0, revs, files.disk)
      ensures ok ==> AtRestoreStage(d0, revs, RestoreStage.Placed(|revs|), files.disk)
      ensures files.refusals >= old(files.refusals)
      ensures ok <==> files.refusals == old(files.refusals) && forall i :: 0 <= i < |revs| ==> Size(Sealed(revs[i])) <= MAX_REVISION
      ensures ok ==> Answered(old(files.answers), files.answers, Cloning(|revs|))
    {
      hide AtRestoreStage, AnyRestoreStage, OnlyRestoreStages, During, Gained, Replaced, Stamped, Across, Size, NameAt, Answered, Cloning;
      OnlyRestoreStagesNothing(files.trace, d0, revs);
      IsRestoreStage(d0, revs, RestoreStage.Placed(0), files.disk);
      NothingAnswered(files.answers);
      var k := 0;
      while k < |revs|
        invariant k <= |revs| && files.Valid() && OnlyRestoreStages(old(files.trace), files.trace, d0, revs)
        invariant AtRestoreStage(d0, revs, RestoreStage.Placed(k), files.disk) && AnyRestoreStage(d0, revs, files.disk)
        invariant files.refusals == old(files.refusals) && forall i :: 0 <= i < k ==> Size(Sealed(revs[i])) <= MAX_REVISION
        invariant Answered(old(files.answers), files.answers, Cloning(k))
      {
        ghost var a0 := files.answers;
        ok := VerifyAnchor();
        if !ok {
          return;
        }
        ghost var d1, t1, a1 := files.disk, files.trace, files.answers;
        ghost var w := Publication(RevisionTmp, NameAt(revs, k), Sealed(revs[k]));
        RevisionNamed(revs, k);
        NextIsFree(d0, revs, k, d1);
        ok := Immutable(RevisionTmp, NameAt(revs, k), Sealed(revs[k]), MAX_REVISION);
        RevisionAcross(revs, k);
        GainedAcross(t1, files.trace, d0, revs, w, RestoreStage.Placed(k), RevisionLinked(k), RestoreStage.Placed(k + 1),
                     (n: nat) => PlacingRevision(k, n), d1, files.disk);
        OnlyRestoreStagesJoin(old(files.trace), t1, files.trace, d0, revs);
        if !ok {
          return;
        }
        OneCloned(old(files.answers), a0, a1, files.answers, k);
        k := k + 1;
      }
      ok := true;
    }

    /** Puts the marker, the revisions and the profile of a snapshot in place. */
    method PlaceSnapshot(revs: seq<Envelope>) returns (ok: bool)
      requires files.Valid() && revs != [] && files.disk.live == map[]
      modifies files
      ensures files.Valid() && OnlyRestoreStages(old(files.trace), files.trace, old(files.disk), revs)
      ensures AnyRestoreStage(old(files.disk), revs, files.disk)
      ensures ok ==> AtRestoreStage(old(files.disk), revs, ProfilePlaced, files.disk)
      ensures files.refusals >= old(files.refusals)
      ensures ok <==> files.refusals == old(files.refusals) && SnapshotWritable(revs)
      ensures ok ==> Answered(old(files.answers), files.answers, [Anchor, ReadBack] + Cloning(|revs|) + [Anchor, ReadBack])
    {
      hide AtRestoreStage, AnyRestoreStage, OnlyRestoreStages, During, Gained, Replaced, Stamped, Across, Size,
           RestoreMarker, After, Answered, Cloning;
      ghost var d0, t0 := files.disk, files.trace;
      StartsAbsent(d0, revs);
      OnlyRestoreStagesNothing(files.trace, d0, revs);
      ok := VerifyAnchor();
      if !ok {
        return;
      }
      ghost var a0 := files.answers;
      ok := Immutable(MarkerTmp, Marker, RestoreMarker(revs), MAX_RESTORE_MARKER);
      MarkerAcross(revs);
      GainedAcross(t0, files.trace, d0, revs, Publication(MarkerTmp, Marker, RestoreMarker(revs)), Absent,
                   RestoreMarkerLinked, RestoreStage.Placed(0), (n: nat) => RestoreMarkerWriting(n), d0, files.disk);
      if !ok {
        return;
      }
      ghost var t1, a1 := files.trace, files.answers;
      AnsweredOne(old(files.answers), a0, a1, [Anchor], [ReadBack], [Anchor, ReadBack]);
      ok := PlaceRevisions(revs, d0);
      OnlyRestoreStagesJoin(t0, t1, files.trace, d0, revs);
      if !ok {
        return;
      }
      ghost var a2 := files.answers;
      AnsweredBoth(old(files.answers), a1, a2, [Anchor, ReadBack], Cloning(|revs|));
      ok := VerifyAnchor();
      if !ok {
        return;
      }
      ghost var d2, t2, a3 := files.disk, files.trace, files.answers;
      NextIsFree(d0, revs, |revs|, d2);
      ok := Immutable(ProfileTmp, Profile, Raw(After(revs)), MAX_PROFILE);
      ProfileAcross(revs);
      GainedAcross(t2, files.trace, d0, revs, Publication(ProfileTmp, Profile, Raw(After(revs))),
                   RestoreStage.Placed(|revs|), ProfileLinked, ProfilePlaced, (n: nat) => PlacingProfile(n), d2, files.disk);
      OnlyRestoreStagesJoin(t0, t2, files.trace, d0, revs);
      if ok {
        AnsweredOne(a2, a3, files.answers, [Anchor], [ReadBack], [Anchor, ReadBack]);
        AnsweredBoth(old(files.answers), a2, files.answers, [Anchor, ReadBack] + Cloning(|revs|), [Anchor, ReadBack]);
      }
    }

    /** Restores a snapshot into a store that has none.  `placed` says whether
        every file was put in place, after which the marker is retired as a
        recovery would retire it; before that every state on the way is a stage
        of this restoration. */
    method RestoreSnapshot(revs: seq<Envelope>, profile: Bytes)
      returns (ok: bool, ghost started: bool, ghost placed: seq<Disk>, ghost m: Content)
      requires files.Valid()
      modifies files
      ensures files.Valid() && old(files.trace) <= placed <= files.trace
      ensures !started ==> !ok && files.disk == old(files.disk) && files.trace == old(files.trace)
      ensures started ==> Inspect(old(files.disk)) == Clean && old(files.disk).live == map[] && SnapshotOk(revs, profile)
      ensures started ==> OnlyRestoreStages(old(files.trace), placed, old(files.disk), revs)
      ensures started && files.trace != placed ==>
                && placed != [] && AtRestoreStage(old(files.disk), revs, ProfilePlaced, placed[|placed| - 1])
                && FinishOffered(placed[|placed| - 1], revs, m)
                && (FinishFits(placed[|placed| - 1], revs, m) ==> RunSince(files.trace, |placed|))
      ensures ok ==> Inspect(files.disk) == Clean && Contents(files.disk.live) == RestoreEnd(revs, ProfilePlaced)
      ensures files.refusals >= old(files.refusals)
      ensures files.refusals == old(files.refusals) ==>
                (started <==> SnapshotOk(revs, profile) && Inspect(old(files.disk)) == Clean && old(files.disk).live == map[])
      ensures files.refusals == old(files.refusals) && started ==>
                && placed != [] && FinishOffered(placed[|placed| - 1], revs, m)
                && (ok <==> FinishFits(placed[|placed| - 1], revs, m))
      ensures ok ==> Answered(old(files.answers), files.answers, Restoring(|revs|))
    {
      hide AtRestoreStage, AnyRestoreStage, OnlyRestoreStages, Inspect, SnapshotOk, Size, RestoreMarker, RunSince,
           RestoreEnd, Outcome, Offered, Fits, Stamped, FinishOffered, FinishFits, ListsHistory, HonestCandidate,
           SnapshotWritable, Contents, Answered, Restoring, Cloning;
      started, placed, m := false, files.trace, Raw(profile);
      ok := CheckSnapshot(revs, profile);
      if !ok {
        return;
      }
      CheckedSome(revs, profile);
      SnapshotIsWritable(revs, profile);
      NothingIs(files.disk);
      ok := OpenSession();
      if !ok {
        return;
      }
      ghost var a0 := files.answers;
      var state := ReadDisk(files.disk);
      if state != Clean || Profile in files.disk.live || HistoryNames(Contents(files.disk.live)) != {} {
        return false, started, placed, m;
      }
      ghost var d0 := files.disk;
      NothingThere(d0);
      started := true;
      ok := PlaceSnapshot(revs);
      placed := files.trace;
      TraceKept(old(files.trace), files.trace, d0, revs);
      if !ok {
        return;
      }
      ghost var finish := PlacedIs(d0, revs, profile, files.disk);
      ghost var a1 := files.answers;
      ok := VerifyAnchor();
      if !ok {
        return;
      }
      ghost var a2 := files.answers;
      state := ReadDisk(files.disk);
      if !state.Pending? || state.plan.action != ClearMarker {
        return false, started, placed, m;
      }
      var archive := new Archive(files);
      ok, m := archive.Apply(state.plan);
      RunsForward(state.plan, m);
      FinishIs(placed[|placed| - 1], revs, m);
      if ok {
        ghost var a3 := files.answers;
        ok := VerifyAnchor();
        if ok {
          RestoredAsked(old(files.answers), a0, a1, a2, a3, files.answers, |revs|);
        }
      }
    }

    /** Carries out a recovery that was previewed, if the disk still calls for
        exactly that one. */
    method Recover(expected: Plan) returns (ok: bool, ghost m: Content)
      requires files.Valid()
      modifies files
      ensures files.Valid() && old(files.trace) <= files.trace
      ensures Inspect(old(files.disk)) != Pending(expected) ==> !ok && files.disk == old(files.disk)
      ensures ok ==> Inspect(files.disk) == Clean
                     && Contents(files.disk.live) == Outcome(Contents(old(files.disk).live), expected)
      ensures files.refusals >= old(files.refusals)
      ensures Inspect(old(files.disk)) == Pending(expected) && files.refusals == old(files.refusals) ==>
                && Offered(old(files.disk), expected, m) && Marker in old(files.disk).live && m.Manifest?
                && (ok <==> Fits(old(files.disk), expected, m) && ListsHistory(expected, m)
                            && HonestCandidate(old(files.disk), expected))
      ensures ok ==> Answered(old(files.answers), files.answers, [Session, Anchor, Anchor, Anchor])
    {
      hide Inspect, Outcome, Offered, Fits, ListsHistory, Contents, HonestCandidate, Answered;
      m := expected.marker;
      ok := OpenSession();
      if !ok {
        return;
      }
      ghost var a0 := files.answers;
      var actual := ReadDisk(files.disk);
      if actual != Pending(expected) {
        return false, m;
      }
      ok := VerifyAnchor();
      if !ok {
        return;
      }
      ghost var a1 := files.answers;
      var archive := new Archive(files);
      ok, m := archive.Apply(expected);
      if ok {
        ghost var a2 := files.answers;
        ok := VerifyAnchor();
        if ok {
          AnsweredOne(old(files.answers), a0, a1, [Session], [Anchor], [Session, Anchor]);
          AnsweredOne(old(files.answers), a1, a2, [Session, Anchor], [Anchor], [Session, Anchor, Anchor]);
          AnsweredOne(old(files.answers), a2, files.answers, [Session, Anchor, Anchor], [Anchor], [Session, Anchor, Anchor, Anchor]);
        }
      }
    }
  }

  predicate AppIdFits(operation: Operation, appId: Option<string>) {
    if operation == BackupRestoration then appId.None? else appId.Some? && ValidAppId(appId.value)
  }

  const LETTERS: string := "abcdefghijklmnopqrstuvwxyz"
  const DIGITS: string := "0123456789"

  /** `[a-z][a-z0-9-]*` */
  predicate AppIdPattern(id: string) {
    |id| > 0 && id[0] in LETTERS && forall i :: 0 < i < |id| ==> id[i] in LETTERS || id[i] in DIGITS || id[i] == '-'
  }

  /** Only a restored backup is of no application. */
  predicate IdGiven(operation: Operation, appId: Option<string>) {
    match appId
    case None => operation.BackupRestoration?
    case Some(id) => !operation.BackupRestoration? && AppIdPattern(id)
  }

  /** What a store that has a profile may be changed by: a restored backup, or a
      registration, a migration or its restoration of a named application. */
  predicate MayChangeBy(operation: Operation, appId: Option<string>, createdAt: string) {
    && TimestampParses(createdAt)
    && match appId
       case None => operation == BackupRestoration
       case Some(id) => AppIdPattern(id) && operation in {Registration, ServiceCommandMigration, ServiceCommandRestoration,
                                                          PublicBasePathMigration, PublicBasePathRestoration}
  }

  lemma LetterIs(c: char)
    ensures c in LETTERS <==> 'a' <= c <= 'z'
  {
    if 'a' <= c <= 'z' {
      assert LETTERS[c as int - 'a' as int] == c;
    }
  }

  lemma DigitIs(c: char)
    ensures c in DIGITS <==> '0' <= c <= '9'
  {
    if '0' <= c <= '9' {
      assert DIGITS[c as int - '0' as int] == c;
    }
  }

  lemma PatternIs(id: string)
    ensures ValidAppId(id) <==> AppIdPattern(id)
  {
    forall i | 0 <= i < |id|
      ensures id[i] in LETTERS <==> 'a' <= id[i] <= 'z'
      ensures id[i] in DIGITS <==> '0' <= id[i] <= '9'
    {
      LetterIs(id[i]);
      DigitIs(id[i]);
    }
  }

  lemma IdGivenIs(operation: Operation, appId: Option<string>)
    ensures AppIdFits(operation, appId) <==> IdGiven(operation, appId)
  {
    hide ValidAppId, AppIdPattern;
    if appId.Some? {
      PatternIs(appId.value);
    }
  }

  /** Which envelopes parse: the first of a store, of no application, and those
      of what a store may be changed by. */
  lemma EnvelopeParses(e: Envelope)
    ensures Parses(e) <==>
            && e.current == Sha256(Raw(e.registry))
            && match e.previous
               case None => TimestampParses(e.createdAt) && e.operation == Initialisation && e.appId.None?
               case Some(_) => MayChangeBy(e.operation, e.appId, e.createdAt)
  {
    hide ValidAppId, AppIdPattern;
    if e.appId.Some? {
      PatternIs(e.appId.value);
    }
  }

  /** Which changes make a revision that parses. */
  lemma ChangeParses(e: Envelope, operation: Operation, appId: Option<string>, createdAt: string, before: Bytes, after: Bytes)
    requires e == Stamp(operation, appId, createdAt, Some(before), after)
    ensures Parses(e) <==> MayChangeBy(operation, appId, createdAt)
  {
    hide MayChangeBy, Parses;
    EnvelopeParses(e);
  }

  /** The envelope of a change. */
  function Stamp(operation: Operation, appId: Option<string>, createdAt: string, before: Option<Bytes>, after: Bytes): Envelope {
    Envelope(appId, createdAt, operation, ShaOf(before), Sha256(Raw(after)), after)
  }

  /** The store is clean and holds what the caller's preview saw. */
  ghost predicate AsPreviewed(d: Disk, operation: Operation, appId: Option<string>, before: Bytes,
                              expected: Option<seq<Envelope>>) {
    && IdGiven(operation, appId) && Inspect(d) == Clean
    && exists revs :: IsChain(Contents(d.live), revs, false) && Before(revs) == Some(before)
                      && (expected.Some? ==> expected.value == revs)
  }

  /** The change makes a revision the store may take and does not hold. */
  ghost predicate NewRevision(d: Disk, operation: Operation, appId: Option<string>, createdAt: string, before: Bytes,
                              after: Bytes) {
    var e := Stamp(operation, appId, createdAt, Some(before), after);
    && RegistryAccepted(after) && MayChangeBy(operation, appId, createdAt)
    && forall revs :: IsChain(Contents(d.live), revs, false) ==> Id(e) !in Ids(revs)
  }

  lemma FirstParses(e: Envelope, registry: Bytes, createdAt: string)
    requires e == Stamp(Initialisation, None, createdAt, None, registry)
    ensures Parses(e) <==> TimestampParses(createdAt)
  {
  }

  lemma NothingIs(d: Disk)
    ensures Inspect(d) == Clean && Profile !in d.live && HistoryNames(Contents(d.live)) == {} <==>
            Inspect(d) == Clean && d.live == map[]
  {
    if Inspect(d) == Clean && Profile !in d.live && HistoryNames(Contents(d.live)) == {} {
      NothingThere(d);
    } else {
      hide Inspect;
    }
  }

  /** What the change asks for, read off the chain. */
  lemma AskedIs(d: Disk, operation: Operation, appId: Option<string>, before: Bytes, expected: Option<seq<Envelope>>,
                revs: seq<Envelope>)
    requires Inspect(d) == Clean && ChainOf(Contents(d.live), false) == Some(revs) && IdGiven(operation, appId)
    ensures AsPreviewed(d, operation, appId, before, expected) <==>
            Before(revs) == Some(before) && (expected.Some? ==> expected.value == revs)
  {
    hide Inspect, ValidChain;
    CleanChain(d, revs);
    forall other | IsChain(Contents(d.live), other, false) ensures other == revs {
      HeldOnce(Contents(d.live), other, revs);
    }
  }

  lemma NotAsked(d: Disk, operation: Operation, appId: Option<string>, before: Bytes, expected: Option<seq<Envelope>>)
    requires ChainOf(Contents(d.live), false).None? || ChainOf(Contents(d.live), false) == Some([])
    ensures !AsPreviewed(d, operation, appId, before, expected)
  {
    hide Inspect, ValidChain;
    if revs :| IsChain(Contents(d.live), revs, false) && Before(revs) == Some(before) {
      ChainIs(Contents(d.live), revs, false);
    }
  }

  lemma NewIs(d: Disk, operation: Operation, appId: Option<string>, createdAt: string, before: Bytes, after: Bytes,
              revs: seq<Envelope>)
    requires Inspect(d) == Clean && ChainOf(Contents(d.live), false) == Some(revs)
    ensures var e := Stamp(operation, appId, createdAt, Some(before), after);
            NewRevision(d, operation, appId, createdAt, before, after) <==>
            RegistryAccepted(after) && MayChangeBy(operation, appId, createdAt) && Id(e) !in Ids(revs)
  {
    hide Inspect, ValidChain, MayChangeBy, RegistryAccepted;
    CleanChain(d, revs);
    forall other | IsChain(Contents(d.live), other, false) ensures other == revs {
      HeldOnce(Contents(d.live), other, revs);
    }
  }

  /** The marker and the revision are within the size `Atomic` writes. */
  predicate Writable(revs: seq<Envelope>, e: Envelope) {
    Size(MarkerFor(revs, e)) <= MAX_TOTAL && Size(Sealed(e)) <= MAX_TOTAL
  }

  datatype ChangeResult = Unchanged | Published(id: Digest) | Rejected

  lemma FitsWhole(revs: seq<Envelope>, e: Envelope)
    ensures Writable(revs, e) <==> Size(MarkerFor(revs, e)) <= MAX_TOTAL && Size(Sealed(e)) <= MAX_TOTAL
  {
  }

  lemma NewNameIs(revs: seq<Envelope>, e: Envelope)
    ensures NewName(revs, e).Revision?
  {
  }

  /** Every file of a snapshot is within the size `Immutable` writes. */
  predicate SnapshotWritable(revs: seq<Envelope>)
    requires revs != []
  {
    && Size(RestoreMarker(revs)) <= MAX_RESTORE_MARKER && Size(Raw(After(revs))) <= MAX_PROFILE
    && forall i :: 0 <= i < |revs| ==> Size(Sealed(revs[i])) <= MAX_REVISION
  }

  lemma SnapshotIsWritable(revs: seq<Envelope>, profile: Bytes)
    requires SnapshotOk(revs, profile)
    ensures revs != [] && SnapshotWritable(revs)
  {
    MarkerFits(revs, profile);
    hide RestoreMarker;
    forall i | 0 <= i < |revs| ensures Size(Sealed(revs[i])) <= MAX_REVISION {
      assert SnapshotLink(revs, i);
    }
  }

  lemma FinishIs(d: Disk, revs: seq<Envelope>, m: Content)
    requires revs != [] && Offered(d, RestorePlan(revs, ProfilePlaced), m) && Marker in d.live && m.Manifest?
    ensures FinishOffered(d, revs, m) && (FinishFits(d, revs, m) <==> Fits(d, RestorePlan(revs, ProfilePlaced), m))
  {
    hide Offered, Fits;
  }

  /** Finishing what is in place gives no history up and writes no candidate. */
  lemma RunsForward(plan: Plan, m: Content)
    requires m.Manifest?
    ensures plan.action == ClearMarker ==> ListsHistory(plan, m) && forall d :: HonestCandidate(d, plan)
  {
  }

  lemma CheckedSome(revs: seq<Envelope>, profile: Bytes)
    requires SnapshotOk(revs, profile)
    ensures revs != [] && profile == After(revs)
  {
  }

  lemma TraceKept(before: seq<Disk>, after: seq<Disk>, d0: Disk, revs: seq<Envelope>)
    requires OnlyRestoreStages(before, after, d0, revs)
    ensures before <= after
  {
    hide AnyRestoreStage;
  }

  /** What is left when every file of a snapshot is in place, and whether the
      archive has room for it. */
  ghost predicate FinishOffered(d: Disk, revs: seq<Envelope>, m: Content) {
    revs != [] && Offered(d, RestorePlan(revs, ProfilePlaced), m)
  }

  ghost predicate FinishFits(d: Disk, revs: seq<Envelope>, m: Content) {
    revs != [] && Marker in d.live && m.Manifest? && Fits(d, RestorePlan(revs, ProfilePlaced), m)
  }

  /** With every file in place, all that is left is to retire the marker. */
  lemma PlacedIs(d0: Disk, revs: seq<Envelope>, profile: Bytes, d: Disk) returns (plan: Plan)
    requires AtRestoreStage(d0, revs, ProfilePlaced, d)
    requires Inspect(d0) == Clean && Stamped(d0) && SnapshotOk(revs, profile)
    ensures revs != [] && plan == RestorePlan(revs, ProfilePlaced)
    ensures Inspect(d) == Pending(plan) && plan.action == ClearMarker
    ensures Outcome(Contents(d.live), plan) == RestoreEnd(revs, ProfilePlaced)
  {
    hide Inspect, SnapshotOk, RestoreListing, Outcome, RestoreMarker, AtRestoreStage, Stamped,
         Contents, RestoreEnd, Offered, Fits;
    CheckedAll(d0, revs, profile, d);
    plan := RestorePlan(revs, ProfilePlaced);
    RestoreStageInspected(d0, revs, profile, ProfilePlaced, d);
    RestoreOutcome(d0, revs, ProfilePlaced, d);
  }

  lemma CheckedAll(d0: Disk, revs: seq<Envelope>, profile: Bytes, d: Disk)
    requires AtRestoreStage(d0, revs, ProfilePlaced, d) && SnapshotOk(revs, profile)
    ensures revs != []
  {
    hide SnapshotOk, RestoreListing;
    CheckedSome(revs, profile);
  }

  lemma RevisionNamed(revs: seq<Envelope>, k: nat)
    requires k < |revs|
    ensures NameAt(revs, k).Revision?
  {
  }

  lemma IsRestoreStage(d0: Disk, revs: seq<Envelope>, stage: RestoreStage, d: Disk)
    requires AtRestoreStage(d0, revs, stage, d)
    ensures AnyRestoreStage(d0, revs, d)
  {
    hide AtRestoreStage;
  }

  /** A clean store without a profile or a history holds nothing at all. */
  lemma NothingThere(d: Disk)
    requires Inspect(d) == Clean && Profile !in d.live && HistoryNames(Contents(d.live)) == {}
    ensures d.live == map[]
  {
    hide ArchiveAccepts;
    var c := Contents(d.live);
    assert InspectState(c) == Clean;
    CleanHasNone(c);
    hide InspectState;
    forall n ensures n !in d.live {
      assert n in d.live ==> n in c;
      assert n in HistoryNames(c) <==> n in c && IsHistoryName(n);
    }
  }

  lemma CleanChain(d: Disk, revs: seq<Envelope>)
    requires Inspect(d) == Clean && ChainOf(Contents(d.live), false) == Some(revs)
    ensures InspectState(Contents(d.live)) == Clean && IsChain(Contents(d.live), revs, false)
    ensures At(Contents(d.live), Profile) == RawOf(Before(revs))
  {
    hide InspectState, ArchiveAccepts;
    assert InspectState(Contents(d.live)) == Clean;
    CleanProfile(Contents(d.live), revs);
  }

  lemma CleanEmpty(d: Disk)
    requires Inspect(d) == Clean && HistoryNames(Contents(d.live)) == {}
    ensures ChainOf(Contents(d.live), false) == Some([])
  {
    hide ArchiveAccepts;
    var c := Contents(d.live);
    assert InspectState(c) == Clean;
    CleanHasNone(c);
    hide InspectState;
    forall n | n in c ensures !IsHistoryName(n) {
      assert n !in HistoryNames(c);
    }
    assert Holds(c, []);
    ChainIs(c, [], false);
  }

  lemma MayChange(d: Disk, revs: seq<Envelope>, e: Envelope)
    requires Inspect(d) == Clean && ChainOf(Contents(d.live), false) == Some(revs)
    requires Parses(e) && RegistryAccepted(e.registry) && Id(e) !in Ids(revs)
    requires e.previous == ShaOf(Before(revs)) && Before(revs) != Some(e.registry)
    ensures MayPublish(Contents(d.live), revs, e)
  {
    CleanChain(d, revs);
    hide Inspect, InspectState, IsChain, Parses, RegistryAccepted;
    forall i | 0 <= i < |revs| ensures Id(revs[i]) != Id(e) {
      assert Ids(revs)[i] == Id(revs[i]);
    }
  }
}
