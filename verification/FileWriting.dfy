/** Putting one file in place through a temporary: what each call does, and
    everything a stop on the way can leave. */
module FileWriting {
  import opened Common
  import opened ProfileDocuments
  import opened ArchiveState
  import opened StoreFiles

  ghost predicate Staged(d0: Disk, temporary: Name, content: Content, d: Disk, written: nat, f: File) {
    && d.live == d0.live[temporary := f] && f.content == Prefix(content, written) && d0.clock <= f.ino < d.clock
  }

  ghost predicate Placed(d0: Disk, destination: Name, content: Content, d: Disk, f: File) {
    && d.live == d0.live[destination := f] && f.content == content && d0.clock <= f.ino < d.clock
  }

  ghost predicate Linked(d0: Disk, temporary: Name, destination: Name, content: Content, d: Disk, t: File, f: File) {
    && d.live == d0.live[temporary := t][destination := f] && t.content == f.content == content
    && d0.clock <= f.ino < d.clock
  }

  ghost predicate Unwritten(d0: Disk, d: Disk) { d.live == d0.live }

  ghost predicate PartWritten(d0: Disk, temporary: Name, content: Content, d: Disk) {
    exists n, f :: Staged(d0, temporary, content, d, n, f)
  }

  ghost predicate Replaced(d0: Disk, destination: Name, content: Content, d: Disk) {
    exists f :: Placed(d0, destination, content, d, f)
  }

  ghost predicate Doubled(d0: Disk, temporary: Name, destination: Name, content: Content, d: Disk) {
    exists t, f :: Linked(d0, temporary, destination, content, d, t, f)
  }

  /** One way of putting a file in place. */
  datatype Writing =
    | Temporary(name: Name, content: Content)
    | Replacement(name: Name, destination: Name, content: Content)
    | Publication(name: Name, destination: Name, content: Content)

  /** Everything it can leave: nothing, some or all of the temporary, the
      destination in place and, where the file is cloned, both at once. */
  ghost predicate During(w: Writing, d0: Disk, d: Disk) {
    && d.root == d0.root && d0.clock <= d.clock
    && (|| Unwritten(d0, d)
        || PartWritten(d0, w.name, w.content, d)
        || (!w.Temporary? && Replaced(d0, w.destination, w.content, d))
        || (w.Publication? && Doubled(d0, w.name, w.destination, w.content, d)))
  }

  /** Everything the trace gained is something `w` can leave. */
  ghost predicate Gained(before: seq<Disk>, after: seq<Disk>, w: Writing, d0: Disk) {
    before <= after && forall i :: |before| <= i < |after| ==> During(w, d0, after[i])
  }

  lemma GainedMore(before: seq<Disk>, after: seq<Disk>, w: Writing, d0: Disk, d: Disk)
    requires Gained(before, after, w, d0) && During(w, d0, d)
    ensures Gained(before, after + [d], w, d0)
  {
    hide During;
  }

  lemma GainedNothing(trace: seq<Disk>, w: Writing, d0: Disk)
    ensures Gained(trace, trace, w, d0) && During(w, d0, d0)
  {
  }

  /** A temporary is the first part of putting a file in place. */
  lemma GainedAs(before: seq<Disk>, after: seq<Disk>, w: Writing, d0: Disk)
    requires Gained(before, after, Temporary(w.name, w.content), d0)
    ensures Gained(before, after, w, d0)
  {
    forall i | |before| <= i < |after| ensures During(w, d0, after[i]) {
      assert During(Temporary(w.name, w.content), d0, after[i]);
    }
  }

  function WithFile(d: Disk, n: Name, f: File): Disk { d.(live := d.live[n := f], clock := d.clock + 1) }

  function WithoutFile(d: Disk, n: Name): Disk { d.(live := d.live - {n}, clock := d.clock + 1) }

  function Renamed(d: Disk, from: Name, to: Name): Disk
    requires from in d.live
  {
    d.(live := (d.live - {from})[to := d.live[from].(ctime := d.clock)], clock := d.clock + 1)
  }

  // ----- the effect of each call --------------------------------------------

  ghost predicate StagedAt(d0: Disk, temporary: Name, content: Content, d: Disk, written: nat) {
    && temporary in d.live && Staged(d0, temporary, content, d, written, d.live[temporary])
    && d.root == d0.root && d0.clock <= d.clock
  }

  lemma CreatedStages(d: Disk, temporary: Name, content: Content)
    requires Stamped(d) && temporary != Marker
    ensures var d' := WithFile(d, temporary, File(Prefix(content, 0), d.clock, d.clock));
            StagedAt(d, temporary, content, d', 0) && During(Temporary(temporary, content), d, d') && Stamped(d')
  {
    var d' := WithFile(d, temporary, File(Prefix(content, 0), d.clock, d.clock));
    assert Staged(d, temporary, content, d', 0, d'.live[temporary]);
  }

  lemma ExtendedStages(d0: Disk, temporary: Name, content: Content, d: Disk, written: nat, more: nat)
    requires StagedAt(d0, temporary, content, d, written) && Stamped(d) && temporary != Marker
    ensures temporary in d.live
    ensures var d' := WithFile(d, temporary, File(Prefix(content, more), d.live[temporary].ino, d.clock));
            StagedAt(d0, temporary, content, d', more) && During(Temporary(temporary, content), d0, d') && Stamped(d')
  {
    var d' := WithFile(d, temporary, File(Prefix(content, more), d.live[temporary].ino, d.clock));
    assert d'.live == d0.live[temporary := d'.live[temporary]];
    assert Staged(d0, temporary, content, d', more, d'.live[temporary]);
  }

  lemma WrittenWhole(d0: Disk, temporary: Name, content: Content, d: Disk, written: nat)
    requires StagedAt(d0, temporary, content, d, written) && Size(content) <= written
    ensures temporary in d.live && d.live[temporary].content == content
  {
  }

  lemma OthersStay(d0: Disk, w: Writing, d: Disk, n: Name)
    requires During(Temporary(w.name, w.content), d0, d) && n != w.name
    ensures n in d.live <==> n in d0.live
  {
  }

  lemma TemporaryIs(d0: Disk, w: Writing, d: Disk)
    requires During(Temporary(w.name, w.content), d0, d)
    ensures During(w, d0, d)
  {
  }

  lemma RenamedPlaces(d0: Disk, temporary: Name, destination: Name, content: Content, d: Disk)
    requires During(Temporary(temporary, content), d0, d) && temporary !in d0.live && temporary != destination
    requires temporary in d.live && d.live[temporary].content == content
    requires Stamped(d) && temporary != Marker
    ensures var d' := Renamed(d, temporary, destination);
            && During(Replacement(temporary, destination, content), d0, d')
            && Replaced(d0, destination, content, d') && Stamped(d')
            && destination in d'.live && d'.live[destination].content == content
  {
    var d' := Renamed(d, temporary, destination);
    var n, f :| Staged(d0, temporary, content, d, n, f);
    assert d'.live == d0.live[destination := d'.live[destination]];
    assert Placed(d0, destination, content, d', d'.live[destination]);
  }

  lemma UnlinkedRestores(d0: Disk, w: Writing, d: Disk)
    requires During(Temporary(w.name, w.content), d0, d) && w.name !in d0.live && w.name in d.live
    requires Stamped(d)
    ensures During(w, d0, WithoutFile(d, w.name)) && Stamped(WithoutFile(d, w.name))
  {
    var n, f :| Staged(d0, w.name, w.content, d, n, f);
    assert WithoutFile(d, w.name).live == d0.live;
  }

  lemma ClonedDoubles(d0: Disk, temporary: Name, destination: Name, content: Content, d: Disk)
    requires During(Temporary(temporary, content), d0, d) && temporary !in d0.live && temporary != destination
    requires temporary in d.live && d.live[temporary].content == content
    requires Stamped(d)
    ensures var d' := WithFile(d, destination, File(content, d.clock, d.clock));
            && During(Publication(temporary, destination, content), d0, d')
            && Doubled(d0, temporary, destination, content, d') && Stamped(d')
  {
    var d' := WithFile(d, destination, File(content, d.clock, d.clock));
    var n, f :| Staged(d0, temporary, content, d, n, f);
    assert Linked(d0, temporary, destination, content, d', f, d'.live[destination]);
  }

  lemma DoubledPlaces(d0: Disk, temporary: Name, destination: Name, content: Content, d: Disk)
    requires During(Publication(temporary, destination, content), d0, d)
    requires Doubled(d0, temporary, destination, content, d)
    requires temporary !in d0.live && temporary != destination && Stamped(d)
    ensures var d' := WithoutFile(d, temporary);
            && During(Publication(temporary, destination, content), d0, d')
            && Replaced(d0, destination, content, d') && Stamped(d')
  {
    var d' := WithoutFile(d, temporary);
    var t, f :| Linked(d0, temporary, destination, content, d, t, f);
    assert d'.live == d0.live[destination := f];
    assert Placed(d0, destination, content, d', f);
  }
}
