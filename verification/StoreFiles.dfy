/** The disk a store works on.  Every durable effect goes through one call that
    the operating system may refuse; `trace` keeps every state the disk has been
    in, so a crash is a stop at any element of it, and `refusals` counts what
    the system declined. */
module StoreFiles {
  import opened Common
  import opened ProfileDocuments
  import opened ArchiveState

  /** The marker and the markers batches are named after carry used stamps, so
      a new marker never shares its identity with an old batch. */
  predicate Stamped(d: Disk) {
    && (Marker in d.live ==> d.live[Marker].ino < d.clock)
    && (d.root.Some? ==> forall id <- d.root.value :: id.ino < d.clock)
  }

  /** What is asked of the system besides what it is told to do: whether the
      store's directories can be opened, whether they are still the ones that
      were opened, whether a file that was written reads back. */
  datatype Question = Session | Anchor | ReadBack

  datatype Answer = Answer(question: Question, ok: bool)

  /** These were asked since, in this order, and all was well. */
  predicate Answered(before: seq<Answer>, after: seq<Answer>, questions: seq<Question>) {
    && before <= after && |after| == |before| + |questions|
    && forall i :: 0 <= i < |questions| ==> after[|before| + i] == Answer(questions[i], true)
  }

  lemma AnsweredBoth(a: seq<Answer>, b: seq<Answer>, c: seq<Answer>, first: seq<Question>, second: seq<Question>)
    requires Answered(a, b, first) && Answered(b, c, second)
    ensures Answered(a, c, first + second)
  {
    forall i | 0 <= i < |first + second| ensures c[|a| + i] == Answer((first + second)[i], true) {
      if i < |first| {
        assert b[|a| + i] == Answer(first[i], true);
      } else {
        assert c[|b| + (i - |first|)] == Answer(second[i - |first|], true);
      }
    }
  }

  class Files {
    var disk: Disk
    ghost var trace: seq<Disk>
    ghost var refusals: nat
    ghost var answers: seq<Answer>

    ghost predicate Valid()
      reads this
    {
      trace != [] && trace[|trace| - 1] == disk && Stamped(disk)
    }

    constructor (d: Disk)
      requires Stamped(d)
      ensures Valid() && disk == d && trace == [d] && refusals == 0 && answers == []
    {
      disk, trace, refusals, answers := d, [d], 0, [];
    }

    /** One durable effect, or a refusal that changes nothing. */
    method SystemCall(next: Disk) returns (ok: bool)
      requires Valid() && Stamped(next)
      modifies this`disk, this`trace, this`refusals
      ensures Valid()
      ensures if ok then disk == next && trace == old(trace) + [next] && refusals == old(refusals)
              else disk == old(disk) && trace == old(trace) && refusals == old(refusals) + 1
    {
      ok := *;
      if ok {
        disk := next;
        trace := trace + [next];
      } else {
        refusals := refusals + 1;
      }
    }

    /** A question to the system that changes nothing and may fail. */
    method Check(question: Question) returns (ok: bool)
      modifies this`refusals, this`answers
      ensures refusals == old(refusals) + (if ok then 0 else 1) && answers == old(answers) + [Answer(question, ok)]
    {
      ok := *;
      answers := answers + [Answer(question, ok)];
      if !ok {
        refusals := refusals + 1;
      }
    }
  }
}
