/** The promise chain that serialises the patches (settingsWriteQueue in settings.ts), one method per stretch of
    code between two awaits; calls and stretches interleave in any order. */
module SettingsQueue {
  import opened Options
  import opened Seqs
  import opened ProfileList
  import opened Settings

  /** How far the running patch is. */
  datatype Phase =
    | IDLE
    | READING(patch: Patch)
    | PATCHING(patch: Patch, clock: Clock, current: Config)
    | WRITING(patch: Patch, clock: Clock, next: Config)

  function Patches(log: seq<Entry>): seq<Patch> {
    seq(|log|, i requires 0 <= i < |log| => log[i].patch)
  }

  function Running(phase: Phase): seq<Patch> {
    if phase.IDLE? then [] else [phase.patch]
  }

  class Queue {
    var file: File
    /** The patches chained behind the running one. */
    var waiting: seq<Patch>
    var phase: Phase
    /** Every call so far, and how the finished ones ended. */
    ghost var calls: seq<Patch>
    ghost var log: seq<Entry>
    ghost const start: File

    constructor (file: File)
      ensures Valid() && this.file == file == start && calls == [] && log == [] && phase.IDLE?
    {
      this.file, start, waiting, phase, calls, log := file, file, [], IDLE, [], [];
    }

    /** The file is what the finished patches made of it in the order of the calls, the running patch works on
        the configuration that this file holds, and no call is lost. */
    ghost predicate Valid()
      reads this
    {
      && calls == Patches(log) + Running(phase) + waiting
      && file == Fold(start, log)
      && (phase.PATCHING? ==> phase.current == Read(file, phase.clock))
      && (phase.WRITING? ==> phase.patch(Read(file, phase.clock)) == Some(phase.next))
    }

    /** The stretches of code still to run before every call made so far has ended. */
    function Left(): nat
      reads this
    {
      4 * |waiting| + match phase case IDLE => 0 case READING(_) => 3 case PATCHING(_, _, _) => 2 case WRITING(_, _, _) => 1
    }

    /** `patchSettingsConfig` up to its await. */
    method PatchSettingsConfig(patch: Patch)
      requires Valid()
      modifies this`waiting, this`calls
      ensures Valid() && calls == old(calls) + [patch]
    {
      waiting := waiting + [patch];
      calls := calls + [patch];
      assert calls == Patches(log) + Running(phase) + waiting;
    }

    /** The next patch starts whichever way the one before it ended. */
    method StartNext()
      requires Valid() && phase.IDLE? && waiting != []
      modifies this`waiting, this`phase
      ensures Valid() && !phase.IDLE? && Left() < old(Left())
    {
      HeadTail(waiting);
      phase, waiting := READING(waiting[0]), waiting[1..];
      assert calls == Patches(log) + Running(phase) + waiting;
    }

    method ReadDone(clock: Clock)
      requires Valid() && phase.READING?
      modifies this`phase
      ensures Valid() && phase.PATCHING? && Left() < old(Left())
    {
      phase := PATCHING(phase.patch, clock, Read(file, clock));
    }

    method PatchDone()
      requires Valid() && phase.PATCHING?
      modifies this`phase, this`log
      ensures Valid() && Left() < old(Left())
      ensures phase.WRITING? || (phase.IDLE? && Ended(old(log), old(phase), FAILED))
    {
      match phase.patch(phase.current)
      case Some(next) => phase := WRITING(phase.patch, phase.clock, next);
      case None => Reject();
    }

    /** `mkdir` and `writeFile`: both succeed, nothing is written, or the write breaks off. */
    method WriteDone(outcome: Outcome)
      requires Valid() && phase.WRITING?
      modifies this`file, this`phase, this`log
      ensures Valid() && phase.IDLE? && Left() < old(Left())
      ensures Ended(old(log), old(phase), outcome)
      ensures outcome.DONE? ==> file == Write(old(phase).next)
      ensures outcome.FAILED? ==> file == old(file)
    {
      ghost var before, e := log, Entry(phase.patch, phase.clock, outcome);
      match outcome {
        case DONE => file := Write(phase.next);
        case FAILED =>
        case TORN => file := Garbled;
      }
      FoldOneMore(start, before, e);
      PatchesOneMore(before, e);
      log := log + [e];
      phase := IDLE;
      assert calls == Patches(log) + Running(phase) + waiting;
    }

    ghost predicate Ended(before: seq<Entry>, was: Phase, outcome: Outcome)
      requires was.PATCHING? || was.WRITING?
      reads this
    {
      log == before + [Entry(was.patch, was.clock, outcome)]
    }

    /** The patcher threw. */
    method Reject()
      requires Valid() && phase.PATCHING?
      modifies this`phase, this`log
      ensures Valid() && phase.IDLE? && Left() < old(Left()) && Ended(old(log), old(phase), FAILED)
    {
      ghost var before, e := log, Entry(phase.patch, phase.clock, FAILED);
      FoldOneMore(start, before, e);
      PatchesOneMore(before, e);
      log := log + [e];
      phase := IDLE;
      assert calls == Patches(log) + Running(phase) + waiting;
    }
  }

  lemma FoldOneMore(file: File, log: seq<Entry>, e: Entry)
    ensures Fold(file, log + [e]) == Effect(Fold(file, log), e)
  {
    InitOfAppend(log, [e]);
    assert log + [e][..0] == log;
  }

  lemma PatchesOneMore(log: seq<Entry>, e: Entry)
    ensures Patches(log + [e]) == Patches(log) + [e.patch]
  {}

  /** The patches end in the order of the calls, and the file is the fold of the successful ones in that order,
      begun anew from a broken file when a write broke off; once no patch is left they are all of the calls. */
  lemma SettledQueueIsLinear(q: Queue)
    requires q.Valid()
    ensures Patches(q.log) <= q.calls
    ensures q.file == Fold(Base(q.start, q.log), Successful(SinceTorn(q.log)))
    ensures Intact(q.log) ==> q.file == Fold(q.start, Successful(q.log))
    ensures q.Left() == 0 ==> Patches(q.log) == q.calls
  {
    TornWriteRestarts(q.start, q.log);
    hide Fold, Successful, SinceTorn;
  }
}
