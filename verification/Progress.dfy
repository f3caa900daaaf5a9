/** The order of progress reports. */
module Progress {
  import opened Bytes
  import opened Arithmetic
  import opened Status
  import opened Io
  import opened WriteLoop
  import opened WriteTheorems
  import opened Readback
  import opened ReadbackTheorems

  function PhaseIndex(phase: Phase): nat {
    match phase
    case Prepare => 0
    case HashSource => 1
    case Write => 2
    case Flush => 3
    case Verify => 4
    case Complete => 5
  }

  /** A later report is of a later phase, or of the same phase, total and at least the same progress. */
  predicate NotBefore(e: Event, f: Event) {
    || PhaseIndex(e.phase) < PhaseIndex(f.phase)
    || (e.phase == f.phase && e.completed <= f.completed && e.total == f.total)
  }

  /** Reports are bounded by their totals, ordered by phase and monotone within a phase. */
  predicate Orderly(events: seq<Event>) {
    && (forall i :: 0 <= i < |events| ==> events[i].completed <= events[i].total)
    && (forall i, j :: 0 <= i < j < |events| ==> NotBefore(events[i], events[j]))
  }

  /** Orderly, with a last report of that phase, progress and total. */
  predicate EndsWith(events: seq<Event>, phase: Phase, completed: nat, total: nat) {
    Orderly(events) && events != [] && events[|events| - 1] == Event(phase, completed, total)
  }

  /** Orderly, with a last report of that phase. */
  predicate EndsIn(events: seq<Event>, phase: Phase) {
    Orderly(events) && events != [] && events[|events| - 1].phase == phase
  }

  lemma Append(events: seq<Event>, e: Event)
    requires Orderly(events) && e.completed <= e.total
    requires events != [] ==> NotBefore(events[|events| - 1], e)
    ensures EndsWith(events + [e], e.phase, e.completed, e.total)
  {
    var all := events + [e];
    forall i, j | 0 <= i < j < |all|
      ensures NotBefore(all[i], all[j])
    {
      if j == |events| && i < |events| - 1 {
        assert NotBefore(events[i], events[|events| - 1]);
      }
    }
  }

  /** A region read reports its own phase, up to its length if it completes. */
  lemma {:induction false} RegionReports(env: Environment, side: Side, phase: Phase, s: Snapshot, length: nat,
                                         block: nat, offset: nat, read: seq<Byte>)
    requires offset <= length && 0 < block && EndsWith(s.events, phase, offset, length)
    ensures var (r, last) := ReadRegion(env, side, phase, s, length, block, offset, read);
            EndsIn(last.events, phase) && (r.Success? ==> EndsWith(last.events, phase, length, length))
    decreases length - offset
  {
    hide SideRead, Orderly;
    if offset < length {
      var wanted := Min(length - offset, block);
      var data := SideRead(env, side, s, wanted, offset);
      SideReadShape(env, side, s, wanted, offset, []);
      if data.Success? && |data.value| >= wanted {
        var next := Reported(Ticked(s), phase, offset + wanted, length);
        OrderlyPart(s.events, phase, offset, length);
        Append(s.events, Event(phase, offset + wanted, length));
        RegionReports(env, side, phase, next, length, block, offset + wanted, read + data.value);
      }
    }
  }

  lemma OrderlyPart(events: seq<Event>, phase: Phase, completed: nat, total: nat)
    requires EndsWith(events, phase, completed, total)
    ensures Orderly(events)
  {
  }

  /** The write loop reports the bytes of completed chunks. */
  lemma {:induction false} LoopReports(env: Environment, job: Job, st: LoopState)
    requires job.Valid() && st.offset <= job.size && EndsWith(st.snapshot.events, Write, st.offset, job.size)
    ensures var (status, last) := Loop(env, job, st);
            EndsWith(last.snapshot.events, Write, last.offset, job.size)
    decreases job.size - st.offset
  {
    hide Step, EndsWith;
    if st.offset < job.size {
      StepReports(env, job, st);
      var (status, next) := Step(env, job, st);
      if status == Ok {
        StepAdvances(env, job, st);
        LoopReports(env, job, next);
      }
    }
  }

  lemma StepReports(env: Environment, job: Job, st: LoopState)
    requires job.Valid() && st.offset < job.size && EndsWith(st.snapshot.events, Write, st.offset, job.size)
    ensures EndsWith(Step(env, job, st).1.snapshot.events, Write, Step(env, job, st).1.offset, job.size)
  {
    hide Step, Attempts;
    var chunk := StepShape(env, job, st);
    AttemptsEffect(env, job, chunk.padded, st.offset, job.retries, chunk.start);
    if Step(env, job, st).0 == Ok {
      StepAdvances(env, job, st);
      Append(st.snapshot.events, Event(Write, Step(env, job, st).1.offset, job.size));
    }
  }

  /** Sampling reports whole blocks and changes nothing else. */
  lemma {:induction false} SampleReports(env: Environment, s: Snapshot, plan: Plan, i: nat, verified: nat)
    requires i <= plan.iterations && verified == i * plan.block && EndsWith(s.events, Verify, verified, plan.Total())
    ensures var (r, last) := SampleFrom(env, s, plan, i, verified);
            && EndsWith(last.events, Verify, r.verified, plan.Total())
            && last.bytes == s.bytes && last.mutations == s.mutations && last.clock >= s.clock
            && (r.status == Ok ==> r.mismatches == 0)
    decreases plan.iterations - i
  {
    hide SideRead, SameBlock, Orderly;
    if i < plan.iterations {
      var next := Reported(Ticked(Ticked(s)), Verify, verified + plan.block, plan.Total());
      NextBlock(plan, i);
      OrderlyPart(s.events, Verify, verified, plan.Total());
      Append(s.events, Event(Verify, verified + plan.block, plan.Total()));
      SampleReports(env, next, plan, i + 1, verified + plan.block);
    }
  }

  lemma NextBlock(plan: Plan, i: nat)
    requires i < plan.iterations
    ensures (i + 1) * plan.block == i * plan.block + plan.block <= plan.iterations * plan.block
  {
    Monotone(plan.block, i + 1, plan.iterations);
  }
}
