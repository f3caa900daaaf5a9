/**
 What a seal fixes about the target. Planning inspects the target once, the writer twice more, and only the
 writer's own two inspections are compared. This module says for which pairs of targets a seal made for
 the one lets the other be written.
 */
module AttestTargets {
  import opened Bytes
  import opened Arithmetic
  import opened Status
  import opened Text
  import opened Fips180
  import opened Device
  import opened Io
  import opened Targets
  import opened WriteLoop
  import opened WriteTheorems
  import opened Readback
  import opened Pipeline
  import opened BeforeWriteInputs
  import opened Attest
  import opened AttestTheorems

  /** The image is this at every tick; the target is `first` until `second` replaces it at the tick `cut`. */
  ghost predicate Replaces(env: Environment, content: seq<Byte>, first: TargetInfo, second: TargetInfo, cut: nat) {
    forall t: nat ::
      && env.openSource(t).Success? && env.openSource(t).value == |content| && env.source(t) == content
      && env.inspect(t) == Success(if t < cut then first else second)
  }

  ghost predicate Touched(s: Snapshot, after: Snapshot) {
    after.mutations != s.mutations || after.bytes != s.bytes
  }

  /** A run under a seal for `first` touches the medium with `second` opened. */
  ghost predicate TouchesAs(env: Environment, s: Snapshot, options: WriteOptions, seal: seq<Byte>,
                            first: TargetInfo, second: TargetInfo) {
    var out := RunAttested(env, s, options, seal);
    && out.plan.Some? && out.plan.value.target == first
    && out.write.Some? && out.write.value.trace.live == Some(second)
    && Touched(s, out.snapshot)
  }

  /** The writer gets as far as a resize or an attempt at the first chunk. */
  predicate MayTouch(o: WriteOptions, content: seq<Byte>, target: TargetInfo)
    requires Defaulted(o) && 0 < |content| < 0x8000_0000_0000_0000
  {
    Resizes(o, |content|, Opened(target)) || FirstWrite(o, content, target, []).Some?
  }

  /** The writer's capacity check passes for one of the two targets, and the open finds the same token. */
  predicate HasRoom(size: FileSize, first: TargetInfo, second: TargetInfo) {
    !ExceedsTarget(size, second) || (Token(first) == Token(second) && !ExceedsTarget(size, first))
  }

  /** The exact condition: each target passes its own gate, and nothing else ties the two. */
  predicate LetsThrough(o: WriteOptions, content: seq<Byte>, first: TargetInfo, second: TargetInfo)
    requires Defaulted(o)
  {
    && 0 < |content| < 0x8000_0000_0000_0000 && RoundUp(o.bufferSize, SOURCE_ALIGNMENT) != 0
    && PlanGate(first, o) == Ok && Authorized(second, o)
    && HasRoom(|content|, first, second) && MayTouch(o, content, second)
  }

  // From a run to its targets.

  /** Without a first chunk to write, the loop ends before any attempt. */
  lemma LoopNeedsChunk(env: Environment, job: Job, s: Snapshot, content: seq<Byte>)
    requires job.Valid() && job.size == |content| && FirstChunk(job, content).None?
    ensures var (status, last) := Loop(env, job, LoopState(s, 0, [], 0));
            status != Ok && last.snapshot.bytes == s.bytes && last.snapshot.mutations == s.mutations
  {
    hide Attempts, RoundUp, WriteLength;
    var st := LoopState(s, 0, [], 0);
    var chunk := StepShape(env, job, st);
  }

  lemma BufferingTouches(env: Environment, s: Snapshot, o: WriteOptions, r: WriteResult, t: Trace, target: TargetInfo,
                         content: seq<Byte>)
    requires Defaulted(o) && 0 < r.sourceSize == |content| < 0x8000_0000_0000_0000
    ensures Touched(s, Buffering(env, s, o, r, t, Opened(target)).snapshot) ==> FirstWrite(o, content, target, []).Some?
  {
    hide Loop, RoundUp, Flushing, Matches, FirstChunk, Movable;
    var file := Opened(target);
    if JobFor(o, |content|, file).Some? && FirstChunk(JobFor(o, |content|, file).value, content).None? {
      LoopNeedsChunk(env, JobFor(o, |content|, file).value, Reported(Ticked(s), Write, 0, r.sourceSize), content);
    }
  }

  lemma OpeningTouches(env: Environment, s: Snapshot, o: WriteOptions, r: WriteResult, t: Trace, planned: TargetInfo,
                       content: seq<Byte>)
    requires Defaulted(o) && 0 < r.sourceSize == |content| < 0x8000_0000_0000_0000
    ensures var out := Opening(env, s, o, r, t, planned);
            Touched(s, out.snapshot) ==>
              && out.trace.live == Live(env, s.clock) && out.trace.live.Some?
              && Token(out.trace.live.value) == Token(planned) && Authorized(out.trace.live.value, o)
              && MayTouch(o, content, out.trace.live.value)
  {
    hide Buffering, Token, Resized, Authorized, OpenDecision, RoundUp, FirstWrite;
    if OpenResult(env, s.clock, Token(planned), o).Success? {
      var target := env.inspect(s.clock).value;
      DecisionMeansAuthorized(target, Token(planned), o);
      var next := s.(clock := s.clock + 2);
      var live := t.(live := Live(env, s.clock));
      if Resizes(o, |content|, Opened(target)) {
        if env.resize(next.clock) == Ok {
          var resized := Resized(s.bytes, |content|);
          BufferingKeepsLive(env, Ticked(next).(mutations := next.mutations + 1, bytes := resized), o, r,
                             live.(base := resized), Opened(target));
        }
      } else {
        BufferingKeepsLive(env, next, o, r, live, Opened(target));
        BufferingTouches(env, next, o, r, live, target, content);
      }
    }
  }

  /** A writer that touched the medium had room on what it inspected first, and the open found the same token. */
  lemma RunTouches(env: Environment, s: Snapshot, options: WriteOptions, content: seq<Byte>, first: TargetInfo,
                   second: TargetInfo, cut: nat)
    requires Replaces(env, content, first, second, cut)
    ensures var out, o := RunWrite(env, s, options), Defaults(options);
            Touched(s, out.snapshot) && out.trace.live == Some(second) ==>
              && 0 < |content| < 0x8000_0000_0000_0000 && RoundUp(o.bufferSize, SOURCE_ALIGNMENT) != 0
              && Authorized(second, o) && HasRoom(|content|, first, second) && MayTouch(o, content, second)
  {
    hide Opening, HashRegion, Sha256, Authorized, ExceedsTarget, RoundUp, Token, MayTouch;
    var o := Defaults(options);
    var s2 := Reported(Ticked(Ticked(Reported(s.(events := []), Prepare, 0, 1))), Prepare, 1, 1);
    assert env.openSource(s.clock) == Success(|content|);
    var planned := env.inspect(s.clock + 1).value;
    if content != [] && !ExceedsTarget(|content|, planned) {
      var (data, next) := HashRegion(env, SourceSide, HashSource, s2, |content|, o.bufferSize);
      HashNeedsBuffer(env, s2, |content|, o.bufferSize);
      if data.Success? {
        var r := NO_RESULT.(sourceSize := |content|, sourceSha256 := DigestOf(data.value));
        OpeningTouches(env, next, o, r, Trace(None, s.bytes, s, None, [], None, None, None), planned, content);
      }
    }
  }

  lemma TouchNeedsGates(env: Environment, s: Snapshot, options: WriteOptions, seal: seq<Byte>, content: seq<Byte>,
                        first: TargetInfo, second: TargetInfo, cut: nat)
    requires Replaces(env, content, first, second, cut) && TouchesAs(env, s, options, seal, first, second)
    ensures LetsThrough(Defaults(options), content, first, second)
  {
    hide AttestPlan, RunWrite, Authorized, Token, ExceedsTarget, RoundUp, MayTouch, HasRoom;
    PlanningIsSound(env, s, options);
    var s1 := AttestPlan(env, s, options).1;
    RunTouches(env, s1, options, content, first, second, cut);
  }

  // From two targets to a run.

  /** The system behaves until the given ticks, and the target is replaced at `cut`. */
  function Replacing(content: seq<Byte>, first: TargetInfo, second: TargetInfo, cut: nat, transfers: nat, memory: nat)
    : Environment
    requires |content| < 0x8000_0000_0000_0000
  {
    Failing(content, first, transfers, memory).(inspect := t => Success(if t < cut then first else second))
  }

  /** The snapshot planning ends with, if the system behaved. */
  function Planned(s: Snapshot, o: WriteOptions, content: seq<Byte>): nat
    requires Defaulted(o)
  {
    s.clock + 3 + Blocks(|content|, o.bufferSize, 0)
  }

  /** Planning seals what it finds. */
  lemma PlanTicks(env: Environment, s: Snapshot, options: WriteOptions, content: seq<Byte>, first: TargetInfo,
                  transfers: nat, memory: nat)
    requires var o := Defaults(options);
             && 0 < |content| < 0x8000_0000_0000_0000 && RoundUp(o.bufferSize, SOURCE_ALIGNMENT) != 0
             && PlanGate(first, o) == Ok && Behaves(env, content, transfers, memory)
             && Planned(s, o, content) <= transfers && s.clock + 1 < memory
             && env.inspect(Planned(s, o, content) - 1) == Success(first)
    ensures var o, (plan, last) := Defaults(options), AttestPlan(env, s, options);
            && plan == Sealed(|content|, DigestOf(content), first, o) && plan.Success? && plan.value.target == first
            && last.clock == Planned(s, o, content) && last.bytes == s.bytes && last.mutations == s.mutations
  {
    hide HashRegion, Sha256, RoundUp, Token, Canonical, PlanSeal;
    var o := Defaults(options);
    assert env.openSource(s.clock) == Success(|content|);
    HashTicks(env, Ticked(s.(events := [])), o.bufferSize, content);
    SealedPlans(|content|, DigestOf(content), first, o);
  }

  /** The tick of the replacement: after planning, or after the writer's own first inspection. */
  function Cut(s: Snapshot, o: WriteOptions, content: seq<Byte>, second: TargetInfo): nat
    requires Defaulted(o) && |content| < 0x8000_0000_0000_0000
  {
    Planned(s, o, content) + if ExceedsTarget(|content|, second) then 2 else 0
  }

  /** A run that shows it: the resize is the last that happens, or the attempts at the first chunk are. */
  function Showing(s: Snapshot, o: WriteOptions, content: seq<Byte>, first: TargetInfo, second: TargetInfo): Environment
    requires Defaulted(o) && |content| < 0x8000_0000_0000_0000
  {
    var s1 := s.(clock := Planned(s, o, content));
    var cut := Cut(s, o, content, second);
    if Resizes(o, |content|, Opened(second)) then
      Replacing(content, first, second, cut, OpenTick(s1, o, content), s1.clock + 3)
    else
      var tick := BufferTick(s1, o, content, second);
      Replacing(content, first, second, cut, tick + 2, tick + 2)
  }

  /** The seal planning would hand out for the first target. */
  function SealFor(o: WriteOptions, content: seq<Byte>, first: TargetInfo): seq<Byte>
    requires |content| < 0x8000_0000_0000_0000
  {
    var plan := Sealed(|content|, DigestOf(content), first, o);
    if plan.Success? then Hex(plan.value.seal) else []
  }

  lemma FirstWriteAnywhere(o: WriteOptions, content: seq<Byte>, target: TargetInfo, before: seq<Byte>)
    requires Defaulted(o) && 0 < |content| < 0x8000_0000_0000_0000
    ensures FirstWrite(o, content, target, before).Some? <==> FirstWrite(o, content, target, []).Some?
  {
    hide RoundUp, FirstChunk;
  }

  /** The writer's part of the run. */
  lemma WriterShows(s: Snapshot, s1: Snapshot, options: WriteOptions, content: seq<Byte>, first: TargetInfo,
                    second: TargetInfo)
    requires LetsThrough(Defaults(options), content, first, second)
    requires s1.clock == Planned(s, Defaults(options), content)
    ensures var out := RunWrite(Showing(s, Defaults(options), content, first, second), s1, options);
            Touched(s1, out.snapshot) && out.trace.live == Some(second)
  {
    hide RunWrite, Authorized, ExceedsTarget, RoundUp, Token, FirstWrite, PlanGate, Residue, Overlay;
    var o := Defaults(options);
    var env := Showing(s, o, content, first, second);
    var planned := if ExceedsTarget(|content|, second) then first else second;
    FirstWriteAnywhere(o, content, second, s1.bytes);
    if Resizes(o, |content|, Opened(second)) {
      WriterResizesOnly(env, s1, options, content, planned, second);
    } else {
      WriterStops(env, s1, options, content, planned, second);
    }
  }

  lemma GatesLetThrough(s: Snapshot, options: WriteOptions, content: seq<Byte>, first: TargetInfo, second: TargetInfo)
    requires LetsThrough(Defaults(options), content, first, second)
    ensures var o := Defaults(options);
            var env := Showing(s, o, content, first, second);
            && Replaces(env, content, first, second, Cut(s, o, content, second))
            && TouchesAs(env, s, options, SealFor(o, content, first), first, second)
  {
    hide RunWrite, Authorized, ExceedsTarget, RoundUp, Token, FirstWrite, AttestPlan, Sealed, Hex, ParseHex64, MayTouch,
         HasRoom, Sha256;
    var o := Defaults(options);
    var env := Showing(s, o, content, first, second);
    var s1 := s.(clock := Planned(s, o, content));
    if Resizes(o, |content|, Opened(second)) {
      PlanTicks(env, s, options, content, first, OpenTick(s1, o, content), s1.clock + 3);
    } else {
      var tick := BufferTick(s1, o, content, second);
      PlanTicks(env, s, options, content, first, tick + 2, tick + 2);
    }
    var (plan, last) := AttestPlan(env, s, options);
    HexRoundTrip(plan.value.seal);
    WriterShows(s, last, options, content, first, second);
  }

  /**
   Exactly which target a seal lets the writer touch: some run under a seal for `first` touches the medium
   with `second` opened exactly when each of the two passes its own gate and the capacity check has a
   target to pass on. Nothing ties the tokens of the two but the one confirmation token that both gates
   compare: for two devices they are equal, and if either is a regular file they need not be.
   */
  lemma SealLetsThroughExactly(s: Snapshot, options: WriteOptions, content: seq<Byte>, first: TargetInfo,
                               second: TargetInfo)
    ensures (exists env, cut, seal ::
               Replaces(env, content, first, second, cut) && TouchesAs(env, s, options, seal, first, second))
            <==> LetsThrough(Defaults(options), content, first, second)
    ensures LetsThrough(Defaults(options), content, first, second) ==>
              first.kind == RegularFile || second.kind == RegularFile || Token(first) == Token(second)
  {
    hide Replaces, TouchesAs, LetsThrough, Showing, Cut, SealFor, Token;
    forall env, cut, seal | Replaces(env, content, first, second, cut) && TouchesAs(env, s, options, seal, first, second)
      ensures LetsThrough(Defaults(options), content, first, second)
    {
      TouchNeedsGates(env, s, options, seal, content, first, second, cut);
    }
    if LetsThrough(Defaults(options), content, first, second) {
      GatesLetThrough(s, options, content, first, second);
      OneToken(Defaults(options), content, first, second);
    }
  }

  lemma OneToken(o: WriteOptions, content: seq<Byte>, first: TargetInfo, second: TargetInfo)
    requires Defaulted(o) && LetsThrough(o, content, first, second)
    ensures first.kind != RegularFile && second.kind != RegularFile ==> Token(first) == Token(second)
  {
    hide Token, RoundUp, MayTouch, HasRoom;
  }

  // A seal made for a file, and a disk written under it.

  const FILE := TargetInfo([], [], RegularFile, 2, 512, 512, false, false, false, false, false, false, [], [], [], [], [])
  const DISK := FILE.(kind := BlockDevice, sizeBytes := 4096)

  function Confirmed(): WriteOptions {
    WriteOptions(4096, 1, VerifyNone, 1, true, false, false, false, false, Some(Token(DISK)))
  }

  /** The target fingerprint is not bound: under this seal for a file the writer attempts to write a disk. */
  lemma FileSealWritesDisk(s: Snapshot)
    ensures FILE.kind == RegularFile && DISK.kind == BlockDevice
    ensures TouchesAs(Showing(s, Confirmed(), [7, 9], FILE, DISK), s, Confirmed(), SealFor(Confirmed(), [7, 9], FILE),
                      FILE, DISK)
  {
    hide Token, TouchesAs, Showing, SealFor, Cut;
    assert RoundUp(4096, SOURCE_ALIGNMENT) == 4096 && RoundUp(4096, 4096) == 4096 && RoundUp(2, 512) == 512;
    GatesLetThrough(s, Confirmed(), [7, 9], FILE, DISK);
  }
}
