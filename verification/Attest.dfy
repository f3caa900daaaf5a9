/** The canonical operation plan, its seal, and the write that honours it. */
module Attest {
  import opened Bytes
  import opened Status
  import opened Text
  import opened Fips180
  import opened Device
  import opened Io
  import opened Readback
  import opened Pipeline

  const CANONICAL_BUFFER := 1024
  const NEWLINE := 10

  /** Everything the plan record binds. */
  datatype PlanRecord = PlanRecord(
    sourceSize: U64,
    sourceSha256: Digest,
    token: seq<Byte>,
    kind: TargetKind,
    targetSize: U64,
    logicalSector: U32,
    physicalSector: U32,
    verifyMode: VerifyMode,
    sampleCount: U32,
    bufferSize: U64,
    writeRetries: U32,
    directIo: bool,
    truncateRegularFile: bool,
    allowDevice: bool,
    forceMounted: bool,
    forceSystemDisk: bool)

  function ModeCode(mode: VerifyMode): nat {
    match mode
    case VerifyNone => 0
    case VerifySample => 1
    case VerifyFull => 2
  }

  function Line(key: string, value: seq<Byte>): seq<Byte> {
    Ascii(key) + value
  }

  function PlanLines(p: PlanRecord): seq<seq<Byte>> {
    [Ascii("deadflash.plan.v1"),
     Line("source_size=", Decimal(p.sourceSize)),
     Line("source_sha256=", Hex(p.sourceSha256)),
     Line("target_token=", p.token),
     Line("target_kind=", Decimal(KindCode(p.kind))),
     Line("target_size=", Decimal(p.targetSize)),
     Line("logical_sector=", Decimal(p.logicalSector)),
     Line("physical_sector=", Decimal(p.physicalSector)),
     Line("verify_mode=", Decimal(ModeCode(p.verifyMode))),
     Line("sample_count=", Decimal(p.sampleCount)),
     Line("buffer_size=", Decimal(p.bufferSize)),
     Line("write_retries=", Decimal(p.writeRetries)),
     Line("direct_io=", Decimal(Flag(p.directIo))),
     Line("truncate_regular_file=", Decimal(Flag(p.truncateRegularFile))),
     Line("allow_device=", Decimal(Flag(p.allowDevice))),
     Line("force_mounted=", Decimal(Flag(p.forceMounted))),
     Line("force_system_disk=", Decimal(Flag(p.forceSystemDisk)))]
  }

  function Canonical(p: PlanRecord): seq<Byte> {
    Fields(NEWLINE, PlanLines(p))
  }

  function PlanSeal(p: PlanRecord): Digest {
    Sha256(Canonical(p))
  }

  datatype Attestation = Attestation(record: PlanRecord, target: TargetInfo, seal: Digest)

  function RecordOf(size: U64, digest: Digest, target: TargetInfo, o: WriteOptions): PlanRecord {
    PlanRecord(size, digest, Token(target), target.kind, target.sizeBytes, target.logicalSector, target.physicalSector,
               o.verifyMode, o.sampleCount, o.bufferSize, o.writeRetries, o.directIo, o.truncateRegularFile,
               o.allowDevice, o.forceMounted, o.forceSystemDisk)
  }

  /** A device plan needs the device flag and the current token. */
  function PlanGate(target: TargetInfo, o: WriteOptions): Status {
    if target.kind == RegularFile then Ok
    else if !o.allowDevice then DeviceRequired
    else if o.confirmationToken != Some(Token(target)) then Confirmation
    else Ok
  }

  function Sealed(size: U64, digest: Digest, target: TargetInfo, o: WriteOptions): Result<Attestation> {
    var gate := PlanGate(target, o);
    if gate != Ok then Failure(gate)
    else
      var record := RecordOf(size, digest, target, o);
      if |Canonical(record)| >= CANONICAL_BUFFER then Failure(Internal)
      else Success(Attestation(record, target, PlanSeal(record)))
  }

  /** Hashes the source, inspects the target and seals the plan. */
  function AttestPlan(env: Environment, s: Snapshot, options: WriteOptions): (Result<Attestation>, Snapshot) {
    var o := Defaults(options);
    var s1 := Ticked(s.(events := []));
    match env.openSource(s.clock)
    case Failure(e) => (Failure(e), s1)
    case Success(size) =>
      var (data, s2) := HashRegion(env, SourceSide, HashSource, s1, size, o.bufferSize);
      if data.Failure? then (Failure(data.error), s2)
      else if size == 0 then (Failure(TooSmall), s2)
      else if env.inspect(s2.clock).Failure? then (Failure(env.inspect(s2.clock).error), Ticked(s2))
      else (Sealed(size, DigestOf(data.value), env.inspect(s2.clock).value, o), Ticked(s2))
  }

  /** What an attested write returns, the plan it ran under, and the reports of both its parts. */
  datatype Attested = Attested(
    status: Status,
    result: WriteResult,
    snapshot: Snapshot,
    plan: Option<Attestation>,
    planReports: seq<Event>,
    write: Option<Outcome>)

  function Refused(status: Status, s: Snapshot, plan: Option<Attestation>, reports: seq<Event>): Attested {
    Attested(status, NO_RESULT, s, plan, reports, None)
  }

  function RunAttested(env: Environment, s: Snapshot, options: WriteOptions, seal: seq<Byte>): Attested {
    var expected := ParseHex64(seal);
    if expected.None? then Refused(Confirmation, s, None, [])
    else
      var (plan, s1) := AttestPlan(env, s, options);
      if plan.Failure? then Refused(plan.error, s1, None, s1.events)
      else if expected.value != plan.value.seal then Refused(Confirmation, s1, Some(plan.value), s1.events)
      else
        var out := RunWrite(env, s1, options);
        var breach := out.status == Ok && out.result.sourceSha256 != plan.value.record.sourceSha256;
        Attested(if breach then IdentityChanged else out.status,
                 if breach then out.result.(state := PlanBreachPartialMedia) else out.result,
                 out.snapshot, Some(plan.value), s1.events, Some(out))
  }
}
