/** The gate in front of every destructive open, and the open itself. */
module Targets {
  import opened Bytes
  import opened Status
  import opened Device
  import opened Io

  /** What the writer keeps of an opened target. */
  datatype OpenFile = OpenFile(device: bool, sizeBytes: U64, alignment: U32)

  function ValidateDestructive(info: TargetInfo, options: WriteOptions): Status {
    if info.kind == BlockDevice || info.kind == CharDevice then
      if !options.allowDevice then DeviceForbidden
      else if info.readOnly then PermissionDenied
      else if info.systemDisk && !options.forceSystemDisk then SystemDisk
      else if info.mounted && !options.forceMounted then Mounted
      else if options.confirmationToken != Some(Token(info)) then Confirmation
      else Ok
    else Ok
  }

  /** The caller has authorized writing this device, as it is now. */
  predicate Authorized(info: TargetInfo, options: WriteOptions) {
    info.kind != RegularFile ==>
      && options.allowDevice && !info.readOnly
      && (info.systemDisk ==> options.forceSystemDisk)
      && (info.mounted ==> options.forceMounted)
      && options.confirmationToken == Some(Token(info))
  }

  /** Compares the live token with the planned one, then applies the gate to the live descriptor. */
  function OpenDecision(current: TargetInfo, planned: seq<Byte>, options: WriteOptions): Status {
    if Token(current) != planned then IdentityChanged else ValidateDestructive(current, options)
  }

  lemma DecisionMeansAuthorized(current: TargetInfo, planned: seq<Byte>, options: WriteOptions)
    ensures OpenDecision(current, planned, options) == Ok <==>
            Token(current) == planned && Authorized(current, options)
  {
    hide Token;
  }

  function Opened(current: TargetInfo): OpenFile {
    OpenFile(current.kind != RegularFile, current.sizeBytes,
             if current.logicalSector != 0 then current.logicalSector else 512)
  }

  /** Reinspection at tick `clock`, and the system's open one tick later if the gate lets it through. */
  function OpenResult(env: Environment, clock: nat, planned: seq<Byte>, options: WriteOptions): (r: Result<OpenFile>)
    ensures r.Success? ==> 0 < r.value.alignment
  {
    match env.inspect(clock)
    case Failure(e) => Failure(e)
    case Success(current) =>
      var decision := OpenDecision(current, planned, options);
      if decision != Ok then Failure(decision)
      else if env.openTarget(clock + 1) != Ok then Failure(env.openTarget(clock + 1))
      else Success(Opened(current))
  }

  /** The descriptor found at tick `clock`, if any. */
  function Live(env: Environment, clock: nat): Option<TargetInfo> {
    if env.inspect(clock).Success? then Some(env.inspect(clock).value) else None
  }

  function OpenTicks(env: Environment, clock: nat, planned: seq<Byte>, options: WriteOptions): nat {
    if env.inspect(clock).Success? && OpenDecision(env.inspect(clock).value, planned, options) == Ok then 2 else 1
  }

  method OpenTarget(w: World, planned: seq<Byte>, options: WriteOptions) returns (r: Result<OpenFile>)
    modifies w
    ensures r == OpenResult(w.env, old(w.clock), planned, options)
    ensures w.View() == old(w.View()).(clock := old(w.clock) + OpenTicks(w.env, old(w.clock), planned, options))
  {
    hide Token;
    var now := w.Tick();
    var inspected := w.env.inspect(now);
    if inspected.Failure? {
      return Failure(inspected.error);
    }
    var current := inspected.value;
    var token := ComputeTargetToken(current);
    if token != planned {
      return Failure(IdentityChanged);
    }
    var decision := ValidateDestructive(current, options);
    if decision != Ok {
      return Failure(decision);
    }
    now := w.Tick();
    if w.env.openTarget(now) != Ok {
      return Failure(w.env.openTarget(now));
    }
    r := Success(Opened(current));
  }
}
