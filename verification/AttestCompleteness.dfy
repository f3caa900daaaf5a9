/** Without faults, a seal is good for the write it was made for. */
module AttestCompleteness {
  import opened Bytes
  import opened Status
  import opened Text
  import opened Fips180
  import opened Device
  import opened Io
  import opened Targets
  import opened Readback
  import opened Pipeline
  import opened PipelineTheorems
  import opened Completeness
  import opened Attest
  import opened AttestTheorems

  /** Planning over a calm environment succeeds, and its plan does not depend on when it is made. */
  lemma CalmPlan(env: Environment, s: Snapshot, options: WriteOptions, target: TargetInfo, content: seq<Byte>)
    requires Calm(env, content) && 0 < |content| < 0x8000_0000_0000_0000
    requires Defaults(options).bufferSize <= U64_MAX / 2
    requires Accepts(env, target, Defaults(options), s.bytes, |content|)
    ensures var (plan, last) := AttestPlan(env, s, options);
            && plan == Sealed(|content|, DigestOf(content), target, Defaults(options))
            && plan.Success? && plan.value.record.sourceSha256 == DigestOf(content) && last.bytes == s.bytes
  {
    hide HashRegion, Sha256, Token, Sealed;
    var o := Defaults(options);
    var s1 := Ticked(s.(events := []));
    assert env.openSource(s.clock) == Success(|content|);
    CalmHash(env, SourceSide, HashSource, s1, |content|, o.bufferSize, content);
    assert content[..|content|] == content;
    assert env.inspect(HashRegion(env, SourceSide, HashSource, s1, |content|, o.bufferSize).1.clock) == Success(target);
    SealedForTarget(|content|, DigestOf(content), target, o);
  }

  lemma SealedForTarget(size: U64, digest: Digest, target: TargetInfo, o: WriteOptions)
    requires Authorized(target, o)
    ensures var plan := Sealed(size, digest, target, o);
            plan.Success? && plan.value.record.sourceSha256 == digest
  {
    hide Token, Canonical;
    SealedPlans(size, digest, target, o);
  }

  /**
   Plan, then write: over a calm environment and an authorized target, the seal that planning
   returned at any earlier time authorizes the write, which succeeds and leaves the source on the target.
   */
  lemma PlanThenWrite(env: Environment, earlier: Snapshot, s: Snapshot, options: WriteOptions, target: TargetInfo,
                      content: seq<Byte>)
    requires Calm(env, content) && 0 < |content| < 0x8000_0000_0000_0000
    requires Defaults(options).bufferSize <= U64_MAX / 2 && earlier.bytes == s.bytes
    requires Accepts(env, target, Defaults(options), s.bytes, |content|)
    ensures var plan := AttestPlan(env, earlier, options).0;
            && plan.Success?
            && var out := RunAttested(env, s, options, Hex(plan.value.seal));
               && out.status == Ok
               && |content| <= |out.snapshot.bytes| && out.snapshot.bytes[..|content|] == content
  {
    hide AttestPlan, RunWrite, Sha256, Sealed, Calm, Accepts, StatesAgree, MediumAgrees, ReportsAgree, WholeImage, Hex,
         ParseHex64;
    CalmPlan(env, earlier, options, target, content);
    CalmPlan(env, s, options, target, content);
    var plan := AttestPlan(env, earlier, options).0.value;
    HexRoundTrip(plan.seal);
    var s1 := AttestPlan(env, s, options).1;
    CalmRunSucceeds(env, s1, options, target, content);
    RunIsRight(env, s1, options);
  }
}
