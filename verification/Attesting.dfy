/** Attestation and the attested write as the source runs them. */
module Attesting {
  import opened Bytes
  import opened Status
  import opened Text
  import opened Fips180
  import opened Device
  import opened Io
  import opened Readback
  import opened Verifier
  import opened Pipeline
  import opened Imaging
  import opened Attest

  method SealPlan(size: U64, digest: Digest, target: TargetInfo, o: WriteOptions) returns (r: Result<Attestation>)
    ensures r == Sealed(size, digest, target, o)
  {
    hide Token, Canonical, Sha256;
    var token := ComputeTargetToken(target);
    if target.kind != RegularFile {
      if !o.allowDevice {
        return Failure(DeviceRequired);
      }
      if o.confirmationToken != Some(token) {
        return Failure(Confirmation);
      }
    }
    var record := RecordOf(size, digest, target, o);
    var canonical := Canonical(record);
    if |canonical| >= CANONICAL_BUFFER {
      return Failure(Internal);
    }
    var seal := Streaming.HashBuffer(canonical);
    r := Success(Attestation(record, target, seal));
  }

  method Plan(w: World, options: WriteOptions) returns (r: Result<Attestation>)
    modifies w
    ensures (r, w.View()) == AttestPlan(w.env, old(w.View()), options)
  {
    hide Sealed, HashRegion, Sha256;
    var o := Defaults(options);
    w.ClearReports();
    var now := w.Tick();
    var source := w.env.openSource(now);
    if source.Failure? {
      return Failure(source.error);
    }
    var digest, data := HashFileRegion(w, SourceSide, HashSource, source.value, o.bufferSize);
    if digest.Failure? {
      return Failure(digest.error);
    }
    if source.value == 0 {
      return Failure(TooSmall);
    }
    now := w.Tick();
    var inspected := w.env.inspect(now);
    if inspected.Failure? {
      return Failure(inspected.error);
    }
    r := SealPlan(source.value, digest.value, inspected.value, o);
  }

  /** Recomputes the seal from live state, writes only if it is the caller's, and checks what was written. */
  method WriteAttested(w: World, options: WriteOptions, seal: seq<Byte>) returns (status: Status, result: WriteResult)
    modifies w
    ensures var out := RunAttested(w.env, old(w.View()), options, seal);
            (status, result, w.View()) == (out.status, out.result, out.snapshot)
  {
    hide AttestPlan, RunWrite;
    result := NO_RESULT;
    var expected := HexDecode32(seal);
    if expected.None? {
      return Confirmation, result;
    }
    var plan := Plan(w, options);
    if plan.Failure? {
      return plan.error, result;
    }
    var equal := ConstantTimeEqual(expected.value, plan.value.seal, 32);
    assert expected.value[..32] == expected.value && plan.value.seal[..32] == plan.value.seal;
    if !equal {
      return Confirmation, result;
    }
    status, result := WriteImage(w, options);
    if status == Ok {
      equal := ConstantTimeEqual(result.sourceSha256, plan.value.record.sourceSha256, 32);
      assert result.sourceSha256[..32] == result.sourceSha256;
      assert plan.value.record.sourceSha256[..32] == plan.value.record.sourceSha256;
      if !equal {
        result := result.(state := PlanBreachPartialMedia);
        status := IdentityChanged;
      }
    }
  }
}
