/**
 The sealed record and the target record as text, and what planning and the attested write refuse: the fields
 in their places, the numbers of the codes, and a status for each refusal.
 */
module AttestFacts {
  import opened Bytes
  import opened Status
  import opened Text
  import opened Fips180
  import opened Device
  import opened Io
  import opened Readback
  import opened Pipeline
  import opened Attest
  import opened AttestTheorems

  // Texts.

  lemma CodesAre()
    ensures KindCode(RegularFile) == 0 && KindCode(BlockDevice) == 1 && KindCode(CharDevice) == 2
    ensures ModeCode(VerifyNone) == 0 && ModeCode(VerifySample) == 1 && ModeCode(VerifyFull) == 2
    ensures Flag(false) == 0 && Flag(true) == 1
  {
  }

  lemma NextField(end: Byte, texts: seq<seq<Byte>>, i: nat)
    requires i < |texts|
    ensures Fields(end, texts[..i + 1]) == Fields(end, texts[..i]) + texts[i] + [end]
  {
    assert texts[..i + 1][..i] == texts[..i];
  }

  lemma NoFields(end: Byte, texts: seq<seq<Byte>>)
    ensures Fields(end, texts[..0]) == [] && texts[..|texts|] == texts
  {
  }

  lemma Fields5(end: Byte, x0: seq<Byte>, x1: seq<Byte>, x2: seq<Byte>, x3: seq<Byte>, x4: seq<Byte>)
    ensures Fields(end, [x0, x1, x2, x3, x4]) == x0 + [end] + x1 + [end] + x2 + [end] + x3 + [end] + x4 + [end]
  {
    var texts := [x0, x1, x2, x3, x4];
    NoFields(end, texts);
    NextField(end, texts, 0);
    NextField(end, texts, 1);
    NextField(end, texts, 2);
    NextField(end, texts, 3);
    NextField(end, texts, 4);
  }

  lemma Fields6(end: Byte, x0: seq<Byte>, x1: seq<Byte>, x2: seq<Byte>, x3: seq<Byte>, x4: seq<Byte>, x5: seq<Byte>)
    ensures Fields(end, [x0, x1, x2, x3, x4, x5])
            == x0 + [end] + x1 + [end] + x2 + [end] + x3 + [end] + x4 + [end] + x5 + [end]
  {
    var texts := [x0, x1, x2, x3, x4, x5];
    NoFields(end, texts);
    NextField(end, texts, 0);
    NextField(end, texts, 1);
    NextField(end, texts, 2);
    NextField(end, texts, 3);
    NextField(end, texts, 4);
    NextField(end, texts, 5);
  }

  /** The canonical record, line by line. */
  lemma CanonicalIs(p: PlanRecord)
    ensures Canonical(p) ==
            (Ascii("deadflash.plan.v1") + [10]
               + (Ascii("source_size=") + Decimal(p.sourceSize)) + [10]
               + (Ascii("source_sha256=") + Hex(p.sourceSha256)) + [10]
               + (Ascii("target_token=") + p.token) + [10]
               + (Ascii("target_kind=") + Decimal(KindCode(p.kind))) + [10]
               + (Ascii("target_size=") + Decimal(p.targetSize)) + [10])
            + ((Ascii("logical_sector=") + Decimal(p.logicalSector)) + [10]
               + (Ascii("physical_sector=") + Decimal(p.physicalSector)) + [10]
               + (Ascii("verify_mode=") + Decimal(ModeCode(p.verifyMode))) + [10]
               + (Ascii("sample_count=") + Decimal(p.sampleCount)) + [10]
               + (Ascii("buffer_size=") + Decimal(p.bufferSize)) + [10]
               + (Ascii("write_retries=") + Decimal(p.writeRetries)) + [10])
            + ((Ascii("direct_io=") + Decimal(Flag(p.directIo))) + [10]
               + (Ascii("truncate_regular_file=") + Decimal(Flag(p.truncateRegularFile))) + [10]
               + (Ascii("allow_device=") + Decimal(Flag(p.allowDevice))) + [10]
               + (Ascii("force_mounted=") + Decimal(Flag(p.forceMounted))) + [10]
               + (Ascii("force_system_disk=") + Decimal(Flag(p.forceSystemDisk))) + [10])
  {
    hide Fields, Ascii, Decimal, Hex, KindCode, ModeCode, Flag;
    var l := PlanLines(p);
    assert l == (l[..6] + l[6..12]) + l[12..];
    FieldsAppend(10, l[..6] + l[6..12], l[12..]);
    FieldsAppend(10, l[..6], l[6..12]);
    assert l[..6] == [l[0], l[1], l[2], l[3], l[4], l[5]] && l[6..12] == [l[6], l[7], l[8], l[9], l[10], l[11]];
    assert l[12..] == [l[12], l[13], l[14], l[15], l[16]];
    Fields6(10, l[0], l[1], l[2], l[3], l[4], l[5]);
    Fields6(10, l[6], l[7], l[8], l[9], l[10], l[11]);
    Fields5(10, l[12], l[13], l[14], l[15], l[16]);
  }

  /** The hashed target record, field by field. */
  lemma TokenRecordIs(info: TargetInfo)
    ensures TokenRecord(info) ==
            (Ascii("deadflash.target.v2") + [0]
               + info.path + [0]
               + Decimal(KindCode(info.kind)) + [0]
               + Decimal(info.sizeBytes) + [0]
               + Decimal(info.logicalSector) + [0])
            + (Decimal(info.physicalSector) + [0]
               + Decimal(Flag(info.readOnly)) + [0]
               + Decimal(Flag(info.systemDisk)) + [0]
               + Decimal(Flag(info.descriptorPresent)) + [0]
               + Decimal(Flag(info.serialBound)) + [0])
            + (info.busType + [0]
               + info.vendor + [0]
               + info.product + [0]
               + info.revision + [0]
               + info.serialSha256 + [0])
    ensures Token(info) == Hex(Sha256(TokenRecord(info)))[..16]
  {
    hide Fields, Ascii, Decimal, Hex, KindCode, Flag, Sha256;
    var f := TokenFields(info);
    assert f == (f[..5] + f[5..10]) + f[10..];
    FieldsAppend(0, f[..5] + f[5..10], f[10..]);
    FieldsAppend(0, f[..5], f[5..10]);
    assert f[..5] == [f[0], f[1], f[2], f[3], f[4]] && f[5..10] == [f[5], f[6], f[7], f[8], f[9]];
    assert f[10..] == [f[10], f[11], f[12], f[13], f[14]];
    Fields5(0, f[0], f[1], f[2], f[3], f[4]);
    Fields5(0, f[5], f[6], f[7], f[8], f[9]);
    Fields5(0, f[10], f[11], f[12], f[13], f[14]);
  }

  // Planning and refusals.

  /** The sealed record speaks about the target that was inspected, the source that was hashed and the options. */
  lemma RecordSpeaksAbout(size: U64, digest: Digest, target: TargetInfo, o: WriteOptions)
    ensures var r := Sealed(size, digest, target, o);
            r.Success? ==>
              && r.value.target == target && r.value.record.sourceSize == size && r.value.record.sourceSha256 == digest
              && r.value.record.token == Token(target) && r.value.record.kind == target.kind
              && r.value.record.targetSize == target.sizeBytes
              && r.value.record.logicalSector == target.logicalSector
              && r.value.record.physicalSector == target.physicalSector
              && r.value.record.verifyMode == o.verifyMode && r.value.record.sampleCount == o.sampleCount
              && r.value.record.bufferSize == o.bufferSize && r.value.record.writeRetries == o.writeRetries
              && r.value.record.directIo == o.directIo
              && r.value.record.truncateRegularFile == o.truncateRegularFile
              && r.value.record.allowDevice == o.allowDevice && r.value.record.forceMounted == o.forceMounted
              && r.value.record.forceSystemDisk == o.forceSystemDisk
              && r.value.seal == Sha256(Canonical(r.value.record))
  {
    hide Token, Canonical, Sha256;
  }

  /** What sealing refuses: a device without permission, and one without its current token; nothing else. */
  lemma SealStatuses(size: U64, digest: Digest, target: TargetInfo, o: WriteOptions)
    ensures var r, device := Sealed(size, digest, target, o), target.kind != RegularFile;
            && (r == Failure(DeviceRequired) <==> device && !o.allowDevice)
            && (r == Failure(Confirmation) <==> device && o.allowDevice && o.confirmationToken != Some(Token(target)))
            && (r.Success? <==> device ==> o.allowDevice && o.confirmationToken == Some(Token(target)))
  {
    hide Token, Canonical, Sha256;
    SealedPlans(size, digest, target, o);
  }

  /** What planning refuses, in order. */
  lemma PlanStatuses(env: Environment, s: Snapshot, options: WriteOptions)
    ensures var plan, source := AttestPlan(env, s, options).0, env.openSource(s.clock);
            && (source.Failure? ==> plan == Failure(source.error))
            && (source.Success? && source.value == 0 ==> plan.Failure?)
            && (plan.Success? ==>
                  && source.Success? && 0 < source.value && plan.value.record.sourceSize == source.value
                  && exists tick: nat :: env.inspect(tick) == Success(plan.value.target))
  {
    hide HashRegion, Sha256, Canonical, Token;
    var o, plan := Defaults(options), AttestPlan(env, s, options).0;
    if plan.Success? {
      var size := env.openSource(s.clock).value;
      var s2 := HashRegion(env, SourceSide, HashSource, Ticked(s.(events := [])), size, o.bufferSize).1;
      assert env.inspect(s2.clock) == Success(plan.value.target);
    }
  }

  /** What is refused before the writer is called: a seal that is no digest, a plan that fails, another seal. */
  lemma RefusalStatuses(env: Environment, s: Snapshot, options: WriteOptions, seal: seq<Byte>)
    ensures var out, plan, expected := RunAttested(env, s, options, seal), AttestPlan(env, s, options).0, ParseHex64(seal);
            && (expected.None? ==> out.write.None? && out.status == Confirmation && out.snapshot == s)
            && (expected.Some? && plan.Failure? ==> out.write.None? && out.status == plan.error)
            && (expected.Some? && plan.Success? && plan.value.seal != expected.value ==>
                  out.write.None? && out.status == Confirmation)
            && (expected.Some? && plan.Success? && plan.value.seal == expected.value ==> out.write.Some?)
  {
    hide AttestPlan, RunWrite;
  }
}
