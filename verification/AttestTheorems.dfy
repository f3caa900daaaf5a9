/** What the seal binds and what an attested write guarantees. */
module AttestTheorems {
  import opened Bytes
  import opened Arithmetic
  import opened Status
  import opened Text
  import opened Fips180
  import opened Device
  import opened Io
  import opened Targets
  import opened Readback
  import opened Pipeline
  import opened PipelineTheorems
  import opened Progress
  import opened Attest

  // The canonical record.

  lemma LineInjective(key: string, x: seq<Byte>, y: seq<Byte>)
    requires Line(key, x) == Line(key, y)
    ensures x == y
  {
    assert x == Line(key, x)[|key|..] && y == Line(key, y)[|key|..];
  }

  lemma NumberInjective(key: string, x: nat, y: nat)
    requires Line(key, Decimal(x)) == Line(key, Decimal(y))
    ensures x == y
  {
    LineInjective(key, Decimal(x), Decimal(y));
    DecimalInjective(x, y);
  }

  /** Free of line ends, and of bounded length. */
  predicate Clean(line: seq<Byte>, k: nat) {
    NEWLINE !in line && |line| <= k
  }

  lemma NumberLine(key: string, n: U64)
    requires forall i :: 0 <= i < |key| ==> 10 < key[i] as int < 256
    ensures |key| <= 22 ==> Clean(Line(key, Decimal(n)), 43)
  {
    assert Pow10(20) == 100000000000000000000 by {
      assert Pow10(5) == 100000;
      assert Pow10(10) == 10000000000;
      assert Pow10(15) == 1000000000000000;
    }
    DecimalLength(n, 20);
  }

  /** The lines determine every field. */
  lemma LinesDeterminePlan(p: PlanRecord, q: PlanRecord)
    requires PlanLines(p) == PlanLines(q)
    ensures p == q
  {
    hide Line, Decimal, Hex, Ascii;
    var x, y := PlanLines(p), PlanLines(q);
    assert forall i :: 0 <= i < 17 ==> x[i] == y[i];
    NumberInjective("source_size=", p.sourceSize, q.sourceSize);
    LineInjective("source_sha256=", Hex(p.sourceSha256), Hex(q.sourceSha256));
    SameDigest(p.sourceSha256, q.sourceSha256);
    LineInjective("target_token=", p.token, q.token);
    NumberInjective("target_kind=", KindCode(p.kind), KindCode(q.kind));
    NumberInjective("target_size=", p.targetSize, q.targetSize);
    NumberInjective("logical_sector=", p.logicalSector, q.logicalSector);
    NumberInjective("physical_sector=", p.physicalSector, q.physicalSector);
    PolicyLinesDetermine(p, q, x, y);
  }

  lemma SameDigest(x: Digest, y: Digest)
    requires Hex(x) == Hex(y)
    ensures x == y
  {
    HexRoundTrip(x);
    HexRoundTrip(y);
  }

  lemma PolicyLinesDetermine(p: PlanRecord, q: PlanRecord, x: seq<seq<Byte>>, y: seq<seq<Byte>>)
    requires x == PlanLines(p) && y == PlanLines(q) && x[8..] == y[8..]
    ensures p.verifyMode == q.verifyMode && p.sampleCount == q.sampleCount && p.bufferSize == q.bufferSize
    ensures p.writeRetries == q.writeRetries && p.directIo == q.directIo
    ensures p.truncateRegularFile == q.truncateRegularFile && p.allowDevice == q.allowDevice
    ensures p.forceMounted == q.forceMounted && p.forceSystemDisk == q.forceSystemDisk
  {
    hide Line, Decimal, Hex, Ascii;
    assert forall i :: 0 <= i < 9 ==> x[8..][i] == y[8..][i] && x[8 + i] == x[8..][i] && y[8 + i] == y[8..][i];
    NumberInjective("verify_mode=", ModeCode(p.verifyMode), ModeCode(q.verifyMode));
    NumberInjective("sample_count=", p.sampleCount, q.sampleCount);
    NumberInjective("buffer_size=", p.bufferSize, q.bufferSize);
    NumberInjective("write_retries=", p.writeRetries, q.writeRetries);
    NumberInjective("direct_io=", Flag(p.directIo), Flag(q.directIo));
    NumberInjective("truncate_regular_file=", Flag(p.truncateRegularFile), Flag(q.truncateRegularFile));
    NumberInjective("allow_device=", Flag(p.allowDevice), Flag(q.allowDevice));
    NumberInjective("force_mounted=", Flag(p.forceMounted), Flag(q.forceMounted));
    NumberInjective("force_system_disk=", Flag(p.forceSystemDisk), Flag(q.forceSystemDisk));
  }

  /** A token as the code computes it: 16 characters, none of them a line end. */
  predicate TokenText(token: seq<Byte>) {
    |token| == TOKEN_CHARS && NEWLINE !in token
  }

  lemma TokensAreText(info: TargetInfo)
    ensures TokenText(Token(info))
  {
    hide Sha256, TokenRecord;
    var hex := Hex(Sha256(TokenRecord(info)));
    assert forall i :: 0 <= i < TOKEN_CHARS ==> Token(info)[i] == hex[i];
  }

  lemma TextLine(key: string, value: seq<Byte>)
    requires forall i :: 0 <= i < |key| ==> 10 < key[i] as int < 256
    requires NEWLINE !in value
    ensures |key| + |value| <= 78 ==> Clean(Line(key, value), 78)
  {
  }

  lemma HexHasNoNewline(digest: Digest)
    ensures NEWLINE !in Hex(digest)
  {
  }

  lemma IdentityLinesAreClean(p: PlanRecord)
    requires TokenText(p.token)
    ensures forall i :: 0 <= i < 8 ==> Clean(PlanLines(p)[i], if i < 4 && i != 1 then 78 else 43)
  {
    hide Line, Decimal, Hex, Clean;
    TextLine("deadflash.plan.v1", []);
    TitleLine();
    NumberLine("source_size=", p.sourceSize);
    HexHasNoNewline(p.sourceSha256);
    TextLine("source_sha256=", Hex(p.sourceSha256));
    TextLine("target_token=", p.token);
    NumberLine("target_kind=", KindCode(p.kind));
    NumberLine("target_size=", p.targetSize);
    NumberLine("logical_sector=", p.logicalSector);
    NumberLine("physical_sector=", p.physicalSector);
  }

  lemma PolicyLinesAreClean(p: PlanRecord)
    ensures forall i :: 8 <= i < 12 ==> Clean(PlanLines(p)[i], 43)
  {
    hide Line, Decimal, Hex, Clean, Ascii;
    NumberLine("verify_mode=", ModeCode(p.verifyMode));
    NumberLine("sample_count=", p.sampleCount);
    NumberLine("buffer_size=", p.bufferSize);
    NumberLine("write_retries=", p.writeRetries);
  }

  lemma FlagLinesAreClean(p: PlanRecord)
    ensures forall i :: 12 <= i < 17 ==> Clean(PlanLines(p)[i], 43)
  {
    hide Line, Decimal, Hex, Clean, Ascii;
    NumberLine("direct_io=", Flag(p.directIo));
    NumberLine("truncate_regular_file=", Flag(p.truncateRegularFile));
    NumberLine("allow_device=", Flag(p.allowDevice));
    NumberLine("force_mounted=", Flag(p.forceMounted));
    NumberLine("force_system_disk=", Flag(p.forceSystemDisk));
  }

  /** Every line is free of line ends, and short. */
  lemma LinesAreClean(p: PlanRecord)
    requires TokenText(p.token)
    ensures Unterminated(NEWLINE, PlanLines(p))
    ensures forall i :: 0 <= i < 17 ==> |PlanLines(p)[i]| <= if i < 4 then 78 else 43
  {
    hide PlanLines;
    IdentityLinesAreClean(p);
    PolicyLinesAreClean(p);
    FlagLinesAreClean(p);
    SeventeenLines(p);
    forall i | 0 <= i < 17
      ensures NEWLINE !in PlanLines(p)[i] && |PlanLines(p)[i]| <= if i < 4 then 78 else 43
    {
      assert Clean(PlanLines(p)[i], if i < 4 && i != 1 then 78 else 43);
    }
  }

  lemma SeventeenLines(p: PlanRecord)
    ensures |PlanLines(p)| == 17
  {
  }

  lemma TitleLine()
    ensures Line("deadflash.plan.v1", []) == Ascii("deadflash.plan.v1")
  {
    assert Ascii("deadflash.plan.v1") + [] == Ascii("deadflash.plan.v1");
  }

  /** The canonical text determines the plan. */
  lemma CanonicalIsInjective(p: PlanRecord, q: PlanRecord)
    requires TokenText(p.token) && TokenText(q.token) && Canonical(p) == Canonical(q)
    ensures p == q
  {
    hide PlanLines, Fields;
    SeventeenLines(p);
    SeventeenLines(q);
    LinesAreClean(p);
    LinesAreClean(q);
    FieldsInjective(NEWLINE, PlanLines(p), PlanLines(q));
    LinesDeterminePlan(p, q);
  }

  /**
   A seal binds its plan: two plans with one seal are the same plan, down to every override and
   default, or their texts are two different inputs with one SHA-256 digest.
   */
  lemma SealBindsPlan(p: PlanRecord, q: PlanRecord)
    requires TokenText(p.token) && TokenText(q.token) && PlanSeal(p) == PlanSeal(q)
    ensures p == q || Collision(Canonical(p), Canonical(q))
  {
    hide Sha256, Canonical;
    if Canonical(p) == Canonical(q) {
      CanonicalIsInjective(p, q);
    }
  }

  lemma {:induction false} FieldsLength(end: Byte, texts: seq<seq<Byte>>, k: nat)
    requires forall i :: 0 <= i < |texts| ==> |texts[i]| <= k
    ensures |Fields(end, texts)| <= |texts| * (k + 1)
  {
    if texts != [] {
      FieldsLength(end, texts[..|texts| - 1], k);
    }
  }

  lemma {:induction false} FieldsAppend(end: Byte, a: seq<seq<Byte>>, b: seq<seq<Byte>>)
    ensures Fields(end, a + b) == Fields(end, a) + Fields(end, b)
  {
    if b == [] {
      assert a + b == a;
    } else {
      var front, last := b[..|b| - 1], b[|b| - 1];
      FieldsAppend(end, a, front);
      assert (a + b)[..|a + b| - 1] == a + front && (a + b)[|a + b| - 1] == last;
      assert (Fields(end, a) + Fields(end, front)) + last + [end] == Fields(end, a) + (Fields(end, front) + last + [end]);
    }
  }

  /** The record always fits its fixed buffer: the overflow error is unreachable. */
  lemma CanonicalFits(p: PlanRecord)
    requires TokenText(p.token)
    ensures |Canonical(p)| < 1024
  {
    hide Fields, PlanLines;
    LinesAreClean(p);
    SeventeenLines(p);
    var lines := PlanLines(p);
    assert lines == lines[..4] + lines[4..];
    FieldsAppend(NEWLINE, lines[..4], lines[4..]);
    FieldsLength(NEWLINE, lines[..4], 78);
    FieldsLength(NEWLINE, lines[4..], 43);
  }

  // The attested write.

  /** The record a run was sealed under speaks about the target and the options of that run. */
  ghost predicate SealedUnder(plan: Attestation, o: WriteOptions) {
    && plan.record == RecordOf(plan.record.sourceSize, plan.record.sourceSha256, plan.target, o)
    && plan.seal == PlanSeal(plan.record) && TokenText(plan.record.token)
    && (plan.target.kind != RegularFile ==>
          o.allowDevice && o.confirmationToken == Some(Token(plan.target)))
  }

  lemma SealedPlans(size: U64, digest: Digest, target: TargetInfo, o: WriteOptions)
    ensures var r := Sealed(size, digest, target, o);
            && (r.Success? ==> SealedUnder(r.value, o))
            && (r.Failure? <==> PlanGate(target, o) != Ok)
            && (r.Failure? ==> r.error == PlanGate(target, o))
  {
    hide Token, Canonical, PlanSeal;
    TokensAreText(target);
    CanonicalFits(RecordOf(size, digest, target, o));
  }

  /** Planning touches nothing, and reports only source hashing. */
  lemma PlanningIsSound(env: Environment, s: Snapshot, options: WriteOptions)
    ensures var (plan, last) := AttestPlan(env, s, options);
            && last.bytes == s.bytes && last.mutations == s.mutations
            && (plan.Success? ==> SealedUnder(plan.value, Defaults(options)) && EndsIn(last.events, HashSource))
            && Orderly(last.events)
            && (plan.Failure? ==> plan.error != Ok)
  {
    hide Sealed, HashRegion, Sha256, Orderly, SealedUnder;
    NoReports();
    var source := env.openSource(s.clock);
    if source.Success? {
      var o := Defaults(options);
      var s1 := Ticked(s.(events := []));
      HashReports(env, SourceSide, HashSource, s1, source.value, o.bufferSize);
      var (data, s2) := HashRegion(env, SourceSide, HashSource, s1, source.value, o.bufferSize);
      if data.Success? && env.inspect(s2.clock).Success? {
        SealedPlans(source.value, DigestOf(data.value), env.inspect(s2.clock).value, o);
      }
    }
    assert source.Failure? ==> source.error != Ok;
  }

  /** The shape of an attested run: refused without a write, or the writer's outcome under a matching seal. */
  lemma AttestedShape(env: Environment, s: Snapshot, options: WriteOptions, seal: seq<Byte>)
    ensures var out, o := RunAttested(env, s, options, seal), Defaults(options);
            match out.write
            case None =>
              && out.status != Ok && out.result == NO_RESULT
              && out.snapshot.bytes == s.bytes && out.snapshot.mutations == s.mutations
            case Some(write) =>
              && out.plan.Some? && SealedUnder(out.plan.value, o) && ParseHex64(seal) == Some(out.plan.value.seal)
              && out.snapshot == write.snapshot && Right(env, o, write)
              && (out.snapshot.mutations != s.mutations || out.snapshot.bytes != s.bytes ==>
                    && write.trace.live.Some? && Authorized(write.trace.live.value, o)
                    && BaseIs(o, write.result.sourceSize, Opened(write.trace.live.value), s.bytes, write.trace.base))
              && (if write.status == Ok && write.result.sourceSha256 != out.plan.value.record.sourceSha256
                  then out.status == IdentityChanged
                       && out.result == write.result.(state := PlanBreachPartialMedia)
                  else out.status == write.status && out.result == write.result)
  {
    hide AttestPlan, RunWrite, Right, SealedUnder, Authorized, Token, BaseIs;
    PlanningIsSound(env, s, options);
    var (plan, s1) := AttestPlan(env, s, options);
    RunIsRight(env, s1, options);
  }

  /**
   A changing source never becomes an attested success: if the run succeeds, the bytes streamed to
   the medium have the sealed source digest, the medium is those bytes over its old contents, and in
   full mode the bytes read back have that digest too, so they are the streamed ones or collide.
   */
  lemma AttestedSuccess(env: Environment, s: Snapshot, options: WriteOptions, seal: seq<Byte>)
    requires RunAttested(env, s, options, seal).status == Ok
    ensures var out, o := RunAttested(env, s, options, seal), Defaults(options);
            && out.write.Some? && out.plan.Some? && ParseHex64(seal) == Some(out.plan.value.seal)
            && SealedUnder(out.plan.value, o)
            && var sealed, trace := out.plan.value.record.sourceSha256, out.write.value.trace;
               && out.result.sourceSha256 == sealed == Sha256(trace.streamed)
               && |trace.streamed| == out.result.sourceSize == out.result.bytesWritten
               && trace.job.Some? && trace.job.value.Valid()
               && out.snapshot.bytes == WholeImage(trace.base, trace.job.value, trace.streamed)
               && (options.verifyMode == VerifyFull ==>
                     && trace.readback.Some? && Sha256(trace.readback.value) == sealed
                     && (trace.readback.value == trace.streamed || Collision(trace.readback.value, trace.streamed)))
  {
    hide RunAttested, SealedUnder, WholeImage, Sha256;
    AttestedShape(env, s, options, seal);
  }

  /** The final state of an attested run: success states are exactly the successes, breaches are told apart. */
  lemma AttestedStates(env: Environment, s: Snapshot, options: WriteOptions, seal: seq<Byte>)
    ensures var out := RunAttested(env, s, options, seal);
            var state := out.result.state;
            && (out.status == Ok <==> state == SuccessVerified || state == SuccessUnverified)
            && (state == SuccessVerified <==> out.status == Ok && options.verifyMode != VerifyNone)
            && (state == PlanBreachPartialMedia <==>
                  out.write.Some? && out.write.value.status == Ok
                  && out.write.value.result.sourceSha256 != out.plan.value.record.sourceSha256)
            && (out.write.None? ==> state == FailedBeforeWrite && out.snapshot.mutations == s.mutations
                                    && out.snapshot.bytes == s.bytes)
            && (state == FailedPartialMedia ==> 0 < out.result.bytesWritten)
            && (state == FailedBeforeWrite ==> out.result.bytesWritten == 0)
  {
    hide RunAttested, SealedUnder, MediumAgrees, ContentAgrees, ReportsAgree, BaseIs, Authorized;
    AttestedShape(env, s, options, seal);
  }

  /** The sealed record carries the options the writer runs with, defaults included. */
  ghost predicate BindsOptions(plan: Attestation, o: WriteOptions) {
    var record := plan.record;
    && plan.seal == PlanSeal(record)
    && record.writeRetries == o.writeRetries && record.sampleCount == o.sampleCount
    && record.bufferSize == o.bufferSize && record.verifyMode == o.verifyMode
    && record.directIo == o.directIo && record.truncateRegularFile == o.truncateRegularFile
    && record.allowDevice == o.allowDevice && record.forceMounted == o.forceMounted
    && record.forceSystemDisk == o.forceSystemDisk
  }

  /** The writer itself works with the sealed parameters: retries, buffer, and the number of sampled blocks. */
  ghost predicate BindsWriter(record: PlanRecord, env: Environment, write: Outcome) {
    && (write.trace.job.Some? ==>
          && write.trace.job.value.retries == record.writeRetries
          && write.trace.job.value.bufferSize
             == RoundUp(record.bufferSize, Max(write.trace.job.value.alignment, MIN_BUFFER_ALIGNMENT)))
    && (write.status == Ok ==>
          && (write.result.state == SuccessVerified <==> record.verifyMode != VerifyNone)
          && (record.verifyMode == VerifySample ==>
                && write.trace.reopened.Some?
                && Sampled(env, write.snapshot.bytes, write.trace.reopened.value.clock, write.result.sourceSha256,
                           record.sampleCount, write.result.bytesVerified)))
  }

  /** Every attested write runs with the parameters of its record. */
  lemma WriterIsBound(env: Environment, s: Snapshot, options: WriteOptions, seal: seq<Byte>)
    ensures var out := RunAttested(env, s, options, seal);
            out.write.Some? ==>
              out.plan.Some? && BindsOptions(out.plan.value, Defaults(options))
              && BindsWriter(out.plan.value.record, env, out.write.value)
  {
    hide AttestPlan, RunWrite, SealedUnder, MediumAgrees, ReportsAgree, EndingsAgree, Authorized, Token, BaseIs, Sampled,
         RoundUp, PlanSeal, WholeImage, Matches;
    PlanningIsSound(env, s, options);
    var (plan, s1) := AttestPlan(env, s, options);
    RunIsRight(env, s1, options);
    if plan.Success? {
      SealedOptions(plan.value, Defaults(options));
      JobOnlyIfInspected(env, s1, options);
    }
  }

  lemma SealedOptions(plan: Attestation, o: WriteOptions)
    requires SealedUnder(plan, o)
    ensures BindsOptions(plan, o)
  {
    hide Token, PlanSeal;
  }

  lemma JobOnlyIfInspected(env: Environment, s: Snapshot, options: WriteOptions)
    ensures env.inspect(s.clock + 1).Failure? ==> RunWrite(env, s, options).trace.job.None?
  {
    hide Hashing;
  }

  /** A seal made for another plan is refused before the writer is called, unless the two records collide. */
  lemma OtherSealsAreRefused(env: Environment, s: Snapshot, options: WriteOptions, seal: seq<Byte>, other: PlanRecord)
    requires TokenText(other.token) && ParseHex64(seal) == Some(PlanSeal(other))
    ensures var out := RunAttested(env, s, options, seal);
            out.write.Some? ==>
              out.plan.Some? && (out.plan.value.record == other
                                 || Collision(Canonical(out.plan.value.record), Canonical(other)))
  {
    hide RunAttested, Canonical, Right, Token, Authorized, BaseIs, Sha256;
    AttestedShape(env, s, options, seal);
    var out := RunAttested(env, s, options, seal);
    if out.write.Some? {
      SealBindsPlan(out.plan.value.record, other);
    }
  }

  /** A completed loop under a seal whose source digest is not that of the streamed bytes. */
  ghost predicate StreamsAnother(out: Attested) {
    && out.write.Some? && out.plan.Some? && out.write.value.trace.job.Some?
    && out.write.value.result.bytesWritten == out.write.value.result.sourceSize
    && !Matches(out.write.value.trace.streamed, out.plan.value.record.sourceSha256)
  }

  /**
   What a stream that disagrees with the plan becomes: a breach exactly when it agrees with the writer's own
   planning pass and flush and verification succeed; otherwise the failure that came before the comparison.
   */
  lemma DisagreementEndsExactly(env: Environment, s: Snapshot, options: WriteOptions, seal: seq<Byte>)
    ensures var out, o := RunAttested(env, s, options, seal), Defaults(options);
            StreamsAnother(out) ==>
              && out.status != Ok
              && var write, state := out.write.value, out.result.state;
                 var same := Matches(write.trace.streamed, write.result.sourceSha256);
                 && (write.trace.flush.Some? <==> same)
                 && (state == PlanBreachPartialMedia <==> same && write.trace.Flushed() && VerifiesAs(env, o, write))
                 && (state == FailedPartialMedia <==> !same || !write.trace.Flushed())
                 && (state == VerificationFailed <==> same && write.trace.Flushed() && !VerifiesAs(env, o, write))
  {
    hide RunAttested, SealedUnder, MediumAgrees, ContentAgrees, ReportsAgree, BaseIs, Authorized, Matches, VerifiesAs;
    AttestedShape(env, s, options, seal);
    var out := RunAttested(env, s, options, seal);
    if StreamsAnother(out) {
      OneDigest(out.write.value.trace.streamed, out.write.value.result.sourceSha256, out.plan.value.record.sourceSha256);
    }
  }

  lemma OneDigest(data: seq<Byte>, x: Digest, y: Digest)
    ensures Matches(data, x) && !Matches(data, y) ==> x != y
  {
  }

  /**
   Device authorization over every run: the medium is touched only if the caller presented the seal
   of a plan recomputed from live state with the same options, and the target found at the open is
   authorized as it is. If the target was a device both when sealed and when opened, the live token,
   the confirmation and the sealed token are one.
   */
  lemma TouchedOnlyIfAuthorized(env: Environment, s: Snapshot, options: WriteOptions, seal: seq<Byte>)
    requires var out := RunAttested(env, s, options, seal);
             out.snapshot.mutations != s.mutations || out.snapshot.bytes != s.bytes
    ensures var out, o := RunAttested(env, s, options, seal), Defaults(options);
            && out.plan.Some? && ParseHex64(seal) == Some(out.plan.value.seal)
            && BindsOptions(out.plan.value, o)
            && out.write.Some? && out.write.value.trace.live.Some?
            && var live, record := out.write.value.trace.live.value, out.plan.value.record;
               && Authorized(live, o)
               && (live.kind != RegularFile && out.plan.value.target.kind != RegularFile ==>
                     o.confirmationToken == Some(Token(live)) && Token(live) == record.token
                     && record.token == Token(out.plan.value.target))
  {
    hide RunAttested, PlanSeal, Right, Token, BaseIs;
    AttestedShape(env, s, options, seal);
  }
}
