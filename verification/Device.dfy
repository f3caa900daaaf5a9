/** Target identity: what inspection reports, the token derived from it, and the gate on opening a target. */
module Device {
  import opened Bytes
  import opened Status
  import opened Text
  import opened Fips180
  import Streaming

  const TOKEN_CHARS := 16

  /** A C string: no byte is the terminator. */
  type CText = s: seq<Byte> | 0 !in s

  /** The kinds a successful inspection reports. */
  datatype TargetKind = RegularFile | BlockDevice | CharDevice

  datatype TargetInfo = TargetInfo(
    path: CText,
    displayName: CText,
    kind: TargetKind,
    sizeBytes: U64,
    logicalSector: U32,
    physicalSector: U32,
    removable: bool,
    readOnly: bool,
    mounted: bool,
    systemDisk: bool,
    descriptorPresent: bool,
    serialBound: bool,
    busType: CText,
    vendor: CText,
    product: CText,
    revision: CText,
    serialSha256: CText)

  datatype VerifyMode = VerifyNone | VerifySample | VerifyFull

  datatype WriteOptions = WriteOptions(
    bufferSize: U64,
    writeRetries: U32,
    verifyMode: VerifyMode,
    sampleCount: U32,
    allowDevice: bool,
    forceMounted: bool,
    forceSystemDisk: bool,
    directIo: bool,
    truncateRegularFile: bool,
    confirmationToken: Option<seq<Byte>>)

  function KindCode(kind: TargetKind): nat {
    match kind
    case RegularFile => 0
    case BlockDevice => 1
    case CharDevice => 2
  }

  function Flag(b: bool): nat {
    if b then 1 else 0
  }

  /** The fields of the canonical target record. */
  function TokenFields(info: TargetInfo): seq<seq<Byte>> {
    [Ascii("deadflash.target.v2"), info.path, Decimal(KindCode(info.kind)), Decimal(info.sizeBytes),
     Decimal(info.logicalSector), Decimal(info.physicalSector), Decimal(Flag(info.readOnly)),
     Decimal(Flag(info.systemDisk)), Decimal(Flag(info.descriptorPresent)), Decimal(Flag(info.serialBound)),
     info.busType, info.vendor, info.product, info.revision, info.serialSha256]
  }

  function TokenRecord(info: TargetInfo): seq<Byte> {
    Fields(0, TokenFields(info))
  }

  function Token(info: TargetInfo): (token: seq<Byte>)
    ensures |token| == TOKEN_CHARS
  {
    Hex(Sha256(TokenRecord(info)))[..TOKEN_CHARS]
  }

  method HashTextField(ctx: Streaming.Context, text: seq<Byte>, ghost before: seq<seq<Byte>>)
    returns (ghost done: seq<seq<Byte>>)
    requires ctx.Valid() && ctx.message == Fields(0, before)
    modifies ctx, ctx.state, ctx.buffer
    ensures done == before + [text]
    ensures ctx.Valid() && ctx.message == Fields(0, done)
  {
    ctx.Update(text);
    ctx.Update([0]);
    done := before + [text];
    assert done[..|before|] == before;
  }

  method HashGeometry(ctx: Streaming.Context, info: TargetInfo, ghost before: seq<seq<Byte>>)
    returns (ghost done: seq<seq<Byte>>)
    requires ctx.Valid() && ctx.message == Fields(0, before)
    modifies ctx, ctx.state, ctx.buffer
    ensures done == before + TokenFields(info)[0..6]
    ensures ctx.Valid() && ctx.message == Fields(0, done)
  {
    hide Fields, Decimal, Ascii, Flag, KindCode, Streaming.Context.Valid;
    assert TokenFields(info)[0..6] == [Ascii("deadflash.target.v2"), info.path, Decimal(KindCode(info.kind)),
                                       Decimal(info.sizeBytes), Decimal(info.logicalSector),
                                       Decimal(info.physicalSector)];
    done := before;
    done := HashTextField(ctx, Ascii("deadflash.target.v2"), done);
    done := HashTextField(ctx, info.path, done);
    done := HashTextField(ctx, Decimal(KindCode(info.kind)), done);
    done := HashTextField(ctx, Decimal(info.sizeBytes), done);
    done := HashTextField(ctx, Decimal(info.logicalSector), done);
    done := HashTextField(ctx, Decimal(info.physicalSector), done);
  }

  method HashFlags(ctx: Streaming.Context, info: TargetInfo, ghost before: seq<seq<Byte>>)
    returns (ghost done: seq<seq<Byte>>)
    requires ctx.Valid() && ctx.message == Fields(0, before)
    modifies ctx, ctx.state, ctx.buffer
    ensures done == before + TokenFields(info)[6..10]
    ensures ctx.Valid() && ctx.message == Fields(0, done)
  {
    hide Fields, Decimal, Ascii, Flag, KindCode, Streaming.Context.Valid;
    assert TokenFields(info)[6..10] == [Decimal(Flag(info.readOnly)), Decimal(Flag(info.systemDisk)),
                                        Decimal(Flag(info.descriptorPresent)), Decimal(Flag(info.serialBound))];
    done := before;
    done := HashTextField(ctx, Decimal(Flag(info.readOnly)), done);
    done := HashTextField(ctx, Decimal(Flag(info.systemDisk)), done);
    done := HashTextField(ctx, Decimal(Flag(info.descriptorPresent)), done);
    done := HashTextField(ctx, Decimal(Flag(info.serialBound)), done);
  }

  method HashDescriptor(ctx: Streaming.Context, info: TargetInfo, ghost before: seq<seq<Byte>>)
    returns (ghost done: seq<seq<Byte>>)
    requires ctx.Valid() && ctx.message == Fields(0, before)
    modifies ctx, ctx.state, ctx.buffer
    ensures done == before + TokenFields(info)[10..15]
    ensures ctx.Valid() && ctx.message == Fields(0, done)
  {
    hide Fields, Decimal, Ascii, Flag, KindCode, Streaming.Context.Valid;
    assert TokenFields(info)[10..15] == [info.busType, info.vendor, info.product, info.revision, info.serialSha256];
    done := before;
    done := HashTextField(ctx, info.busType, done);
    done := HashTextField(ctx, info.vendor, done);
    done := HashTextField(ctx, info.product, done);
    done := HashTextField(ctx, info.revision, done);
    done := HashTextField(ctx, info.serialSha256, done);
  }

  /** Feeds the record into the hash field by field and keeps the first 16 hexadecimal digits. */
  method ComputeTargetToken(info: TargetInfo) returns (token: seq<Byte>)
    ensures token == Token(info)
  {
    hide Sha256, Fields, Hex, Decimal, Ascii, Flag, KindCode, Streaming.Context.Valid;
    var ctx := new Streaming.Context();
    EmptyRecord();
    ghost var done := HashGeometry(ctx, info, []);
    done := HashFlags(ctx, info, done);
    done := HashDescriptor(ctx, info, done);
    assert done == TokenFields(info);
    var digest := ctx.Final();
    var hex := HexEncode(digest);
    token := hex[..TOKEN_CHARS];
  }

  lemma EmptyRecord()
    ensures Fields(0, []) == []
  {
  }

  lemma NoZero(s: string)
    requires forall i :: 0 <= i < |s| ==> 0 < s[i] as int < 256
    ensures 0 !in Ascii(s)
  {
  }

  /** Everything the token speaks about: all of the descriptor except its display name, removable and mounted. */
  predicate SameIdentity(a: TargetInfo, b: TargetInfo) {
    a.(displayName := b.displayName, removable := b.removable, mounted := b.mounted) == b
  }

  lemma TokenFieldsDetermineIdentity(a: TargetInfo, b: TargetInfo)
    requires TokenFields(a) == TokenFields(b)
    ensures SameIdentity(a, b)
  {
    hide Ascii, Decimal;
    var x, y := TokenFields(a), TokenFields(b);
    assert forall i :: 0 <= i < 15 ==> x[i] == y[i];
    DecimalInjective(KindCode(a.kind), KindCode(b.kind));
    DecimalInjective(a.sizeBytes, b.sizeBytes);
    DecimalInjective(a.logicalSector, b.logicalSector);
    DecimalInjective(a.physicalSector, b.physicalSector);
    DecimalInjective(Flag(a.readOnly), Flag(b.readOnly));
    DecimalInjective(Flag(a.systemDisk), Flag(b.systemDisk));
    DecimalInjective(Flag(a.descriptorPresent), Flag(b.descriptorPresent));
    DecimalInjective(Flag(a.serialBound), Flag(b.serialBound));
  }

  lemma TokenFieldsUnterminated(info: TargetInfo)
    ensures Unterminated(0, TokenFields(info))
  {
    hide Decimal, Ascii;
    NoZero("deadflash.target.v2");
  }

  /** The record determines the identity. */
  lemma RecordDeterminesIdentity(a: TargetInfo, b: TargetInfo)
    requires TokenRecord(a) == TokenRecord(b)
    ensures SameIdentity(a, b)
  {
    TokenFieldsUnterminated(a);
    TokenFieldsUnterminated(b);
    FieldsInjective(0, TokenFields(a), TokenFields(b));
    TokenFieldsDetermineIdentity(a, b);
  }

  /** Equal tokens: the same identity, or two different records whose digests share their first 8 bytes. */
  lemma TokenBindsIdentity(a: TargetInfo, b: TargetInfo)
    requires Token(a) == Token(b)
    ensures SameIdentity(a, b)
            || (TokenRecord(a) != TokenRecord(b)
                && Sha256(TokenRecord(a))[..8] == Sha256(TokenRecord(b))[..8])
  {
    hide Sha256, Hex, Fields, TokenFields;
    if TokenRecord(a) == TokenRecord(b) {
      RecordDeterminesIdentity(a, b);
    } else {
      HexPrefixInjective(Sha256(TokenRecord(a)), Sha256(TokenRecord(b)), 8);
    }
  }
}
