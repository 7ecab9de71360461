/** The bytes of the messages, as the Protocol Buffers encoding guide lays them down ("Base 128 Varints", "Message
    Structure", "Packed Repeated Fields"): what is written for each message, and what each run of bytes does when it
    is read. */
module ProtoBytes {
  import opened Basics
  import opened Bytes
  import opened ProtoWire
  import opened ProtoMessages
  import opened ProtoRoundTrip

  // Varints

  function Pow128(k: nat): (p: nat)
    ensures p >= 1
  {
    if k == 0 then 1 else 128 * Pow128(k - 1)
  }

  lemma {:induction false} DivSeven(v: nat, k: nat)
    ensures v / 128 / Pow128(k) == v / Pow128(k + 1)
  {
    var p := Pow128(k);
    var q, r := v / 128 / p, v / 128 % p;
    assert v == 128 * (p * q + r) + v % 128 == (128 * p) * q + (128 * r + v % 128);
    QuotientIs(v, 128 * p, q, 128 * r + v % 128);
  }

  /** Each byte holds seven bits of the number, least significant first; all but the last have the top bit set; and
      there are no more of them than the number needs. */
  lemma {:induction false} VarintDigits(v: nat, i: nat)
    requires i < |Varint(v)|
    ensures Varint(v)[i] % 128 == v / Pow128(i) % 128
    ensures Varint(v)[i] >= 128 <==> i + 1 < |Varint(v)|
    ensures i > 0 ==> v >= Pow128(i)
  {
    if v >= 128 {
      assert Varint(v)[0] == v % 128 + 128;
      if i > 0 {
        VarintDigits(v / 128, i - 1);
        DivSeven(v, i - 1);
        assert Varint(v)[i] == Varint(v / 128)[i - 1];
      }
    }
  }

  /** The number that the seven low bits of each byte make up. */
  function Septets(b: seq<byte>): nat {
    if b == [] then 0 else b[0] % 128 + 128 * Septets(b[1..])
  }

  lemma {:induction false} WithinExactly(b: seq<byte>, bytes: nat, n: nat)
    requires n < |b| && n < bytes && b[n] < 128 && forall i | 0 <= i < n :: b[i] >= 128
    ensures VarintWithin(b, bytes) == Some(Read(Septets(b[..n + 1]), b[n + 1..]))
    decreases n
  {
    assert b[..n + 1][1..] == b[1..][..n];
    if n > 0 {
      assert b[0] >= 128;
      WithinExactly(b[1..], bytes - 1, n - 1);
      assert b[0] % 128 == b[0] - 128;
    }
  }

  lemma {:induction false} WithinFails(b: seq<byte>, bytes: nat)
    requires forall i | 0 <= i < |b| && i < bytes :: b[i] >= 128
    ensures VarintWithin(b, bytes) == None
    decreases bytes
  {
    if b != [] && bytes > 0 {
      assert b[0] >= 128;
      WithinFails(b[1..], bytes - 1);
    }
  }

  /** Reading takes the bytes up to the first without the top bit, of which there must be one among the first ten, and
      keeps 64 bits of their number. */
  lemma ReadVarintExactly(b: seq<byte>, n: nat)
    requires n <= |b| && n <= 10 && forall i | 0 <= i < n :: b[i] >= 128
    requires n < |b| && n < 10 ==> b[n] < 128
    ensures ReadVarint(b)
         == if n < |b| && n < 10 then Some(Read(Septets(b[..n + 1]) % 0x1_0000_0000_0000_0000, b[n + 1..])) else None
  {
    if n < |b| && n < 10 {
      WithinExactly(b, 10, n);
    } else {
      WithinFails(b, 10);
    }
  }

  // Fields

  /** A field's bytes: eight times its number plus the wire type, and what belongs to that type. */
  lemma FieldInBytes(number: nat, value: u64, payload: seq<byte>, raw: seq<byte>)
    ensures EncodeField(Number(number, value)) == Varint(8 * number + 0) + Varint(value)
    ensures EncodeField(Bytes(number, payload)) == Varint(8 * number + 2) + (Varint(|payload|) + payload)
    ensures EncodeField(Fixed(number, 8, raw)) == Varint(8 * number + 1) + raw
    ensures EncodeField(Fixed(number, 4, raw)) == Varint(8 * number + 5) + raw
  {
  }

  /** Reading a field whose tag is the given number: of 32 bits, with a field number other than zero, and of one of the
      four wire types. */
  lemma FieldIsRead(b: seq<byte>, tag: u64, rest: seq<byte>)
    requires ReadVarint(b) == Some(Read(tag, rest))
    ensures tag < 8 || tag >= 0x1_0000_0000 || tag % 8 in {3, 4, 6, 7} ==> ReadField(b) == None
    ensures 8 <= tag < 0x1_0000_0000 && tag % 8 == 0 ==>
              ReadField(b) == match ReadVarint(rest)
                              case None => None
                              case Some(r) => Some(Read(Number(tag / 8, r.value), r.rest))
    ensures 8 <= tag < 0x1_0000_0000 && tag % 8 == 1 ==>
              ReadField(b) == if |rest| < 8 then None else Some(Read(Fixed(tag / 8, 8, rest[..8]), rest[8..]))
    ensures 8 <= tag < 0x1_0000_0000 && tag % 8 == 5 ==>
              ReadField(b) == if |rest| < 4 then None else Some(Read(Fixed(tag / 8, 4, rest[..4]), rest[4..]))
    ensures 8 <= tag < 0x1_0000_0000 && tag % 8 == 2 ==>
              ReadField(b) == match ReadVarint(rest)
                              case None => None
                              case Some(r) =>
                                if |r.rest| < r.value then None
                                else Some(Read(Bytes(tag / 8, r.rest[..r.value]), r.rest[r.value..]))
  {
    hide ReadVarint;
  }

  function Num(tag: byte, value: u64): seq<byte> {
    if value == 0 then [] else [tag] + Varint(value)
  }

  function Nums(tag: byte, values: seq<u64>): seq<byte> {
    if values == [] then [] else [tag] + Varint(values[0]) + Nums(tag, values[1..])
  }

  function Delimited(tag: byte, payload: seq<byte>): seq<byte> {
    [tag] + Varint(|payload|) + payload
  }

  function Str(tag: byte, text: seq<byte>): seq<byte> {
    if text == [] then [] else Delimited(tag, text)
  }

  function Each(tag: byte, payloads: seq<seq<byte>>): seq<byte> {
    if payloads == [] then [] else Delimited(tag, payloads[0]) + Each(tag, payloads[1..])
  }

  lemma SmallTag(number: nat, wire: nat)
    requires number < 16 && wire < 8
    ensures EncodeTag(number, wire) == [8 * number + wire]
  {
  }

  lemma BytesInBytes(number: nat, payload: seq<byte>)
    requires 0 < number < 16
    ensures EncodeField(Bytes(number, payload)) == Delimited(8 * number + 2, payload)
  {
    SmallTag(number, 2);
    assert [8 * number + 2] + (Varint(|payload|) + payload) == Delimited(8 * number + 2, payload);
  }

  lemma NumInBytes(number: nat, value: u64)
    requires 0 < number < 16
    ensures EncodeAll(NumberField(number, value)) == Num(8 * number, value)
  {
    SmallTag(number, 0);
    if value != 0 {
      var f := EncodeField(Number(number, value));
      assert f == Num(8 * number, value) && f + [] == f;
    }
  }

  lemma {:induction false} NumsInBytes(number: nat, values: seq<u64>)
    requires 0 < number < 16
    ensures EncodeAll(NumberFields(number, values)) == Nums(8 * number, values)
    decreases |values|
  {
    if values != [] {
      SmallTag(number, 0);
      NumsInBytes(number, values[1..]);
      assert NumberFields(number, values)[1..] == NumberFields(number, values[1..]);
    }
  }

  lemma StrInBytes(number: nat, text: seq<byte>)
    requires 0 < number < 16
    ensures EncodeAll(TextField(number, text)) == Str(8 * number + 2, text)
  {
    if text != [] {
      BytesInBytes(number, text);
      assert EncodeField(Bytes(number, text)) + [] == EncodeField(Bytes(number, text));
    }
  }

  lemma {:induction false} EachInBytes(number: nat, payloads: seq<seq<byte>>)
    requires 0 < number < 16
    ensures EncodeAll(TextFields(number, payloads)) == Each(8 * number + 2, payloads)
    decreases |payloads|
  {
    hide EncodeField, Delimited;
    if payloads != [] {
      BytesInBytes(number, payloads[0]);
      EachInBytes(number, payloads[1..]);
      assert TextFields(number, payloads)[1..] == TextFields(number, payloads[1..]);
    }
  }

  lemma MessageInBytes(number: nat, encoding: Option<seq<byte>>)
    requires 0 < number < 16
    ensures EncodeAll(MessageField(number, encoding))
         == if encoding.None? then [] else Delimited(8 * number + 2, encoding.value)
  {
    if encoding.Some? {
      BytesInBytes(number, encoding.value);
      var f := EncodeField(Bytes(number, encoding.value));
      assert f + [] == f;
    }
  }

  /** Four runs of fields. */
  lemma FourRuns(a: seq<Field>, b: seq<Field>, c: seq<Field>, d: seq<Field>)
    ensures EncodeAll(a + b + c + d) == EncodeAll(a) + EncodeAll(b) + EncodeAll(c) + EncodeAll(d)
  {
    hide EncodeAll;
    EncodeAllConcat(a, b);
    EncodeAllConcat(a + b, c);
    EncodeAllConcat(a + b + c, d);
  }

  // What is written

  lemma UsageInBytes(v: Usage)
    ensures EncodeUsage(v)
         == Num(0x08, v.total) + Nums(0x10, v.perCpu) + Num(0x18, v.kernel) + Num(0x20, v.user)
            + EncodeAll(v.unknown)
  {
    var a, b := NumberField(1, v.total), NumberFields(2, v.perCpu);
    var c, d := NumberField(3, v.kernel), NumberField(4, v.user);
    hide EncodeAll, NumberField, NumberFields, Num, Nums;
    NumInBytes(1, v.total);
    NumsInBytes(2, v.perCpu);
    NumInBytes(3, v.kernel);
    NumInBytes(4, v.user);
    EncodeAllConcat(a, b);
    EncodeAllConcat(a + b, c);
    EncodeAllConcat(a + b + c, d);
    EncodeAllConcat(a + b + c + d, v.unknown);
  }

  lemma ThrottlingInBytes(v: Throttling)
    ensures EncodeThrottling(v)
         == Num(0x08, v.periods) + Num(0x10, v.throttledPeriods) + Num(0x18, v.throttledTime) + EncodeAll(v.unknown)
  {
    var a, b, c := NumberField(1, v.periods), NumberField(2, v.throttledPeriods), NumberField(3, v.throttledTime);
    hide EncodeAll, NumberField, Num;
    NumInBytes(1, v.periods);
    NumInBytes(2, v.throttledPeriods);
    NumInBytes(3, v.throttledTime);
    EncodeAllConcat(a, b);
    EncodeAllConcat(a + b, c);
    EncodeAllConcat(a + b + c, v.unknown);
  }

  lemma StatsInBytes(v: Stats)
    ensures EncodeStats(v)
         == (match v.usage case None => [] case Some(u) => Delimited(0x0A, EncodeUsage(u)))
            + (match v.throttling case None => [] case Some(t) => Delimited(0x12, EncodeThrottling(t)))
            + EncodeAll(v.unknown)
  {
    var a, b := MessageField(1, UsageBytes(v.usage)), MessageField(2, ThrottlingBytes(v.throttling));
    hide EncodeAll, MessageField, UsageBytes, ThrottlingBytes, EncodeUsage, EncodeThrottling, Delimited;
    StatsFieldsInBytes(v.usage, v.throttling);
    EncodeAllConcat(a, b);
    EncodeAllConcat(a + b, v.unknown);
  }

  lemma StatsFieldsInBytes(usage: Option<Usage>, throttling: Option<Throttling>)
    ensures EncodeAll(MessageField(1, UsageBytes(usage)))
         == match usage case None => [] case Some(u) => Delimited(0x0A, EncodeUsage(u))
    ensures EncodeAll(MessageField(2, ThrottlingBytes(throttling)))
         == match throttling case None => [] case Some(t) => Delimited(0x12, EncodeThrottling(t))
  {
    hide EncodeAll, MessageField, EncodeUsage, EncodeThrottling, Delimited;
    MessageInBytes(1, UsageBytes(usage));
    MessageInBytes(2, ThrottlingBytes(throttling));
  }

  lemma UserInBytes(v: User)
    ensures EncodeUser(v)
         == Str(0x0A, v.uid) + Str(0x12, v.gid) + Each(0x1A, v.additionalGids) + EncodeAll(v.unknown)
  {
    var a, b, c := TextField(1, v.uid), TextField(2, v.gid), TextFields(3, v.additionalGids);
    hide EncodeAll, TextField, TextFields, Str, Each;
    StrInBytes(1, v.uid);
    StrInBytes(2, v.gid);
    EachInBytes(3, v.additionalGids);
    EncodeAllConcat(a, b);
    EncodeAllConcat(a + b, c);
    EncodeAllConcat(a + b + c, v.unknown);
  }

  lemma DevInBytes(v: Dev)
    ensures EncodeDev(v)
         == Str(0x0A, v.id) + Str(0x12, v.kind) + Str(0x1A, v.vmPath) + Str(0x22, v.containerPath)
            + Each(0x2A, v.options) + EncodeAll(v.unknown)
  {
    var a, b, c := TextField(1, v.id), TextField(2, v.kind), TextField(3, v.vmPath);
    var d, e := TextField(4, v.containerPath), TextFields(5, v.options);
    hide EncodeAll, TextField, TextFields, Str, Each;
    StrInBytes(1, v.id);
    StrInBytes(2, v.kind);
    StrInBytes(3, v.vmPath);
    StrInBytes(4, v.containerPath);
    EachInBytes(5, v.options);
    EncodeAllConcat(a, b);
    EncodeAllConcat(a + b, c);
    EncodeAllConcat(a + b + c, d);
    EncodeAllConcat(a + b + c + d, e);
    EncodeAllConcat(a + b + c + d + e, v.unknown);
  }

  lemma StoreInBytes(v: Store)
    ensures EncodeStore(v)
         == Str(0x0A, v.driver) + Each(0x12, v.driverOptions) + Str(0x1A, v.source) + Str(0x22, v.fstype)
            + Each(0x2A, v.options) + Str(0x32, v.mountPoint) + EncodeAll(v.unknown)
  {
    var a, b, c := TextField(1, v.driver), TextFields(2, v.driverOptions), TextField(3, v.source);
    var d, e, f := TextField(4, v.fstype), TextFields(5, v.options), TextField(6, v.mountPoint);
    hide EncodeAll, TextField, TextFields, Str, Each;
    StrInBytes(1, v.driver);
    EachInBytes(2, v.driverOptions);
    StrInBytes(3, v.source);
    StrInBytes(4, v.fstype);
    EachInBytes(5, v.options);
    StrInBytes(6, v.mountPoint);
    EncodeAllConcat(a, b);
    EncodeAllConcat(a + b, c);
    EncodeAllConcat(a + b + c, d);
    EncodeAllConcat(a + b + c + d, e);
    EncodeAllConcat(a + b + c + d + e, f);
    EncodeAllConcat(a + b + c + d + e + f, v.unknown);
  }

  lemma FlagInBytes(flag: bool)
    ensures EncodeAll(FlagField(7, flag)) == if flag then [0x38, 0x01] else []
  {
    if flag {
      SmallTag(7, 0);
      assert EncodeField(Number(7, 1)) == [0x38] + [0x01];
      assert EncodeField(Number(7, 1)) + [] == EncodeField(Number(7, 1));
    }
  }

  function Front(v: Creation): seq<Field> {
    TextField(1, v.containerId) + TextField(2, v.execId) + MessageField(3, UserBytes(v.user))
    + TextFields(4, DevEncodings(v.devices))
  }

  lemma UserFieldInBytes(user: Option<User>)
    ensures EncodeAll(MessageField(3, UserBytes(user)))
         == match user case None => [] case Some(u) => Delimited(0x1A, EncodeUser(u))
  {
    hide EncodeAll, MessageField, EncodeUser, Delimited;
    MessageInBytes(3, UserBytes(user));
  }

  lemma OciFieldInBytes(oci: Option<Spec>)
    ensures EncodeAll(MessageField(6, SpecBytes(oci)))
         == match oci case None => [] case Some(o) => Delimited(0x32, EncodeAll(o.fields))
  {
    hide EncodeAll, MessageField, Delimited;
    MessageInBytes(6, SpecBytes(oci));
  }

  lemma FrontInBytes(v: Creation)
    ensures EncodeAll(Front(v))
         == Str(0x0A, v.containerId) + Str(0x12, v.execId)
            + (match v.user case None => [] case Some(u) => Delimited(0x1A, EncodeUser(u)))
            + Each(0x22, DevEncodings(v.devices))
  {
    hide EncodeAll, TextField, TextFields, MessageField, UserBytes, Str, Each, Delimited, DevEncodings, EncodeUser;
    FourRuns(TextField(1, v.containerId), TextField(2, v.execId), MessageField(3, UserBytes(v.user)),
             TextFields(4, DevEncodings(v.devices)));
    StrInBytes(1, v.containerId);
    StrInBytes(2, v.execId);
    UserFieldInBytes(v.user);
    EachInBytes(4, DevEncodings(v.devices));
  }

  function Back(v: Creation): seq<Field> {
    TextFields(5, StoreEncodings(v.storages)) + MessageField(6, SpecBytes(v.oci)) + FlagField(7, v.sandboxPidns)
    + v.unknown
  }

  lemma BackInBytes(v: Creation)
    ensures EncodeAll(Back(v))
         == Each(0x2A, StoreEncodings(v.storages))
            + (match v.oci case None => [] case Some(o) => Delimited(0x32, EncodeAll(o.fields)))
            + (if v.sandboxPidns then [0x38, 0x01] else []) + EncodeAll(v.unknown)
  {
    hide EncodeAll, TextFields, MessageField, SpecBytes, FlagField, Each, Delimited, StoreEncodings;
    FourRuns(TextFields(5, StoreEncodings(v.storages)), MessageField(6, SpecBytes(v.oci)), FlagField(7, v.sandboxPidns),
             v.unknown);
    EachInBytes(5, StoreEncodings(v.storages));
    OciFieldInBytes(v.oci);
    FlagInBytes(v.sandboxPidns);
  }

  lemma CreationInBytes(v: Creation)
    ensures EncodeCreation(v)
         == Str(0x0A, v.containerId) + Str(0x12, v.execId)
            + (match v.user case None => [] case Some(u) => Delimited(0x1A, EncodeUser(u)))
            + Each(0x22, DevEncodings(v.devices)) + Each(0x2A, StoreEncodings(v.storages))
            + (match v.oci case None => [] case Some(o) => Delimited(0x32, EncodeAll(o.fields)))
            + (if v.sandboxPidns then [0x38, 0x01] else []) + EncodeAll(v.unknown)
  {
    hide CreationFields, Front, Back, EncodeAll, Str, Each, Delimited, DevEncodings, StoreEncodings, EncodeUser;
    FrontInBytes(v);
    BackInBytes(v);
    TwoParts(v);
    EncodeAllConcat(Front(v), Back(v));
  }

  lemma TwoParts(v: Creation)
    ensures CreationFields(v) == Front(v) + Back(v)
  {
    hide TextField, TextFields, MessageField, FlagField, DevEncodings, StoreEncodings;
  }

  // What is read

  /** One field, and what comes after it. */
  lemma MergeOne<V>(apply: (V, Field) -> Option<V>, v: V, f: Field, rest: seq<byte>)
    requires Encodable(f)
    ensures Merge(apply, v, EncodeField(f) + rest)
         == match apply(v, f) case None => None case Some(w) => Merge(apply, w, rest)
  {
    hide EncodeField, Encodable, ReadField;
    ReadFieldOfEncode(f, rest);
    assert EncodeField(f) + rest != [];
  }

  lemma MergeNumber<V>(apply: (V, Field) -> Option<V>, v: V, number: nat, x: u64, rest: seq<byte>)
    requires 0 < number < 16
    ensures Merge(apply, v, [8 * number] + Varint(x) + rest)
         == match apply(v, Number(number, x)) case None => None case Some(w) => Merge(apply, w, rest)
  {
    SmallTag(number, 0);
    assert EncodeField(Number(number, x)) == [8 * number] + Varint(x);
    hide EncodeField, Merge;
    MergeOne(apply, v, Number(number, x), rest);
  }

  lemma MergeBytes<V>(apply: (V, Field) -> Option<V>, v: V, number: nat, payload: seq<byte>, rest: seq<byte>)
    requires 0 < number < 16 && |payload| < 0x1_0000_0000
    ensures Merge(apply, v, Delimited(8 * number + 2, payload) + rest)
         == match apply(v, Bytes(number, payload)) case None => None case Some(w) => Merge(apply, w, rest)
  {
    hide EncodeField, Merge, Delimited;
    BytesInBytes(number, payload);
    MergeOne(apply, v, Bytes(number, payload), rest);
  }

  /** The last of several numbers counts; per-CPU values are appended, one by one or packed. */
  lemma UsageTakes(v: Usage, x: u64, xs: seq<u64>, rest: seq<byte>)
    ensures Merge(ApplyUsage, v, [0x08] + Varint(x) + rest) == Merge(ApplyUsage, v.(total := x), rest)
    ensures Merge(ApplyUsage, v, [0x10] + Varint(x) + rest) == Merge(ApplyUsage, v.(perCpu := v.perCpu + [x]), rest)
    ensures |Pack(xs)| < 0x1_0000_0000 ==>
              Merge(ApplyUsage, v, Delimited(0x12, Pack(xs)) + rest)
              == Merge(ApplyUsage, v.(perCpu := v.perCpu + xs), rest)
    ensures Merge(ApplyUsage, v, [0x18] + Varint(x) + rest) == Merge(ApplyUsage, v.(kernel := x), rest)
    ensures Merge(ApplyUsage, v, [0x20] + Varint(x) + rest) == Merge(ApplyUsage, v.(user := x), rest)
  {
    hide Merge, Varint, Delimited, Pack, Packed;
    MergeNumber(ApplyUsage, v, 1, x, rest);
    MergeNumber(ApplyUsage, v, 2, x, rest);
    MergeNumber(ApplyUsage, v, 3, x, rest);
    MergeNumber(ApplyUsage, v, 4, x, rest);
    PackedOfPack(xs);
    if |Pack(xs)| < 0x1_0000_0000 {
      MergeBytes(ApplyUsage, v, 2, Pack(xs), rest);
    }
  }

  lemma ThrottlingTakes(v: Throttling, x: u64, rest: seq<byte>)
    ensures Merge(ApplyThrottling, v, [0x08] + Varint(x) + rest) == Merge(ApplyThrottling, v.(periods := x), rest)
    ensures Merge(ApplyThrottling, v, [0x10] + Varint(x) + rest)
         == Merge(ApplyThrottling, v.(throttledPeriods := x), rest)
    ensures Merge(ApplyThrottling, v, [0x18] + Varint(x) + rest) == Merge(ApplyThrottling, v.(throttledTime := x), rest)
  {
    hide Merge, Varint;
    assert ApplyThrottling(v, Number(1, x)) == Some(v.(periods := x));
    assert ApplyThrottling(v, Number(2, x)) == Some(v.(throttledPeriods := x));
    assert ApplyThrottling(v, Number(3, x)) == Some(v.(throttledTime := x));
    hide ApplyThrottling;
    MergeNumber(ApplyThrottling, v, 1, x, rest);
    MergeNumber(ApplyThrottling, v, 2, x, rest);
    MergeNumber(ApplyThrottling, v, 3, x, rest);
  }

  /** A nested message is read on its own and replaces the one there was. */
  lemma StatsTakes(v: Stats, b: seq<byte>, rest: seq<byte>)
    requires |b| < 0x1_0000_0000
    ensures Merge(ApplyStats, v, Delimited(0x0A, b) + rest)
         == match Merge(ApplyUsage, NO_USAGE, b)
            case None => None
            case Some(u) => Merge(ApplyStats, v.(usage := Some(u)), rest)
    ensures Merge(ApplyStats, v, Delimited(0x12, b) + rest)
         == match Merge(ApplyThrottling, NO_THROTTLING, b)
            case None => None
            case Some(t) => Merge(ApplyStats, v.(throttling := Some(t)), rest)
  {
    hide Merge, Delimited;
    MergeBytes(ApplyStats, v, 1, b, rest);
    MergeBytes(ApplyStats, v, 2, b, rest);
  }

  lemma UserTakes(v: User, b: seq<byte>, rest: seq<byte>)
    requires |b| < 0x1_0000_0000
    ensures Merge(ApplyUser, v, Delimited(0x0A, b) + rest) == Merge(ApplyUser, v.(uid := b), rest)
    ensures Merge(ApplyUser, v, Delimited(0x12, b) + rest) == Merge(ApplyUser, v.(gid := b), rest)
    ensures Merge(ApplyUser, v, Delimited(0x1A, b) + rest)
         == Merge(ApplyUser, v.(additionalGids := v.additionalGids + [b]), rest)
  {
    hide Merge, Delimited;
    MergeBytes(ApplyUser, v, 1, b, rest);
    MergeBytes(ApplyUser, v, 2, b, rest);
    MergeBytes(ApplyUser, v, 3, b, rest);
  }

  lemma DevTakes(v: Dev, b: seq<byte>, rest: seq<byte>)
    requires |b| < 0x1_0000_0000
    ensures Merge(ApplyDev, v, Delimited(0x0A, b) + rest) == Merge(ApplyDev, v.(id := b), rest)
    ensures Merge(ApplyDev, v, Delimited(0x12, b) + rest) == Merge(ApplyDev, v.(kind := b), rest)
    ensures Merge(ApplyDev, v, Delimited(0x1A, b) + rest) == Merge(ApplyDev, v.(vmPath := b), rest)
    ensures Merge(ApplyDev, v, Delimited(0x22, b) + rest) == Merge(ApplyDev, v.(containerPath := b), rest)
    ensures Merge(ApplyDev, v, Delimited(0x2A, b) + rest) == Merge(ApplyDev, v.(options := v.options + [b]), rest)
  {
    hide Merge, Delimited;
    MergeBytes(ApplyDev, v, 1, b, rest);
    MergeBytes(ApplyDev, v, 2, b, rest);
    MergeBytes(ApplyDev, v, 3, b, rest);
    MergeBytes(ApplyDev, v, 4, b, rest);
    MergeBytes(ApplyDev, v, 5, b, rest);
  }

  lemma StoreTakes(v: Store, b: seq<byte>, rest: seq<byte>)
    requires |b| < 0x1_0000_0000
    ensures Merge(ApplyStore, v, Delimited(0x0A, b) + rest) == Merge(ApplyStore, v.(driver := b), rest)
    ensures Merge(ApplyStore, v, Delimited(0x12, b) + rest)
         == Merge(ApplyStore, v.(driverOptions := v.driverOptions + [b]), rest)
    ensures Merge(ApplyStore, v, Delimited(0x1A, b) + rest) == Merge(ApplyStore, v.(source := b), rest)
    ensures Merge(ApplyStore, v, Delimited(0x22, b) + rest) == Merge(ApplyStore, v.(fstype := b), rest)
    ensures Merge(ApplyStore, v, Delimited(0x2A, b) + rest) == Merge(ApplyStore, v.(options := v.options + [b]), rest)
    ensures Merge(ApplyStore, v, Delimited(0x32, b) + rest) == Merge(ApplyStore, v.(mountPoint := b), rest)
  {
    hide Merge, Delimited;
    MergeBytes(ApplyStore, v, 1, b, rest);
    MergeBytes(ApplyStore, v, 2, b, rest);
    MergeBytes(ApplyStore, v, 3, b, rest);
    MergeBytes(ApplyStore, v, 4, b, rest);
    MergeBytes(ApplyStore, v, 5, b, rest);
    MergeBytes(ApplyStore, v, 6, b, rest);
  }

  lemma CreationTakes(v: Creation, b: seq<byte>, x: u64, rest: seq<byte>)
    requires |b| < 0x1_0000_0000
    ensures Merge(ApplyCreation, v, Delimited(0x0A, b) + rest) == Merge(ApplyCreation, v.(containerId := b), rest)
    ensures Merge(ApplyCreation, v, Delimited(0x12, b) + rest) == Merge(ApplyCreation, v.(execId := b), rest)
    ensures Merge(ApplyCreation, v, Delimited(0x1A, b) + rest)
         == match Merge(ApplyUser, NO_USER, b)
            case None => None
            case Some(u) => Merge(ApplyCreation, v.(user := Some(u)), rest)
    ensures Merge(ApplyCreation, v, Delimited(0x22, b) + rest)
         == match Merge(ApplyDev, NO_DEV, b)
            case None => None
            case Some(d) => Merge(ApplyCreation, v.(devices := v.devices + [d]), rest)
    ensures Merge(ApplyCreation, v, Delimited(0x2A, b) + rest)
         == match Merge(ApplyStore, NO_STORE, b)
            case None => None
            case Some(s) => Merge(ApplyCreation, v.(storages := v.storages + [s]), rest)
    ensures Merge(ApplyCreation, v, Delimited(0x32, b) + rest)
         == match Merge(ApplySpec, NO_SPEC, b)
            case None => None
            case Some(o) => Merge(ApplyCreation, v.(oci := Some(o)), rest)
    ensures Merge(ApplyCreation, v, [0x38] + Varint(x) + rest)
         == Merge(ApplyCreation, v.(sandboxPidns := x != 0), rest)
  {
    hide Merge, Delimited, Varint;
    MergeBytes(ApplyCreation, v, 1, b, rest);
    MergeBytes(ApplyCreation, v, 2, b, rest);
    MergeBytes(ApplyCreation, v, 3, b, rest);
    MergeBytes(ApplyCreation, v, 4, b, rest);
    MergeBytes(ApplyCreation, v, 5, b, rest);
    MergeBytes(ApplyCreation, v, 6, b, rest);
    MergeNumber(ApplyCreation, v, 7, x, rest);
  }

  /** A known field of another wire type makes reading fail. */
  lemma WrongTypesAreRefused(usage: Usage, throttling: Throttling, stats: Stats, user: User, dev: Dev, store: Store,
                             creation: Creation, f: Field)
    ensures f.number in {1, 3, 4} && !f.Number? ==> ApplyUsage(usage, f) == None
    ensures f.number == 2 && f.Fixed? ==> ApplyUsage(usage, f) == None
    ensures f.number in {1, 2, 3} && !f.Number? ==> ApplyThrottling(throttling, f) == None
    ensures f.number in {1, 2} && !f.Bytes? ==> ApplyStats(stats, f) == None
    ensures f.number in {1, 2, 3} && !f.Bytes? ==> ApplyUser(user, f) == None
    ensures f.number in {1, 2, 3, 4, 5} && !f.Bytes? ==> ApplyDev(dev, f) == None
    ensures f.number in {1, 2, 3, 4, 5, 6} && !f.Bytes? ==> ApplyStore(store, f) == None
    ensures f.number in {1, 2, 3, 4, 5, 6} && !f.Bytes? ==> ApplyCreation(creation, f) == None
    ensures f.number == 7 && !f.Number? ==> ApplyCreation(creation, f) == None
  {
  }

  // In figures

  lemma SmallNumber(x: u64)
    ensures x < 128 ==> Varint(x) == [x]
    ensures Varint(300) == [0xAC, 0x02]
  {
    assert Varint(300) == [300 % 128 + 128] + Varint(2);
  }

  /** One nanosecond in all is two bytes. */
  lemma UsageExample()
    ensures EncodeUsage(Usage(1, [], 0, 0, [])) == [0x08, 0x01]
    ensures Merge(ApplyUsage, NO_USAGE, [0x08, 0x01]) == Some(Usage(1, [], 0, 0, []))
  {
    SmallNumber(1);
    UsageInBytes(Usage(1, [], 0, 0, []));
    UsageTakes(NO_USAGE, 1, [], []);
    assert [0x08] + Varint(1) + [] == [0x08, 0x01];
  }

  /** Three hundred in kernel mode are three. */
  lemma TwoByteExample()
    ensures EncodeUsage(Usage(0, [], 300, 0, [])) == [0x18, 0xAC, 0x02]
    ensures Merge(ApplyUsage, NO_USAGE, [0x18, 0xAC, 0x02]) == Some(Usage(0, [], 300, 0, []))
  {
    hide Varint;
    SmallNumber(300);
    UsageInBytes(Usage(0, [], 300, 0, []));
    UsageTakes(NO_USAGE, 300, [], []);
    assert [0x18] + Varint(300) + [] == [0x18, 0xAC, 0x02];
  }

  lemma ThrottlingExample()
    ensures EncodeThrottling(Throttling(2, 0, 5, [])) == [0x08, 0x02, 0x18, 0x05]
    ensures Merge(ApplyThrottling, NO_THROTTLING, [0x08, 0x02, 0x18, 0x05]) == Some(Throttling(2, 0, 5, []))
  {
    SmallNumber(2);
    SmallNumber(5);
    ThrottlingInBytes(Throttling(2, 0, 5, []));
    ThrottlingRoundTrip(Throttling(2, 0, 5, []));
  }

  /** A message within a message, with its length before it. */
  lemma StatsExample()
    ensures EncodeStats(Stats(Some(Usage(1, [], 0, 0, [])), None, [])) == [0x0A, 0x02, 0x08, 0x01]
    ensures Merge(ApplyStats, NO_STATS, [0x0A, 0x02, 0x08, 0x01])
         == Some(Stats(Some(Usage(1, [], 0, 0, [])), None, []))
  {
    hide EncodeUsage;
    var v := Stats(Some(Usage(1, [], 0, 0, [])), None, []);
    UsageExample();
    SmallNumber(2);
    StatsInBytes(v);
    assert Delimited(0x0A, [0x08, 0x01]) == [0x0A, 0x02, 0x08, 0x01];
    StatsRoundTrip(v);
  }

  lemma ShortText(number: nat, c: byte)
    requires 0 < number < 16
    ensures Delimited(8 * number + 2, [c]) == [8 * number + 2, 0x01, c]
  {
    SmallNumber(1);
  }

  lemma NothingWritten(tag: byte)
    ensures EncodeAll([]) == [] && Each(tag, []) == [] && Str(tag, []) == []
  {
  }

  lemma UserExample()
    ensures EncodeUser(User([0x30], [0x31], [[0x32]], []))
         == [0x0A, 0x01, 0x30, 0x12, 0x01, 0x31, 0x1A, 0x01, 0x32]
    ensures Merge(ApplyUser, NO_USER, [0x0A, 0x01, 0x30, 0x12, 0x01, 0x31, 0x1A, 0x01, 0x32])
         == Some(User([0x30], [0x31], [[0x32]], []))
  {
    UserExampleBytes();
    hide EncodeUser;
    UserRoundTrip(User([0x30], [0x31], [[0x32]], []));
  }

  lemma UserExampleBytes()
    ensures EncodeUser(User([0x30], [0x31], [[0x32]], []))
         == [0x0A, 0x01, 0x30, 0x12, 0x01, 0x31, 0x1A, 0x01, 0x32]
  {
    ShortText(1, 0x30);
    ShortText(2, 0x31);
    ShortText(3, 0x32);
    hide EncodeUser, Delimited, Varint;
    NothingWritten(0x1A);
    assert Each(0x1A, [[0x32]]) == [0x1A, 0x01, 0x32] by {
      assert [[0x32]][1..] == [];
    }
    hide Each, EncodeAll;
    UserInBytes(User([0x30], [0x31], [[0x32]], []));
  }

  lemma DevExample()
    ensures EncodeDev(Dev([], [0x62], [], [0x63], [], [])) == [0x12, 0x01, 0x62, 0x22, 0x01, 0x63]
    ensures Merge(ApplyDev, NO_DEV, [0x12, 0x01, 0x62, 0x22, 0x01, 0x63])
         == Some(Dev([], [0x62], [], [0x63], [], []))
  {
    DevExampleBytes();
    hide EncodeDev;
    DevRoundTrip(Dev([], [0x62], [], [0x63], [], []));
  }

  lemma DevExampleBytes()
    ensures EncodeDev(Dev([], [0x62], [], [0x63], [], [])) == [0x12, 0x01, 0x62, 0x22, 0x01, 0x63]
  {
    hide EncodeDev, Delimited, Varint, Each, EncodeAll;
    NothingWritten(0x2A);
    ShortText(2, 0x62);
    ShortText(4, 0x63);
    DevInBytes(Dev([], [0x62], [], [0x63], [], []));
  }

  lemma StoreExample()
    ensures EncodeStore(Store([0x39], [], [], [], [], [0x6D], [])) == [0x0A, 0x01, 0x39, 0x32, 0x01, 0x6D]
    ensures Merge(ApplyStore, NO_STORE, [0x0A, 0x01, 0x39, 0x32, 0x01, 0x6D])
         == Some(Store([0x39], [], [], [], [], [0x6D], []))
  {
    StoreExampleBytes();
    hide EncodeStore;
    StoreRoundTrip(Store([0x39], [], [], [], [], [0x6D], []));
  }

  lemma StoreExampleBytes()
    ensures EncodeStore(Store([0x39], [], [], [], [], [0x6D], [])) == [0x0A, 0x01, 0x39, 0x32, 0x01, 0x6D]
  {
    hide EncodeStore, Delimited, Varint, Each, EncodeAll;
    NothingWritten(0x12);
    NothingWritten(0x2A);
    ShortText(1, 0x39);
    ShortText(6, 0x6D);
    StoreInBytes(Store([0x39], [], [], [], [], [0x6D], []));
  }

  lemma CreationExample()
    ensures EncodeCreation(Creation([0x63], [0x65], None, [], [], None, true, []))
         == [0x0A, 0x01, 0x63, 0x12, 0x01, 0x65, 0x38, 0x01]
    ensures Merge(ApplyCreation, NO_CREATION, [0x0A, 0x01, 0x63, 0x12, 0x01, 0x65, 0x38, 0x01])
         == Some(Creation([0x63], [0x65], None, [], [], None, true, []))
  {
    CreationExampleBytes();
    hide EncodeCreation;
    CreationRoundTrip(Creation([0x63], [0x65], None, [], [], None, true, []));
  }

  lemma CreationExampleBytes()
    ensures EncodeCreation(Creation([0x63], [0x65], None, [], [], None, true, []))
         == [0x0A, 0x01, 0x63, 0x12, 0x01, 0x65, 0x38, 0x01]
  {
    var v := Creation([0x63], [0x65], None, [], [], None, true, []);
    NothingWritten(0x22);
    NothingWritten(0x2A);
    assert DevEncodings([]) == [] && StoreEncodings([]) == [];
    hide EncodeCreation, Delimited, Varint, EncodeUser, Each, EncodeAll, DevEncodings, StoreEncodings;
    CreationInBytes(v);
    ShortText(1, 0x63);
    ShortText(2, 0x65);
  }
}
