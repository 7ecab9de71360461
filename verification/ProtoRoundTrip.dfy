/** Reading inverts writing, for every message; and what was read can be written and read again unchanged, with the
    fields a message does not know. */
module ProtoRoundTrip {
  import opened Basics
  import opened Bytes
  import opened ProtoWire
  import opened ProtoMessages

  /** One run of fields after another. */
  lemma Then<V>(apply: (V, Field) -> Option<V>, v: V, fs: seq<Field>, mid: V, gs: seq<Field>, end: V)
    requires ApplyAll(apply, v, fs) == Some(mid) && ApplyAll(apply, mid, gs) == Some(end)
    ensures ApplyAll(apply, v, fs + gs) == Some(end)
  {
    ApplyAllConcat(apply, v, fs, gs);
  }

  /** A text field, which is not written when empty. */
  lemma ApplyText<V>(apply: (V, Field) -> Option<V>, v: V, number: nat, text: seq<byte>, end: V)
    requires if text == [] then v == end else apply(v, Bytes(number, text)) == Some(end)
    ensures ApplyAll(apply, v, TextField(number, text)) == Some(end)
  {
  }

  lemma ApplyNumber<V>(apply: (V, Field) -> Option<V>, v: V, number: nat, value: u64, end: V)
    requires if value == 0 then v == end else apply(v, Number(number, value)) == Some(end)
    ensures ApplyAll(apply, v, NumberField(number, value)) == Some(end)
  {
  }

  lemma ApplyMessage<V>(apply: (V, Field) -> Option<V>, v: V, number: nat, encoding: Option<seq<byte>>, end: V)
    requires if encoding == None then v == end else apply(v, Bytes(number, encoding.value)) == Some(end)
    ensures ApplyAll(apply, v, MessageField(number, encoding)) == Some(end)
  {
  }

  ghost predicate AllWritable(fs: seq<Field>) {
    forall f | f in fs :: Writable(f)
  }

  lemma WritableConcat(fs: seq<Field>, gs: seq<Field>)
    requires AllWritable(fs) && AllWritable(gs)
    ensures AllWritable(fs + gs)
  {
  }

  /** What fits a 32-bit size has only payloads that fit it. */
  lemma {:induction false} FieldsFit(fs: seq<Field>)
    requires |EncodeAll(fs)| < TWO_TO_THE_32 && AllWritable(fs)
    ensures forall f | f in fs :: Encodable(f)
  {
    if fs != [] {
      FieldsFit(fs[1..]);
      assert EncodeField(fs[0]) + EncodeAll(fs[1..]) == EncodeAll(fs);
      assert forall f | f in fs :: f == fs[0] || f in fs[1..];
    }
  }

  /** Fields that are kept, given the message after each of them. */
  lemma {:induction false} ApplyEach<V>(apply: (V, Field) -> Option<V>, fs: seq<Field>, after: seq<V>, k: nat)
    requires |after| == |fs| + 1 && k <= |fs|
    requires forall i | 0 <= i < |fs| :: apply(after[i], fs[i]) == Some(after[i + 1])
    ensures ApplyAll(apply, after[k], fs[k..]) == Some(after[|fs|])
    decreases |fs| - k
  {
    if k < |fs| {
      assert fs[k..][1..] == fs[k + 1..];
      ApplyEach(apply, fs, after, k + 1);
    }
  }

  lemma {:induction false} NumbersAre(number: nat, values: seq<u64>)
    ensures forall f | f in NumberFields(number, values) :: f.Number? && f.number == number
  {
    if values != [] {
      NumbersAre(number, values[1..]);
    }
  }

  lemma {:induction false} TextsAre(number: nat, texts: seq<seq<byte>>)
    ensures forall f | f in TextFields(number, texts) :: f.Bytes? && f.number == number
  {
    if texts != [] {
      TextsAre(number, texts[1..]);
    }
  }

  /** Repeated fields from the k-th on, given the message after each of them. */
  lemma {:induction false} ApplyNumbers<V>(apply: (V, Field) -> Option<V>, number: nat, values: seq<u64>,
                                           after: seq<V>, k: nat)
    requires |after| == |values| + 1 && k <= |values|
    requires forall i | 0 <= i < |values| :: apply(after[i], Number(number, values[i])) == Some(after[i + 1])
    ensures ApplyAll(apply, after[k], NumberFields(number, values[k..])) == Some(after[|values|])
    decreases |values| - k
  {
    if k < |values| {
      assert NumberFields(number, values[k..])[1..] == NumberFields(number, values[k + 1..]) by {
        assert values[k..][1..] == values[k + 1..];
      }
      ApplyNumbers(apply, number, values, after, k + 1);
    }
  }

  lemma {:induction false} ApplyTexts<V>(apply: (V, Field) -> Option<V>, number: nat, texts: seq<seq<byte>>,
                                         after: seq<V>, k: nat)
    requires |after| == |texts| + 1 && k <= |texts|
    requires forall i | 0 <= i < |texts| :: apply(after[i], Bytes(number, texts[i])) == Some(after[i + 1])
    ensures ApplyAll(apply, after[k], TextFields(number, texts[k..])) == Some(after[|texts|])
    decreases |texts| - k
  {
    if k < |texts| {
      assert TextFields(number, texts[k..])[1..] == TextFields(number, texts[k + 1..]) by {
        assert texts[k..][1..] == texts[k + 1..];
      }
      ApplyTexts(apply, number, texts, after, k + 1);
    }
  }

  /** The growing prefixes of a list, each one element longer than the one before. */
  function Prefixes<T>(s: seq<T>): (ps: seq<seq<T>>)
    ensures |ps| == |s| + 1 && ps[0] == [] && ps[|s|] == s
    ensures forall i | 0 <= i < |s| :: ps[i + 1] == ps[i] + [s[i]]
  {
    seq(|s| + 1, i requires 0 <= i <= |s| => s[..i])
  }

  // CpuUsage

  ghost predicate UsageOk(v: Usage) {
    Foreign(v.unknown, USAGE_KNOWN)
  }

  lemma ApplyPerCpu(v: Usage, values: seq<u64>)
    ensures ApplyAll(ApplyUsage, v, NumberFields(2, values)) == Some(v.(perCpu := v.perCpu + values))
  {
    var ps := Prefixes(values);
    var after := seq(|ps|, i requires 0 <= i < |ps| => v.(perCpu := v.perCpu + ps[i]));
    assert v.perCpu + [] == v.perCpu;
    assert forall i | 0 <= i < |values| :: v.perCpu + ps[i + 1] == v.perCpu + ps[i] + [values[i]];
    ApplyNumbers(ApplyUsage, 2, values, after, 0);
    assert values[0..] == values;
  }

  lemma UsageOwnApplies(v: Usage)
    ensures ApplyAll(ApplyUsage, NO_USAGE, UsageOwn(v)) == Some(v.(unknown := []))
  {
    var a, b := NumberField(1, v.total), NumberFields(2, v.perCpu);
    var c, d := NumberField(3, v.kernel), NumberField(4, v.user);
    var va, vb := NO_USAGE.(total := v.total), Usage(v.total, v.perCpu, 0, 0, []);
    var vc := vb.(kernel := v.kernel);
    var vd := vc.(user := v.user);
    ApplyNumber(ApplyUsage, NO_USAGE, 1, v.total, va);
    ApplyPerCpu(va, v.perCpu);
    assert va.perCpu + v.perCpu == v.perCpu;
    ApplyNumber(ApplyUsage, vb, 3, v.kernel, vc);
    ApplyNumber(ApplyUsage, vc, 4, v.user, vd);
    Then(ApplyUsage, NO_USAGE, a, va, b, vb);
    Then(ApplyUsage, NO_USAGE, a + b, vb, c, vc);
    Then(ApplyUsage, NO_USAGE, a + b + c, vc, d, vd);
  }

  /** A writer that packs the per-CPU values is understood too. */
  lemma PackedUsageIsRead(v: Usage, values: seq<u64>)
    ensures ApplyUsage(v, Bytes(2, Pack(values))) == ApplyAll(ApplyUsage, v, NumberFields(2, values))
  {
    PackedOfPack(values);
    ApplyPerCpu(v, values);
  }

  lemma UsageApplies(v: Usage)
    requires UsageOk(v)
    ensures ApplyAll(ApplyUsage, NO_USAGE, UsageFields(v)) == Some(v)
  {
    var ps := Prefixes(v.unknown);
    var after := seq(|ps|, i requires 0 <= i < |ps| => v.(unknown := ps[i]));
    UsageOwnApplies(v);
    ApplyEach(ApplyUsage, v.unknown, after, 0);
    assert v.unknown[0..] == v.unknown;
    Then(ApplyUsage, NO_USAGE, UsageOwn(v), v.(unknown := []), v.unknown, v);
  }

  lemma UsageEncodable(v: Usage)
    requires |EncodeUsage(v)| < TWO_TO_THE_32 && UsageOk(v)
    ensures forall f | f in UsageFields(v) :: Encodable(f)
  {
    NumbersAre(2, v.perCpu);
    WritableConcat(UsageOwn(v), v.unknown);
    FieldsFit(UsageFields(v));
  }

  lemma UsageRoundTrip(v: Usage)
    requires |EncodeUsage(v)| < TWO_TO_THE_32 && UsageOk(v)
    ensures Merge(ApplyUsage, NO_USAGE, EncodeUsage(v)) == Some(v)
  {
    UsageEncodable(v);
    MergeOfEncode(ApplyUsage, NO_USAGE, UsageFields(v));
    UsageApplies(v);
  }

  lemma UsageReads(v: Usage, b: seq<byte>)
    requires UsageOk(v)
    ensures Merge(ApplyUsage, v, b).Some? ==> UsageOk(Merge(ApplyUsage, v, b).value)
  {
    MergeKeeps(ApplyUsage, UsageOk, v, b);
  }

  /** Whatever was read, when written and read again, is the same message: also what it does not know. */
  lemma UsageForwards(b: seq<byte>)
    requires Merge(ApplyUsage, NO_USAGE, b).Some?
    requires |EncodeUsage(Merge(ApplyUsage, NO_USAGE, b).value)| < TWO_TO_THE_32
    ensures Merge(ApplyUsage, NO_USAGE, EncodeUsage(Merge(ApplyUsage, NO_USAGE, b).value))
         == Merge(ApplyUsage, NO_USAGE, b)
  {
    UsageReads(NO_USAGE, b);
    UsageRoundTrip(Merge(ApplyUsage, NO_USAGE, b).value);
  }

  // ThrottlingData

  ghost predicate ThrottlingOk(v: Throttling) {
    Foreign(v.unknown, THROTTLING_KNOWN)
  }

  lemma ThrottlingOwnApplies(v: Throttling)
    ensures ApplyAll(ApplyThrottling, NO_THROTTLING, ThrottlingOwn(v)) == Some(v.(unknown := []))
  {
    var a, b, c := NumberField(1, v.periods), NumberField(2, v.throttledPeriods), NumberField(3, v.throttledTime);
    var va := NO_THROTTLING.(periods := v.periods);
    var vb := va.(throttledPeriods := v.throttledPeriods);
    var vc := vb.(throttledTime := v.throttledTime);
    ApplyNumber(ApplyThrottling, NO_THROTTLING, 1, v.periods, va);
    ApplyNumber(ApplyThrottling, va, 2, v.throttledPeriods, vb);
    ApplyNumber(ApplyThrottling, vb, 3, v.throttledTime, vc);
    Then(ApplyThrottling, NO_THROTTLING, a, va, b, vb);
    Then(ApplyThrottling, NO_THROTTLING, a + b, vb, c, vc);
  }

  lemma ThrottlingApplies(v: Throttling)
    requires ThrottlingOk(v)
    ensures ApplyAll(ApplyThrottling, NO_THROTTLING, ThrottlingFields(v)) == Some(v)
  {
    var ps := Prefixes(v.unknown);
    var after := seq(|ps|, i requires 0 <= i < |ps| => v.(unknown := ps[i]));
    ThrottlingOwnApplies(v);
    ApplyEach(ApplyThrottling, v.unknown, after, 0);
    assert v.unknown[0..] == v.unknown;
    Then(ApplyThrottling, NO_THROTTLING, ThrottlingOwn(v), v.(unknown := []), v.unknown, v);
  }

  lemma ThrottlingEncodable(v: Throttling)
    requires |EncodeThrottling(v)| < TWO_TO_THE_32 && ThrottlingOk(v)
    ensures forall f | f in ThrottlingFields(v) :: Encodable(f)
  {
    WritableConcat(ThrottlingOwn(v), v.unknown);
    FieldsFit(ThrottlingFields(v));
  }

  lemma ThrottlingRoundTrip(v: Throttling)
    requires |EncodeThrottling(v)| < TWO_TO_THE_32 && ThrottlingOk(v)
    ensures Merge(ApplyThrottling, NO_THROTTLING, EncodeThrottling(v)) == Some(v)
  {
    ThrottlingEncodable(v);
    MergeOfEncode(ApplyThrottling, NO_THROTTLING, ThrottlingFields(v));
    ThrottlingApplies(v);
  }

  lemma ThrottlingReads(v: Throttling, b: seq<byte>)
    requires ThrottlingOk(v)
    ensures Merge(ApplyThrottling, v, b).Some? ==> ThrottlingOk(Merge(ApplyThrottling, v, b).value)
  {
    MergeKeeps(ApplyThrottling, ThrottlingOk, v, b);
  }

  /** Whatever was read, when written and read again, is the same message: also what it does not know. */
  lemma ThrottlingForwards(b: seq<byte>)
    requires Merge(ApplyThrottling, NO_THROTTLING, b).Some?
    requires |EncodeThrottling(Merge(ApplyThrottling, NO_THROTTLING, b).value)| < TWO_TO_THE_32
    ensures Merge(ApplyThrottling, NO_THROTTLING, EncodeThrottling(Merge(ApplyThrottling, NO_THROTTLING, b).value))
         == Merge(ApplyThrottling, NO_THROTTLING, b)
  {
    ThrottlingReads(NO_THROTTLING, b);
    ThrottlingRoundTrip(Merge(ApplyThrottling, NO_THROTTLING, b).value);
  }

  // StringUser

  ghost predicate UserOk(v: User) {
    Foreign(v.unknown, USER_KNOWN)
  }

  lemma UserOwnApplies(v: User)
    ensures ApplyAll(ApplyUser, NO_USER, UserOwn(v)) == Some(v.(unknown := []))
  {
    var a, b, c := TextField(1, v.uid), TextField(2, v.gid), TextFields(3, v.additionalGids);
    var va, vb := User(v.uid, [], [], []), User(v.uid, v.gid, [], []);
    var ps := Prefixes(v.additionalGids);
    ApplyText(ApplyUser, NO_USER, 1, v.uid, va);
    ApplyText(ApplyUser, va, 2, v.gid, vb);
    ApplyTexts(ApplyUser, 3, v.additionalGids,
               seq(|ps|, i requires 0 <= i < |ps| => User(v.uid, v.gid, ps[i], [])), 0);
    assert v.additionalGids[0..] == v.additionalGids;
    Then(ApplyUser, NO_USER, a, va, b, vb);
    Then(ApplyUser, NO_USER, a + b, vb, c, v.(unknown := []));
  }

  lemma UserApplies(v: User)
    requires UserOk(v)
    ensures ApplyAll(ApplyUser, NO_USER, UserFields(v)) == Some(v)
  {
    var ps := Prefixes(v.unknown);
    var after := seq(|ps|, i requires 0 <= i < |ps| => v.(unknown := ps[i]));
    UserOwnApplies(v);
    ApplyEach(ApplyUser, v.unknown, after, 0);
    assert v.unknown[0..] == v.unknown;
    Then(ApplyUser, NO_USER, UserOwn(v), v.(unknown := []), v.unknown, v);
  }

  lemma UserEncodable(v: User)
    requires |EncodeUser(v)| < TWO_TO_THE_32 && UserOk(v)
    ensures forall f | f in UserFields(v) :: Encodable(f)
  {
    TextsAre(3, v.additionalGids);
    WritableConcat(UserOwn(v), v.unknown);
    FieldsFit(UserFields(v));
  }

  lemma UserRoundTrip(v: User)
    requires |EncodeUser(v)| < TWO_TO_THE_32 && UserOk(v)
    ensures Merge(ApplyUser, NO_USER, EncodeUser(v)) == Some(v)
  {
    UserEncodable(v);
    MergeOfEncode(ApplyUser, NO_USER, UserFields(v));
    UserApplies(v);
  }

  lemma UserReads(v: User, b: seq<byte>)
    requires UserOk(v)
    ensures Merge(ApplyUser, v, b).Some? ==> UserOk(Merge(ApplyUser, v, b).value)
  {
    MergeKeeps(ApplyUser, UserOk, v, b);
  }

  /** Whatever was read, when written and read again, is the same message: also what it does not know. */
  lemma UserForwards(b: seq<byte>)
    requires Merge(ApplyUser, NO_USER, b).Some?
    requires |EncodeUser(Merge(ApplyUser, NO_USER, b).value)| < TWO_TO_THE_32
    ensures Merge(ApplyUser, NO_USER, EncodeUser(Merge(ApplyUser, NO_USER, b).value)) == Merge(ApplyUser, NO_USER, b)
  {
    UserReads(NO_USER, b);
    UserRoundTrip(Merge(ApplyUser, NO_USER, b).value);
  }

  // Device

  ghost predicate DevOk(v: Dev) {
    Foreign(v.unknown, DEV_KNOWN)
  }

  lemma DevOwnApplies(v: Dev)
    ensures ApplyAll(ApplyDev, NO_DEV, DevOwn(v)) == Some(v.(unknown := []))
  {
    var a, b, c := TextField(1, v.id), TextField(2, v.kind), TextField(3, v.vmPath);
    var d, e := TextField(4, v.containerPath), TextFields(5, v.options);
    var va := NO_DEV.(id := v.id);
    var vb := va.(kind := v.kind);
    var vc := vb.(vmPath := v.vmPath);
    var vd := vc.(containerPath := v.containerPath);
    var ps := Prefixes(v.options);
    ApplyText(ApplyDev, NO_DEV, 1, v.id, va);
    ApplyText(ApplyDev, va, 2, v.kind, vb);
    ApplyText(ApplyDev, vb, 3, v.vmPath, vc);
    ApplyText(ApplyDev, vc, 4, v.containerPath, vd);
    ApplyTexts(ApplyDev, 5, v.options, seq(|ps|, i requires 0 <= i < |ps| => vd.(options := ps[i])), 0);
    assert v.options[0..] == v.options;
    Then(ApplyDev, NO_DEV, a, va, b, vb);
    Then(ApplyDev, NO_DEV, a + b, vb, c, vc);
    Then(ApplyDev, NO_DEV, a + b + c, vc, d, vd);
    Then(ApplyDev, NO_DEV, a + b + c + d, vd, e, v.(unknown := []));
  }

  lemma DevApplies(v: Dev)
    requires DevOk(v)
    ensures ApplyAll(ApplyDev, NO_DEV, DevFields(v)) == Some(v)
  {
    var ps := Prefixes(v.unknown);
    var after := seq(|ps|, i requires 0 <= i < |ps| => v.(unknown := ps[i]));
    DevOwnApplies(v);
    ApplyEach(ApplyDev, v.unknown, after, 0);
    assert v.unknown[0..] == v.unknown;
    Then(ApplyDev, NO_DEV, DevOwn(v), v.(unknown := []), v.unknown, v);
  }

  lemma DevEncodable(v: Dev)
    requires |EncodeDev(v)| < TWO_TO_THE_32 && DevOk(v)
    ensures forall f | f in DevFields(v) :: Encodable(f)
  {
    TextsAre(5, v.options);
    WritableConcat(DevOwn(v), v.unknown);
    FieldsFit(DevFields(v));
  }

  lemma DevRoundTrip(v: Dev)
    requires |EncodeDev(v)| < TWO_TO_THE_32 && DevOk(v)
    ensures Merge(ApplyDev, NO_DEV, EncodeDev(v)) == Some(v)
  {
    DevEncodable(v);
    MergeOfEncode(ApplyDev, NO_DEV, DevFields(v));
    DevApplies(v);
  }

  lemma DevReads(v: Dev, b: seq<byte>)
    requires DevOk(v)
    ensures Merge(ApplyDev, v, b).Some? ==> DevOk(Merge(ApplyDev, v, b).value)
  {
    MergeKeeps(ApplyDev, DevOk, v, b);
  }

  /** Whatever was read, when written and read again, is the same message: also what it does not know. */
  lemma DevForwards(b: seq<byte>)
    requires Merge(ApplyDev, NO_DEV, b).Some?
    requires |EncodeDev(Merge(ApplyDev, NO_DEV, b).value)| < TWO_TO_THE_32
    ensures Merge(ApplyDev, NO_DEV, EncodeDev(Merge(ApplyDev, NO_DEV, b).value)) == Merge(ApplyDev, NO_DEV, b)
  {
    DevReads(NO_DEV, b);
    DevRoundTrip(Merge(ApplyDev, NO_DEV, b).value);
  }

  // Storage

  ghost predicate StoreOk(v: Store) {
    Foreign(v.unknown, STORE_KNOWN)
  }

  lemma StoreFrontApplies(v: Store)
    ensures var front := TextField(1, v.driver) + TextFields(2, v.driverOptions) + TextField(3, v.source);
            ApplyAll(ApplyStore, NO_STORE, front) == Some(Store(v.driver, v.driverOptions, v.source, [], [], [], []))
  {
    var a, b, c := TextField(1, v.driver), TextFields(2, v.driverOptions), TextField(3, v.source);
    var va, vb := NO_STORE.(driver := v.driver), Store(v.driver, v.driverOptions, [], [], [], [], []);
    var ps := Prefixes(v.driverOptions);
    ApplyText(ApplyStore, NO_STORE, 1, v.driver, va);
    ApplyTexts(ApplyStore, 2, v.driverOptions, seq(|ps|, i requires 0 <= i < |ps| => va.(driverOptions := ps[i])), 0);
    assert v.driverOptions[0..] == v.driverOptions;
    ApplyText(ApplyStore, vb, 3, v.source, vb.(source := v.source));
    Then(ApplyStore, NO_STORE, a, va, b, vb);
    Then(ApplyStore, NO_STORE, a + b, vb, c, vb.(source := v.source));
  }

  lemma StoreOwnApplies(v: Store)
    ensures ApplyAll(ApplyStore, NO_STORE, StoreOwn(v)) == Some(v.(unknown := []))
  {
    var front := TextField(1, v.driver) + TextFields(2, v.driverOptions) + TextField(3, v.source);
    var d, e, f := TextField(4, v.fstype), TextFields(5, v.options), TextField(6, v.mountPoint);
    var vc := Store(v.driver, v.driverOptions, v.source, [], [], [], []);
    var vd := vc.(fstype := v.fstype);
    var ve := vd.(options := v.options);
    var ps := Prefixes(v.options);
    StoreFrontApplies(v);
    ApplyText(ApplyStore, vc, 4, v.fstype, vd);
    ApplyTexts(ApplyStore, 5, v.options, seq(|ps|, i requires 0 <= i < |ps| => vd.(options := ps[i])), 0);
    assert v.options[0..] == v.options;
    ApplyText(ApplyStore, ve, 6, v.mountPoint, v.(unknown := []));
    Then(ApplyStore, NO_STORE, front, vc, d, vd);
    Then(ApplyStore, NO_STORE, front + d, vd, e, ve);
    Then(ApplyStore, NO_STORE, front + d + e, ve, f, v.(unknown := []));
  }

  lemma StoreApplies(v: Store)
    requires StoreOk(v)
    ensures ApplyAll(ApplyStore, NO_STORE, StoreFields(v)) == Some(v)
  {
    var ps := Prefixes(v.unknown);
    var after := seq(|ps|, i requires 0 <= i < |ps| => v.(unknown := ps[i]));
    StoreOwnApplies(v);
    ApplyEach(ApplyStore, v.unknown, after, 0);
    assert v.unknown[0..] == v.unknown;
    Then(ApplyStore, NO_STORE, StoreOwn(v), v.(unknown := []), v.unknown, v);
  }

  lemma StoreEncodable(v: Store)
    requires |EncodeStore(v)| < TWO_TO_THE_32 && StoreOk(v)
    ensures forall f | f in StoreFields(v) :: Encodable(f)
  {
    TextsAre(2, v.driverOptions);
    TextsAre(5, v.options);
    WritableConcat(StoreOwn(v), v.unknown);
    FieldsFit(StoreFields(v));
  }

  lemma StoreRoundTrip(v: Store)
    requires |EncodeStore(v)| < TWO_TO_THE_32 && StoreOk(v)
    ensures Merge(ApplyStore, NO_STORE, EncodeStore(v)) == Some(v)
  {
    StoreEncodable(v);
    MergeOfEncode(ApplyStore, NO_STORE, StoreFields(v));
    StoreApplies(v);
  }

  lemma StoreReads(v: Store, b: seq<byte>)
    requires StoreOk(v)
    ensures Merge(ApplyStore, v, b).Some? ==> StoreOk(Merge(ApplyStore, v, b).value)
  {
    MergeKeeps(ApplyStore, StoreOk, v, b);
  }

  /** Whatever was read, when written and read again, is the same message: also what it does not know. */
  lemma StoreForwards(b: seq<byte>)
    requires Merge(ApplyStore, NO_STORE, b).Some?
    requires |EncodeStore(Merge(ApplyStore, NO_STORE, b).value)| < TWO_TO_THE_32
    ensures Merge(ApplyStore, NO_STORE, EncodeStore(Merge(ApplyStore, NO_STORE, b).value))
         == Merge(ApplyStore, NO_STORE, b)
  {
    StoreReads(NO_STORE, b);
    StoreRoundTrip(Merge(ApplyStore, NO_STORE, b).value);
  }

  // Nested messages

  lemma {:induction false} TextsShorter(number: nat, texts: seq<seq<byte>>)
    ensures forall t | t in texts :: |t| < |EncodeAll(TextFields(number, texts))|
  {
    if texts != [] {
      TextsShorter(number, texts[1..]);
      assert TextFields(number, texts)[1..] == TextFields(number, texts[1..]);
      assert forall t | t in texts :: t == texts[0] || t in texts[1..];
    }
  }

  lemma MessageShorter(number: nat, encoding: Option<seq<byte>>)
    ensures encoding.Some? ==> |encoding.value| < |EncodeAll(MessageField(number, encoding))|
  {
  }

  lemma PartsAreShorter(fs: seq<Field>, gs: seq<Field>)
    ensures |EncodeAll(fs)| <= |EncodeAll(fs + gs)| && |EncodeAll(gs)| <= |EncodeAll(fs + gs)|
  {
    EncodeAllConcat(fs, gs);
  }

  // CpuStats

  ghost predicate StatsOk(v: Stats) {
    && Foreign(v.unknown, STATS_KNOWN)
    && (v.usage.Some? ==> UsageOk(v.usage.value))
    && (v.throttling.Some? ==> ThrottlingOk(v.throttling.value))
  }

  /** What is nested is no longer than what it is nested in. */
  lemma StatsPartsFit(v: Stats)
    requires |EncodeStats(v)| < TWO_TO_THE_32
    ensures v.usage.Some? ==> |EncodeUsage(v.usage.value)| < TWO_TO_THE_32
    ensures v.throttling.Some? ==> |EncodeThrottling(v.throttling.value)| < TWO_TO_THE_32
  {
    hide EncodeAll, EncodeUsage, EncodeThrottling;
    var a, b := MessageField(1, UsageBytes(v.usage)), MessageField(2, ThrottlingBytes(v.throttling));
    MessageShorter(1, UsageBytes(v.usage));
    MessageShorter(2, ThrottlingBytes(v.throttling));
    PartsAreShorter(a, b);
    PartsAreShorter(a + b, v.unknown);
    assert EncodeStats(v) == EncodeAll(a + b + v.unknown);
  }

  lemma StatsApplies(v: Stats)
    requires |EncodeStats(v)| < TWO_TO_THE_32 && StatsOk(v)
    ensures ApplyAll(ApplyStats, NO_STATS, StatsFields(v)) == Some(v)
  {
    hide EncodeAll, EncodeUsage, EncodeThrottling, UsageOk, ThrottlingOk, Foreign;
    StatsPartsFit(v);
    var a, b := MessageField(1, UsageBytes(v.usage)), MessageField(2, ThrottlingBytes(v.throttling));
    var va, vb := NO_STATS.(usage := v.usage), v.(unknown := []);
    if v.usage.Some? {
      UsageRoundTrip(v.usage.value);
    }
    if v.throttling.Some? {
      ThrottlingRoundTrip(v.throttling.value);
    }
    ApplyMessage(ApplyStats, NO_STATS, 1, UsageBytes(v.usage), va);
    ApplyMessage(ApplyStats, va, 2, ThrottlingBytes(v.throttling), vb);
    Then(ApplyStats, NO_STATS, a, va, b, vb);
    StatsKeepsUnknown(v);
    Then(ApplyStats, NO_STATS, StatsOwn(v), vb, v.unknown, v);
  }

  lemma StatsKeepsUnknown(v: Stats)
    requires StatsOk(v)
    ensures ApplyAll(ApplyStats, v.(unknown := []), v.unknown) == Some(v)
  {
    var ps := Prefixes(v.unknown);
    var after := seq(|ps|, i requires 0 <= i < |ps| => v.(unknown := ps[i]));
    ApplyEach(ApplyStats, v.unknown, after, 0);
    assert v.unknown[0..] == v.unknown;
  }

  lemma StatsEncodable(v: Stats)
    requires |EncodeStats(v)| < TWO_TO_THE_32 && StatsOk(v)
    ensures forall f | f in StatsFields(v) :: Encodable(f)
  {
    WritableConcat(StatsOwn(v), v.unknown);
    FieldsFit(StatsFields(v));
  }

  lemma StatsRoundTrip(v: Stats)
    requires |EncodeStats(v)| < TWO_TO_THE_32 && StatsOk(v)
    ensures Merge(ApplyStats, NO_STATS, EncodeStats(v)) == Some(v)
  {
    StatsEncodable(v);
    MergeOfEncode(ApplyStats, NO_STATS, StatsFields(v));
    StatsApplies(v);
  }

  lemma StatsFieldReads(v: Stats, f: Field)
    requires StatsOk(v) && Writable(f) && ApplyStats(v, f).Some?
    ensures StatsOk(ApplyStats(v, f).value)
  {
    if f.number == 1 {
      UsageReads(NO_USAGE, f.payload);
    } else if f.number == 2 {
      ThrottlingReads(NO_THROTTLING, f.payload);
    }
  }

  lemma StatsReads(v: Stats, b: seq<byte>)
    requires StatsOk(v)
    ensures Merge(ApplyStats, v, b).Some? ==> StatsOk(Merge(ApplyStats, v, b).value)
  {
    forall w, f | StatsOk(w) && Writable(f) && ApplyStats(w, f).Some? ensures StatsOk(ApplyStats(w, f).value) {
      StatsFieldReads(w, f);
    }
    MergeKeeps(ApplyStats, StatsOk, v, b);
  }

  /** Whatever was read, when written and read again, is the same message: also what it does not know, at both
      levels. */
  lemma StatsForwards(b: seq<byte>)
    requires Merge(ApplyStats, NO_STATS, b).Some?
    requires |EncodeStats(Merge(ApplyStats, NO_STATS, b).value)| < TWO_TO_THE_32
    ensures Merge(ApplyStats, NO_STATS, EncodeStats(Merge(ApplyStats, NO_STATS, b).value))
         == Merge(ApplyStats, NO_STATS, b)
  {
    StatsReads(NO_STATS, b);
    StatsRoundTrip(Merge(ApplyStats, NO_STATS, b).value);
  }

  // The OCI specification

  ghost predicate SpecOk(v: Spec) {
    AllWritable(v.fields)
  }

  lemma SpecRoundTrip(v: Spec)
    requires |EncodeSpec(v)| < TWO_TO_THE_32 && SpecOk(v)
    ensures Merge(ApplySpec, NO_SPEC, EncodeSpec(v)) == Some(v)
  {
    FieldsFit(v.fields);
    MergeOfEncode(ApplySpec, NO_SPEC, v.fields);
    var ps := Prefixes(v.fields);
    ApplyEach(ApplySpec, v.fields, seq(|ps|, i requires 0 <= i < |ps| => Spec(ps[i])), 0);
    assert v.fields[0..] == v.fields;
  }

  lemma SpecReads(v: Spec, b: seq<byte>)
    requires SpecOk(v)
    ensures Merge(ApplySpec, v, b).Some? ==> SpecOk(Merge(ApplySpec, v, b).value)
  {
    MergeKeeps(ApplySpec, SpecOk, v, b);
  }

  // CreateContainerRequest

  ghost predicate CreationOk(v: Creation) {
    && Foreign(v.unknown, CREATION_KNOWN)
    && (v.user.Some? ==> UserOk(v.user.value))
    && (forall d | d in v.devices :: DevOk(d))
    && (forall s | s in v.storages :: StoreOk(s))
    && (v.oci.Some? ==> SpecOk(v.oci.value))
  }

  lemma ApplyDevice(v: Creation, d: Dev)
    requires |EncodeDev(d)| < TWO_TO_THE_32 && DevOk(d)
    ensures ApplyCreation(v, Bytes(4, EncodeDev(d))) == Some(v.(devices := v.devices + [d]))
  {
    DevRoundTrip(d);
  }

  lemma ApplyDevices(v: Creation, ds: seq<Dev>)
    requires v.devices == [] && forall d | d in ds :: |EncodeDev(d)| < TWO_TO_THE_32 && DevOk(d)
    ensures ApplyAll(ApplyCreation, v, TextFields(4, DevEncodings(ds))) == Some(v.(devices := ds))
  {
    hide ApplyCreation, EncodeDev, DevOk;
    var ps, encodings := Prefixes(ds), DevEncodings(ds);
    var after := seq(|ps|, i requires 0 <= i < |ps| => v.(devices := ps[i]));
    forall i | 0 <= i < |ds| ensures ApplyCreation(after[i], Bytes(4, encodings[i])) == Some(after[i + 1]) {
      ApplyDevice(after[i], ds[i]);
    }
    ApplyTexts(ApplyCreation, 4, encodings, after, 0);
    assert encodings[0..] == encodings;
  }

  lemma ApplyStorage(v: Creation, s: Store)
    requires |EncodeStore(s)| < TWO_TO_THE_32 && StoreOk(s)
    ensures ApplyCreation(v, Bytes(5, EncodeStore(s))) == Some(v.(storages := v.storages + [s]))
  {
    StoreRoundTrip(s);
  }

  lemma ApplyStorages(v: Creation, ss: seq<Store>)
    requires v.storages == [] && forall s | s in ss :: |EncodeStore(s)| < TWO_TO_THE_32 && StoreOk(s)
    ensures ApplyAll(ApplyCreation, v, TextFields(5, StoreEncodings(ss))) == Some(v.(storages := ss))
  {
    hide ApplyCreation, EncodeStore, StoreOk;
    var ps, encodings := Prefixes(ss), StoreEncodings(ss);
    var after := seq(|ps|, i requires 0 <= i < |ps| => v.(storages := ps[i]));
    forall i | 0 <= i < |ss| ensures ApplyCreation(after[i], Bytes(5, encodings[i])) == Some(after[i + 1]) {
      ApplyStorage(after[i], ss[i]);
    }
    ApplyTexts(ApplyCreation, 5, encodings, after, 0);
    assert encodings[0..] == encodings;
  }

  lemma ApplyUserField(v: Creation, user: Option<User>)
    requires v.user == None && (user.Some? ==> |EncodeUser(user.value)| < TWO_TO_THE_32 && UserOk(user.value))
    ensures ApplyAll(ApplyCreation, v, MessageField(3, UserBytes(user))) == Some(v.(user := user))
  {
    if user.Some? {
      UserRoundTrip(user.value);
    }
    ApplyMessage(ApplyCreation, v, 3, UserBytes(user), v.(user := user));
  }

  lemma ApplySpecField(v: Creation, oci: Option<Spec>)
    requires v.oci == None && (oci.Some? ==> |EncodeSpec(oci.value)| < TWO_TO_THE_32 && SpecOk(oci.value))
    ensures ApplyAll(ApplyCreation, v, MessageField(6, SpecBytes(oci))) == Some(v.(oci := oci))
  {
    if oci.Some? {
      SpecRoundTrip(oci.value);
    }
    ApplyMessage(ApplyCreation, v, 6, SpecBytes(oci), v.(oci := oci));
  }

  // The first part of a request's fields, and the second.

  function CreationFront(v: Creation): seq<Field> {
    TextField(1, v.containerId) + TextField(2, v.execId) + MessageField(3, UserBytes(v.user))
    + TextFields(4, DevEncodings(v.devices))
  }

  function CreationBack(v: Creation): seq<Field> {
    TextFields(5, StoreEncodings(v.storages)) + MessageField(6, SpecBytes(v.oci)) + FlagField(7, v.sandboxPidns)
    + v.unknown
  }

  lemma FrontAndBack(v: Creation)
    ensures CreationFields(v) == CreationFront(v) + CreationBack(v)
    ensures EncodeCreation(v) == EncodeAll(CreationFront(v)) + EncodeAll(CreationBack(v))
  {
    hide TextField, MessageField, TextFields, FlagField, EncodeAll;
    var front := CreationFront(v);
    var e, o := TextFields(5, StoreEncodings(v.storages)), MessageField(6, SpecBytes(v.oci));
    var g := FlagField(7, v.sandboxPidns);
    assert front + e + o + g + v.unknown == front + (e + o + g + v.unknown);
    EncodeAllConcat(front, CreationBack(v));
  }

  // A request that fits 32 bits has nested messages that fit them too.

  lemma FrontFits(v: Creation)
    requires |EncodeCreation(v)| < TWO_TO_THE_32
    ensures v.user.Some? ==> |EncodeUser(v.user.value)| < TWO_TO_THE_32
    ensures forall d | d in v.devices :: |EncodeDev(d)| < TWO_TO_THE_32
  {
    hide EncodeAll, TextField, MessageField, TextFields, FlagField, EncodeUser, EncodeDev, CreationBack, EncodeCreation;
    FrontAndBack(v);
    var ab, c := TextField(1, v.containerId) + TextField(2, v.execId), MessageField(3, UserBytes(v.user));
    var d := TextFields(4, DevEncodings(v.devices));
    PartsAreShorter(ab + c, d);
    PartsAreShorter(ab, c);
    MessageShorter(3, UserBytes(v.user));
    TextsShorter(4, DevEncodings(v.devices));
    forall x | x in v.devices ensures |EncodeDev(x)| < TWO_TO_THE_32 {
      var i :| 0 <= i < |v.devices| && v.devices[i] == x;
      assert DevEncodings(v.devices)[i] in DevEncodings(v.devices);
    }
  }

  lemma BackFits(v: Creation)
    requires |EncodeCreation(v)| < TWO_TO_THE_32
    ensures forall s | s in v.storages :: |EncodeStore(s)| < TWO_TO_THE_32
    ensures v.oci.Some? ==> |EncodeSpec(v.oci.value)| < TWO_TO_THE_32
  {
    hide EncodeAll, TextField, MessageField, TextFields, FlagField, EncodeSpec, EncodeStore, CreationFront,
      EncodeCreation;
    FrontAndBack(v);
    var e, o := TextFields(5, StoreEncodings(v.storages)), MessageField(6, SpecBytes(v.oci));
    var g := FlagField(7, v.sandboxPidns);
    PartsAreShorter(e + o + g, v.unknown);
    PartsAreShorter(e + o, g);
    PartsAreShorter(e, o);
    MessageShorter(6, SpecBytes(v.oci));
    TextsShorter(5, StoreEncodings(v.storages));
    forall x | x in v.storages ensures |EncodeStore(x)| < TWO_TO_THE_32 {
      var i :| 0 <= i < |v.storages| && v.storages[i] == x;
      assert StoreEncodings(v.storages)[i] in StoreEncodings(v.storages);
    }
  }

  lemma FrontApplies(v: Creation)
    requires |EncodeCreation(v)| < TWO_TO_THE_32 && CreationOk(v)
    ensures ApplyAll(ApplyCreation, NO_CREATION, CreationFront(v))
         == Some(Creation(v.containerId, v.execId, v.user, v.devices, [], None, false, []))
  {
    FrontFits(v);
    var a, b, c := TextField(1, v.containerId), TextField(2, v.execId), MessageField(3, UserBytes(v.user));
    var d := TextFields(4, DevEncodings(v.devices));
    var va := NO_CREATION.(containerId := v.containerId);
    var vb := va.(execId := v.execId);
    var vc := vb.(user := v.user);
    ApplyText(ApplyCreation, NO_CREATION, 1, v.containerId, va);
    ApplyText(ApplyCreation, va, 2, v.execId, vb);
    hide EncodeAll, TextField, MessageField, TextFields, EncodeUser, EncodeDev, ApplyCreation, UserOk, DevOk, StoreOk,
      SpecOk;
    ApplyUserField(vb, v.user);
    ApplyDevices(vc, v.devices);
    Then(ApplyCreation, NO_CREATION, a, va, b, vb);
    Then(ApplyCreation, NO_CREATION, a + b, vb, c, vc);
    Then(ApplyCreation, NO_CREATION, a + b + c, vc, d, vc.(devices := v.devices));
  }

  lemma ApplyFlag(v: Creation, flag: bool)
    requires !v.sandboxPidns
    ensures ApplyAll(ApplyCreation, v, FlagField(7, flag)) == Some(v.(sandboxPidns := flag))
  {
    if flag {
      assert ApplyCreation(v, Number(7, 1)) == Some(v.(sandboxPidns := true));
      hide ApplyCreation;
    }
  }

  lemma CreationKeepsUnknown(v: Creation)
    requires Foreign(v.unknown, CREATION_KNOWN)
    ensures ApplyAll(ApplyCreation, v.(unknown := []), v.unknown) == Some(v)
  {
    var ps := Prefixes(v.unknown);
    var after := seq(|ps|, i requires 0 <= i < |ps| => v.(unknown := ps[i]));
    forall i | 0 <= i < |v.unknown| ensures ApplyCreation(after[i], v.unknown[i]) == Some(after[i + 1]) {
      assert v.unknown[i] in v.unknown;
    }
    hide ApplyCreation;
    ApplyEach(ApplyCreation, v.unknown, after, 0);
    assert v.unknown[0..] == v.unknown;
  }

  lemma BackApplies(v: Creation)
    requires |EncodeCreation(v)| < TWO_TO_THE_32 && CreationOk(v)
    ensures ApplyAll(ApplyCreation, Creation(v.containerId, v.execId, v.user, v.devices, [], None, false, []),
                     CreationBack(v)) == Some(v)
  {
    hide EncodeAll, MessageField, TextFields, FlagField, EncodeSpec, EncodeStore, ApplyCreation, UserOk, DevOk, StoreOk,
      SpecOk, Foreign;
    BackFits(v);
    var start := Creation(v.containerId, v.execId, v.user, v.devices, [], None, false, []);
    var e, o := TextFields(5, StoreEncodings(v.storages)), MessageField(6, SpecBytes(v.oci));
    var g := FlagField(7, v.sandboxPidns);
    var ve := start.(storages := v.storages);
    var vo := ve.(oci := v.oci);
    ApplyStorages(start, v.storages);
    ApplySpecField(ve, v.oci);
    ApplyFlag(vo, v.sandboxPidns);
    CreationKeepsUnknown(v);
    Then(ApplyCreation, start, e, ve, o, vo);
    Then(ApplyCreation, start, e + o, vo, g, v.(unknown := []));
    Then(ApplyCreation, start, e + o + g, v.(unknown := []), v.unknown, v);
  }

  lemma CreationEncodable(v: Creation)
    requires |EncodeCreation(v)| < TWO_TO_THE_32 && CreationOk(v)
    ensures forall f | f in CreationFields(v) :: Encodable(f)
  {
    hide EncodeAll, UserOk, DevOk, StoreOk, SpecOk;
    var c, d := MessageField(3, UserBytes(v.user)), TextFields(4, DevEncodings(v.devices));
    var e, o := TextFields(5, StoreEncodings(v.storages)), MessageField(6, SpecBytes(v.oci));
    var ab, g := TextField(1, v.containerId) + TextField(2, v.execId), FlagField(7, v.sandboxPidns);
    TextsAre(4, DevEncodings(v.devices));
    TextsAre(5, StoreEncodings(v.storages));
    assert AllWritable(ab) && AllWritable(c) && AllWritable(d) && AllWritable(e) && AllWritable(o) && AllWritable(g);
    hide TextField, MessageField, TextFields, FlagField, AllWritable, Foreign;
    WritableConcat(ab, c);
    WritableConcat(ab + c, d);
    WritableConcat(ab + c + d, e);
    WritableConcat(ab + c + d + e, o);
    WritableConcat(ab + c + d + e + o, g);
    ForeignIsWritable(v.unknown, CREATION_KNOWN);
    WritableConcat(ab + c + d + e + o + g, v.unknown);
    FieldsFit(CreationFields(v));
  }

  lemma ForeignIsWritable(fs: seq<Field>, known: set<nat>)
    requires Foreign(fs, known)
    ensures AllWritable(fs)
  {
  }

  lemma CreationRoundTrip(v: Creation)
    requires |EncodeCreation(v)| < TWO_TO_THE_32 && CreationOk(v)
    ensures Merge(ApplyCreation, NO_CREATION, EncodeCreation(v)) == Some(v)
  {
    CreationEncodable(v);
    MergeOfEncode(ApplyCreation, NO_CREATION, CreationFields(v));
    hide EncodeAll, CreationOk, ApplyCreation, CreationFront, CreationBack, Encodable;
    FrontAndBack(v);
    FrontApplies(v);
    BackApplies(v);
    Then(ApplyCreation, NO_CREATION, CreationFront(v),
         Creation(v.containerId, v.execId, v.user, v.devices, [], None, false, []), CreationBack(v), v);
  }

  lemma CreationFieldReads(v: Creation, f: Field)
    requires CreationOk(v) && Writable(f) && ApplyCreation(v, f).Some?
    ensures CreationOk(ApplyCreation(v, f).value)
  {
    if f.number == 3 {
      UserReads(NO_USER, f.payload);
    } else if f.number == 4 {
      DevReads(NO_DEV, f.payload);
    } else if f.number == 5 {
      StoreReads(NO_STORE, f.payload);
    } else if f.number == 6 {
      SpecReads(NO_SPEC, f.payload);
    }
  }

  lemma CreationReads(v: Creation, b: seq<byte>)
    requires CreationOk(v)
    ensures Merge(ApplyCreation, v, b).Some? ==> CreationOk(Merge(ApplyCreation, v, b).value)
  {
    forall w, f | CreationOk(w) && Writable(f) && ApplyCreation(w, f).Some?
      ensures CreationOk(ApplyCreation(w, f).value)
    {
      CreationFieldReads(w, f);
    }
    MergeKeeps(ApplyCreation, CreationOk, v, b);
  }

  /** Whatever was read, when written and read again, is the same request: also what it does not know, at both
      levels. */
  lemma CreationForwards(b: seq<byte>)
    requires Merge(ApplyCreation, NO_CREATION, b).Some?
    requires |EncodeCreation(Merge(ApplyCreation, NO_CREATION, b).value)| < TWO_TO_THE_32
    ensures Merge(ApplyCreation, NO_CREATION, EncodeCreation(Merge(ApplyCreation, NO_CREATION, b).value))
         == Merge(ApplyCreation, NO_CREATION, b)
  {
    CreationReads(NO_CREATION, b);
    CreationRoundTrip(Merge(ApplyCreation, NO_CREATION, b).value);
  }

  // Unknown fields, message by message

  function UsageUnknown(v: Usage): seq<Field> {
    v.unknown
  }

  function UsageWith(v: Usage, unknown: seq<Field>): Usage {
    v.(unknown := unknown)
  }

  lemma UsageKnownField(v: Usage, f: Field, gs: seq<Field>)
    requires f.number in USAGE_KNOWN
    ensures ApplyUsage(v, f).Some? ==> ApplyUsage(v, f).value.unknown == v.unknown
    ensures ApplyUsage(UsageWith(v, gs), f) == Rewritten(ApplyUsage(v, f), gs, UsageWith)
  {
  }

  lemma UsageStoresForeign()
    ensures StoresForeign(ApplyUsage, USAGE_KNOWN, UsageUnknown, UsageWith)
  {
    forall v: Usage, f: Field | f.number in USAGE_KNOWN && ApplyUsage(v, f).Some?
      ensures UsageUnknown(ApplyUsage(v, f).value) == UsageUnknown(v)
    {
      UsageKnownField(v, f, []);
    }
    forall v: Usage, f: Field, gs: seq<Field> | f.number in USAGE_KNOWN
      ensures ApplyUsage(UsageWith(v, gs), f) == Rewritten(ApplyUsage(v, f), gs, UsageWith)
    {
      UsageKnownField(v, f, gs);
    }
    forall v: Usage, f: Field | f.number !in USAGE_KNOWN
      ensures ApplyUsage(v, f) == Some(UsageWith(v, UsageUnknown(v) + [f]))
    {
    }
    hide ApplyUsage;
  }

  lemma UsageUnknownSurvive(v: Usage, fs: seq<Field>)
    ensures ApplyAll(ApplyUsage, v, fs)
         == match ApplyAll(ApplyUsage, v, KnownOf(fs, USAGE_KNOWN))
            case None => None
            case Some(read) => Some(read.(unknown := v.unknown + ForeignOf(fs, USAGE_KNOWN)))
  {
    UsageStoresForeign();
    UnknownSurvive(ApplyUsage, USAGE_KNOWN, UsageUnknown, UsageWith, v, fs);
  }

  function ThrottlingUnknown(v: Throttling): seq<Field> {
    v.unknown
  }

  function ThrottlingWith(v: Throttling, unknown: seq<Field>): Throttling {
    v.(unknown := unknown)
  }

  lemma ThrottlingKnownField(v: Throttling, f: Field, gs: seq<Field>)
    requires f.number in THROTTLING_KNOWN
    ensures ApplyThrottling(v, f).Some? ==> ApplyThrottling(v, f).value.unknown == v.unknown
    ensures ApplyThrottling(ThrottlingWith(v, gs), f) == Rewritten(ApplyThrottling(v, f), gs, ThrottlingWith)
  {
  }

  lemma ThrottlingStoresForeign()
    ensures StoresForeign(ApplyThrottling, THROTTLING_KNOWN, ThrottlingUnknown, ThrottlingWith)
  {
    forall v: Throttling, f: Field | f.number in THROTTLING_KNOWN && ApplyThrottling(v, f).Some?
      ensures ThrottlingUnknown(ApplyThrottling(v, f).value) == ThrottlingUnknown(v)
    {
      ThrottlingKnownField(v, f, []);
    }
    forall v: Throttling, f: Field, gs: seq<Field> | f.number in THROTTLING_KNOWN
      ensures ApplyThrottling(ThrottlingWith(v, gs), f) == Rewritten(ApplyThrottling(v, f), gs, ThrottlingWith)
    {
      ThrottlingKnownField(v, f, gs);
    }
    forall v: Throttling, f: Field | f.number !in THROTTLING_KNOWN
      ensures ApplyThrottling(v, f) == Some(ThrottlingWith(v, ThrottlingUnknown(v) + [f]))
    {
    }
    hide ApplyThrottling;
  }

  lemma ThrottlingUnknownSurvive(v: Throttling, fs: seq<Field>)
    ensures ApplyAll(ApplyThrottling, v, fs)
         == match ApplyAll(ApplyThrottling, v, KnownOf(fs, THROTTLING_KNOWN))
            case None => None
            case Some(read) => Some(read.(unknown := v.unknown + ForeignOf(fs, THROTTLING_KNOWN)))
  {
    ThrottlingStoresForeign();
    UnknownSurvive(ApplyThrottling, THROTTLING_KNOWN, ThrottlingUnknown, ThrottlingWith, v, fs);
  }

  function StatsUnknown(v: Stats): seq<Field> {
    v.unknown
  }

  function StatsWith(v: Stats, unknown: seq<Field>): Stats {
    v.(unknown := unknown)
  }

  lemma StatsKnownField(v: Stats, f: Field, gs: seq<Field>)
    requires f.number in STATS_KNOWN
    ensures ApplyStats(v, f).Some? ==> ApplyStats(v, f).value.unknown == v.unknown
    ensures ApplyStats(StatsWith(v, gs), f) == Rewritten(ApplyStats(v, f), gs, StatsWith)
  {
    hide Merge;
  }

  lemma StatsStoresForeign()
    ensures StoresForeign(ApplyStats, STATS_KNOWN, StatsUnknown, StatsWith)
  {
    forall v: Stats, f: Field | f.number in STATS_KNOWN && ApplyStats(v, f).Some?
      ensures StatsUnknown(ApplyStats(v, f).value) == StatsUnknown(v)
    {
      StatsKnownField(v, f, []);
    }
    forall v: Stats, f: Field, gs: seq<Field> | f.number in STATS_KNOWN
      ensures ApplyStats(StatsWith(v, gs), f) == Rewritten(ApplyStats(v, f), gs, StatsWith)
    {
      StatsKnownField(v, f, gs);
    }
    forall v: Stats, f: Field | f.number !in STATS_KNOWN
      ensures ApplyStats(v, f) == Some(StatsWith(v, StatsUnknown(v) + [f]))
    {
    }
    hide ApplyStats;
  }

  lemma StatsUnknownSurvive(v: Stats, fs: seq<Field>)
    ensures ApplyAll(ApplyStats, v, fs)
         == match ApplyAll(ApplyStats, v, KnownOf(fs, STATS_KNOWN))
            case None => None
            case Some(read) => Some(read.(unknown := v.unknown + ForeignOf(fs, STATS_KNOWN)))
  {
    StatsStoresForeign();
    UnknownSurvive(ApplyStats, STATS_KNOWN, StatsUnknown, StatsWith, v, fs);
  }

  function UserUnknown(v: User): seq<Field> {
    v.unknown
  }

  function UserWith(v: User, unknown: seq<Field>): User {
    v.(unknown := unknown)
  }

  lemma UserKnownField(v: User, f: Field, gs: seq<Field>)
    requires f.number in USER_KNOWN
    ensures ApplyUser(v, f).Some? ==> ApplyUser(v, f).value.unknown == v.unknown
    ensures ApplyUser(UserWith(v, gs), f) == Rewritten(ApplyUser(v, f), gs, UserWith)
  {
  }

  lemma UserStoresForeign()
    ensures StoresForeign(ApplyUser, USER_KNOWN, UserUnknown, UserWith)
  {
    forall v: User, f: Field | f.number in USER_KNOWN && ApplyUser(v, f).Some?
      ensures UserUnknown(ApplyUser(v, f).value) == UserUnknown(v)
    {
      UserKnownField(v, f, []);
    }
    forall v: User, f: Field, gs: seq<Field> | f.number in USER_KNOWN
      ensures ApplyUser(UserWith(v, gs), f) == Rewritten(ApplyUser(v, f), gs, UserWith)
    {
      UserKnownField(v, f, gs);
    }
    forall v: User, f: Field | f.number !in USER_KNOWN
      ensures ApplyUser(v, f) == Some(UserWith(v, UserUnknown(v) + [f]))
    {
    }
    hide ApplyUser;
  }

  lemma UserUnknownSurvive(v: User, fs: seq<Field>)
    ensures ApplyAll(ApplyUser, v, fs)
         == match ApplyAll(ApplyUser, v, KnownOf(fs, USER_KNOWN))
            case None => None
            case Some(read) => Some(read.(unknown := v.unknown + ForeignOf(fs, USER_KNOWN)))
  {
    UserStoresForeign();
    UnknownSurvive(ApplyUser, USER_KNOWN, UserUnknown, UserWith, v, fs);
  }

  function DevUnknown(v: Dev): seq<Field> {
    v.unknown
  }

  function DevWith(v: Dev, unknown: seq<Field>): Dev {
    v.(unknown := unknown)
  }

  lemma DevKnownField(v: Dev, f: Field, gs: seq<Field>)
    requires f.number in DEV_KNOWN
    ensures ApplyDev(v, f).Some? ==> ApplyDev(v, f).value.unknown == v.unknown
    ensures ApplyDev(DevWith(v, gs), f) == Rewritten(ApplyDev(v, f), gs, DevWith)
  {
  }

  lemma DevStoresForeign()
    ensures StoresForeign(ApplyDev, DEV_KNOWN, DevUnknown, DevWith)
  {
    forall v: Dev, f: Field | f.number in DEV_KNOWN && ApplyDev(v, f).Some?
      ensures DevUnknown(ApplyDev(v, f).value) == DevUnknown(v)
    {
      DevKnownField(v, f, []);
    }
    forall v: Dev, f: Field, gs: seq<Field> | f.number in DEV_KNOWN
      ensures ApplyDev(DevWith(v, gs), f) == Rewritten(ApplyDev(v, f), gs, DevWith)
    {
      DevKnownField(v, f, gs);
    }
    forall v: Dev, f: Field | f.number !in DEV_KNOWN
      ensures ApplyDev(v, f) == Some(DevWith(v, DevUnknown(v) + [f]))
    {
    }
    hide ApplyDev;
  }

  lemma DevUnknownSurvive(v: Dev, fs: seq<Field>)
    ensures ApplyAll(ApplyDev, v, fs)
         == match ApplyAll(ApplyDev, v, KnownOf(fs, DEV_KNOWN))
            case None => None
            case Some(read) => Some(read.(unknown := v.unknown + ForeignOf(fs, DEV_KNOWN)))
  {
    DevStoresForeign();
    UnknownSurvive(ApplyDev, DEV_KNOWN, DevUnknown, DevWith, v, fs);
  }

  function StoreUnknown(v: Store): seq<Field> {
    v.unknown
  }

  function StoreWith(v: Store, unknown: seq<Field>): Store {
    v.(unknown := unknown)
  }

  lemma StoreKnownField(v: Store, f: Field, gs: seq<Field>)
    requires f.number in STORE_KNOWN
    ensures ApplyStore(v, f).Some? ==> ApplyStore(v, f).value.unknown == v.unknown
    ensures ApplyStore(StoreWith(v, gs), f) == Rewritten(ApplyStore(v, f), gs, StoreWith)
  {
  }

  lemma StoreStoresForeign()
    ensures StoresForeign(ApplyStore, STORE_KNOWN, StoreUnknown, StoreWith)
  {
    forall v: Store, f: Field | f.number in STORE_KNOWN && ApplyStore(v, f).Some?
      ensures StoreUnknown(ApplyStore(v, f).value) == StoreUnknown(v)
    {
      StoreKnownField(v, f, []);
    }
    forall v: Store, f: Field, gs: seq<Field> | f.number in STORE_KNOWN
      ensures ApplyStore(StoreWith(v, gs), f) == Rewritten(ApplyStore(v, f), gs, StoreWith)
    {
      StoreKnownField(v, f, gs);
    }
    forall v: Store, f: Field | f.number !in STORE_KNOWN
      ensures ApplyStore(v, f) == Some(StoreWith(v, StoreUnknown(v) + [f]))
    {
    }
    hide ApplyStore;
  }

  lemma StoreUnknownSurvive(v: Store, fs: seq<Field>)
    ensures ApplyAll(ApplyStore, v, fs)
         == match ApplyAll(ApplyStore, v, KnownOf(fs, STORE_KNOWN))
            case None => None
            case Some(read) => Some(read.(unknown := v.unknown + ForeignOf(fs, STORE_KNOWN)))
  {
    StoreStoresForeign();
    UnknownSurvive(ApplyStore, STORE_KNOWN, StoreUnknown, StoreWith, v, fs);
  }

  function CreationUnknown(v: Creation): seq<Field> {
    v.unknown
  }

  function CreationWith(v: Creation, unknown: seq<Field>): Creation {
    v.(unknown := unknown)
  }

  lemma CreationKnownField(v: Creation, f: Field, gs: seq<Field>)
    requires f.number in CREATION_KNOWN
    ensures ApplyCreation(v, f).Some? ==> ApplyCreation(v, f).value.unknown == v.unknown
    ensures ApplyCreation(CreationWith(v, gs), f) == Rewritten(ApplyCreation(v, f), gs, CreationWith)
  {
    hide Merge;
  }

  lemma CreationStoresForeign()
    ensures StoresForeign(ApplyCreation, CREATION_KNOWN, CreationUnknown, CreationWith)
  {
    forall v: Creation, f: Field | f.number in CREATION_KNOWN && ApplyCreation(v, f).Some?
      ensures CreationUnknown(ApplyCreation(v, f).value) == CreationUnknown(v)
    {
      CreationKnownField(v, f, []);
    }
    forall v: Creation, f: Field, gs: seq<Field> | f.number in CREATION_KNOWN
      ensures ApplyCreation(CreationWith(v, gs), f) == Rewritten(ApplyCreation(v, f), gs, CreationWith)
    {
      CreationKnownField(v, f, gs);
    }
    forall v: Creation, f: Field | f.number !in CREATION_KNOWN
      ensures ApplyCreation(v, f) == Some(CreationWith(v, CreationUnknown(v) + [f]))
    {
    }
    hide ApplyCreation;
  }

  lemma CreationUnknownSurvive(v: Creation, fs: seq<Field>)
    ensures ApplyAll(ApplyCreation, v, fs)
         == match ApplyAll(ApplyCreation, v, KnownOf(fs, CREATION_KNOWN))
            case None => None
            case Some(read) => Some(read.(unknown := v.unknown + ForeignOf(fs, CREATION_KNOWN)))
  {
    CreationStoresForeign();
    UnknownSurvive(ApplyCreation, CREATION_KNOWN, CreationUnknown, CreationWith, v, fs);
  }
}
