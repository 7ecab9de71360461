/** The generated code of the statistics messages: sizes are computed and cached in a first pass, bytes written in
    a second, and reading fills a message field by field. */
module ProtoStats {
  import opened Basics
  import opened Bytes
  import opened ProtoWire
  import opened ProtoMessages
  import opened ProtoRoundTrip
  import opened ProtoStream
  import opened ProtoBytes

  // CpuUsage

  class CpuUsage {
    var totalUsage: u64
    var percpuUsage: seq<u64>
    var usageInKernelmode: u64
    var usageInUsermode: u64
    var unknownFields: seq<Field>
    var cachedSize: u32

    constructor ()
      ensures Value() == NO_USAGE
    {
      totalUsage, percpuUsage, usageInKernelmode, usageInUsermode := 0, [], 0, 0;
      unknownFields, cachedSize := [], 0;
    }

    function Value(): Usage
      reads this
    {
      Usage(totalUsage, percpuUsage, usageInKernelmode, usageInUsermode, unknownFields)
    }

    method ComputeSize() returns (size: u32)
      requires |EncodeUsage(Value())| < TWO_TO_THE_32 && UsageOk(Value())
      modifies this`cachedSize
      ensures size == cachedSize == |EncodeUsage(Value())|
    {
      var mySize := NumberSize(1, totalUsage);
      var perCpu := NumbersSize(2, percpuUsage);
      mySize := mySize + perCpu + NumberSize(3, usageInKernelmode) + NumberSize(4, usageInUsermode);
      var unknown := UnknownFieldsSize(unknownFields);
      mySize := mySize + unknown;
      UsageSize(Value());
      cachedSize := mySize;
      size := mySize;
    }

    method WriteTo(os: Output)
      modifies os
      ensures os.bytes == old(os.bytes) + EncodeUsage(Value())
      ensures os.bytes == old(os.bytes)
                          + (Num(0x08, totalUsage) + Nums(0x10, percpuUsage) + Num(0x18, usageInKernelmode)
                             + Num(0x20, usageInUsermode) + EncodeAll(unknownFields))
    {
      UsageInBytes(Value());
      os.WriteNumber(1, totalUsage);
      os.WriteNumbers(2, percpuUsage);
      os.WriteNumber(3, usageInKernelmode);
      os.WriteNumber(4, usageInUsermode);
      os.WriteUnknownFields(unknownFields);
      UsageJoined(old(os.bytes), Value());
    }

    method MergeFrom(input: seq<byte>) returns (ok: bool)
      modifies this
      ensures cachedSize == old(cachedSize)
      ensures ok == Merge(ApplyUsage, old(Value()), input).Some?
      ensures ok ==> Value() == Merge(ApplyUsage, old(Value()), input).value
    {
      var rest := input;
      while rest != []
        invariant cachedSize == old(cachedSize)
        invariant Merge(ApplyUsage, Value(), rest) == Merge(ApplyUsage, old(Value()), input)
        decreases |rest|
      {
        var tag := ReadTag(rest);
        if tag == None {
          return false;
        }
        var field := ReadPayload(tag.value.value, tag.value.rest);
        if field == None {
          return false;
        }
        ok := Take(field.value.value);
        if !ok {
          return false;
        }
        rest := field.value.rest;
      }
      return true;
    }

    method Take(f: Field) returns (ok: bool)
      modifies this
      ensures cachedSize == old(cachedSize)
      ensures ok == ApplyUsage(old(Value()), f).Some?
      ensures ok ==> Value() == ApplyUsage(old(Value()), f).value
    {
      match f.number {
        case 1 =>
          if !f.Number? {
            return false;
          }
          totalUsage := f.value;
        case 2 =>
          if f.Number? {
            percpuUsage := percpuUsage + [f.value];
          } else if f.Bytes? && Packed(f.payload).Some? {
            percpuUsage := percpuUsage + Packed(f.payload).value;
          } else {
            return false;
          }
        case 3 =>
          if !f.Number? {
            return false;
          }
          usageInKernelmode := f.value;
        case 4 =>
          if !f.Number? {
            return false;
          }
          usageInUsermode := f.value;
        case _ =>
          unknownFields := unknownFields + [f];
      }
      return true;
    }
  }

  lemma UsageJoined(base: seq<byte>, v: Usage)
    ensures base + EncodeAll(NumberField(1, v.total)) + EncodeAll(NumberFields(2, v.perCpu))
            + EncodeAll(NumberField(3, v.kernel)) + EncodeAll(NumberField(4, v.user)) + EncodeAll(v.unknown)
         == base + EncodeUsage(v)
  {
    hide EncodeAll;
    var a, b, c := NumberField(1, v.total), NumberFields(2, v.perCpu), NumberField(3, v.kernel);
    Wrote(base, a, b);
    Wrote(base, a + b, c);
    Wrote(base, a + b + c, NumberField(4, v.user));
    Wrote(base, UsageOwn(v), v.unknown);
  }

  lemma UsageSize(v: Usage)
    requires |EncodeUsage(v)| < TWO_TO_THE_32 && UsageOk(v)
    ensures |EncodeUsage(v)|
         == SizeAll(NumberField(1, v.total)) + SizeAll(NumberFields(2, v.perCpu)) + SizeAll(NumberField(3, v.kernel))
            + SizeAll(NumberField(4, v.user)) + SizeAll(v.unknown)
  {
    UsageEncodable(v);
    SizeIsLength(UsageFields(v));
    hide EncodeAll, SizeAll;
    var a, b, c := NumberField(1, v.total), NumberFields(2, v.perCpu), NumberField(3, v.kernel);
    SizeAllConcat(a, b);
    SizeAllConcat(a + b, c);
    SizeAllConcat(a + b + c, NumberField(4, v.user));
    SizeAllConcat(UsageOwn(v), v.unknown);
  }

  // ThrottlingData

  class ThrottlingData {
    var periods: u64
    var throttledPeriods: u64
    var throttledTime: u64
    var unknownFields: seq<Field>
    var cachedSize: u32

    constructor ()
      ensures Value() == NO_THROTTLING
    {
      periods, throttledPeriods, throttledTime, unknownFields, cachedSize := 0, 0, 0, [], 0;
    }

    function Value(): Throttling
      reads this
    {
      Throttling(periods, throttledPeriods, throttledTime, unknownFields)
    }

    method ComputeSize() returns (size: u32)
      requires |EncodeThrottling(Value())| < TWO_TO_THE_32 && ThrottlingOk(Value())
      modifies this`cachedSize
      ensures size == cachedSize == |EncodeThrottling(Value())|
    {
      var mySize := NumberSize(1, periods) + NumberSize(2, throttledPeriods) + NumberSize(3, throttledTime);
      var unknown := UnknownFieldsSize(unknownFields);
      mySize := mySize + unknown;
      ThrottlingSize(Value());
      cachedSize := mySize;
      size := mySize;
    }

    method WriteTo(os: Output)
      modifies os
      ensures os.bytes == old(os.bytes) + EncodeThrottling(Value())
      ensures os.bytes == old(os.bytes)
                          + (Num(0x08, periods) + Num(0x10, throttledPeriods) + Num(0x18, throttledTime)
                             + EncodeAll(unknownFields))
    {
      ThrottlingInBytes(Value());
      os.WriteNumber(1, periods);
      os.WriteNumber(2, throttledPeriods);
      os.WriteNumber(3, throttledTime);
      os.WriteUnknownFields(unknownFields);
      ThrottlingJoined(old(os.bytes), Value());
    }

    method MergeFrom(input: seq<byte>) returns (ok: bool)
      modifies this
      ensures cachedSize == old(cachedSize)
      ensures ok == Merge(ApplyThrottling, old(Value()), input).Some?
      ensures ok ==> Value() == Merge(ApplyThrottling, old(Value()), input).value
    {
      var rest := input;
      while rest != []
        invariant cachedSize == old(cachedSize)
        invariant Merge(ApplyThrottling, Value(), rest) == Merge(ApplyThrottling, old(Value()), input)
        decreases |rest|
      {
        var tag := ReadTag(rest);
        if tag == None {
          return false;
        }
        var field := ReadPayload(tag.value.value, tag.value.rest);
        if field == None {
          return false;
        }
        ok := Take(field.value.value);
        if !ok {
          return false;
        }
        rest := field.value.rest;
      }
      return true;
    }

    method Take(f: Field) returns (ok: bool)
      modifies this
      ensures cachedSize == old(cachedSize)
      ensures ok == ApplyThrottling(old(Value()), f).Some?
      ensures ok ==> Value() == ApplyThrottling(old(Value()), f).value
    {
      if 1 <= f.number <= 3 && !f.Number? {
        return false;
      }
      match f.number {
        case 1 => periods := f.value;
        case 2 => throttledPeriods := f.value;
        case 3 => throttledTime := f.value;
        case _ => unknownFields := unknownFields + [f];
      }
      return true;
    }
  }

  lemma ThrottlingJoined(base: seq<byte>, v: Throttling)
    ensures base + EncodeAll(NumberField(1, v.periods)) + EncodeAll(NumberField(2, v.throttledPeriods))
            + EncodeAll(NumberField(3, v.throttledTime)) + EncodeAll(v.unknown) == base + EncodeThrottling(v)
  {
    hide EncodeAll;
    var a, b := NumberField(1, v.periods), NumberField(2, v.throttledPeriods);
    Wrote(base, a, b);
    Wrote(base, a + b, NumberField(3, v.throttledTime));
    Wrote(base, ThrottlingOwn(v), v.unknown);
  }

  lemma ThrottlingSize(v: Throttling)
    requires |EncodeThrottling(v)| < TWO_TO_THE_32 && ThrottlingOk(v)
    ensures |EncodeThrottling(v)|
         == SizeAll(NumberField(1, v.periods)) + SizeAll(NumberField(2, v.throttledPeriods))
            + SizeAll(NumberField(3, v.throttledTime)) + SizeAll(v.unknown)
  {
    ThrottlingEncodable(v);
    SizeIsLength(ThrottlingFields(v));
    hide EncodeAll, SizeAll;
    var a, b := NumberField(1, v.periods), NumberField(2, v.throttledPeriods);
    SizeAllConcat(a, b);
    SizeAllConcat(a + b, NumberField(3, v.throttledTime));
    SizeAllConcat(ThrottlingOwn(v), v.unknown);
  }

  // CpuStats

  class CpuStats {
    var cpuUsage: CpuUsage?
    var throttlingData: ThrottlingData?
    var unknownFields: seq<Field>
    var cachedSize: u32

    constructor ()
      ensures Value() == NO_STATS
    {
      cpuUsage, throttlingData, unknownFields, cachedSize := null, null, [], 0;
    }

    function Value(): Stats
      reads this`cpuUsage, this`throttlingData, this`unknownFields, cpuUsage, throttlingData
    {
      Stats(if cpuUsage == null then None else Some(cpuUsage.Value()),
            if throttlingData == null then None else Some(throttlingData.Value()), unknownFields)
    }

    function UsageSize(): u32
      reads this`cpuUsage, cpuUsage
    {
      if cpuUsage == null then 0 else cpuUsage.cachedSize
    }

    function ThrottlingSize(): u32
      reads this`throttlingData, throttlingData
    {
      if throttlingData == null then 0 else throttlingData.cachedSize
    }

    method SizeParts() returns (size: u32)
      requires |EncodeStats(Value())| < TWO_TO_THE_32 && StatsOk(Value())
      modifies cpuUsage, throttlingData
      ensures Value() == old(Value())
      ensures size == |EncodeStats(Value())|
      ensures StatsSized(Value(), UsageSize(), ThrottlingSize())
    {
      hide EncodeStats, EncodeUsage, EncodeThrottling, UsageOk, ThrottlingOk, SizeAll, NestedSize, Foreign;
      StatsSize(Value());
      var mySize := 0;
      if cpuUsage != null {
        var len := cpuUsage.ComputeSize();
        mySize := mySize + NestedSize(len);
      }
      if throttlingData != null {
        var len := throttlingData.ComputeSize();
        mySize := mySize + NestedSize(len);
      }
      var unknown := UnknownFieldsSize(unknownFields);
      size := mySize + unknown;
    }

    /** The first pass: also leaves the right size in every nested message. */
    method ComputeSize() returns (size: u32)
      requires |EncodeStats(Value())| < TWO_TO_THE_32 && StatsOk(Value())
      modifies this`cachedSize, cpuUsage, throttlingData
      ensures Value() == old(Value())
      ensures size == cachedSize == |EncodeStats(Value())|
      ensures StatsSized(Value(), UsageSize(), ThrottlingSize())
    {
      hide *;
      var mySize := SizeParts();
      cachedSize := mySize;
      size := mySize;
    }

    /** The second pass: the cached sizes become the length prefixes, right or wrong. */
    method WriteTo(os: Output)
      modifies os
      ensures os.bytes == old(os.bytes) + StatsWritten(Value(), UsageSize(), ThrottlingSize())
    {
      hide UsageWritten, ThrottlingWritten, EncodeAll;
      ghost var v := Value();
      ghost var first, second := UsageWritten(v.usage, UsageSize()), ThrottlingWritten(v.throttling, ThrottlingSize());
      WriteUsage(os);
      WriteThrottling(os);
      os.WriteUnknownFields(unknownFields);
      Regroup(old(os.bytes), first, second, EncodeAll(v.unknown));
    }

    method WriteUsage(os: Output)
      modifies os
      ensures os.bytes == old(os.bytes) + UsageWritten(Value().usage, UsageSize())
    {
      if cpuUsage != null {
        os.WriteTag(1, LENGTH_DELIMITED);
        os.WriteRawVarint(cpuUsage.cachedSize);
        cpuUsage.WriteTo(os);
        WroteNested(old(os.bytes), 1, cpuUsage.cachedSize, EncodeUsage(cpuUsage.Value()));
      }
    }

    method WriteThrottling(os: Output)
      modifies os
      ensures os.bytes == old(os.bytes) + ThrottlingWritten(Value().throttling, ThrottlingSize())
    {
      if throttlingData != null {
        os.WriteTag(2, LENGTH_DELIMITED);
        os.WriteRawVarint(throttlingData.cachedSize);
        throttlingData.WriteTo(os);
        WroteNested(old(os.bytes), 2, throttlingData.cachedSize, EncodeThrottling(throttlingData.Value()));
      }
    }

    /** Both passes: what is written is the message, in as many bytes as announced. */
    method WriteToBytes() returns (bytes: seq<byte>)
      requires |EncodeStats(Value())| < TWO_TO_THE_32 && StatsOk(Value())
      modifies this`cachedSize, cpuUsage, throttlingData
      ensures Value() == old(Value())
      ensures bytes == EncodeStats(Value()) && |bytes| == cachedSize
      ensures Merge(ApplyStats, NO_STATS, bytes) == Some(Value())
    {
      hide EncodeStats, StatsWritten;
      var size := ComputeSize();
      var os := new Output();
      WriteTo(os);
      bytes := os.bytes;
      StatsSerialized(Value(), UsageSize(), ThrottlingSize());
    }

    method MergeFrom(input: seq<byte>) returns (ok: bool)
      modifies this
      ensures cachedSize == old(cachedSize)
      ensures ok == Merge(ApplyStats, old(Value()), input).Some?
      ensures ok ==> Value() == Merge(ApplyStats, old(Value()), input).value
    {
      var rest := input;
      while rest != []
        invariant cachedSize == old(cachedSize)
        invariant Merge(ApplyStats, Value(), rest) == Merge(ApplyStats, old(Value()), input)
        decreases |rest|
      {
        var tag := ReadTag(rest);
        if tag == None {
          return false;
        }
        var field := ReadPayload(tag.value.value, tag.value.rest);
        if field == None {
          return false;
        }
        ok := Take(field.value.value);
        if !ok {
          return false;
        }
        rest := field.value.rest;
      }
      return true;
    }

    method Take(f: Field) returns (ok: bool)
      modifies this
      ensures cachedSize == old(cachedSize)
      ensures ok == ApplyStats(old(Value()), f).Some?
      ensures ok ==> Value() == ApplyStats(old(Value()), f).value
    {
      if 1 <= f.number <= 2 && !f.Bytes? {
        return false;
      }
      ok := true;
      if f.number == 1 {
        var usage := new CpuUsage();
        ok := usage.MergeFrom(f.payload);
        cpuUsage := usage;
      } else if f.number == 2 {
        var throttling := new ThrottlingData();
        ok := throttling.MergeFrom(f.payload);
        throttlingData := throttling;
      } else {
        unknownFields := unknownFields + [f];
      }
    }
  }

  function UsageWritten(usage: Option<Usage>, size: nat): seq<byte> {
    if usage.Some? then Nested(1, size, EncodeUsage(usage.value)) else []
  }

  function ThrottlingWritten(throttling: Option<Throttling>, size: nat): seq<byte> {
    if throttling.Some? then Nested(2, size, EncodeThrottling(throttling.value)) else []
  }

  function StatsWritten(v: Stats, usageSize: nat, throttlingSize: nat): seq<byte> {
    UsageWritten(v.usage, usageSize) + ThrottlingWritten(v.throttling, throttlingSize) + EncodeAll(v.unknown)
  }

  predicate StatsSized(v: Stats, usageSize: nat, throttlingSize: nat) {
    && (v.usage.Some? ==> usageSize == |EncodeUsage(v.usage.value)|)
    && (v.throttling.Some? ==> throttlingSize == |EncodeThrottling(v.throttling.value)|)
  }

  lemma Regroup(base: seq<byte>, a: seq<byte>, b: seq<byte>, c: seq<byte>)
    ensures base + a + b + c == base + (a + b + c)
  {
    assert base + a + b == base + (a + b);
  }

  lemma StatsSize(v: Stats)
    requires |EncodeStats(v)| < TWO_TO_THE_32 && StatsOk(v)
    ensures v.usage.Some? ==> |EncodeUsage(v.usage.value)| < TWO_TO_THE_32
    ensures v.throttling.Some? ==> |EncodeThrottling(v.throttling.value)| < TWO_TO_THE_32
    ensures |EncodeStats(v)|
         == (if v.usage.Some? then NestedSize(|EncodeUsage(v.usage.value)|) else 0)
            + (if v.throttling.Some? then NestedSize(|EncodeThrottling(v.throttling.value)|) else 0)
            + SizeAll(v.unknown)
  {
    StatsPartsFit(v);
    StatsEncodable(v);
    SizeIsLength(StatsFields(v));
    hide EncodeAll, EncodeUsage, EncodeThrottling, StatsOk, Encodable;
    var a, b := MessageField(1, UsageBytes(v.usage)), MessageField(2, ThrottlingBytes(v.throttling));
    SizeAllConcat(a, b);
    SizeAllConcat(a + b, v.unknown);
    if v.usage.Some? {
      MessageFieldIs(1, EncodeUsage(v.usage.value));
    }
    if v.throttling.Some? {
      MessageFieldIs(2, EncodeThrottling(v.throttling.value));
    }
  }

  /** What is written is the message exactly when the cached sizes are those of the nested messages now: the first
      pass must come after the last change. */
  lemma StatsWrittenExactly(v: Stats, usageSize: u32, throttlingSize: u32)
    requires |EncodeStats(v)| < TWO_TO_THE_32 && StatsOk(v)
    ensures StatsWritten(v, usageSize, throttlingSize) == EncodeStats(v)
        <==> StatsSized(v, usageSize, throttlingSize)
  {
    StatsSize(v);
    hide StatsWritten, EncodeStats, EncodeUsage, EncodeThrottling, StatsOk, SizeAll;
    var a := if v.usage.Some? then |EncodeUsage(v.usage.value)| else 0;
    var b := if v.throttling.Some? then |EncodeThrottling(v.throttling.value)| else 0;
    StatsSizedIsEncoded(v, a, b);
    if StatsSized(v, usageSize, throttlingSize) {
      StatsSizedIsEncoded(v, usageSize, throttlingSize);
    } else if StatsWritten(v, usageSize, throttlingSize) == EncodeStats(v) {
      StatsSizesShow(v, usageSize, throttlingSize, a, b);
    }
  }

  /** Such an output: the usage was empty when its size was computed, and then got a total. What is written announces
      an empty nested message and takes the total for a field of the outer one, so it cannot be read back. */
  lemma StaleSizeIsUnreadable()
    ensures var before := NO_STATS.(usage := Some(NO_USAGE));
            var v := before.(usage := Some(NO_USAGE.(total := 1)));
            && StatsSized(before, 0, 0) && |EncodeStats(v)| < TWO_TO_THE_32 && StatsOk(v)
            && StatsWritten(v, 0, 0) != EncodeStats(v)
            && Merge(ApplyStats, NO_STATS, StatsWritten(v, 0, 0)) == None
  {
    var v := NO_STATS.(usage := Some(NO_USAGE.(total := 1)));
    TotalIsOneField();
    StaleIsTwoFields();
    var fs := [Bytes(1, []), Number(1, 1)];
    MergeOfEncode(ApplyStats, NO_STATS, fs);
    assert fs[1..] == [Number(1, 1)];
    assert ApplyAll(ApplyStats, NO_STATS.(usage := Some(NO_USAGE)), fs[1..]) == None;
    StatsRoundTrip(v);
  }

  lemma TotalIsOneField()
    ensures var usage := NO_USAGE.(total := 1);
            && EncodeUsage(usage) == EncodeField(Number(1, 1)) && |EncodeUsage(usage)| == 2
            && EncodeUsage(NO_USAGE) == []
            && |EncodeStats(NO_STATS.(usage := Some(usage)))| == 4
  {
    var usage := NO_USAGE.(total := 1);
    assert UsageFields(usage) == [Number(1, 1)];
    EncodeOne(Number(1, 1));
    SizeOfField(Number(1, 1));
    assert StatsFields(NO_STATS.(usage := Some(usage))) == [Bytes(1, EncodeUsage(usage))];
    EncodeOne(Bytes(1, EncodeUsage(usage)));
    SizeOfField(Bytes(1, EncodeUsage(usage)));
  }

  lemma StaleIsTwoFields()
    ensures StatsWritten(NO_STATS.(usage := Some(NO_USAGE.(total := 1))), 0, 0)
         == EncodeAll([Bytes(1, []), Number(1, 1)])
  {
    TotalIsOneField();
    EncodeOne(Bytes(1, []));
    EncodeOne(Number(1, 1));
    assert [Bytes(1, []), Number(1, 1)] == [Bytes(1, [])] + [Number(1, 1)];
    EncodeAllConcat([Bytes(1, [])], [Number(1, 1)]);
    NestedIsField(1, []);
  }

  lemma UsageFieldWritten(usage: Option<Usage>, size: nat)
    requires usage.Some? ==> size == |EncodeUsage(usage.value)|
    ensures EncodeAll(MessageField(1, UsageBytes(usage))) == UsageWritten(usage, size)
  {
    hide EncodeUsage;
    if usage.Some? {
      MessageFieldIs(1, EncodeUsage(usage.value));
    }
  }

  lemma ThrottlingFieldWritten(throttling: Option<Throttling>, size: nat)
    requires throttling.Some? ==> size == |EncodeThrottling(throttling.value)|
    ensures EncodeAll(MessageField(2, ThrottlingBytes(throttling))) == ThrottlingWritten(throttling, size)
  {
    hide EncodeThrottling;
    if throttling.Some? {
      MessageFieldIs(2, EncodeThrottling(throttling.value));
    }
  }

  lemma StatsSizedIsEncoded(v: Stats, usageSize: nat, throttlingSize: nat)
    requires StatsSized(v, usageSize, throttlingSize)
    ensures StatsWritten(v, usageSize, throttlingSize) == EncodeStats(v)
  {
    hide EncodeAll, MessageField, UsageWritten, ThrottlingWritten;
    var a, b := MessageField(1, UsageBytes(v.usage)), MessageField(2, ThrottlingBytes(v.throttling));
    EncodeAllConcat(a, b);
    EncodeAllConcat(a + b, v.unknown);
    UsageFieldWritten(v.usage, usageSize);
    ThrottlingFieldWritten(v.throttling, throttlingSize);
  }

  lemma StatsSerialized(v: Stats, usageSize: u32, throttlingSize: u32)
    requires |EncodeStats(v)| < TWO_TO_THE_32 && StatsOk(v) && StatsSized(v, usageSize, throttlingSize)
    ensures StatsWritten(v, usageSize, throttlingSize) == EncodeStats(v)
    ensures Merge(ApplyStats, NO_STATS, EncodeStats(v)) == Some(v)
  {
    StatsSizedIsEncoded(v, usageSize, throttlingSize);
    StatsRoundTrip(v);
  }

  /** Behind whatever stands first, the size of the second message shows too. */
  lemma ThrottlingSizeShows(throttling: Option<Throttling>, size: u32, other: u32, rest: seq<byte>)
    requires ThrottlingWritten(throttling, size) + rest == ThrottlingWritten(throttling, other) + rest
    ensures throttling.Some? ==> size == other
  {
    hide EncodeThrottling, Nested;
    if throttling.Some? {
      SizeShows(2, size, EncodeThrottling(throttling.value), rest, other, EncodeThrottling(throttling.value), rest);
    }
  }

  lemma StatsSizesShow(v: Stats, usageSize: u32, throttlingSize: u32, a: u32, b: u32)
    requires StatsSized(v, a, b) && StatsWritten(v, usageSize, throttlingSize) == StatsWritten(v, a, b)
    ensures StatsSized(v, usageSize, throttlingSize)
  {
    hide ThrottlingWritten, EncodeAll, EncodeUsage, Nested;
    var u, u' := UsageWritten(v.usage, usageSize), UsageWritten(v.usage, a);
    var was := ThrottlingWritten(v.throttling, throttlingSize) + EncodeAll(v.unknown);
    var now := ThrottlingWritten(v.throttling, b) + EncodeAll(v.unknown);
    assert u + was == StatsWritten(v, usageSize, throttlingSize);
    assert u' + now == StatsWritten(v, a, b);
    if v.usage.Some? {
      SizeShows(1, usageSize, EncodeUsage(v.usage.value), was, a, EncodeUsage(v.usage.value), now);
    }
    assert (u + was)[|u|..] == was && (u' + now)[|u'|..] == now;
    ThrottlingSizeShows(v.throttling, throttlingSize, b, EncodeAll(v.unknown));
  }
}
