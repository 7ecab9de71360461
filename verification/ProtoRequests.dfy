/** The generated code of the request that creates a container, and of the messages nested in it. */
module ProtoRequests {
  import opened Basics
  import opened Bytes
  import opened ProtoWire
  import opened ProtoMessages
  import opened ProtoRoundTrip
  import opened ProtoStream
  import opened ProtoBytes

  // StringUser

  class StringUser {
    var uid: seq<byte>
    var gid: seq<byte>
    var additionalGids: seq<seq<byte>>
    var unknownFields: seq<Field>
    var cachedSize: u32

    constructor ()
      ensures Value() == NO_USER
    {
      uid, gid, additionalGids, unknownFields, cachedSize := [], [], [], [], 0;
    }

    function Value(): User
      reads this
    {
      User(uid, gid, additionalGids, unknownFields)
    }

    method ComputeSize() returns (size: u32)
      requires |EncodeUser(Value())| < TWO_TO_THE_32 && UserOk(Value())
      modifies this`cachedSize
      ensures size == cachedSize == |EncodeUser(Value())|
    {
      var size3 := TextsSize(3, additionalGids);
      var unknown := UnknownFieldsSize(unknownFields);
      var mySize := TextSize(1, uid) + TextSize(2, gid) + size3 + unknown;
      UserSize(Value());
      cachedSize := mySize;
      size := mySize;
    }

    method WriteTo(os: Output)
      modifies os
      ensures os.bytes == old(os.bytes) + EncodeUser(Value())
      ensures os.bytes == old(os.bytes)
                          + (Str(0x0A, uid) + Str(0x12, gid) + Each(0x1A, additionalGids) + EncodeAll(unknownFields))
    {
      UserInBytes(Value());
      os.WriteText(1, uid);
      os.WriteText(2, gid);
      os.WriteTexts(3, additionalGids);
      os.WriteUnknownFields(unknownFields);
      UserJoined(old(os.bytes), Value());
    }

    method MergeFrom(input: seq<byte>) returns (ok: bool)
      modifies this
      ensures cachedSize == old(cachedSize)
      ensures ok == Merge(ApplyUser, old(Value()), input).Some?
      ensures ok ==> Value() == Merge(ApplyUser, old(Value()), input).value
    {
      var rest := input;
      while rest != []
        invariant cachedSize == old(cachedSize)
        invariant Merge(ApplyUser, Value(), rest) == Merge(ApplyUser, old(Value()), input)
        decreases |rest|
      {
        var tag := ReadTag(rest);
        if tag == None {
          return false;
        }
        var field := ReadPayload(tag.value.value, tag.value.rest);
        if field == None {
          return false;
        }
        ok := Take(field.value.value);
        if !ok {
          return false;
        }
        rest := field.value.rest;
      }
      return true;
    }

    method Take(f: Field) returns (ok: bool)
      modifies this
      ensures cachedSize == old(cachedSize)
      ensures ok == ApplyUser(old(Value()), f).Some?
      ensures ok ==> Value() == ApplyUser(old(Value()), f).value
    {
      if 1 <= f.number <= 3 && !f.Bytes? {
        return false;
      }
      match f.number {
        case 1 => uid := f.payload;
        case 2 => gid := f.payload;
        case 3 => additionalGids := additionalGids + [f.payload];
        case _ => unknownFields := unknownFields + [f];
      }
      return true;
    }
  }

  lemma UserJoined(base: seq<byte>, v: User)
    ensures base + EncodeAll(TextField(1, v.uid)) + EncodeAll(TextField(2, v.gid))
            + EncodeAll(TextFields(3, v.additionalGids)) + EncodeAll(v.unknown)
         == base + EncodeUser(v)
  {
    hide EncodeAll;
    var a, b := TextField(1, v.uid), TextField(2, v.gid);
    Wrote(base, a, b);
    Wrote(base, a + b, TextFields(3, v.additionalGids));
    Wrote(base, UserOwn(v), v.unknown);
  }

  lemma UserSize(v: User)
    requires |EncodeUser(v)| < TWO_TO_THE_32 && UserOk(v)
    ensures |EncodeUser(v)|
         == SizeAll(TextField(1, v.uid)) + SizeAll(TextField(2, v.gid)) + SizeAll(TextFields(3, v.additionalGids))
            + SizeAll(v.unknown)
  {
    UserEncodable(v);
    SizeIsLength(UserFields(v));
    hide EncodeAll, SizeAll;
    var a, b := TextField(1, v.uid), TextField(2, v.gid);
    SizeAllConcat(a, b);
    SizeAllConcat(a + b, TextFields(3, v.additionalGids));
    SizeAllConcat(UserOwn(v), v.unknown);
  }

  // Device

  class Device {
    var id: seq<byte>
    var fieldType: seq<byte>
    var vmPath: seq<byte>
    var containerPath: seq<byte>
    var options: seq<seq<byte>>
    var unknownFields: seq<Field>
    var cachedSize: u32

    constructor ()
      ensures Value() == NO_DEV
    {
      id, fieldType, vmPath, containerPath, options, unknownFields, cachedSize := [], [], [], [], [], [], 0;
    }

    function Value(): Dev
      reads this
    {
      Dev(id, fieldType, vmPath, containerPath, options, unknownFields)
    }

    method ComputeSize() returns (size: u32)
      requires |EncodeDev(Value())| < TWO_TO_THE_32 && DevOk(Value())
      modifies this`cachedSize
      ensures size == cachedSize == |EncodeDev(Value())|
    {
      var size5 := TextsSize(5, options);
      var mySize := TextSize(1, id) + TextSize(2, fieldType) + TextSize(3, vmPath)
                    + TextSize(4, containerPath) + size5;
      var unknown := UnknownFieldsSize(unknownFields);
      mySize := mySize + unknown;
      DevSize(Value());
      cachedSize := mySize;
      size := mySize;
    }

    method WriteTo(os: Output)
      modifies os
      ensures os.bytes == old(os.bytes) + EncodeDev(Value())
      ensures os.bytes == old(os.bytes)
                          + (Str(0x0A, id) + Str(0x12, fieldType) + Str(0x1A, vmPath) + Str(0x22, containerPath)
                             + Each(0x2A, options) + EncodeAll(unknownFields))
    {
      DevInBytes(Value());
      os.WriteText(1, id);
      os.WriteText(2, fieldType);
      os.WriteText(3, vmPath);
      os.WriteText(4, containerPath);
      os.WriteTexts(5, options);
      os.WriteUnknownFields(unknownFields);
      DevJoined(old(os.bytes), Value());
    }

    method MergeFrom(input: seq<byte>) returns (ok: bool)
      modifies this
      ensures cachedSize == old(cachedSize)
      ensures ok == Merge(ApplyDev, old(Value()), input).Some?
      ensures ok ==> Value() == Merge(ApplyDev, old(Value()), input).value
    {
      var rest := input;
      while rest != []
        invariant cachedSize == old(cachedSize)
        invariant Merge(ApplyDev, Value(), rest) == Merge(ApplyDev, old(Value()), input)
        decreases |rest|
      {
        var tag := ReadTag(rest);
        if tag == None {
          return false;
        }
        var field := ReadPayload(tag.value.value, tag.value.rest);
        if field == None {
          return false;
        }
        ok := Take(field.value.value);
        if !ok {
          return false;
        }
        rest := field.value.rest;
      }
      return true;
    }

    method Take(f: Field) returns (ok: bool)
      modifies this
      ensures cachedSize == old(cachedSize)
      ensures ok == ApplyDev(old(Value()), f).Some?
      ensures ok ==> Value() == ApplyDev(old(Value()), f).value
    {
      if 1 <= f.number <= 5 && !f.Bytes? {
        return false;
      }
      match f.number {
        case 1 => id := f.payload;
        case 2 => fieldType := f.payload;
        case 3 => vmPath := f.payload;
        case 4 => containerPath := f.payload;
        case 5 => options := options + [f.payload];
        case _ => unknownFields := unknownFields + [f];
      }
      return true;
    }
  }

  lemma DevJoined(base: seq<byte>, v: Dev)
    ensures base + EncodeAll(TextField(1, v.id)) + EncodeAll(TextField(2, v.kind)) + EncodeAll(TextField(3, v.vmPath))
            + EncodeAll(TextField(4, v.containerPath)) + EncodeAll(TextFields(5, v.options)) + EncodeAll(v.unknown)
         == base + EncodeDev(v)
  {
    hide EncodeAll;
    var a, b, c, d := TextField(1, v.id), TextField(2, v.kind), TextField(3, v.vmPath), TextField(4, v.containerPath);
    Wrote(base, a, b);
    Wrote(base, a + b, c);
    Wrote(base, a + b + c, d);
    Wrote(base, a + b + c + d, TextFields(5, v.options));
    Wrote(base, DevOwn(v), v.unknown);
  }

  lemma DevSize(v: Dev)
    requires |EncodeDev(v)| < TWO_TO_THE_32 && DevOk(v)
    ensures |EncodeDev(v)|
         == SizeAll(TextField(1, v.id)) + SizeAll(TextField(2, v.kind)) + SizeAll(TextField(3, v.vmPath))
            + SizeAll(TextField(4, v.containerPath)) + SizeAll(TextFields(5, v.options)) + SizeAll(v.unknown)
  {
    DevEncodable(v);
    SizeIsLength(DevFields(v));
    hide EncodeAll, SizeAll;
    var a, b, c, d := TextField(1, v.id), TextField(2, v.kind), TextField(3, v.vmPath), TextField(4, v.containerPath);
    SizeAllConcat(a, b);
    SizeAllConcat(a + b, c);
    SizeAllConcat(a + b + c, d);
    SizeAllConcat(a + b + c + d, TextFields(5, v.options));
    SizeAllConcat(DevOwn(v), v.unknown);
  }

  // Storage

  class Storage {
    var driver: seq<byte>
    var driverOptions: seq<seq<byte>>
    var source: seq<byte>
    var fstype: seq<byte>
    var options: seq<seq<byte>>
    var mountPoint: seq<byte>
    var unknownFields: seq<Field>
    var cachedSize: u32

    constructor ()
      ensures Value() == NO_STORE
    {
      driver, driverOptions, source, fstype, options, mountPoint := [], [], [], [], [], [];
      unknownFields, cachedSize := [], 0;
    }

    function Value(): Store
      reads this
    {
      Store(driver, driverOptions, source, fstype, options, mountPoint, unknownFields)
    }

    method ComputeSize() returns (size: u32)
      requires |EncodeStore(Value())| < TWO_TO_THE_32 && StoreOk(Value())
      modifies this`cachedSize
      ensures size == cachedSize == |EncodeStore(Value())|
    {
      var size2 := TextsSize(2, driverOptions);
      var size5 := TextsSize(5, options);
      var mySize := TextSize(1, driver) + size2 + TextSize(3, source) + TextSize(4, fstype) + size5
                    + TextSize(6, mountPoint);
      var unknown := UnknownFieldsSize(unknownFields);
      mySize := mySize + unknown;
      StoreSize(Value());
      cachedSize := mySize;
      size := mySize;
    }

    method WriteTo(os: Output)
      modifies os
      ensures os.bytes == old(os.bytes) + EncodeStore(Value())
      ensures os.bytes == old(os.bytes)
                          + (Str(0x0A, driver) + Each(0x12, driverOptions) + Str(0x1A, source) + Str(0x22, fstype)
                             + Each(0x2A, options) + Str(0x32, mountPoint) + EncodeAll(unknownFields))
    {
      StoreInBytes(Value());
      os.WriteText(1, driver);
      os.WriteTexts(2, driverOptions);
      os.WriteText(3, source);
      os.WriteText(4, fstype);
      os.WriteTexts(5, options);
      os.WriteText(6, mountPoint);
      os.WriteUnknownFields(unknownFields);
      StoreJoined(old(os.bytes), Value());
    }

    method MergeFrom(input: seq<byte>) returns (ok: bool)
      modifies this
      ensures cachedSize == old(cachedSize)
      ensures ok == Merge(ApplyStore, old(Value()), input).Some?
      ensures ok ==> Value() == Merge(ApplyStore, old(Value()), input).value
    {
      var rest := input;
      while rest != []
        invariant cachedSize == old(cachedSize)
        invariant Merge(ApplyStore, Value(), rest) == Merge(ApplyStore, old(Value()), input)
        decreases |rest|
      {
        var tag := ReadTag(rest);
        if tag == None {
          return false;
        }
        var field := ReadPayload(tag.value.value, tag.value.rest);
        if field == None {
          return false;
        }
        ok := Take(field.value.value);
        if !ok {
          return false;
        }
        rest := field.value.rest;
      }
      return true;
    }

    method Take(f: Field) returns (ok: bool)
      modifies this
      ensures cachedSize == old(cachedSize)
      ensures ok == ApplyStore(old(Value()), f).Some?
      ensures ok ==> Value() == ApplyStore(old(Value()), f).value
    {
      if 1 <= f.number <= 6 && !f.Bytes? {
        return false;
      }
      match f.number {
        case 1 => driver := f.payload;
        case 2 => driverOptions := driverOptions + [f.payload];
        case 3 => source := f.payload;
        case 4 => fstype := f.payload;
        case 5 => options := options + [f.payload];
        case 6 => mountPoint := f.payload;
        case _ => unknownFields := unknownFields + [f];
      }
      return true;
    }
  }

  lemma StoreJoined(base: seq<byte>, v: Store)
    ensures base + EncodeAll(TextField(1, v.driver)) + EncodeAll(TextFields(2, v.driverOptions))
            + EncodeAll(TextField(3, v.source)) + EncodeAll(TextField(4, v.fstype))
            + EncodeAll(TextFields(5, v.options)) + EncodeAll(TextField(6, v.mountPoint)) + EncodeAll(v.unknown)
         == base + EncodeStore(v)
  {
    hide EncodeAll;
    var a, b, c := TextField(1, v.driver), TextFields(2, v.driverOptions), TextField(3, v.source);
    var d, e := TextField(4, v.fstype), TextFields(5, v.options);
    Wrote(base, a, b);
    Wrote(base, a + b, c);
    Wrote(base, a + b + c, d);
    Wrote(base, a + b + c + d, e);
    Wrote(base, a + b + c + d + e, TextField(6, v.mountPoint));
    Wrote(base, StoreOwn(v), v.unknown);
  }

  lemma StoreSize(v: Store)
    requires |EncodeStore(v)| < TWO_TO_THE_32 && StoreOk(v)
    ensures |EncodeStore(v)|
         == SizeAll(TextField(1, v.driver)) + SizeAll(TextFields(2, v.driverOptions)) + SizeAll(TextField(3, v.source))
            + SizeAll(TextField(4, v.fstype)) + SizeAll(TextFields(5, v.options))
            + SizeAll(TextField(6, v.mountPoint)) + SizeAll(v.unknown)
  {
    StoreEncodable(v);
    SizeIsLength(StoreFields(v));
    hide EncodeAll, SizeAll;
    var a, b, c := TextField(1, v.driver), TextFields(2, v.driverOptions), TextField(3, v.source);
    var d, e := TextField(4, v.fstype), TextFields(5, v.options);
    SizeAllConcat(a, b);
    SizeAllConcat(a + b, c);
    SizeAllConcat(a + b + c, d);
    SizeAllConcat(a + b + c + d, e);
    SizeAllConcat(a + b + c + d + e, TextField(6, v.mountPoint));
    SizeAllConcat(StoreOwn(v), v.unknown);
  }

  // The OCI specification

  /** Stands for the specification's generated class: what it does with its fields, whatever they mean. */
  class OciSpec {
    var fields: seq<Field>
    var cachedSize: u32

    constructor ()
      ensures Value() == NO_SPEC
    {
      fields, cachedSize := [], 0;
    }

    function Value(): Spec
      reads this
    {
      Spec(fields)
    }

    method ComputeSize() returns (size: u32)
      requires |EncodeSpec(Value())| < TWO_TO_THE_32 && SpecOk(Value())
      modifies this`cachedSize
      ensures size == cachedSize == |EncodeSpec(Value())|
    {
      FieldsFit(fields);
      SizeIsLength(fields);
      var mySize := UnknownFieldsSize(fields);
      cachedSize := mySize;
      size := mySize;
    }

    method WriteTo(os: Output)
      modifies os
      ensures os.bytes == old(os.bytes) + EncodeSpec(Value())
    {
      os.WriteUnknownFields(fields);
    }

    method MergeFrom(input: seq<byte>) returns (ok: bool)
      modifies this
      ensures cachedSize == old(cachedSize)
      ensures ok == Merge(ApplySpec, old(Value()), input).Some?
      ensures ok ==> Value() == Merge(ApplySpec, old(Value()), input).value
    {
      var rest := input;
      while rest != []
        invariant cachedSize == old(cachedSize)
        invariant Merge(ApplySpec, Value(), rest) == Merge(ApplySpec, old(Value()), input)
        decreases |rest|
      {
        var tag := ReadTag(rest);
        if tag == None {
          return false;
        }
        var field := ReadPayload(tag.value.value, tag.value.rest);
        if field == None {
          return false;
        }
        fields := fields + [field.value.value];
        rest := field.value.rest;
      }
      return true;
    }
  }

  // CreateContainerRequest

  lemma NoFields(number: nat)
    ensures SizeAll(TextFields(number, [])) == 0
  {
  }

  function DevValues(ds: seq<Device>): (r: seq<Dev>)
    reads ds
    ensures |r| == |ds| && forall i | 0 <= i < |ds| :: r[i] == ds[i].Value()
  {
    if ds == [] then [] else [ds[0].Value()] + DevValues(ds[1..])
  }

  function DevSizes(ds: seq<Device>): (r: seq<nat>)
    reads ds
    ensures |r| == |ds| && forall i | 0 <= i < |ds| :: r[i] == ds[i].cachedSize
  {
    if ds == [] then []
    else
      var size: nat := ds[0].cachedSize;
      [size] + DevSizes(ds[1..])
  }

  function StoreValues(ss: seq<Storage>): (r: seq<Store>)
    reads ss
    ensures |r| == |ss| && forall i | 0 <= i < |ss| :: r[i] == ss[i].Value()
  {
    if ss == [] then [] else [ss[0].Value()] + StoreValues(ss[1..])
  }

  function StoreSizes(ss: seq<Storage>): (r: seq<nat>)
    reads ss
    ensures |r| == |ss| && forall i | 0 <= i < |ss| :: r[i] == ss[i].cachedSize
  {
    if ss == [] then []
    else
      var size: nat := ss[0].cachedSize;
      [size] + StoreSizes(ss[1..])
  }

  class CreateContainerRequest {
    var containerId: seq<byte>
    var execId: seq<byte>
    var stringUser: StringUser?
    var devices: seq<Device>
    var storages: seq<Storage>
    var oci: OciSpec?
    var sandboxPidns: bool
    var unknownFields: seq<Field>
    var cachedSize: u32

    constructor ()
      ensures Value() == NO_CREATION
    {
      containerId, execId, stringUser, devices, storages := [], [], null, [], [];
      oci, sandboxPidns, unknownFields, cachedSize := null, false, [], 0;
    }

    function Value(): Creation
      reads this`containerId, this`execId, this`stringUser, this`devices, this`storages, this`oci, this`sandboxPidns,
            this`unknownFields, stringUser, devices, storages, oci
    {
      Creation(containerId, execId, UserValue(), DevValues(devices), StoreValues(storages), SpecValue(), sandboxPidns,
               unknownFields)
    }

    function UserValue(): Option<User>
      reads this`stringUser, stringUser
    {
      if stringUser == null then None else Some(stringUser.Value())
    }

    function UserSize(): u32
      reads this`stringUser, stringUser
    {
      if stringUser == null then 0 else stringUser.cachedSize
    }

    function SpecValue(): Option<Spec>
      reads this`oci, oci
    {
      if oci == null then None else Some(oci.Value())
    }

    function SpecSize(): u32
      reads this`oci, oci
    {
      if oci == null then 0 else oci.cachedSize
    }

    // What the first pass leaves behind.

    ghost predicate UserCached()
      reads this`stringUser, stringUser
    {
      UserValue().Some? ==> UserSize() == |EncodeUser(UserValue().value)|
    }

    ghost predicate DevicesCached()
      reads this`devices, devices
    {
      Sized(DevSizes(devices), DevEncodings(DevValues(devices)))
    }

    ghost predicate StoragesCached()
      reads this`storages, storages
    {
      Sized(StoreSizes(storages), StoreEncodings(StoreValues(storages)))
    }

    ghost predicate SpecCached()
      reads this`oci, oci
    {
      SpecValue().Some? ==> SpecSize() == |EncodeSpec(SpecValue().value)|
    }

    method SizeUser() returns (size: nat)
      requires UserFits(UserValue())
      modifies stringUser
      ensures UserValue() == old(UserValue()) && UserCached()
      ensures size == UserFieldSize(UserValue())
    {
      hide EncodeUser, UserOk;
      size := 0;
      if stringUser != null {
        var len := stringUser.ComputeSize();
        size := size + NestedSize(len);
      }
    }

    method SizeDevices() returns (size: nat)
      requires DevicesFit(DevValues(devices))
      modifies devices`cachedSize
      ensures DevValues(devices) == old(DevValues(devices)) && DevicesCached()
      ensures size == SizeAll(TextFields(4, DevEncodings(DevValues(devices))))
    {
      hide EncodeDev, DevOk, SizeAll, TextFields, DevValues, DevSizes, DevEncodings;
      ghost var values := DevValues(devices);
      ghost var bodies := DevEncodings(values);
      size := 0;
      NoFields(4);
      assert bodies[..0] == [];
      for i := 0 to |devices|
        invariant forall j | 0 <= j < |devices| :: devices[j].Value() == values[j]
        invariant forall j | 0 <= j < i :: devices[j].cachedSize == |bodies[j]|
        invariant size == SizeAll(TextFields(4, bodies[..i]))
      {
        assert values[i] in values;
        var len := devices[i].ComputeSize();
        size := size + NestedSize(len);
        NestedSizeSnoc(4, bodies, i);
      }
      assert bodies[..|devices|] == bodies;
      assert DevValues(devices) == values;
    }

    method SizeStorages() returns (size: nat)
      requires StoragesFit(StoreValues(storages))
      modifies storages`cachedSize
      ensures StoreValues(storages) == old(StoreValues(storages)) && StoragesCached()
      ensures size == SizeAll(TextFields(5, StoreEncodings(StoreValues(storages))))
    {
      hide EncodeStore, StoreOk, SizeAll, TextFields, StoreValues, StoreSizes, StoreEncodings;
      ghost var values := StoreValues(storages);
      ghost var bodies := StoreEncodings(values);
      size := 0;
      NoFields(5);
      assert bodies[..0] == [];
      for i := 0 to |storages|
        invariant forall j | 0 <= j < |storages| :: storages[j].Value() == values[j]
        invariant forall j | 0 <= j < i :: storages[j].cachedSize == |bodies[j]|
        invariant size == SizeAll(TextFields(5, bodies[..i]))
      {
        assert values[i] in values;
        var len := storages[i].ComputeSize();
        size := size + NestedSize(len);
        NestedSizeSnoc(5, bodies, i);
      }
      assert bodies[..|storages|] == bodies;
      assert StoreValues(storages) == values;
    }

    method SizeSpec() returns (size: nat)
      requires SpecFits(SpecValue())
      modifies oci
      ensures SpecValue() == old(SpecValue()) && SpecCached()
      ensures size == SpecFieldSize(SpecValue())
    {
      hide EncodeSpec, SpecOk;
      size := 0;
      if oci != null {
        var len := oci.ComputeSize();
        size := size + NestedSize(len);
      }
    }

    ghost predicate FrontCached()
      reads this`stringUser, this`devices, stringUser, devices
    {
      UserCached() && DevicesCached()
    }

    ghost predicate BackCached()
      reads this`storages, this`oci, storages, oci
    {
      StoragesCached() && SpecCached()
    }

    method SizeFront() returns (size: nat)
      requires UserFits(UserValue()) && DevicesFit(DevValues(devices))
      modifies stringUser, devices`cachedSize
      ensures UserValue() == old(UserValue()) && DevValues(devices) == old(DevValues(devices))
      ensures StoreValues(storages) == old(StoreValues(storages)) && SpecValue() == old(SpecValue())
      ensures FrontCached()
      ensures size == UserFieldSize(UserValue()) + SizeAll(TextFields(4, DevEncodings(DevValues(devices))))
    {
      hide UserFits, DevicesFit, UserCached, DevicesCached, UserFieldSize, SizeAll, TextFields, DevValues,
        DevEncodings, UserValue, StoreValues, SpecValue;
      var user := SizeUser();
      assert DevValues(devices) == old(DevValues(devices));
      ghost var value := UserValue();
      var devs := SizeDevices();
      assert UserValue() == value && UserCached();
      size := user + devs;
    }

    method SizeBack() returns (size: nat)
      requires StoragesFit(StoreValues(storages)) && SpecFits(SpecValue())
      modifies storages`cachedSize, oci
      ensures StoreValues(storages) == old(StoreValues(storages)) && SpecValue() == old(SpecValue())
      ensures UserValue() == old(UserValue()) && DevValues(devices) == old(DevValues(devices))
      ensures BackCached() && FrontCached() == old(FrontCached())
      ensures size == SizeAll(TextFields(5, StoreEncodings(StoreValues(storages)))) + SpecFieldSize(SpecValue())
    {
      hide StoragesFit, SpecFits, StoragesCached, SpecCached, SpecFieldSize, SizeAll, TextFields, StoreValues,
        StoreEncodings, SpecValue, FrontCached, UserValue, DevValues;
      var stores := SizeStorages();
      assert SpecValue() == old(SpecValue());
      ghost var values := StoreValues(storages);
      var spec := SizeSpec();
      assert StoreValues(storages) == values && StoragesCached();
      size := stores + spec;
    }

    /** Every nested message has its size cached. */
    ghost predicate Cached()
      reads this`stringUser, this`devices, this`storages, this`oci, stringUser, devices, storages, oci
    {
      FrontCached() && BackCached()
    }

    /** What the cached sizes make of the message, part by part. */
    function UserOut(): seq<byte>
      reads this`stringUser, stringUser
    {
      UserWritten(UserValue(), UserSize())
    }

    function DevicesOut(): seq<byte>
      reads this`devices, devices
    {
      NestedAll(4, DevSizes(devices), DevEncodings(DevValues(devices)))
    }

    function StoragesOut(): seq<byte>
      reads this`storages, storages
    {
      NestedAll(5, StoreSizes(storages), StoreEncodings(StoreValues(storages)))
    }

    function SpecOut(): seq<byte>
      reads this`oci, oci
    {
      SpecWritten(SpecValue(), SpecSize())
    }

    function FrontOut(): seq<byte>
      reads this`containerId, this`execId, this`stringUser, this`devices, stringUser, devices
    {
      EncodeAll(TextField(1, containerId)) + EncodeAll(TextField(2, execId)) + UserOut() + DevicesOut()
    }

    function BackOut(): seq<byte>
      reads this`storages, this`oci, this`sandboxPidns, this`unknownFields, storages, oci
    {
      StoragesOut() + SpecOut() + EncodeAll(FlagField(7, sandboxPidns)) + EncodeAll(unknownFields)
    }

    function Out(): seq<byte>
      reads this`containerId, this`execId, this`stringUser, this`devices, this`storages, this`oci, this`sandboxPidns,
            this`unknownFields, stringUser, devices, storages, oci
    {
      FrontOut() + BackOut()
    }

    lemma OutIsWritten()
      ensures Out() == CreationWritten(Value(), UserSize(), DevSizes(devices), StoreSizes(storages), SpecSize())
    {
      hide EncodeAll, TextField, FlagField, NestedAll, UserWritten, SpecWritten, DevEncodings, StoreEncodings,
        DevValues, StoreValues, DevSizes, StoreSizes, UserValue, UserSize, SpecValue, SpecSize;
    }

    lemma OutIsMessage()
      requires |EncodeCreation(Value())| < TWO_TO_THE_32 && CreationOk(Value()) && Cached()
      ensures Out() == EncodeCreation(Value())
      ensures Merge(ApplyCreation, NO_CREATION, EncodeCreation(Value())) == Some(Value())
    {
      hide EncodeCreation, CreationOk, CreationWritten, EncodeUser, EncodeSpec, DevValues, DevSizes, DevEncodings,
        StoreValues, StoreSizes, StoreEncodings, Sized, Out;
      OutIsWritten();
      CreationSerialized(Value(), UserSize(), DevSizes(devices), StoreSizes(storages), SpecSize());
    }

    lemma PartsFit()
      requires |EncodeCreation(Value())| < TWO_TO_THE_32 && CreationOk(Value())
      ensures UserFits(UserValue()) && DevicesFit(DevValues(devices))
      ensures StoragesFit(StoreValues(storages)) && SpecFits(SpecValue())
    {
      hide EncodeCreation, EncodeUser, EncodeDev, EncodeStore, EncodeSpec, DevValues, StoreValues, CreationOk, UserOk,
        DevOk, StoreOk, SpecOk;
      CreationFits(Value());
    }

    lemma PartsAddUp()
      requires |EncodeCreation(Value())| < TWO_TO_THE_32 && CreationOk(Value())
      ensures |EncodeCreation(Value())|
           == TextSize(1, containerId) + TextSize(2, execId)
              + ((UserFieldSize(UserValue()) + SizeAll(TextFields(4, DevEncodings(DevValues(devices)))))
                 + (SizeAll(TextFields(5, StoreEncodings(StoreValues(storages)))) + SpecFieldSize(SpecValue())))
              + (if sandboxPidns then 2 else 0) + SizeAll(unknownFields)
    {
      hide EncodeCreation, SizeAll, TextFields, DevValues, DevEncodings, StoreValues, StoreEncodings, TextSize,
        CreationOk, UserFieldSize, SpecFieldSize, UserValue, SpecValue;
      CreationSize(Value());
    }

    method SizeNested() returns (size: nat)
      requires UserFits(UserValue()) && DevicesFit(DevValues(devices))
      requires StoragesFit(StoreValues(storages)) && SpecFits(SpecValue())
      modifies stringUser, devices`cachedSize, storages`cachedSize, oci
      ensures UserValue() == old(UserValue()) && DevValues(devices) == old(DevValues(devices))
      ensures StoreValues(storages) == old(StoreValues(storages)) && SpecValue() == old(SpecValue())
      ensures Cached()
      ensures size
           == (UserFieldSize(UserValue()) + SizeAll(TextFields(4, DevEncodings(DevValues(devices)))))
              + (SizeAll(TextFields(5, StoreEncodings(StoreValues(storages)))) + SpecFieldSize(SpecValue()))
    {
      hide UserFits, DevicesFit, StoragesFit, SpecFits, FrontCached, BackCached, UserFieldSize, SpecFieldSize, SizeAll,
        TextFields, DevValues, DevEncodings, StoreValues, StoreEncodings, UserValue, SpecValue;
      var front := SizeFront();
      var back := SizeBack();
      size := front + back;
    }

    method SizeParts() returns (size: u32)
      requires |EncodeCreation(Value())| < TWO_TO_THE_32 && CreationOk(Value())
      modifies stringUser, devices`cachedSize, storages`cachedSize, oci
      ensures UserValue() == old(UserValue()) && DevValues(devices) == old(DevValues(devices))
      ensures StoreValues(storages) == old(StoreValues(storages)) && SpecValue() == old(SpecValue())
      ensures Cached()
      ensures size == |EncodeCreation(old(Value()))|
    {
      hide Value, EncodeCreation, CreationOk, UserFits, DevicesFit, StoragesFit, SpecFits, Cached, UserFieldSize,
        SpecFieldSize, SizeAll, TextFields, TextSize, DevValues, DevEncodings, StoreValues, StoreEncodings, UserValue,
        SpecValue;
      PartsFit();
      PartsAddUp();
      var nested := SizeNested();
      var unknown := UnknownFieldsSize(unknownFields);
      size := TextSize(1, containerId) + TextSize(2, execId) + nested + (if sandboxPidns then 2 else 0) + unknown;
    }

    /** The first pass: also leaves the right size in every nested message. */
    method ComputeSize() returns (size: u32)
      requires |EncodeCreation(Value())| < TWO_TO_THE_32 && CreationOk(Value())
      modifies this`cachedSize, stringUser, devices`cachedSize, storages`cachedSize, oci
      ensures Value() == old(Value())
      ensures size == cachedSize == |EncodeCreation(Value())|
      ensures Cached()
    {
      hide EncodeCreation, CreationOk, Cached, UserValue, SpecValue, DevValues, StoreValues;
      var mySize := SizeParts();
      cachedSize := mySize;
      size := mySize;
    }

    method WriteUser(os: Output)
      modifies os
      ensures os.bytes == old(os.bytes) + UserOut()
    {
      hide Nested, EncodeUser, EncodeTag, Varint;
      if stringUser != null {
        os.WriteTag(3, LENGTH_DELIMITED);
        os.WriteRawVarint(stringUser.cachedSize);
        stringUser.WriteTo(os);
        WroteNested(old(os.bytes), 3, stringUser.cachedSize, EncodeUser(stringUser.Value()));
      }
    }

    method WriteDevices(os: Output)
      modifies os
      ensures os.bytes == old(os.bytes) + DevicesOut()
    {
      hide Nested, NestedAll, EncodeDev, EncodeTag, Varint, DevValues, DevSizes, DevEncodings;
      NoneNested(4);
      ghost var sizes, bodies := DevSizes(devices), DevEncodings(DevValues(devices));
      for i := 0 to |devices|
        invariant os.bytes == old(os.bytes) + NestedAll(4, sizes[..i], bodies[..i])
      {
        ghost var base := os.bytes;
        os.WriteTag(4, LENGTH_DELIMITED);
        os.WriteRawVarint(devices[i].cachedSize);
        devices[i].WriteTo(os);
        WroteNested(base, 4, sizes[i], bodies[i]);
        NestedAllSnoc(4, sizes, bodies, i);
      }
      assert sizes[..|devices|] == sizes && bodies[..|devices|] == bodies;
    }

    method WriteStorages(os: Output)
      modifies os
      ensures os.bytes == old(os.bytes) + StoragesOut()
    {
      hide Nested, NestedAll, EncodeStore, EncodeTag, Varint, StoreValues, StoreSizes, StoreEncodings;
      NoneNested(5);
      ghost var sizes, bodies := StoreSizes(storages), StoreEncodings(StoreValues(storages));
      for i := 0 to |storages|
        invariant os.bytes == old(os.bytes) + NestedAll(5, sizes[..i], bodies[..i])
      {
        ghost var base := os.bytes;
        os.WriteTag(5, LENGTH_DELIMITED);
        os.WriteRawVarint(storages[i].cachedSize);
        storages[i].WriteTo(os);
        WroteNested(base, 5, sizes[i], bodies[i]);
        NestedAllSnoc(5, sizes, bodies, i);
      }
      assert sizes[..|storages|] == sizes && bodies[..|storages|] == bodies;
    }

    method WriteSpec(os: Output)
      modifies os
      ensures os.bytes == old(os.bytes) + SpecOut()
    {
      hide Nested, EncodeSpec, EncodeTag, Varint;
      if oci != null {
        os.WriteTag(6, LENGTH_DELIMITED);
        os.WriteRawVarint(oci.cachedSize);
        oci.WriteTo(os);
        WroteNested(old(os.bytes), 6, oci.cachedSize, EncodeSpec(oci.Value()));
      }
    }

    method WriteFlag(os: Output)
      modifies os
      ensures os.bytes == old(os.bytes) + EncodeAll(FlagField(7, sandboxPidns))
    {
      if sandboxPidns {
        os.WriteBool(7, sandboxPidns);
        EncodeOne(Number(7, 1));
      }
    }

    /** The two ids come first, each under its tag. */
    lemma IdsInBytes()
      ensures FrontOut() == Str(0x0A, containerId) + Str(0x12, execId) + UserOut() + DevicesOut()
    {
      hide EncodeAll, TextField, UserOut, DevicesOut, Str;
      StrInBytes(1, containerId);
      StrInBytes(2, execId);
    }

    method WriteFront(os: Output)
      modifies os
      ensures os.bytes == old(os.bytes) + FrontOut()
    {
      hide EncodeAll, TextField, UserOut, DevicesOut;
      Regroup(os.bytes, EncodeAll(TextField(1, containerId)), EncodeAll(TextField(2, execId)), UserOut(), DevicesOut());
      os.WriteText(1, containerId);
      os.WriteText(2, execId);
      WriteUser(os);
      WriteDevices(os);
    }

    method WriteBack(os: Output)
      modifies os
      ensures os.bytes == old(os.bytes) + BackOut()
    {
      hide EncodeAll, FlagField, StoragesOut, SpecOut;
      Regroup(os.bytes, StoragesOut(), SpecOut(), EncodeAll(FlagField(7, sandboxPidns)), EncodeAll(unknownFields));
      WriteStorages(os);
      WriteSpec(os);
      WriteFlag(os);
      os.WriteUnknownFields(unknownFields);
    }

    /** The second pass: the cached sizes become the length prefixes, right or wrong. */
    method WriteTo(os: Output)
      modifies os
      ensures os.bytes == old(os.bytes) + Out()
      ensures Out() == CreationWritten(Value(), UserSize(), DevSizes(devices), StoreSizes(storages), SpecSize())
    {
      hide FrontOut, BackOut, CreationWritten, UserValue, UserSize, SpecValue, SpecSize, DevValues, DevSizes,
        StoreValues, StoreSizes;
      ghost var base, front, back := os.bytes, FrontOut(), BackOut();
      WriteFront(os);
      WriteBack(os);
      assert base + front + back == base + (front + back);
      OutIsWritten();
    }

    /** Both passes: what is written is the message, in as many bytes as announced. */
    method WriteToBytes() returns (bytes: seq<byte>)
      requires |EncodeCreation(Value())| < TWO_TO_THE_32 && CreationOk(Value())
      modifies this`cachedSize, stringUser, devices`cachedSize, storages`cachedSize, oci
      ensures Value() == old(Value())
      ensures bytes == EncodeCreation(Value()) && |bytes| == cachedSize
      ensures Merge(ApplyCreation, NO_CREATION, bytes) == Some(Value())
    {
      hide *;
      var size := ComputeSize();
      OutIsMessage();
      ghost var v, out := Value(), Out();
      var os := new Output();
      WriteTo(os);
      assert Value() == v && Out() == out;
      bytes := os.bytes;
    }

    method MergeFrom(input: seq<byte>) returns (ok: bool)
      modifies this
      ensures cachedSize == old(cachedSize)
      ensures ok == Merge(ApplyCreation, old(Value()), input).Some?
      ensures ok ==> Value() == Merge(ApplyCreation, old(Value()), input).value
    {
      hide ApplyCreation, DevValues, StoreValues;
      var rest := input;
      while rest != []
        invariant cachedSize == old(cachedSize)
        invariant Merge(ApplyCreation, Value(), rest) == Merge(ApplyCreation, old(Value()), input)
        decreases |rest|
      {
        var tag := ReadTag(rest);
        if tag == None {
          return false;
        }
        var field := ReadPayload(tag.value.value, tag.value.rest);
        if field == None {
          return false;
        }
        ok := Take(field.value.value);
        if !ok {
          return false;
        }
        rest := field.value.rest;
      }
      return true;
    }

    method Take(f: Field) returns (ok: bool)
      modifies this
      ensures cachedSize == old(cachedSize)
      ensures ok == ApplyCreation(old(Value()), f).Some?
      ensures ok ==> Value() == ApplyCreation(old(Value()), f).value
    {
      hide DevValues, StoreValues, UserValue, SpecValue, Merge;
      if (1 <= f.number <= 6 && !f.Bytes?) || (f.number == 7 && !f.Number?) {
        return false;
      }
      ok := true;
      match f.number {
        case 1 => containerId := f.payload;
        case 2 => execId := f.payload;
        case 3 | 4 | 5 | 6 => ok := TakeNested(f);
        case 7 => sandboxPidns := f.value != 0;
        case _ => unknownFields := unknownFields + [f];
      }
    }

    method TakeNested(f: Field) returns (ok: bool)
      requires 3 <= f.number <= 6 && f.Bytes?
      modifies this`stringUser, this`devices, this`storages, this`oci
      ensures ok == ApplyCreation(old(Value()), f).Some?
      ensures ok ==> Value() == ApplyCreation(old(Value()), f).value
    {
      hide DevValues, StoreValues, UserValue, SpecValue, Merge;
      match f.number {
        case 3 => ok := SetUser(f.payload);
        case 4 => ok := PushDevice(f.payload);
        case 5 => ok := PushStorage(f.payload);
        case _ => ok := SetSpec(f.payload);
      }
    }

    method SetUser(payload: seq<byte>) returns (ok: bool)
      modifies this`stringUser
      ensures ok == Merge(ApplyUser, NO_USER, payload).Some?
      ensures ok ==> UserValue() == Merge(ApplyUser, NO_USER, payload)
    {
      hide ApplyUser;
      var user := new StringUser();
      ok := user.MergeFrom(payload);
      stringUser := user;
    }

    method SetSpec(payload: seq<byte>) returns (ok: bool)
      modifies this`oci
      ensures ok == Merge(ApplySpec, NO_SPEC, payload).Some?
      ensures ok ==> SpecValue() == Merge(ApplySpec, NO_SPEC, payload)
    {
      hide ApplySpec;
      var spec := new OciSpec();
      ok := spec.MergeFrom(payload);
      oci := spec;
    }

    method PushDevice(payload: seq<byte>) returns (ok: bool)
      modifies this`devices
      ensures ok == Merge(ApplyDev, NO_DEV, payload).Some?
      ensures ok ==> DevValues(devices) == old(DevValues(devices)) + [Merge(ApplyDev, NO_DEV, payload).value]
    {
      hide DevValues, ApplyDev;
      var device := new Device();
      ok := device.MergeFrom(payload);
      devices := devices + [device];
    }

    method PushStorage(payload: seq<byte>) returns (ok: bool)
      modifies this`storages
      ensures ok == Merge(ApplyStore, NO_STORE, payload).Some?
      ensures ok ==> StoreValues(storages) == old(StoreValues(storages)) + [Merge(ApplyStore, NO_STORE, payload).value]
    {
      hide StoreValues, ApplyStore;
      var storage := new Storage();
      ok := storage.MergeFrom(payload);
      storages := storages + [storage];
    }
  }

  lemma Regroup(base: seq<byte>, a: seq<byte>, b: seq<byte>, c: seq<byte>, d: seq<byte>)
    ensures base + a + b + c + d == base + (a + b + c + d)
  {
    assert base + a + b == base + (a + b);
    assert base + a + b + c == base + (a + b + c);
  }

  // A request as it is written with its cached sizes

  function UserWritten(user: Option<User>, size: nat): seq<byte> {
    if user.Some? then Nested(3, size, EncodeUser(user.value)) else []
  }

  function SpecWritten(oci: Option<Spec>, size: nat): seq<byte> {
    if oci.Some? then Nested(6, size, EncodeSpec(oci.value)) else []
  }

  function FrontWritten(v: Creation, userSize: nat, devSizes: seq<nat>): seq<byte>
    requires |devSizes| == |v.devices|
  {
    EncodeAll(TextField(1, v.containerId)) + EncodeAll(TextField(2, v.execId)) + UserWritten(v.user, userSize)
    + NestedAll(4, devSizes, DevEncodings(v.devices))
  }

  function BackWritten(v: Creation, storeSizes: seq<nat>, specSize: nat): seq<byte>
    requires |storeSizes| == |v.storages|
  {
    NestedAll(5, storeSizes, StoreEncodings(v.storages)) + SpecWritten(v.oci, specSize)
    + EncodeAll(FlagField(7, v.sandboxPidns)) + EncodeAll(v.unknown)
  }

  function CreationWritten(v: Creation, userSize: nat, devSizes: seq<nat>, storeSizes: seq<nat>, specSize: nat)
      : seq<byte>
    requires |devSizes| == |v.devices| && |storeSizes| == |v.storages|
  {
    FrontWritten(v, userSize, devSizes) + BackWritten(v, storeSizes, specSize)
  }

  ghost predicate FrontSized(v: Creation, userSize: nat, devSizes: seq<nat>) {
    (v.user.Some? ==> userSize == |EncodeUser(v.user.value)|) && Sized(devSizes, DevEncodings(v.devices))
  }

  ghost predicate BackSized(v: Creation, storeSizes: seq<nat>, specSize: nat) {
    Sized(storeSizes, StoreEncodings(v.storages)) && (v.oci.Some? ==> specSize == |EncodeSpec(v.oci.value)|)
  }

  /** Every cached size is that of its nested message. */
  ghost predicate CreationSized(v: Creation, userSize: nat, devSizes: seq<nat>, storeSizes: seq<nat>, specSize: nat) {
    FrontSized(v, userSize, devSizes) && BackSized(v, storeSizes, specSize)
  }

  lemma UserFieldWritten(user: Option<User>, size: nat)
    requires user.Some? ==> size == |EncodeUser(user.value)|
    ensures EncodeAll(MessageField(3, UserBytes(user))) == UserWritten(user, size)
  {
    hide EncodeUser;
    if user.Some? {
      MessageFieldIs(3, EncodeUser(user.value));
    }
  }

  lemma SpecFieldWritten(oci: Option<Spec>, size: nat)
    requires oci.Some? ==> size == |EncodeSpec(oci.value)|
    ensures EncodeAll(MessageField(6, SpecBytes(oci))) == SpecWritten(oci, size)
  {
    hide EncodeSpec;
    if oci.Some? {
      MessageFieldIs(6, EncodeSpec(oci.value));
    }
  }

  lemma EncodeFour(a: seq<Field>, b: seq<Field>, c: seq<Field>, d: seq<Field>)
    ensures EncodeAll(a + b + c + d) == EncodeAll(a) + EncodeAll(b) + EncodeAll(c) + EncodeAll(d)
  {
    hide EncodeAll;
    EncodeAllConcat(a, b);
    EncodeAllConcat(a + b, c);
    EncodeAllConcat(a + b + c, d);
  }

  lemma FrontSizedIsEncoded(v: Creation, userSize: nat, devSizes: seq<nat>)
    requires FrontSized(v, userSize, devSizes)
    ensures FrontWritten(v, userSize, devSizes) == EncodeAll(CreationFront(v))
  {
    hide EncodeAll, TextField, MessageField, TextFields, NestedAll, UserWritten, DevEncodings, EncodeUser;
    EncodeFour(TextField(1, v.containerId), TextField(2, v.execId), MessageField(3, UserBytes(v.user)),
               TextFields(4, DevEncodings(v.devices)));
    UserFieldWritten(v.user, userSize);
    SizedNestedAll(4, devSizes, DevEncodings(v.devices));
  }

  lemma BackSizedIsEncoded(v: Creation, storeSizes: seq<nat>, specSize: nat)
    requires BackSized(v, storeSizes, specSize)
    ensures BackWritten(v, storeSizes, specSize) == EncodeAll(CreationBack(v))
  {
    hide EncodeAll, FlagField, MessageField, TextFields, NestedAll, SpecWritten, StoreEncodings, EncodeSpec;
    EncodeFour(TextFields(5, StoreEncodings(v.storages)), MessageField(6, SpecBytes(v.oci)),
               FlagField(7, v.sandboxPidns), v.unknown);
    SpecFieldWritten(v.oci, specSize);
    SizedNestedAll(5, storeSizes, StoreEncodings(v.storages));
  }

  lemma CreationSizedIsEncoded(v: Creation, userSize: nat, devSizes: seq<nat>, storeSizes: seq<nat>, specSize: nat)
    requires CreationSized(v, userSize, devSizes, storeSizes, specSize)
    ensures CreationWritten(v, userSize, devSizes, storeSizes, specSize) == EncodeCreation(v)
  {
    hide EncodeAll, EncodeCreation, FrontWritten, BackWritten, CreationFront, CreationBack;
    FrontSizedIsEncoded(v, userSize, devSizes);
    BackSizedIsEncoded(v, storeSizes, specSize);
    FrontAndBack(v);
  }

  lemma FrontSizesShow(v: Creation, userSize: u32, devSizes: seq<u32>, rest: seq<byte>, userSize': u32,
                       devSizes': seq<u32>, rest': seq<byte>)
    requires |devSizes| == |devSizes'| == |v.devices|
    requires FrontWritten(v, userSize, devSizes) + rest == FrontWritten(v, userSize', devSizes') + rest'
    ensures v.user.Some? ==> userSize == userSize'
    ensures devSizes == devSizes' && rest == rest'
  {
    hide NestedAll, DevEncodings, EncodeAll, TextField, Nested, EncodeUser;
    var a, b := EncodeAll(TextField(1, v.containerId)), EncodeAll(TextField(2, v.execId));
    var u, u' := UserWritten(v.user, userSize), UserWritten(v.user, userSize');
    var d, d' := NestedAll(4, devSizes, DevEncodings(v.devices)), NestedAll(4, devSizes', DevEncodings(v.devices));
    Peel(a + b, u, d, rest, u', d', rest');
    if v.user.Some? {
      SizeShows(3, userSize, EncodeUser(v.user.value), d + rest, userSize', EncodeUser(v.user.value), d' + rest');
    }
    assert (u + (d + rest))[|u|..] == d + rest && (u' + (d' + rest'))[|u'|..] == d' + rest';
    SizesShow(4, devSizes, devSizes', DevEncodings(v.devices), rest, rest');
  }

  lemma Peel(head: seq<byte>, u: seq<byte>, d: seq<byte>, rest: seq<byte>, u': seq<byte>, d': seq<byte>,
             rest': seq<byte>)
    requires head + u + d + rest == head + u' + d' + rest'
    ensures u + (d + rest) == u' + (d' + rest')
  {
    assert head + u + d + rest == head + (u + (d + rest));
    assert head + u' + d' + rest' == head + (u' + (d' + rest'));
    assert (head + (u + (d + rest)))[|head|..] == u + (d + rest);
    assert (head + (u' + (d' + rest')))[|head|..] == u' + (d' + rest');
  }

  lemma BackSizesShow(v: Creation, storeSizes: seq<u32>, specSize: u32, storeSizes': seq<u32>, specSize': u32)
    requires |storeSizes| == |storeSizes'| == |v.storages|
    requires BackWritten(v, storeSizes, specSize) == BackWritten(v, storeSizes', specSize')
    ensures storeSizes == storeSizes' && (v.oci.Some? ==> specSize == specSize')
  {
    hide NestedAll, StoreEncodings, EncodeAll, FlagField, Nested, EncodeSpec;
    var bodies := StoreEncodings(v.storages);
    var e, e' := NestedAll(5, storeSizes, bodies), NestedAll(5, storeSizes', bodies);
    var o, o' := SpecWritten(v.oci, specSize), SpecWritten(v.oci, specSize');
    var flag, unknown := EncodeAll(FlagField(7, v.sandboxPidns)), EncodeAll(v.unknown);
    Regroup(e, o, flag, unknown, []);
    Regroup(e', o', flag, unknown, []);
    var back, back' := o + (flag + unknown), o' + (flag + unknown);
    assert e + o + flag + unknown == e + back;
    assert e' + o' + flag + unknown == e' + back';
    SizesShow(5, storeSizes, storeSizes', bodies, back, back');
    if v.oci.Some? {
      var body := EncodeSpec(v.oci.value);
      SizeShows(6, specSize, body, flag + unknown, specSize', body, flag + unknown);
    }
  }

  lemma CreationSerialized(v: Creation, userSize: nat, devSizes: seq<nat>, storeSizes: seq<nat>, specSize: nat)
    requires |EncodeCreation(v)| < TWO_TO_THE_32 && CreationOk(v)
    requires CreationSized(v, userSize, devSizes, storeSizes, specSize)
    ensures CreationWritten(v, userSize, devSizes, storeSizes, specSize) == EncodeCreation(v)
    ensures Merge(ApplyCreation, NO_CREATION, EncodeCreation(v)) == Some(v)
  {
    CreationSizedIsEncoded(v, userSize, devSizes, storeSizes, specSize);
    CreationRoundTrip(v);
  }

  function Lengths(bodies: seq<seq<byte>>): (r: seq<nat>)
    ensures Sized(r, bodies)
  {
    seq(|bodies|, i requires 0 <= i < |bodies| => |bodies[i]|)
  }

  /** What is written is the message exactly when every cached size is that of its nested message now: the first
      pass must come after the last change. */
  lemma CreationWrittenExactly(v: Creation, userSize: u32, devSizes: seq<u32>, storeSizes: seq<u32>, specSize: u32)
    requires |EncodeCreation(v)| < TWO_TO_THE_32
    requires |devSizes| == |v.devices| && |storeSizes| == |v.storages|
    ensures CreationWritten(v, userSize, devSizes, storeSizes, specSize) == EncodeCreation(v)
        <==> CreationSized(v, userSize, devSizes, storeSizes, specSize)
  {
    FrontFits(v);
    BackFits(v);
    hide FrontWritten, BackWritten, EncodeCreation, EncodeUser, EncodeDev, EncodeStore, EncodeSpec, DevEncodings,
      StoreEncodings;
    var user := if v.user.Some? then |EncodeUser(v.user.value)| else 0;
    var spec := if v.oci.Some? then |EncodeSpec(v.oci.value)| else 0;
    var devs, stores := Lengths(DevEncodings(v.devices)), Lengths(StoreEncodings(v.storages));
    CreationSizedIsEncoded(v, user, devs, stores, spec);
    if CreationSized(v, userSize, devSizes, storeSizes, specSize) {
      CreationSizedIsEncoded(v, userSize, devSizes, storeSizes, specSize);
    } else if CreationWritten(v, userSize, devSizes, storeSizes, specSize) == EncodeCreation(v) {
      var was, now := BackWritten(v, storeSizes, specSize), BackWritten(v, stores, spec);
      FrontSizesShow(v, userSize, devSizes, was, user, devs, now);
      BackSizesShow(v, storeSizes, specSize, stores, spec);
    }
  }

  // The size of a request

  function UserFieldSize(user: Option<User>): nat {
    if user.Some? then NestedSize(|EncodeUser(user.value)|) else 0
  }

  function SpecFieldSize(oci: Option<Spec>): nat {
    if oci.Some? then NestedSize(|EncodeSpec(oci.value)|) else 0
  }

  ghost predicate UserFits(user: Option<User>) {
    user.Some? ==> |EncodeUser(user.value)| < TWO_TO_THE_32 && UserOk(user.value)
  }

  ghost predicate DevicesFit(ds: seq<Dev>) {
    forall d | d in ds :: |EncodeDev(d)| < TWO_TO_THE_32 && DevOk(d)
  }

  ghost predicate StoragesFit(ss: seq<Store>) {
    forall s | s in ss :: |EncodeStore(s)| < TWO_TO_THE_32 && StoreOk(s)
  }

  ghost predicate SpecFits(oci: Option<Spec>) {
    oci.Some? ==> |EncodeSpec(oci.value)| < TWO_TO_THE_32 && SpecOk(oci.value)
  }

  /** What is nested in a request that fits 32 bits fits them too. */
  lemma CreationFits(v: Creation)
    requires |EncodeCreation(v)| < TWO_TO_THE_32 && CreationOk(v)
    ensures UserFits(v.user) && DevicesFit(v.devices) && StoragesFit(v.storages) && SpecFits(v.oci)
  {
    FrontFits(v);
    BackFits(v);
  }

  lemma UserFieldSizeIs(user: Option<User>)
    ensures SizeAll(MessageField(3, UserBytes(user))) == UserFieldSize(user)
  {
    hide EncodeUser;
    if user.Some? {
      MessageFieldIs(3, EncodeUser(user.value));
    }
  }

  lemma SpecFieldSizeIs(oci: Option<Spec>)
    ensures SizeAll(MessageField(6, SpecBytes(oci))) == SpecFieldSize(oci)
  {
    hide EncodeSpec;
    if oci.Some? {
      MessageFieldIs(6, EncodeSpec(oci.value));
    }
  }

  lemma SizeFour(a: seq<Field>, b: seq<Field>, c: seq<Field>, d: seq<Field>)
    ensures SizeAll(a + b + c + d) == SizeAll(a) + SizeAll(b) + SizeAll(c) + SizeAll(d)
  {
    hide SizeAll;
    SizeAllConcat(a, b);
    SizeAllConcat(a + b, c);
    SizeAllConcat(a + b + c, d);
  }

  lemma CreationSize(v: Creation)
    requires |EncodeCreation(v)| < TWO_TO_THE_32 && CreationOk(v)
    ensures |EncodeCreation(v)|
         == TextSize(1, v.containerId) + TextSize(2, v.execId) + UserFieldSize(v.user)
            + SizeAll(TextFields(4, DevEncodings(v.devices))) + SizeAll(TextFields(5, StoreEncodings(v.storages)))
            + SpecFieldSize(v.oci) + (if v.sandboxPidns then 2 else 0) + SizeAll(v.unknown)
  {
    CreationEncodable(v);
    SizeIsLength(CreationFields(v));
    FlagSize(v.sandboxPidns);
    hide EncodeAll, CreationOk, SizeAll, TextField, TextFields, MessageField, FlagField, Encodable, UserFieldSize,
      SpecFieldSize, DevEncodings, StoreEncodings;
    FrontAndBack(v);
    SizeAllConcat(CreationFront(v), CreationBack(v));
    SizeFour(TextField(1, v.containerId), TextField(2, v.execId), MessageField(3, UserBytes(v.user)),
             TextFields(4, DevEncodings(v.devices)));
    SizeFour(TextFields(5, StoreEncodings(v.storages)), MessageField(6, SpecBytes(v.oci)),
             FlagField(7, v.sandboxPidns), v.unknown);
    UserFieldSizeIs(v.user);
    SpecFieldSizeIs(v.oci);
  }

  lemma FlagSize(flag: bool)
    ensures SizeAll(FlagField(7, flag)) == if flag then 2 else 0
  {
  }
}
