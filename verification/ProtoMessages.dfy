/** Messages of the agent's protocol as values: the fields that represent each on the wire, and what a field
    that is read does to it. */
module ProtoMessages {
  import opened Basics
  import opened Bytes
  import opened ProtoWire

  // Scalars that have their default value are not written.

  function NumberField(number: nat, value: u64): seq<Field> {
    if value == 0 then [] else [Number(number, value)]
  }

  function TextField(number: nat, text: seq<byte>): seq<Field> {
    if text == [] then [] else [Bytes(number, text)]
  }

  function FlagField(number: nat, flag: bool): seq<Field> {
    if flag then [Number(number, 1)] else []
  }

  function NumberFields(number: nat, values: seq<u64>): seq<Field> {
    if values == [] then [] else [Number(number, values[0])] + NumberFields(number, values[1..])
  }

  function TextFields(number: nat, texts: seq<seq<byte>>): seq<Field> {
    if texts == [] then [] else [Bytes(number, texts[0])] + TextFields(number, texts[1..])
  }

  function MessageField(number: nat, encoding: Option<seq<byte>>): seq<Field> {
    match encoding
    case None => []
    case Some(bytes) => [Bytes(number, bytes)]
  }

  /** A repeated number may also arrive packed: all values in one payload. */
  function Packed(b: seq<byte>): Option<seq<u64>>
    decreases |b|
  {
    if b == [] then Some([])
    else
      match ReadVarint(b)
      case None => None
      case Some(r) =>
        match Packed(r.rest)
        case None => None
        case Some(values) => Some([r.value] + values)
  }

  function Pack(values: seq<u64>): seq<byte> {
    if values == [] then [] else Varint(values[0]) + Pack(values[1..])
  }

  lemma {:induction false} PackedOfPack(values: seq<u64>)
    ensures Packed(Pack(values)) == Some(values)
  {
    if values != [] {
      ReadVarintOfVarint(values[0], Pack(values[1..]));
      PackedOfPack(values[1..]);
      assert [values[0]] + values[1..] == values;
    }
  }

  /** Fields kept because the message does not know their numbers. */
  ghost predicate Foreign(fs: seq<Field>, known: set<nat>) {
    forall f | f in fs :: Writable(f) && f.number !in known
  }

  // CpuUsage

  datatype Usage = Usage(total: u64, perCpu: seq<u64>, kernel: u64, user: u64, unknown: seq<Field>)

  const USAGE_KNOWN := {1, 2, 3, 4}

  const NO_USAGE := Usage(0, [], 0, 0, [])

  function UsageOwn(v: Usage): seq<Field> {
    NumberField(1, v.total) + NumberFields(2, v.perCpu) + NumberField(3, v.kernel) + NumberField(4, v.user)
  }

  function UsageFields(v: Usage): seq<Field> {
    UsageOwn(v) + v.unknown
  }

  function ApplyUsage(v: Usage, f: Field): Option<Usage> {
    match f.number
    case 1 => if f.Number? then Some(v.(total := f.value)) else None
    case 2 =>
      if f.Number? then Some(v.(perCpu := v.perCpu + [f.value]))
      else if f.Bytes? && Packed(f.payload).Some? then Some(v.(perCpu := v.perCpu + Packed(f.payload).value))
      else None
    case 3 => if f.Number? then Some(v.(kernel := f.value)) else None
    case 4 => if f.Number? then Some(v.(user := f.value)) else None
    case _ => Some(v.(unknown := v.unknown + [f]))
  }

  function EncodeUsage(v: Usage): seq<byte> {
    EncodeAll(UsageFields(v))
  }

  // ThrottlingData

  datatype Throttling = Throttling(periods: u64, throttledPeriods: u64, throttledTime: u64, unknown: seq<Field>)

  const THROTTLING_KNOWN := {1, 2, 3}

  const NO_THROTTLING := Throttling(0, 0, 0, [])

  function ThrottlingOwn(v: Throttling): seq<Field> {
    NumberField(1, v.periods) + NumberField(2, v.throttledPeriods) + NumberField(3, v.throttledTime)
  }

  function ThrottlingFields(v: Throttling): seq<Field> {
    ThrottlingOwn(v) + v.unknown
  }

  function ApplyThrottling(v: Throttling, f: Field): Option<Throttling> {
    match f.number
    case 1 => if f.Number? then Some(v.(periods := f.value)) else None
    case 2 => if f.Number? then Some(v.(throttledPeriods := f.value)) else None
    case 3 => if f.Number? then Some(v.(throttledTime := f.value)) else None
    case _ => Some(v.(unknown := v.unknown + [f]))
  }

  function EncodeThrottling(v: Throttling): seq<byte> {
    EncodeAll(ThrottlingFields(v))
  }

  // CpuStats

  datatype Stats = Stats(usage: Option<Usage>, throttling: Option<Throttling>, unknown: seq<Field>)

  const STATS_KNOWN := {1, 2}

  const NO_STATS := Stats(None, None, [])

  function UsageBytes(u: Option<Usage>): Option<seq<byte>> {
    if u.Some? then Some(EncodeUsage(u.value)) else None
  }

  function ThrottlingBytes(t: Option<Throttling>): Option<seq<byte>> {
    if t.Some? then Some(EncodeThrottling(t.value)) else None
  }

  function StatsOwn(v: Stats): seq<Field> {
    MessageField(1, UsageBytes(v.usage)) + MessageField(2, ThrottlingBytes(v.throttling))
  }

  function StatsFields(v: Stats): seq<Field> {
    StatsOwn(v) + v.unknown
  }

  /** A nested message that comes again replaces the earlier one. */
  function ApplyStats(v: Stats, f: Field): Option<Stats> {
    match f.number
    case 1 =>
      if f.Bytes? && Merge(ApplyUsage, NO_USAGE, f.payload).Some?
      then Some(v.(usage := Merge(ApplyUsage, NO_USAGE, f.payload)))
      else None
    case 2 =>
      if f.Bytes? && Merge(ApplyThrottling, NO_THROTTLING, f.payload).Some?
      then Some(v.(throttling := Merge(ApplyThrottling, NO_THROTTLING, f.payload)))
      else None
    case _ => Some(v.(unknown := v.unknown + [f]))
  }

  function EncodeStats(v: Stats): seq<byte> {
    EncodeAll(StatsFields(v))
  }

  // StringUser

  datatype User = User(uid: seq<byte>, gid: seq<byte>, additionalGids: seq<seq<byte>>, unknown: seq<Field>)

  const USER_KNOWN := {1, 2, 3}

  const NO_USER := User([], [], [], [])

  function UserOwn(v: User): seq<Field> {
    TextField(1, v.uid) + TextField(2, v.gid) + TextFields(3, v.additionalGids)
  }

  function UserFields(v: User): seq<Field> {
    UserOwn(v) + v.unknown
  }

  function ApplyUser(v: User, f: Field): Option<User> {
    match f.number
    case 1 => if f.Bytes? then Some(v.(uid := f.payload)) else None
    case 2 => if f.Bytes? then Some(v.(gid := f.payload)) else None
    case 3 => if f.Bytes? then Some(v.(additionalGids := v.additionalGids + [f.payload])) else None
    case _ => Some(v.(unknown := v.unknown + [f]))
  }

  function EncodeUser(v: User): seq<byte> {
    EncodeAll(UserFields(v))
  }

  // Device

  datatype Dev = Dev(id: seq<byte>, kind: seq<byte>, vmPath: seq<byte>, containerPath: seq<byte>,
                     options: seq<seq<byte>>, unknown: seq<Field>)

  const DEV_KNOWN := {1, 2, 3, 4, 5}

  const NO_DEV := Dev([], [], [], [], [], [])

  function DevOwn(v: Dev): seq<Field> {
    TextField(1, v.id) + TextField(2, v.kind) + TextField(3, v.vmPath) + TextField(4, v.containerPath)
    + TextFields(5, v.options)
  }

  function DevFields(v: Dev): seq<Field> {
    DevOwn(v) + v.unknown
  }

  function ApplyDev(v: Dev, f: Field): Option<Dev> {
    match f.number
    case 1 => if f.Bytes? then Some(v.(id := f.payload)) else None
    case 2 => if f.Bytes? then Some(v.(kind := f.payload)) else None
    case 3 => if f.Bytes? then Some(v.(vmPath := f.payload)) else None
    case 4 => if f.Bytes? then Some(v.(containerPath := f.payload)) else None
    case 5 => if f.Bytes? then Some(v.(options := v.options + [f.payload])) else None
    case _ => Some(v.(unknown := v.unknown + [f]))
  }

  function EncodeDev(v: Dev): seq<byte> {
    EncodeAll(DevFields(v))
  }

  // Storage

  datatype Store = Store(driver: seq<byte>, driverOptions: seq<seq<byte>>, source: seq<byte>, fstype: seq<byte>,
                         options: seq<seq<byte>>, mountPoint: seq<byte>, unknown: seq<Field>)

  const STORE_KNOWN := {1, 2, 3, 4, 5, 6}

  const NO_STORE := Store([], [], [], [], [], [], [])

  function StoreOwn(v: Store): seq<Field> {
    TextField(1, v.driver) + TextFields(2, v.driverOptions) + TextField(3, v.source) + TextField(4, v.fstype)
    + TextFields(5, v.options) + TextField(6, v.mountPoint)
  }

  function StoreFields(v: Store): seq<Field> {
    StoreOwn(v) + v.unknown
  }

  function ApplyStore(v: Store, f: Field): Option<Store> {
    match f.number
    case 1 => if f.Bytes? then Some(v.(driver := f.payload)) else None
    case 2 => if f.Bytes? then Some(v.(driverOptions := v.driverOptions + [f.payload])) else None
    case 3 => if f.Bytes? then Some(v.(source := f.payload)) else None
    case 4 => if f.Bytes? then Some(v.(fstype := f.payload)) else None
    case 5 => if f.Bytes? then Some(v.(options := v.options + [f.payload])) else None
    case 6 => if f.Bytes? then Some(v.(mountPoint := f.payload)) else None
    case _ => Some(v.(unknown := v.unknown + [f]))
  }

  function EncodeStore(v: Store): seq<byte> {
    EncodeAll(StoreFields(v))
  }

  // The OCI specification, whose own fields this model does not look into

  datatype Spec = Spec(fields: seq<Field>)

  const NO_SPEC := Spec([])

  function ApplySpec(v: Spec, f: Field): Option<Spec> {
    Some(Spec(v.fields + [f]))
  }

  function EncodeSpec(v: Spec): seq<byte> {
    EncodeAll(v.fields)
  }

  // CreateContainerRequest

  datatype Creation = Creation(containerId: seq<byte>, execId: seq<byte>, user: Option<User>, devices: seq<Dev>,
                               storages: seq<Store>, oci: Option<Spec>, sandboxPidns: bool, unknown: seq<Field>)

  const CREATION_KNOWN := {1, 2, 3, 4, 5, 6, 7}

  const NO_CREATION := Creation([], [], None, [], [], None, false, [])

  function UserBytes(u: Option<User>): Option<seq<byte>> {
    if u.Some? then Some(EncodeUser(u.value)) else None
  }

  function SpecBytes(o: Option<Spec>): Option<seq<byte>> {
    if o.Some? then Some(EncodeSpec(o.value)) else None
  }

  function DevEncodings(ds: seq<Dev>): (r: seq<seq<byte>>)
    ensures |r| == |ds| && forall i | 0 <= i < |ds| :: r[i] == EncodeDev(ds[i])
  {
    if ds == [] then [] else [EncodeDev(ds[0])] + DevEncodings(ds[1..])
  }

  function StoreEncodings(ss: seq<Store>): (r: seq<seq<byte>>)
    ensures |r| == |ss| && forall i | 0 <= i < |ss| :: r[i] == EncodeStore(ss[i])
  {
    if ss == [] then [] else [EncodeStore(ss[0])] + StoreEncodings(ss[1..])
  }

  function CreationOwn(v: Creation): seq<Field> {
    TextField(1, v.containerId) + TextField(2, v.execId) + MessageField(3, UserBytes(v.user))
    + TextFields(4, DevEncodings(v.devices)) + TextFields(5, StoreEncodings(v.storages))
    + MessageField(6, SpecBytes(v.oci)) + FlagField(7, v.sandboxPidns)
  }

  function CreationFields(v: Creation): seq<Field> {
    CreationOwn(v) + v.unknown
  }

  function ApplyCreation(v: Creation, f: Field): Option<Creation> {
    match f.number
    case 1 => if f.Bytes? then Some(v.(containerId := f.payload)) else None
    case 2 => if f.Bytes? then Some(v.(execId := f.payload)) else None
    case 3 =>
      if f.Bytes? && Merge(ApplyUser, NO_USER, f.payload).Some?
      then Some(v.(user := Merge(ApplyUser, NO_USER, f.payload)))
      else None
    case 4 =>
      if f.Bytes? && Merge(ApplyDev, NO_DEV, f.payload).Some?
      then Some(v.(devices := v.devices + [Merge(ApplyDev, NO_DEV, f.payload).value]))
      else None
    case 5 =>
      if f.Bytes? && Merge(ApplyStore, NO_STORE, f.payload).Some?
      then Some(v.(storages := v.storages + [Merge(ApplyStore, NO_STORE, f.payload).value]))
      else None
    case 6 =>
      if f.Bytes? && Merge(ApplySpec, NO_SPEC, f.payload).Some?
      then Some(v.(oci := Merge(ApplySpec, NO_SPEC, f.payload)))
      else None
    case 7 => if f.Number? then Some(v.(sandboxPidns := f.value != 0)) else None
    case _ => Some(v.(unknown := v.unknown + [f]))
  }

  function EncodeCreation(v: Creation): seq<byte> {
    EncodeAll(CreationFields(v))
  }
}
