/** Giving the devices of a container spec the major and minor numbers they really have inside the VM. */
module Devices {
  import opened Basics

  const DRIVERBLKTYPE := "blk"
  const DRIVERMMIOBLKTYPE := "mmioblk"
  const DRIVERNVDIMMTYPE := "nvdimm"
  const DRIVERSCSITYPE := "scsi"

  datatype Number = Number(major: int, minor: int)

  datatype LinuxDevice = LinuxDevice(path: string, devType: string, number: Number, fileMode: nat, uid: nat, gid: nat)

  datatype DeviceCgroup = DeviceCgroup(allow: bool, devType: string, number: Number, access: string)

  /** The part of the spec that is rewritten. No resources at all is the same as no cgroup entries. */
  datatype Linux = Linux(devices: seq<LinuxDevice>, cgroups: seq<DeviceCgroup>)

  // One device of the request, as the code applies it

  function Renumber(n: Number, host: Number, vm: Number): Number {
    if n == host then vm else n
  }

  function RenumberEntries(cgs: seq<DeviceCgroup>, host: Number, vm: Number): seq<DeviceCgroup> {
    seq(|cgs|, i requires 0 <= i < |cgs| => cgs[i].(number := Renumber(cgs[i].number, host, vm)))
  }

  function UpdateOne(l: Linux, i: nat, path: string, vm: Number): (l': Linux)
    requires i < |l.devices|
    ensures |l'.devices| == |l.devices|
  {
    if l.devices[i].path != path then l
    else Linux(l.devices[i := l.devices[i].(number := vm)], RenumberEntries(l.cgroups, l.devices[i].number, vm))
  }

  function UpdateFrom(l: Linux, i: nat, path: string, vm: Number): Linux
    requires i <= |l.devices|
    decreases |l.devices| - i
  {
    if i == |l.devices| then l else UpdateFrom(UpdateOne(l, i, path, vm), i + 1, path, vm)
  }

  /** Spec.Linux with its two mutable lists. */
  class LinuxSpec {
    const devices: array<LinuxDevice>
    const cgroups: array?<DeviceCgroup>  // null when the spec has no resources

    constructor (devices: array<LinuxDevice>, cgroups: array?<DeviceCgroup>)
      ensures this.devices == devices && this.cgroups == cgroups
    {
      this.devices, this.cgroups := devices, cgroups;
    }

    ghost function Value(): Linux
      reads devices, cgroups
    {
      Linux(devices[..], if cgroups == null then [] else cgroups[..])
    }

    /** The two nested loops of update_spec_device_list. */
    method UpdateNumbers(path: string, vm: Number)
      modifies devices, cgroups
      ensures Value() == UpdateFrom(old(Value()), 0, path, vm)
    {
      var i := 0;
      while i < devices.Length
        invariant 0 <= i <= devices.Length
        invariant UpdateFrom(old(Value()), 0, path, vm) == UpdateFrom(Value(), i, path, vm)
      {
        ghost var l := Value();
        if devices[i].path == path {
          var host := devices[i].number;
          devices[i] := devices[i].(number := vm);
          if cgroups != null {
            RenumberCgroups(host, vm);
          }
          assert Value().devices == UpdateOne(l, i, path, vm).devices;
          assert Value().cgroups == UpdateOne(l, i, path, vm).cgroups;
        }
        i := i + 1;
      }
    }

    method RenumberCgroups(host: Number, vm: Number)
      requires cgroups != null
      modifies cgroups
      ensures cgroups[..] == RenumberEntries(old(cgroups[..]), host, vm)
    {
      var j := 0;
      while j < cgroups.Length
        invariant 0 <= j <= cgroups.Length
        invariant forall k | 0 <= k < cgroups.Length ::
                    cgroups[k] == if k < j then RenumberEntries(old(cgroups[..]), host, vm)[k] else old(cgroups[k])
      {
        if cgroups[j].number == host {
          cgroups[j] := cgroups[j].(number := vm);
        }
        j := j + 1;
      }
    }
  }

  // The request

  datatype Device = Device(id: string, fieldType: string, vmPath: string, containerPath: string)

  datatype Failure =
    | InvalidType | InvalidIdAndPath | InvalidContainerPath | UnknownDriver
    | InvalidPath | NoDeviceNode | NoLinux | NoSuchVmPath

  datatype Result = Ok | Err(failure: Failure)

  /** What the VM knows: the device nodes that PCI and SCSI ids turn into, and the number behind a device node. */
  datatype Vm = Vm(pciNodes: map<string, string>, scsiNodes: map<string, string>, numbers: map<string, Number>)

  /** The device node a request device denotes, by driver, or why it has none. */
  function NodeOf(vm: Vm, d: Device): (string, Result) {
    if d.fieldType == "" then ("", Err(InvalidType))
    else if d.id == "" && d.vmPath == "" then ("", Err(InvalidIdAndPath))
    else if d.containerPath == "" then ("", Err(InvalidContainerPath))
    else if d.fieldType == DRIVERBLKTYPE then
      if d.id in vm.pciNodes then (vm.pciNodes[d.id], Ok) else ("", Err(NoDeviceNode))
    else if d.fieldType == DRIVERSCSITYPE then
      if d.id in vm.scsiNodes then (vm.scsiNodes[d.id], Ok) else ("", Err(NoDeviceNode))
    else if d.fieldType == DRIVERMMIOBLKTYPE then
      if d.vmPath == "" then ("", Err(InvalidPath)) else (d.vmPath, Ok)
    else if d.fieldType == DRIVERNVDIMMTYPE then (d.vmPath, Ok)
    else ("", Err(UnknownDriver))
  }

  datatype Update = Update(path: string, vm: Number)

  /** The renumbering a request device asks for, or why the request fails there. */
  function UpdateOf(vm: Vm, d: Device, hasLinux: bool): (Update, Result) {
    var (node, r) := NodeOf(vm, d);
    var none := Update("", Number(0, 0));
    if r.Err? then (none, r)
    else if !hasLinux then (none, Err(NoLinux))
    else if node == "" || node !in vm.numbers then (none, Err(NoSuchVmPath))
    else (Update(d.containerPath, vm.numbers[node]), Ok)
  }

  /** The updates up to the first device that fails, and that failure. */
  function Updates(vm: Vm, ds: seq<Device>, hasLinux: bool): (seq<Update>, Result) {
    if ds == [] then ([], Ok)
    else
      var (u, r) := UpdateOf(vm, ds[0], hasLinux);
      if r.Err? then ([], r)
      else
        var rest := Updates(vm, ds[1..], hasLinux);
        ([u] + rest.0, rest.1)
  }

  function UpdateAll(l: Linux, us: seq<Update>): Linux
    decreases |us|
  {
    if us == [] then l else UpdateAll(UpdateFrom(l, 0, us[0].path, us[0].vm), us[1..])
  }

  method AddDevices(vm: Vm, ds: seq<Device>, spec: LinuxSpec?) returns (r: Result)
    modifies if spec == null then {} else {spec.devices as object}
    modifies if spec == null || spec.cgroups == null then {} else {spec.cgroups as object}
    ensures r == Updates(vm, ds, spec != null).1
    ensures spec != null ==> spec.Value() == UpdateAll(old(spec.Value()), Updates(vm, ds, true).0)
  {
    var i := 0;
    ghost var all := Updates(vm, ds, spec != null);
    while i < |ds|
      invariant 0 <= i <= |ds|
      invariant all.1 == Updates(vm, ds[i..], spec != null).1
      invariant spec != null ==>
                  UpdateAll(old(spec.Value()), all.0) == UpdateAll(spec.Value(), Updates(vm, ds[i..], true).0)
    {
      assert ds[i..][0] == ds[i] && ds[i..][1..] == ds[i + 1..];
      var (u, result) := UpdateOf(vm, ds[i], spec != null);
      if result.Err? {
        return result;
      }
      ghost var rest := Updates(vm, ds[i + 1..], spec != null).0;
      assert ([u] + rest)[1..] == rest;
      if spec != null {
        spec.UpdateNumbers(u.path, u.vm);
      }
      i := i + 1;
    }
    return Ok;
  }

  // What a device of the request comes to

  /** The first device has this node: its number goes to the container path, unless the spec or the node is not
      there; then the rest of the request follows. */
  function Reaching(vm: Vm, d: Device, node: string, rest: seq<Device>, hasLinux: bool): (seq<Update>, Result) {
    if !hasLinux then ([], Err(NoLinux))
    else if node == "" || node !in vm.numbers then ([], Err(NoSuchVmPath))
    else ([Update(d.containerPath, vm.numbers[node])] + Updates(vm, rest, hasLinux).0, Updates(vm, rest, hasLinux).1)
  }

  /** The three fields that every device must have are looked at first, in this order. */
  lemma IncompleteIsRefused(vm: Vm, d: Device, rest: seq<Device>, hasLinux: bool)
    ensures d.fieldType == "" ==> Updates(vm, [d] + rest, hasLinux) == ([], Err(InvalidType))
    ensures d.fieldType != "" && d.id == d.vmPath == "" ==>
              Updates(vm, [d] + rest, hasLinux) == ([], Err(InvalidIdAndPath))
    ensures d.fieldType != "" && !(d.id == d.vmPath == "") && d.containerPath == "" ==>
              Updates(vm, [d] + rest, hasLinux) == ([], Err(InvalidContainerPath))
  {
    assert ([d] + rest)[1..] == rest;
  }

  /** Then the driver decides: "blk" asks for the node of a PCI id, "scsi" for that of a SCSI id, "mmioblk" and "nvdimm"
      take the path as the node, of which "mmioblk" demands one; there is no other driver. */
  lemma DriversDecide(vm: Vm, d: Device, rest: seq<Device>, hasLinux: bool)
    requires d.fieldType != "" && (d.id != "" || d.vmPath != "") && d.containerPath != ""
    ensures d.fieldType == "blk" ==>
              Updates(vm, [d] + rest, hasLinux)
              == if d.id !in vm.pciNodes then ([], Err(NoDeviceNode))
                 else Reaching(vm, d, vm.pciNodes[d.id], rest, hasLinux)
    ensures d.fieldType == "scsi" ==>
              Updates(vm, [d] + rest, hasLinux)
              == if d.id !in vm.scsiNodes then ([], Err(NoDeviceNode))
                 else Reaching(vm, d, vm.scsiNodes[d.id], rest, hasLinux)
    ensures d.fieldType == "mmioblk" ==>
              Updates(vm, [d] + rest, hasLinux)
              == if d.vmPath == "" then ([], Err(InvalidPath)) else Reaching(vm, d, d.vmPath, rest, hasLinux)
    ensures d.fieldType == "nvdimm" ==>
              Updates(vm, [d] + rest, hasLinux) == Reaching(vm, d, d.vmPath, rest, hasLinux)
    ensures d.fieldType !in {"blk", "scsi", "mmioblk", "nvdimm"} ==>
              Updates(vm, [d] + rest, hasLinux) == ([], Err(UnknownDriver))
  {
    assert ([d] + rest)[1..] == rest;
  }

  // The meaning of a whole request

  /** One effective renumbering: the number a spec device had, and the one it gets. */
  datatype Rename = Rename(host: Number, vm: Number)

  /** The spec devices with this path, in order. */
  function RenamesFor(devs: seq<LinuxDevice>, path: string, vm: Number): seq<Rename> {
    if devs == [] then []
    else (if devs[0].path == path then [Rename(devs[0].number, vm)] else []) + RenamesFor(devs[1..], path, vm)
  }

  function Renames(devs: seq<LinuxDevice>, us: seq<Update>): seq<Rename> {
    if us == [] then [] else RenamesFor(devs, us[0].path, us[0].vm) + Renames(devs, us[1..])
  }

  /** One after another: each renaming sees what the ones before it produced. */
  function InTurn(n: Number, rs: seq<Rename>): Number
    decreases |rs|
  {
    if rs == [] then n else InTurn(Renumber(n, rs[0].host, rs[0].vm), rs[1..])
  }

  /** All at once: only the original number counts. */
  function AtOnce(n: Number, rs: seq<Rename>): Number {
    if rs == [] then n else if rs[0].host == n then rs[0].vm else AtOnce(n, rs[1..])
  }

  function EntriesInTurn(cgs: seq<DeviceCgroup>, rs: seq<Rename>): seq<DeviceCgroup> {
    seq(|cgs|, i requires 0 <= i < |cgs| => cgs[i].(number := InTurn(cgs[i].number, rs)))
  }

  function EntriesAtOnce(cgs: seq<DeviceCgroup>, rs: seq<Rename>): seq<DeviceCgroup> {
    seq(|cgs|, i requires 0 <= i < |cgs| => cgs[i].(number := AtOnce(cgs[i].number, rs)))
  }

  /** The number the request gives a container path, if any. */
  function NumberFor(us: seq<Update>, path: string): Option<Number> {
    if us == [] then None else if us[0].path == path then Some(us[0].vm) else NumberFor(us[1..], path)
  }

  /** Every device takes the number requested for its path; everything else about it stays. */
  function DevicesAtOnce(devs: seq<LinuxDevice>, us: seq<Update>): seq<LinuxDevice> {
    seq(|devs|, i requires 0 <= i < |devs| =>
      match NumberFor(us, devs[i].path)
      case None => devs[i]
      case Some(vm) => devs[i].(number := vm))
  }

  /** The whole request as one simultaneous renaming. */
  function Simultaneous(l: Linux, us: seq<Update>): Linux {
    Linux(DevicesAtOnce(l.devices, us), EntriesAtOnce(l.cgroups, Renames(l.devices, us)))
  }

  lemma {:induction false} InTurnConcat(n: Number, a: seq<Rename>, b: seq<Rename>)
    ensures InTurn(n, a + b) == InTurn(InTurn(n, a), b)
    decreases |a|
  {
    if a == [] {
      assert a + b == b;
    } else {
      assert (a + b)[1..] == a[1..] + b;
      InTurnConcat(Renumber(n, a[0].host, a[0].vm), a[1..], b);
    }
  }

  function Settled(devs: seq<LinuxDevice>, i: nat, path: string, vm: Number): seq<LinuxDevice> {
    seq(|devs|, k requires 0 <= k < |devs| =>
      if k >= i && devs[k].path == path then devs[k].(number := vm) else devs[k])
  }

  lemma {:induction false} UpdateMeaning(l: Linux, i: nat, path: string, vm: Number)
    requires i <= |l.devices|
    ensures UpdateFrom(l, i, path, vm)
         == Linux(Settled(l.devices, i, path, vm), EntriesInTurn(l.cgroups, RenamesFor(l.devices[i..], path, vm)))
    decreases |l.devices| - i
  {
    if i < |l.devices| {
      var l' := UpdateOne(l, i, path, vm);
      UpdateMeaning(l', i + 1, path, vm);
      assert l'.devices[i + 1..] == l.devices[i + 1..] == l.devices[i..][1..];
      assert Settled(l'.devices, i + 1, path, vm) == Settled(l.devices, i, path, vm);
      var rest := RenamesFor(l.devices[i + 1..], path, vm);
      assert l.devices[i..][0] == l.devices[i];
      if l.devices[i].path == path {
        assert ([Rename(l.devices[i].number, vm)] + rest)[1..] == rest;
      } else {
        assert [] + rest == rest;
      }
      assert EntriesInTurn(l'.cgroups, rest) == EntriesInTurn(l.cgroups, RenamesFor(l.devices[i..], path, vm));
    } else {
      assert l.devices[i..] == [];
      assert Settled(l.devices, i, path, vm) == l.devices;
      assert EntriesInTurn(l.cgroups, []) == l.cgroups;
    }
  }

  ghost predicate DistinctPaths(us: seq<Update>) {
    forall i, j | 0 <= i < j < |us| :: us[i].path != us[j].path
  }

  lemma {:induction false} OtherPathsUntouched(devs: seq<LinuxDevice>, path: string, vm: Number, p: string, v: Number)
    requires p != path
    ensures RenamesFor(Settled(devs, 0, path, vm), p, v) == RenamesFor(devs, p, v)
  {
    if devs != [] {
      OtherPathsUntouched(devs[1..], path, vm, p, v);
      assert Settled(devs, 0, path, vm)[1..] == Settled(devs[1..], 0, path, vm);
    }
  }

  lemma {:induction false} OtherUpdatesUntouched(devs: seq<LinuxDevice>, path: string, vm: Number, us: seq<Update>)
    requires forall u | u in us :: u.path != path
    ensures Renames(Settled(devs, 0, path, vm), us) == Renames(devs, us)
  {
    if us != [] {
      OtherPathsUntouched(devs, path, vm, us[0].path, us[0].vm);
      OtherUpdatesUntouched(devs, path, vm, us[1..]);
    }
  }

  lemma {:induction false} NoNumberFor(us: seq<Update>, path: string)
    requires forall u | u in us :: u.path != path
    ensures NumberFor(us, path) == None
  {
    if us != [] {
      NoNumberFor(us[1..], path);
    }
  }

  /** Device after device: the devices end as if renamed at once, the cgroup entries are renamed in turn. */
  lemma {:induction false} UpdateAllInTurn(l: Linux, us: seq<Update>)
    requires DistinctPaths(us)
    ensures UpdateAll(l, us) == Linux(DevicesAtOnce(l.devices, us), EntriesInTurn(l.cgroups, Renames(l.devices, us)))
    decreases |us|
  {
    if us != [] {
      var u, rest := us[0], us[1..];
      forall x | x in rest ensures x.path != u.path {
        var k :| 0 <= k < |rest| && rest[k] == x;
        assert us[k + 1] == x;
      }
      UpdateMeaning(l, 0, u.path, u.vm);
      assert l.devices[0..] == l.devices;
      var l' := UpdateFrom(l, 0, u.path, u.vm);
      assert DistinctPaths(rest) by { assert forall i | 0 <= i < |rest| :: rest[i] == us[i + 1]; }
      UpdateAllInTurn(l', rest);
      OtherUpdatesUntouched(l.devices, u.path, u.vm, rest);
      NoNumberFor(rest, u.path);
      assert DevicesAtOnce(l'.devices, rest) == DevicesAtOnce(l.devices, us);
      forall k | 0 <= k < |l.cgroups| {
        InTurnConcat(l.cgroups[k].number, RenamesFor(l.devices, u.path, u.vm), Renames(l.devices, rest));
      }
    } else {
      assert DevicesAtOnce(l.devices, us) == l.devices;
      assert EntriesInTurn(l.cgroups, []) == l.cgroups;
    }
  }

  // When "in turn" and "at once" agree

  /** No earlier renaming of the same number takes precedence. */
  predicate Effective(rs: seq<Rename>, i: nat)
    requires i < |rs|
  {
    forall k | 0 <= k < i :: rs[k].host != rs[i].host
  }

  /** The renamings after an effective one leave its result alone. */
  ghost predicate ResultsStay(rs: seq<Rename>) {
    forall i | 0 <= i < |rs| && Effective(rs, i) :: InTurn(rs[i].vm, rs[i + 1..]) == rs[i].vm
  }

  lemma {:induction false} AtOnceAt(n: Number, rs: seq<Rename>)
    ensures (forall k | 0 <= k < |rs| :: rs[k].host != n) ==> AtOnce(n, rs) == n && InTurn(n, rs) == n
    ensures forall i | 0 <= i < |rs| && rs[i].host == n && Effective(rs, i) ::
              AtOnce(n, rs) == rs[i].vm && InTurn(n, rs) == InTurn(rs[i].vm, rs[i + 1..])
    decreases |rs|
  {
    if rs != [] {
      var rest := rs[1..];
      AtOnceAt(n, rest);
      assert forall k | 0 <= k < |rest| :: rest[k] == rs[k + 1];
      assert rs[0].host != n ==> AtOnce(n, rs) == AtOnce(n, rest) && InTurn(n, rs) == InTurn(n, rest);
      hide AtOnce, InTurn;
      forall i | 0 <= i < |rs| && rs[i].host == n && Effective(rs, i)
        ensures AtOnce(n, rs) == rs[i].vm && InTurn(n, rs) == InTurn(rs[i].vm, rs[i + 1..])
      {
        if i > 0 {
          assert rs[0].host != n;
          assert rest[i - 1] == rs[i] && rest[i..] == rs[i + 1..];
          assert Effective(rest, i - 1);
        }
      }
    }
  }

  lemma {:induction false} FirstFor(rs: seq<Rename>, n: Number) returns (i: nat)
    requires exists k | 0 <= k < |rs| :: rs[k].host == n
    ensures i < |rs| && rs[i].host == n && Effective(rs, i)
  {
    i := 0;
    while rs[i].host != n
      invariant i < |rs| && forall k | 0 <= k < i :: rs[k].host != n
      decreases |rs| - i
    {
      i := i + 1;
    }
  }

  lemma AgreeIfStay(rs: seq<Rename>, n: Number)
    requires ResultsStay(rs)
    ensures InTurn(n, rs) == AtOnce(n, rs)
  {
    AtOnceAt(n, rs);
    if exists k | 0 <= k < |rs| :: rs[k].host == n {
      var i := FirstFor(rs, n);
      assert InTurn(rs[i].vm, rs[i + 1..]) == rs[i].vm;
    }
  }

  lemma StayIfAgree(rs: seq<Rename>, i: nat)
    requires i < |rs| && Effective(rs, i)
    requires InTurn(rs[i].host, rs) == AtOnce(rs[i].host, rs)
    ensures InTurn(rs[i].vm, rs[i + 1..]) == rs[i].vm
  {
    AtOnceAt(rs[i].host, rs);
  }

  ghost predicate Agree(rs: seq<Rename>) {
    forall n :: InTurn(n, rs) == AtOnce(n, rs)
  }

  lemma AgreeExactly(rs: seq<Rename>)
    ensures Agree(rs) <==> ResultsStay(rs)
  {
    if ResultsStay(rs) {
      forall n ensures InTurn(n, rs) == AtOnce(n, rs) { AgreeIfStay(rs, n); }
    }
    if Agree(rs) {
      forall i | 0 <= i < |rs| && Effective(rs, i) ensures InTurn(rs[i].vm, rs[i + 1..]) == rs[i].vm {
        StayIfAgree(rs, i);
      }
    }
  }

  /** No effective renaming produces a number that a later one renames. */
  predicate NoChain(rs: seq<Rename>) {
    forall i, j | 0 <= i < j < |rs| && Effective(rs, i) :: rs[i].vm != rs[j].host
  }

  ghost predicate DistinctHosts(rs: seq<Rename>) {
    forall i, j | 0 <= i < j < |rs| :: rs[i].host != rs[j].host
  }

  /** Where an earlier VM number is a later host number, that renaming changes nothing. */
  predicate ChainsIdle(rs: seq<Rename>) {
    forall i, j | 0 <= i < j < |rs| && Effective(rs, i) && rs[i].vm == rs[j].host :: rs[j].vm == rs[j].host
  }

  lemma {:induction false} InTurnRange(n: Number, rs: seq<Rename>)
    ensures (forall k | 0 <= k < |rs| :: rs[k].host != n) ==> InTurn(n, rs) == n
    ensures (exists k | 0 <= k < |rs| :: rs[k].host == n) ==>
              exists k | 0 <= k < |rs| :: InTurn(n, rs) == rs[k].vm
    decreases |rs|
  {
    if rs != [] {
      var rest := rs[1..];
      assert forall k | 0 <= k < |rest| :: rest[k] == rs[k + 1];
      InTurnRange(Renumber(n, rs[0].host, rs[0].vm), rest);
    }
  }

  /** A result that nothing renames on stays. */
  lemma UnchainedStays(rs: seq<Rename>, i: nat)
    requires i < |rs| && forall j | i < j < |rs| :: rs[i].vm != rs[j].host
    ensures InTurn(rs[i].vm, rs[i + 1..]) == rs[i].vm
  {
    var later := rs[i + 1..];
    assert forall k | 0 <= k < |later| :: later[k] == rs[i + 1 + k];
    InTurnRange(rs[i].vm, later);
  }

  lemma {:induction false} IdleStays(n: Number, rs: seq<Rename>)
    requires forall k | 0 <= k < |rs| && rs[k].host == n :: rs[k].vm == n
    ensures InTurn(n, rs) == n
    decreases |rs|
  {
    if rs != [] {
      assert forall k | 0 <= k < |rs| - 1 :: rs[1..][k] == rs[k + 1];
      IdleStays(n, rs[1..]);
    }
  }

  /** The first renaming of a number takes it along. */
  lemma {:induction false} RenamedOn(n: Number, rs: seq<Rename>, j: nat)
    requires j < |rs| && rs[j].host == n && forall i | 0 <= i < j :: rs[i].host != n
    ensures InTurn(n, rs) == InTurn(rs[j].vm, rs[j + 1..])
    decreases |rs|
  {
    if j > 0 {
      assert forall k | 0 <= k < |rs| - 1 :: rs[1..][k] == rs[k + 1];
      RenamedOn(n, rs[1..], j - 1);
      assert rs[1..][j..] == rs[j + 1..];
    }
  }

  lemma StayWithoutChain(rs: seq<Rename>)
    requires NoChain(rs)
    ensures ResultsStay(rs)
  {
    forall i | 0 <= i < |rs| && Effective(rs, i) ensures InTurn(rs[i].vm, rs[i + 1..]) == rs[i].vm {
      UnchainedStays(rs, i);
    }
  }

  /** A chain that changes something makes one of the two results move. */
  lemma ChainMoves(rs: seq<Rename>, i: nat, j: nat)
    requires DistinctHosts(rs) && i < j < |rs| && rs[i].vm == rs[j].host && rs[j].vm != rs[j].host
    ensures !ResultsStay(rs)
  {
    var later := rs[i + 1..];
    assert forall k | 0 <= k < |later| :: later[k] == rs[i + 1 + k];
    assert later[j - i - 1] == rs[j] && later[j - i..] == rs[j + 1..];
    RenamedOn(rs[i].vm, later, j - i - 1);
    assert Effective(rs, i) && Effective(rs, j);
    assert InTurn(rs[i].vm, later) == InTurn(rs[j].vm, rs[j + 1..]);
  }

  /** With distinct host numbers, results stay exactly when every chain is idle. */
  lemma StayExactlyWhenIdle(rs: seq<Rename>)
    requires DistinctHosts(rs)
    ensures ResultsStay(rs) <==> ChainsIdle(rs)
  {
    if ChainsIdle(rs) {
      forall i | 0 <= i < |rs| && Effective(rs, i) ensures InTurn(rs[i].vm, rs[i + 1..]) == rs[i].vm {
        var later := rs[i + 1..];
        assert forall k | 0 <= k < |later| :: later[k] == rs[i + 1 + k];
        IdleStays(rs[i].vm, later);
      }
    } else {
      var i, j :| 0 <= i < j < |rs| && Effective(rs, i) && rs[i].vm == rs[j].host && rs[j].vm != rs[j].host;
      ChainMoves(rs, i, j);
    }
  }

  /** Renumbering device by device equals one simultaneous renumbering, for every cgroup list, exactly when
      the results stay. All other fields, lengths and order are kept in any case. */
  lemma SequentialIsSimultaneousExactly(devs: seq<LinuxDevice>, us: seq<Update>)
    requires DistinctPaths(us)
    ensures (forall cgs: seq<DeviceCgroup> :: UpdateAll(Linux(devs, cgs), us) == Simultaneous(Linux(devs, cgs), us))
       <==> ResultsStay(Renames(devs, us))
  {
    var rs := Renames(devs, us);
    AgreeExactly(rs);
    if ResultsStay(rs) {
      forall cgs: seq<DeviceCgroup> ensures UpdateAll(Linux(devs, cgs), us) == Simultaneous(Linux(devs, cgs), us) {
        UpdateAllInTurn(Linux(devs, cgs), us);
        assert EntriesInTurn(cgs, rs) == EntriesAtOnce(cgs, rs);
      }
    } else {
      var n :| InTurn(n, rs) != AtOnce(n, rs);
      var cgs := [DeviceCgroup(true, "b", n, "rwm")];
      UpdateAllInTurn(Linux(devs, cgs), us);
      assert EntriesInTurn(cgs, rs)[0].number != EntriesAtOnce(cgs, rs)[0].number;
    }
  }

  /** Without a chain, that is when no earlier VM number is a later host number, the two always agree: also when
      devices share a VM number, or host numbers coincide. */
  lemma SequentialIsSimultaneousWithoutChain(l: Linux, us: seq<Update>)
    requires DistinctPaths(us) && NoChain(Renames(l.devices, us))
    ensures UpdateAll(l, us) == Simultaneous(l, us)
  {
    StayWithoutChain(Renames(l.devices, us));
    SequentialIsSimultaneousExactly(l.devices, us);
  }

  /** With distinct host numbers, a chain that changes something is the one thing that makes a difference. */
  lemma ChainsMakeTheDifference(devs: seq<LinuxDevice>, us: seq<Update>)
    requires DistinctPaths(us) && DistinctHosts(Renames(devs, us))
    ensures (forall cgs: seq<DeviceCgroup> :: UpdateAll(Linux(devs, cgs), us) == Simultaneous(Linux(devs, cgs), us))
       <==> ChainsIdle(Renames(devs, us))
  {
    SequentialIsSimultaneousExactly(devs, us);
    StayExactlyWhenIdle(Renames(devs, us));
  }

  /** A chain: the entry meant for the first device ends up on the second device's number. */
  lemma ChainedRenumbering()
    ensures var a, b, c := Number(8, 0), Number(8, 16), Number(8, 32);
            var devs := [LinuxDevice("/dev/x", "b", a, 0, 0, 0), LinuxDevice("/dev/y", "b", b, 0, 0, 0)];
            var us := [Update("/dev/x", b), Update("/dev/y", c)];
            var l := Linux(devs, [DeviceCgroup(true, "b", a, "rwm")]);
            && UpdateAll(l, us).cgroups == [DeviceCgroup(true, "b", c, "rwm")]
            && Simultaneous(l, us).cgroups == [DeviceCgroup(true, "b", b, "rwm")]
  {
    var a, b, c := Number(8, 0), Number(8, 16), Number(8, 32);
    var devs := [LinuxDevice("/dev/x", "b", a, 0, 0, 0), LinuxDevice("/dev/y", "b", b, 0, 0, 0)];
    var us := [Update("/dev/x", b), Update("/dev/y", c)];
    var x, y := "/dev/x", "/dev/y";
    assert x[5] != y[5];
    assert RenamesFor(devs[1..], x, b) == [] && RenamesFor(devs[1..], y, c) == [Rename(b, c)];
    assert RenamesFor(devs, x, b) == [Rename(a, b)] && RenamesFor(devs, y, c) == [Rename(b, c)];
    assert us[1..] == [Update(y, c)];
    assert Renames(devs, us[1..]) == [Rename(b, c)];
    assert Renames(devs, us) == [Rename(a, b), Rename(b, c)];
    assert [Rename(a, b), Rename(b, c)][1..] == [Rename(b, c)];
    UpdateAllInTurn(Linux(devs, [DeviceCgroup(true, "b", a, "rwm")]), us);
    assert InTurn(b, [Rename(b, c)]) == c;
    assert InTurn(a, [Rename(a, b), Rename(b, c)]) == c;
  }
}
