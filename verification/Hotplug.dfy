/** The rendezvous between calls waiting for a hotplugged device and the thread that receives uevents.
    Each step below is one critical section (both locks held) or one channel operation. */
module Hotplug {
  import opened Basics
  import opened Text
  import opened Uevents

  const ROOT_BUS_PATH := "/devices/pci0000:00"
  const SCSI_HOST_CHANNEL := "0:0:"
  const SCSI_BLOCK_SUFFIX := "block"

  /** The waiter's test: does the device at this path answer for the address? */
  predicate LookupMatches(path: string, addr: string) {
    Contains(path, addr)
  }

  /** The notifier's test: should the watcher of this address hear about the path? */
  predicate NotifyMatches(path: string, addr: string) {
    || StartsWith(path, ROOT_BUS_PATH + "/" + addr)
    || (EndsWith(addr, SCSI_BLOCK_SUFFIX) && Contains(path, addr))
  }

  function ScsiAddress(scsiAddr: string): string {
    SCSI_HOST_CHANNEL + scsiAddr + "/" + SCSI_BLOCK_SUFFIX
  }

  lemma NotifyImpliesLookup(path: string, addr: string)
    requires NotifyMatches(path, addr)
    ensures LookupMatches(path, addr)
  {
    var prefix := ROOT_BUS_PATH + "/";
    if StartsWith(path, prefix + addr) {
      assert path[|prefix|..|prefix| + |addr|] == (prefix + addr)[|prefix|..] == addr;
      assert OccursAt(path, addr, |prefix|);
    }
  }

  /** For the addresses SCSI lookups build, the two tests agree. */
  lemma ScsiTestsAgree(path: string, scsiAddr: string)
    ensures NotifyMatches(path, ScsiAddress(scsiAddr)) <==> LookupMatches(path, ScsiAddress(scsiAddr))
  {
    var addr := ScsiAddress(scsiAddr);
    assert addr[|addr| - |SCSI_BLOCK_SUFFIX|..] == SCSI_BLOCK_SUFFIX;
    if NotifyMatches(path, addr) {
      NotifyImpliesLookup(path, addr);
    }
  }

  // Paths as sysfs builds them

  /** The bus that the root bridge itself exposes, as it begins the name of a function on it. */
  const ROOT_BUS := "0000:00:"

  /** get_device_pci_address: the bridge's function on the root bus, then the device's on the bridge's bus. */
  function PciAddress(bridge: string, bus: string, device: string): string {
    ROOT_BUS + bridge + ".0" + "/" + bus + ":" + device + ".0"
  }

  function DevPath(parts: seq<string>): string {
    ROOT_BUS_PATH + "/" + Join(parts, '/')
  }

  /** Functions of the root bus stand directly below the root bridge and nowhere else: further down, names of other
      buses follow. */
  ghost predicate SysfsShaped(parts: seq<string>) {
    && |parts| > 0
    && (forall p | p in parts :: '/' !in p)
    && (forall i: nat, k: nat | i < |parts| && OccursAt(parts[i], ROOT_BUS, k) :: i == 0 && k == 0)
  }

  lemma RootBusPathLacksFunctions(i: nat)
    ensures !OccursAt(ROOT_BUS_PATH, ROOT_BUS, i)
  {
    if i + |ROOT_BUS| <= |ROOT_BUS_PATH| {
      assert ROOT_BUS_PATH[i..i + |ROOT_BUS|][0] == ROOT_BUS_PATH[i] != '0';
    }
  }

  /** A root-bus function is named nowhere in such a path but right after the root. */
  lemma RootBusOnlyAtRoot(parts: seq<string>, i: nat)
    requires SysfsShaped(parts) && OccursAt(DevPath(parts), ROOT_BUS, i)
    ensures i == |ROOT_BUS_PATH| + 1
  {
    var path, rest := DevPath(parts), Join(parts, '/');
    var n := |ROOT_BUS_PATH|;
    assert path[n] == '/';
    ClearOf(path, ROOT_BUS, i, n);
    if i < n {
      assert path == ROOT_BUS_PATH + ("/" + rest);
      OccursInHead(ROOT_BUS_PATH, "/" + rest, ROOT_BUS, i);
      RootBusPathLacksFunctions(i);
    } else {
      OccursInTail(ROOT_BUS_PATH + "/", rest, ROOT_BUS, i - n - 1);
      var p, k := OccursInPiece(parts, '/', ROOT_BUS, i - n - 1);
    }
  }

  /** So for the addresses PCI lookups build the two tests agree as well, on every path of that shape. */
  lemma PciTestsAgree(parts: seq<string>, bridge: string, bus: string, device: string)
    requires SysfsShaped(parts)
    ensures var addr := PciAddress(bridge, bus, device);
            NotifyMatches(DevPath(parts), addr) <==> LookupMatches(DevPath(parts), addr)
  {
    var path, addr := DevPath(parts), PciAddress(bridge, bus, device);
    if NotifyMatches(path, addr) {
      NotifyImpliesLookup(path, addr);
    }
    if i: nat :| i <= |path| && OccursAt(path, addr, i) {
      var more := bridge + ".0" + "/" + bus + ":" + device + ".0";
      assert addr == ROOT_BUS + more;
      OccursSplit(path, ROOT_BUS, more, i);
      RootBusOnlyAtRoot(parts, i);
      OccursInTail(ROOT_BUS_PATH + "/", Join(parts, '/'), addr, 0);
      AtRoot(path, Join(parts, '/'), addr);
    }
  }

  lemma AtRoot(path: string, rest: string, addr: string)
    requires path == ROOT_BUS_PATH + "/" + rest && OccursAt(rest, addr, 0)
    ensures NotifyMatches(path, addr)
  {
    assert path[0..|ROOT_BUS_PATH + "/" + addr|] == ROOT_BUS_PATH + "/" + rest[0..|addr|];
  }

  /** The shape is needed: a root-bus function named a second time would be found by lookups and never notified. */
  lemma DeeperDeviceIsNotNotified(bridge: string, bus: string, device: string)
    requires bridge != "" && bridge[0] != 'x' && '/' !in bridge
    ensures var addr := PciAddress(bridge, bus, device);
            var path := ROOT_BUS_PATH + "/" + ROOT_BUS + "x/" + addr + "/block/vda";
            LookupMatches(path, addr) && !NotifyMatches(path, addr)
  {
    var addr := PciAddress(bridge, bus, device);
    var prefix := ROOT_BUS_PATH + "/" + ROOT_BUS + "x/";
    var path := prefix + addr + "/block/vda";
    assert path[|prefix|..|prefix| + |addr|] == addr;
    ContainsByPosition(path, addr, |prefix|);
    var at := |ROOT_BUS_PATH| + 1 + |ROOT_BUS|;
    assert path[at] == prefix[at] == 'x';
    assert addr[|ROOT_BUS|] == bridge[0];
    assert (ROOT_BUS_PATH + "/" + addr)[at] == bridge[0];
    EndsInDigit(addr);
  }

  lemma EndsInDigit(addr: string)
    requires addr != "" && addr[|addr| - 1] == '0'
    ensures !EndsWith(addr, SCSI_BLOCK_SUFFIX)
  {
    LastOfSuffix(addr, SCSI_BLOCK_SUFFIX);
    assert SCSI_BLOCK_SUFFIX[|SCSI_BLOCK_SUFFIX| - 1] == 'k';
  }

  // Whole names

  /** The path goes through the very device: its two parts are two components, one after the other. */
  ghost predicate NamedIn(parts: seq<string>, first: string, second: string) {
    exists i: nat | i + 1 < |parts| :: parts[i] == first && parts[i + 1] == second
  }

  /** The path goes through components that only end, or begin, like the two parts of the address. */
  ghost predicate LongerNameIn(parts: seq<string>, first: string, second: string) {
    exists i: nat | i + 1 < |parts| ::
      && EndsWith(parts[i], first) && StartsWith(parts[i + 1], second)
      && (parts[i] != first || parts[i + 1] != second)
  }

  /** A lookup finds the device itself, or one with a longer name, and nothing else. */
  lemma LookupFindsExactly(parts: seq<string>, first: string, second: string)
    requires |parts| > 0 && forall p | p in parts :: '/' !in p
    requires '/' !in first && '/' !in second
    ensures LookupMatches(Join(parts, '/'), first + "/" + second)
       <==> NamedIn(parts, first, second) || LongerNameIn(parts, first, second)
  {
    TwoPartsExactly(parts, '/', first, second);
    assert first + ['/'] + second == first + "/" + second;
    if i: nat :| i + 1 < |parts| && parts[i] == first && parts[i + 1] == second {
      WholeIsPart(first);
      WholeIsPart(second);
      assert EndsWith(parts[i], first) && StartsWith(parts[i + 1], second);
    }
  }

  lemma WholeIsPart(s: string)
    ensures EndsWith(s, s) && StartsWith(s, s)
  {
    assert s[0..|s|] == s;
  }

  /** The components of a path below the root bus: a disk on SCSI host 10 of some virtio controller. */
  function Host10Parts(id: string): seq<string> {
    ["", "devices", "pci0000:00", "0000:00:05.0", "virtio2", "host10", "target10:0:0", "1" + SCSI_HOST_CHANNEL + id,
     SCSI_BLOCK_SUFFIX, "sda"]
  }

  /** Longer names occur on the root bus: the address of a device on SCSI host 0 also fits the same device on
      host 10. */
  lemma Host10Matches(id: string)
    requires '/' !in id
    ensures var path := Join(Host10Parts(id), '/');
            && StartsWith(path, ROOT_BUS_PATH) && LookupMatches(path, ScsiAddress(id))
            && !NamedIn(Host10Parts(id), SCSI_HOST_CHANNEL + id, SCSI_BLOCK_SUFFIX)
  {
    var first, parts := SCSI_HOST_CHANNEL + id, Host10Parts(id);
    assert parts[..3] == ["", "devices", "pci0000:00"];
    assert forall p | p in parts :: '/' !in p;
    Host10IsLonger(id);
    hide LookupMatches, Join, StartsWith, NamedIn, LongerNameIn, Host10Parts;
    StartsOnRootBus(parts);
    LookupFindsExactly(parts, first, SCSI_BLOCK_SUFFIX);
    assert ScsiAddress(id) == first + "/" + SCSI_BLOCK_SUFFIX;
  }

  lemma Host10IsLonger(id: string)
    ensures LongerNameIn(Host10Parts(id), SCSI_HOST_CHANNEL + id, SCSI_BLOCK_SUFFIX)
    ensures !NamedIn(Host10Parts(id), SCSI_HOST_CHANNEL + id, SCSI_BLOCK_SUFFIX)
  {
    var first, parts := SCSI_HOST_CHANNEL + id, Host10Parts(id);
    assert parts[7] == "1" + first && ("1" + first)[1..1 + |first|] == first;
    WholeIsPart(SCSI_BLOCK_SUFFIX);
    assert EndsWith(parts[7], first) && StartsWith(parts[8], SCSI_BLOCK_SUFFIX) && |parts[7]| != |first|;
    assert SCSI_BLOCK_SUFFIX[0] == 'b';
    assert forall i: nat | i < |parts| && i != 8 :: parts[i] != SCSI_BLOCK_SUFFIX;
  }

  lemma StartsOnRootBus(parts: seq<string>)
    requires |parts| > 3 && parts[..3] == ["", "devices", "pci0000:00"]
    ensures StartsWith(Join(parts, '/'), ROOT_BUS_PATH)
  {
    hide Join, StartsWith;
    assert parts[0] == parts[..3][0] && parts[1] == parts[..3][1] && parts[2] == parts[..3][2];
    var two, three := parts[1..], parts[2..];
    JoinCons(parts, '/');
    JoinCons(two, '/');
    JoinCons(three, '/');
    assert two[1..] == three;
    var rest := ['/'] + Join(three[1..], '/');
    assert Join(three, '/') == "pci0000:00" + rest;
    AfterRoot(rest);
  }

  lemma AfterRoot(rest: string)
    ensures StartsWith("" + ['/'] + ("devices" + ['/'] + ("pci0000:00" + rest)), ROOT_BUS_PATH)
  {
    assert "" + ['/'] + ("devices" + ['/'] + ("pci0000:00" + rest)) == ROOT_BUS_PATH + rest by {
      assert "" + ['/'] + ("devices" + ['/'] + "pci0000:00") == ROOT_BUS_PATH;
    }
    assert (ROOT_BUS_PATH + rest)[..|ROOT_BUS_PATH|] == ROOT_BUS_PATH;
  }

  // State

  /** Identifies one call of get_device_name together with the channel it creates. */
  type Ticket = nat

  /** Expired: the receive has failed but the watcher entry has not been removed yet. */
  datatype Phase = Waiting | Expired | Failed | Returned(name: string)

  /** sent: everything ever put into this call's channel. */
  datatype Waiter = Waiter(addr: string, phase: Phase, sent: seq<string>) {
    predicate Idle() { phase == Waiting && sent == [] }
    predicate Live() { phase == Waiting || phase == Expired }
  }

  datatype Hotplugged = Hotplugged(path: string, name: string)

  datatype State = State(
    pciDeviceMap: map<string, string>,
    watchers: map<string, Ticket>,
    waiters: map<Ticket, Waiter>,
    log: seq<Hotplugged>)  // every device event handled so far

  const INIT := State(map[], map[], map[], [])

  datatype Step =
    | Find(id: Ticket, addr: string, path: string)
    | Register(id: Ticket, addr: string)
    | Event(path: string, name: string)
    | Receive(id: Ticket)
    | Expire(id: Ticket)
    | Cleanup(id: Ticket)

  predicate Enabled(s: State, step: Step) {
    match step
    case Find(id, addr, path) => id !in s.waiters && path in s.pciDeviceMap && LookupMatches(path, addr)
    case Register(id, addr) => id !in s.waiters && forall p | p in s.pciDeviceMap :: !LookupMatches(p, addr)
    case Event(path, name) => name != "" && StartsWith(path, ROOT_BUS_PATH)
    case Receive(id) => id in s.waiters && s.waiters[id].phase == Waiting && s.waiters[id].sent != []
    case Expire(id) => id in s.waiters && s.waiters[id].Idle()
    case Cleanup(id) => id in s.waiters && s.waiters[id].phase == Expired
  }

  /** The watcher entry of its address holds this call's sender. */
  predicate Owns(s: State, id: Ticket) {
    && id in s.waiters
    && s.waiters[id].addr in s.watchers
    && s.watchers[s.waiters[id].addr] == id
  }

  function Unnotified(watchers: map<string, Ticket>, path: string): map<string, Ticket> {
    map a | a in watchers && !NotifyMatches(path, a) :: watchers[a]
  }

  function Notified(s: State, path: string, name: string): map<Ticket, Waiter> {
    map id | id in s.waiters ::
      var w := s.waiters[id];
      if Owns(s, id) && NotifyMatches(path, w.addr) then w.(sent := w.sent + [name]) else w
  }

  /** The channels once the watchers of the given addresses have been sent the name. */
  function Sent(s: State, name: string, addrs: set<string>): map<Ticket, Waiter> {
    map id | id in s.waiters ::
      var w := s.waiters[id];
      if Owns(s, id) && w.addr in addrs then w.(sent := w.sent + [name]) else w
  }

  function SetPhase(s: State, id: Ticket, phase: Phase): State
    requires id in s.waiters
  {
    s.(waiters := s.waiters[id := s.waiters[id].(phase := phase)])
  }

  function Apply(s: State, step: Step): State
    requires Enabled(s, step)
  {
    match step
    case Find(id, addr, path) =>
      s.(waiters := s.waiters[id := Waiter(addr, Returned(s.pciDeviceMap[path]), [])])
    case Register(id, addr) =>
      s.(watchers := s.watchers[addr := id], waiters := s.waiters[id := Waiter(addr, Waiting, [])])
    case Event(path, name) =>
      State(s.pciDeviceMap[path := name], Unnotified(s.watchers, path), Notified(s, path, name),
            s.log + [Hotplugged(path, name)])
    case Receive(id) => SetPhase(s, id, Returned(s.waiters[id].sent[0]))
    case Expire(id) => SetPhase(s, id, Expired)
    case Cleanup(id) =>
      SetPhase(s.(watchers := s.watchers - {s.waiters[id].addr}), id, Failed)
  }

  // What every reachable state satisfies, whatever the interleaving

  ghost predicate Heard(log: seq<Hotplugged>, addr: string, name: string) {
    exists e :: e in log && e.name == name && NotifyMatches(e.path, addr)
  }

  ghost predicate Matched(log: seq<Hotplugged>, addr: string, name: string) {
    exists e :: e in log && e.name == name && LookupMatches(e.path, addr)
  }

  /** The name the newest event for this path carried. */
  function Newest(log: seq<Hotplugged>, path: string): Option<string> {
    if log == [] then None
    else if log[|log| - 1].path == path then Some(log[|log| - 1].name)
    else Newest(log[..|log| - 1], path)
  }

  /** The device map remembers exactly the newest name of each path that ever appeared. */
  ghost predicate MapInv(s: State) {
    && (forall p :: p in s.pciDeviceMap ==> s.pciDeviceMap[p] != "" && Newest(s.log, p) == Some(s.pciDeviceMap[p]))
    && (forall e :: e in s.log ==> e.path in s.pciDeviceMap)
  }

  ghost predicate WatchersLive(s: State) {
    forall a | a in s.watchers ::
      && s.watchers[a] in s.waiters
      && s.waiters[s.watchers[a]].addr == a
      && s.waiters[s.watchers[a]].Live()
      && s.waiters[s.watchers[a]].sent == []
  }

  /** Watcher entries belong to live calls that have heard nothing, and nothing present would wake them. */
  ghost predicate WatchInv(s: State) {
    && WatchersLive(s)
    && (forall a, p :: a in s.watchers && p in s.pciDeviceMap ==> !NotifyMatches(p, a))
  }

  /** Channels carry at most one message, and only names of matching devices. */
  ghost predicate ChannelOk(s: State, id: Ticket)
    requires id in s.waiters
  {
    var w := s.waiters[id];
    && |w.sent| <= 1
    && (w.sent != [] ==> Heard(s.log, w.addr, w.sent[0]))
    && (w.phase.Returned? ==> Matched(s.log, w.addr, w.phase.name))
  }

  ghost predicate ChannelInv(s: State) {
    forall id | id in s.waiters :: ChannelOk(s, id)
  }

  ghost predicate Inv(s: State) {
    MapInv(s) && WatchInv(s) && ChannelInv(s)
  }

  lemma {:induction false} NewestInLog(log: seq<Hotplugged>, path: string)
    ensures Newest(log, path).Some? ==> Hotplugged(path, Newest(log, path).value) in log
  {
    if log != [] && log[|log| - 1].path != path {
      NewestInLog(log[..|log| - 1], path);
    }
  }

  lemma MapInvKept(s: State, step: Step)
    requires Inv(s) && Enabled(s, step)
    ensures MapInv(Apply(s, step))
  {
    if step.Event? {
      var log' := s.log + [Hotplugged(step.path, step.name)];
      assert log'[..|log'| - 1] == s.log;
    }
  }

  lemma WatchInvKept(s: State, step: Step)
    requires Inv(s) && Enabled(s, step)
    ensures WatchInv(Apply(s, step))
  {
    if step.Register? {
      forall p | p in s.pciDeviceMap ensures !NotifyMatches(p, step.addr) {
        if NotifyMatches(p, step.addr) {
          NotifyImpliesLookup(p, step.addr);
        }
      }
    }
  }

  lemma HeardMore(log: seq<Hotplugged>, more: Hotplugged, addr: string, name: string)
    ensures Heard(log, addr, name) ==> Heard(log + [more], addr, name)
    ensures Matched(log, addr, name) ==> Matched(log + [more], addr, name)
    ensures more.name == name && NotifyMatches(more.path, addr) ==> Heard(log + [more], addr, name)
  {
    assert forall e :: e in log ==> e in log + [more];
    assert more in log + [more];
  }

  lemma HeardIsMatched(log: seq<Hotplugged>, addr: string, name: string)
    requires Heard(log, addr, name)
    ensures Matched(log, addr, name)
  {
    var e :| e in log && e.name == name && NotifyMatches(e.path, addr);
    NotifyImpliesLookup(e.path, addr);
  }

  lemma ChannelInvKept(s: State, step: Step)
    requires Inv(s) && Enabled(s, step)
    ensures ChannelInv(Apply(s, step))
  {
    match step
    case Find(_, addr, path) =>
      NewestInLog(s.log, path);
    case Event(path, name) =>
      forall id | id in s.waiters ensures ChannelOk(Apply(s, step), id) {
        var w := s.waiters[id];
        HeardMore(s.log, Hotplugged(path, name), w.addr, name);
        if w.sent != [] { HeardMore(s.log, Hotplugged(path, name), w.addr, w.sent[0]); }
        if w.phase.Returned? { HeardMore(s.log, Hotplugged(path, name), w.addr, w.phase.name); }
      }
    case Receive(id) =>
      HeardIsMatched(s.log, s.waiters[id].addr, s.waiters[id].sent[0]);
    case _ =>
  }

  // Runs

  ghost predicate Execution(states: seq<State>, steps: seq<Step>) {
    && |states| == |steps| + 1
    && states[0] == INIT
    && forall i | 0 <= i < |steps| :: Enabled(states[i], steps[i]) && states[i + 1] == Apply(states[i], steps[i])
  }

  lemma {:induction false} InvAlways(states: seq<State>, steps: seq<Step>, i: nat)
    requires Execution(states, steps) && i < |states|
    ensures Inv(states[i])
  {
    if i > 0 {
      InvAlways(states, steps, i - 1);
      StepKeepsInv(states[i - 1], steps[i - 1]);
    }
  }

  /** In every run, a name handed to a caller was carried by an event whose path contains the caller's
      address, and no channel ever carries more than one message. */
  lemma ReturnedNamesAreGenuine(states: seq<State>, steps: seq<Step>, i: nat, id: Ticket)
    requires Execution(states, steps) && i < |states| && id in states[i].waiters
    ensures |states[i].waiters[id].sent| <= 1
    ensures states[i].waiters[id].phase.Returned? ==>
              Matched(states[i].log, states[i].waiters[id].addr, states[i].waiters[id].phase.name)
  {
    InvAlways(states, steps, i);
  }

  /** So for an address of two parts, the event's path goes through the device itself or one with a longer name. */
  lemma ReturnedNamesFitTheDevice(states: seq<State>, steps: seq<Step>, i: nat, id: Ticket, first: string,
                                  second: string) returns (e: Hotplugged)
    requires Execution(states, steps) && i < |states| && id in states[i].waiters
    requires states[i].waiters[id].phase.Returned? && states[i].waiters[id].addr == first + "/" + second
    requires '/' !in first && '/' !in second
    ensures e in states[i].log && e.name == states[i].waiters[id].phase.name
    ensures forall parts: seq<string> |
              |parts| > 0 && e.path == Join(parts, '/') && (forall p | p in parts :: '/' !in p) ::
              NamedIn(parts, first, second) || LongerNameIn(parts, first, second)
  {
    ReturnedNamesAreGenuine(states, steps, i, id);
    var addr, name := states[i].waiters[id].addr, states[i].waiters[id].phase.name;
    e :| e in states[i].log && e.name == name && LookupMatches(e.path, addr);
    forall parts: seq<string> | |parts| > 0 && e.path == Join(parts, '/') && forall p | p in parts :: '/' !in p
      ensures NamedIn(parts, first, second) || LongerNameIn(parts, first, second)
    {
      LookupFindsExactly(parts, first, second);
    }
  }

  // No lost wakeup

  /** Every call still waiting with an empty channel has its sender in the watcher map. */
  ghost predicate NoLostWakeup(s: State) {
    forall id :: id in s.waiters && s.waiters[id].Idle() ==> Owns(s, id)
  }

  /** The step does not touch the watcher entry of some other call that is still waiting. */
  predicate Undisturbed(s: State, step: Step) {
    match step
    case Register(_, addr) =>
      addr !in s.watchers || (s.watchers[addr] in s.waiters && s.waiters[s.watchers[addr]].phase != Waiting)
    case Cleanup(id) =>
      id in s.waiters ==>
        var addr := s.waiters[id].addr;
        addr !in s.watchers || (s.watchers[addr] in s.waiters && s.waiters[s.watchers[addr]].phase != Waiting)
    case _ => true
  }

  lemma StepKeepsWakeups(s: State, step: Step)
    requires Inv(s) && Enabled(s, step) && NoLostWakeup(s)
    ensures NoLostWakeup(Apply(s, step)) <==> Undisturbed(s, step)
  {
    var s' := Apply(s, step);
    match step
    case Register(id, addr) =>
      if addr in s.watchers && s.waiters[s.watchers[addr]].phase == Waiting {
        var other := s.watchers[addr];
        assert s'.waiters[other].Idle() && !Owns(s', other);
      }
    case Cleanup(id) =>
      var addr := s.waiters[id].addr;
      if addr in s.watchers && s.waiters[s.watchers[addr]].phase == Waiting {
        var other := s.watchers[addr];
        assert s'.waiters[other].Idle() && !Owns(s', other);
      }
    case Event(path, name) =>
      forall id | id in s'.waiters && s'.waiters[id].Idle() ensures Owns(s', id) {
        assert s.waiters[id].Idle();
      }
    case _ =>
  }

  lemma {:induction false} WakeupsKeptUpTo(states: seq<State>, steps: seq<Step>, n: nat)
    requires Execution(states, steps) && n <= |steps|
    ensures (forall i | 0 <= i <= n :: NoLostWakeup(states[i]))
       <==> (forall i | 0 <= i < n :: Undisturbed(states[i], steps[i]))
  {
    if n > 0 {
      WakeupsKeptUpTo(states, steps, n - 1);
      InvAlways(states, steps, n - 1);
      var before := forall i | 0 <= i <= n - 1 :: NoLostWakeup(states[i]);
      if before {
        assert NoLostWakeup(states[n - 1]);
        StepKeepsWakeups(states[n - 1], steps[n - 1]);
        assert NoLostWakeup(states[n]) <==> Undisturbed(states[n - 1], steps[n - 1]);
      }
      assert (forall i | 0 <= i <= n :: NoLostWakeup(states[i])) <==> before && NoLostWakeup(states[n]);
    }
  }

  /** Exactly when the protocol loses no wakeup: no step of the run registers over, or cleans up, the entry
      of another call that is still waiting. */
  lemma NoLostWakeupExactly(states: seq<State>, steps: seq<Step>)
    requires Execution(states, steps)
    ensures (forall i | 0 <= i < |states| :: NoLostWakeup(states[i]))
       <==> (forall i | 0 <= i < |steps| :: Undisturbed(states[i], steps[i]))
  {
    WakeupsKeptUpTo(states, steps, |steps|);
  }

  /** A call may register only when no other call on the same address is between registration and clean-up. */
  predicate OneWaiter(s: State, step: Step) {
    step.Register? ==> forall id | id in s.waiters :: s.waiters[id].addr == step.addr ==> !s.waiters[id].Live()
  }

  ghost predicate LiveAddressesDistinct(s: State) {
    forall id, id' | id in s.waiters && id' in s.waiters ::
      s.waiters[id].Live() && s.waiters[id'].Live() && s.waiters[id].addr == s.waiters[id'].addr ==> id == id'
  }

  lemma DistinctKept(s: State, step: Step)
    requires Enabled(s, step) && OneWaiter(s, step) && LiveAddressesDistinct(s)
    ensures LiveAddressesDistinct(Apply(s, step))
  {
    var s' := Apply(s, step);
    forall id, id' | id in s'.waiters && id' in s'.waiters && s'.waiters[id].Live() && s'.waiters[id'].Live()
        && s'.waiters[id].addr == s'.waiters[id'].addr
      ensures id == id'
    {
      if id in s.waiters && id' in s.waiters {
        assert s.waiters[id].Live() && s.waiters[id'].Live();
      }
    }
  }

  lemma {:induction false} OneWaiterDistinct(states: seq<State>, steps: seq<Step>, n: nat)
    requires Execution(states, steps) && n <= |steps|
    requires forall i | 0 <= i < n :: OneWaiter(states[i], steps[i])
    ensures LiveAddressesDistinct(states[n])
  {
    if n > 0 {
      OneWaiterDistinct(states, steps, n - 1);
      DistinctKept(states[n - 1], steps[n - 1]);
    }
  }

  /** With one waiter per address at a time, no reachable state has lost a wakeup. */
  lemma NoLostWakeupWithOneWaiter(states: seq<State>, steps: seq<Step>)
    requires Execution(states, steps)
    requires forall i | 0 <= i < |steps| :: OneWaiter(states[i], steps[i])
    ensures forall i | 0 <= i < |states| :: NoLostWakeup(states[i])
  {
    forall i | 0 <= i < |steps| ensures Undisturbed(states[i], steps[i]) {
      OneWaiterDistinct(states, steps, i);
      InvAlways(states, steps, i);
      assert Enabled(states[i], steps[i]);
    }
    NoLostWakeupExactly(states, steps);
  }

  /** A wakeup is delivered: an event the notifier matches reaches every idle waiter of the address. */
  lemma EventReachesWaiter(s: State, path: string, name: string, id: Ticket)
    requires Inv(s) && NoLostWakeup(s) && Enabled(s, Event(path, name))
    requires id in s.waiters && s.waiters[id].Idle() && NotifyMatches(path, s.waiters[id].addr)
    ensures var s' := Apply(s, Event(path, name));
            && s'.waiters[id].sent == [name]
            && Enabled(s', Receive(id))
            && Apply(s', Receive(id)).waiters[id].phase == Returned(name)
            && s.waiters[id].addr !in s'.watchers
  {
  }

  /** A timeout is honest: when a call's receive can fail, no event of the whole run notify-matched its address. */
  lemma TimeoutIsHonest(states: seq<State>, steps: seq<Step>, i: nat, id: Ticket)
    requires Execution(states, steps) && i < |states|
    requires NoLostWakeup(states[i]) && Enabled(states[i], Expire(id))
    ensures forall e :: e in states[i].log ==> !NotifyMatches(e.path, states[i].waiters[id].addr)
  {
    InvAlways(states, steps, i);
    assert Owns(states[i], id);
  }

  /** For SCSI addresses the timeout is honest about lookups too: the device never appeared at all. */
  lemma ScsiTimeoutMeansAbsent(states: seq<State>, steps: seq<Step>, i: nat, id: Ticket, scsiAddr: string)
    requires Execution(states, steps) && i < |states|
    requires NoLostWakeup(states[i]) && Enabled(states[i], Expire(id))
    requires states[i].waiters[id].addr == ScsiAddress(scsiAddr)
    ensures forall e :: e in states[i].log ==> !LookupMatches(e.path, ScsiAddress(scsiAddr))
  {
    TimeoutIsHonest(states, steps, i, id);
    forall e | e in states[i].log ensures !LookupMatches(e.path, ScsiAddress(scsiAddr)) {
      ScsiTestsAgree(e.path, scsiAddr);
    }
  }

  /** The same for PCI addresses, when the events of the run carry paths as sysfs builds them. */
  lemma PciTimeoutMeansAbsent(states: seq<State>, steps: seq<Step>, i: nat, id: Ticket, bridge: string, bus: string,
                              device: string)
    requires Execution(states, steps) && i < |states|
    requires NoLostWakeup(states[i]) && Enabled(states[i], Expire(id))
    requires states[i].waiters[id].addr == PciAddress(bridge, bus, device)
    requires forall e | e in states[i].log :: exists parts :: SysfsShaped(parts) && e.path == DevPath(parts)
    ensures forall e :: e in states[i].log ==> !LookupMatches(e.path, PciAddress(bridge, bus, device))
  {
    TimeoutIsHonest(states, steps, i, id);
    forall e | e in states[i].log ensures !LookupMatches(e.path, PciAddress(bridge, bus, device)) {
      var parts :| SysfsShaped(parts) && e.path == DevPath(parts);
      PciTestsAgree(parts, bridge, bus, device);
    }
  }

  /** After a failed call's clean-up no watcher entry for its address remains. */
  lemma CleanupLeavesNoEntry(s: State, id: Ticket)
    requires Enabled(s, Cleanup(id))
    ensures s.waiters[id].addr !in Apply(s, Cleanup(id)).watchers
    ensures forall a :: a != s.waiters[id].addr ==>
              (a in s.watchers <==> a in Apply(s, Cleanup(id)).watchers)
              && (a in s.watchers ==> Apply(s, Cleanup(id)).watchers[a] == s.watchers[a])
  {
  }

  // What goes wrong without the conditions

  /** A call that has lost its entry never gets one again: whatever follows, it does not return a name. Its sender
      is gone with the entry, so its receive fails. */
  lemma {:induction false} LostWaiterFails(states: seq<State>, steps: seq<Step>, i: nat, j: nat, id: Ticket)
    requires Execution(states, steps) && i <= j < |states|
    requires id in states[i].waiters && states[i].waiters[id].Live() && states[i].waiters[id].sent == []
    requires !Owns(states[i], id)
    ensures id in states[j].waiters && !states[j].waiters[id].phase.Returned?
    ensures states[j].waiters[id].sent == [] && !Owns(states[j], id)
    decreases j - i
  {
    hide Apply, Enabled;
    if i < j {
      LostWaiterFails(states, steps, i, j - 1, id);
      StaysLost(states[j - 1], steps[j - 1], id);
    }
  }

  lemma StaysLost(s: State, step: Step, id: Ticket)
    requires Enabled(s, step) && id in s.waiters && !s.waiters[id].phase.Returned?
    requires s.waiters[id].sent == [] && !Owns(s, id)
    ensures var s' := Apply(s, step);
            id in s'.waiters && !s'.waiters[id].phase.Returned? && s'.waiters[id].sent == [] && !Owns(s', id)
  {
    hide NotifyMatches, LookupMatches;
  }

  /** Two calls on one address: the first one's clean-up removes the entry of the second, which then fails although
      the very event it is waiting for comes. (The first one fails too: its entry was overwritten.) */
  lemma SecondWaiterLosesWakeup(addr: string, path: string, name: string)
    requires NotifyMatches(path, addr) && StartsWith(path, ROOT_BUS_PATH) && name != ""
    ensures exists states: seq<State>, steps: seq<Step> ::
              && Execution(states, steps)
              && steps == [Register(1, addr), Register(2, addr), Expire(1), Cleanup(1), Event(path, name)]
              && 2 in states[5].waiters && states[5].waiters[2].Idle() && !Owns(states[5], 2)
              && path in states[5].pciDeviceMap
  {
    hide NotifyMatches, LookupMatches, StartsWith;
    var states, steps := FirstCleansUp(addr);
    var event := Event(path, name);
    var s4 := states[4];
    var s5 := Apply(s4, event);
    ExtendRun(states, steps, event);
    assert steps + [event] == [Register(1, addr), Register(2, addr), Expire(1), Cleanup(1), event];
    assert (states + [s5])[5] == s5;
  }

  lemma FirstCleansUp(addr: string) returns (states: seq<State>, steps: seq<Step>)
    ensures steps == [Register(1, addr), Register(2, addr), Expire(1), Cleanup(1)]
    ensures Execution(states, steps)
    ensures states[4].watchers == map[] && 2 in states[4].waiters && states[4].waiters[2].Idle()
  {
    hide LookupMatches, NotifyMatches;
    var s1 := Apply(INIT, Register(1, addr));
    var s2 := Apply(s1, Register(2, addr));
    var s3 := Apply(s2, Expire(1));
    var s4 := Apply(s3, Cleanup(1));
    steps := [Register(1, addr), Register(2, addr), Expire(1), Cleanup(1)];
    states := [INIT, s1, s2, s3, s4];
  }

  lemma ExtendRun(states: seq<State>, steps: seq<Step>, step: Step)
    requires Execution(states, steps) && Enabled(states[|steps|], step)
    ensures Execution(states + [Apply(states[|steps|], step)], steps + [step])
  {
    hide Enabled, Apply;
  }

  /** A run in which the device on host 10 appears and a call for the one on host 0 returns its name. */
  lemma OtherScsiHostIsTaken(id: string, call: Ticket)
    requires '/' !in id
    ensures var path := Join(Host10Parts(id), '/');
            exists states: seq<State>, steps: seq<Step> ::
              && Execution(states, steps)
              && steps == [Event(path, "sda"), Find(call, ScsiAddress(id), path)]
              && call in states[2].waiters && states[2].waiters[call].phase == Returned("sda")
    ensures !NamedIn(Host10Parts(id), SCSI_HOST_CHANNEL + id, SCSI_BLOCK_SUFFIX)
  {
    var path := Join(Host10Parts(id), '/');
    Host10Matches(id);
    hide LookupMatches, NotifyMatches, StartsWith, Join, ScsiAddress, Host10Parts;
    var s1 := Apply(INIT, Event(path, "sda"));
    var s2 := Apply(s1, Find(call, ScsiAddress(id), path));
    var states, steps := [INIT, s1, s2], [Event(path, "sda"), Find(call, ScsiAddress(id), path)];
    assert Execution(states, steps);
  }

  /** Whatever has happened before, an event wakes a waiter exactly when the notifier's test accepts its path; when
      only the waiter's own test does, the call stays idle although a new lookup would now find the device. */
  lemma WokenExactlyByNotify(s: State, path: string, name: string, id: Ticket, later: Ticket)
    requires Inv(s) && NoLostWakeup(s) && Enabled(s, Event(path, name))
    requires id in s.waiters && s.waiters[id].Idle() && later !in s.waiters
    ensures var s', addr := Apply(s, Event(path, name)), s.waiters[id].addr;
            && (s'.waiters[id].sent == [name] <==> NotifyMatches(path, addr))
            && (s'.waiters[id].Idle() <==> !NotifyMatches(path, addr))
            && (LookupMatches(path, addr) ==>
                  Enabled(s', Find(later, addr, path)) && s'.pciDeviceMap[path] == name)
  {
    assert Owns(s, id);
  }

  lemma SendOne(s: State, name: string, addrs: set<string>, key: string)
    requires WatchersLive(s) && key in s.watchers && key !in addrs
    ensures var id := s.watchers[key];
            var w := Sent(s, name, addrs)[id];
            Sent(s, name, addrs + {key}) == Sent(s, name, addrs)[id := w.(sent := w.sent + [name])]
  {
  }

  // The code's critical sections, on the shared maps

  class Rendezvous {
    var pciDeviceMap: map<string, string>  // Sandbox.pci_device_map
    var watchers: map<string, Ticket>      // GLOBAL_DEVICE_WATCHER: address to sender
    var waiters: map<Ticket, Waiter>       // the calls in flight and their channels
    ghost var log: seq<Hotplugged>

    ghost function Model(): State
      reads this
    {
      State(pciDeviceMap, watchers, waiters, log)
    }

    constructor ()
      ensures Model() == INIT && Inv(Model())
    {
      pciDeviceMap, watchers, waiters, log := map[], map[], map[], [];
    }

    /** The locked block that opens get_device_name: an empty result means the call must now wait. */
    method Begin(id: Ticket, addr: string) returns (devName: string)
      requires Inv(Model()) && id !in waiters
      modifies this
      ensures Inv(Model())
      ensures devName != "" ==> exists path ::
                && Enabled(old(Model()), Find(id, addr, path))
                && old(pciDeviceMap)[path] == devName
                && Model() == Apply(old(Model()), Find(id, addr, path))
      ensures devName == "" ==>
                Enabled(old(Model()), Register(id, addr)) && Model() == Apply(old(Model()), Register(id, addr))
    {
      devName := "";
      var keys := pciDeviceMap.Keys;
      ghost var found := "";
      while keys != {}
        invariant keys <= pciDeviceMap.Keys
        invariant devName == ""
        invariant forall p | p in pciDeviceMap.Keys - keys :: !LookupMatches(p, addr)
        decreases keys
      {
        var key :| key in keys;
        if LookupMatches(key, addr) {
          devName := pciDeviceMap[key];
          found := key;
          break;
        }
        keys := keys - {key};
      }
      ghost var before := Model();
      if devName == "" {
        watchers := watchers[addr := id];
        waiters := waiters[id := Waiter(addr, Waiting, [])];
        StepKeepsInv(before, Register(id, addr));
      } else {
        waiters := waiters[id := Waiter(addr, Returned(devName), [])];
        StepKeepsInv(before, Find(id, addr, found));
      }
    }

    /** The locked block of the uevent thread, for an event that created a block device node. */
    method HandleUevent(event: Uevent)
      requires Inv(Model())
      modifies this
      ensures Inv(Model())
      ensures IsHotplug(event) ==>
                && Enabled(old(Model()), Event(event.devpath, event.devname))
                && Model() == Apply(old(Model()), Event(event.devpath, event.devname))
      ensures !IsHotplug(event) ==> Model() == old(Model())
    {
      if !IsHotplug(event) {
        return;
      }
      hide NotifyMatches, LookupMatches;
      ghost var before := Model();
      pciDeviceMap := pciDeviceMap[event.devpath := event.devname];
      log := log + [Hotplugged(event.devpath, event.devname)];
      var empties := SendToMatching(event.devpath, event.devname);
      watchers := watchers - empties;
      assert waiters == Notified(before, event.devpath, event.devname);
      assert watchers == Unnotified(before.watchers, event.devpath);
      StepKeepsInv(before, Event(event.devpath, event.devname));
    }

    /** What the uevent thread does with one message. */
    method HandleMessage(message: string)
      requires Inv(Model())
      modifies this
      ensures Inv(Model()) && Model() == AfterMessage(old(Model()), message)
    {
      hide Inv, Apply;
      var event := ParseUevent(message);
      HandleUevent(event);
    }

    /** Sends the name to every watcher the path concerns and returns their addresses. */
    method SendToMatching(path: string, name: string) returns (empties: set<string>)
      requires WatchersLive(Model())
      modifies this`waiters
      ensures empties == set a | a in watchers && NotifyMatches(path, a)
      ensures waiters == Sent(old(Model()), name, empties)
    {
      empties := {};
      ghost var before := Model();
      assert waiters == Sent(before, name, {});
      var keys := watchers.Keys;
      while keys != {}
        invariant keys <= watchers.Keys
        invariant empties == set a | a in watchers.Keys - keys && NotifyMatches(path, a)
        invariant waiters == Sent(before, name, empties)
        decreases keys
      {
        var key :| key in keys;
        if NotifyMatches(path, key) {
          SendOne(before, name, empties, key);
          var id := watchers[key];
          waiters := waiters[id := waiters[id].(sent := waiters[id].sent + [name])];
          empties := empties + {key};
        }
        keys := keys - {key};
      }
    }

    /** The error branch after the receive: remove whatever entry the address has. */
    method TimeoutCleanup(id: Ticket)
      requires Inv(Model()) && id in waiters && waiters[id].phase == Expired
      modifies this
      ensures Inv(Model()) && Model() == Apply(old(Model()), Cleanup(id))
    {
      ghost var before := Model();
      watchers := watchers - {waiters[id].addr};
      waiters := waiters[id := waiters[id].(phase := Failed)];
      StepKeepsInv(before, Cleanup(id));
    }
  }

  /** Does the event announce a block device node on the root PCI bus? */
  predicate IsHotplug(event: Uevent) {
    event.devname != "" && StartsWith(event.devpath, ROOT_BUS_PATH) && event.subsystem == "block"
  }

  function AfterMessage(s: State, message: string): State {
    var event := SetFields(DEFAULT, Split(message, '\0')[1..]);
    if IsHotplug(event) then Apply(s, Event(event.devpath, event.devname)) else s
  }

  lemma StepKeepsInv(s: State, step: Step)
    requires Inv(s) && Enabled(s, step)
    ensures Inv(Apply(s, step))
  {
    MapInvKept(s, step);
    WatchInvKept(s, step);
    ChannelInvKept(s, step);
  }

  // From the kernel's text to the waiting call

  /** The address is part of the path. */
  ghost predicate Inside(path: string, addr: string) {
    exists i: nat, k: nat | i <= |path| && k <= |path| :: path == path[..i] + addr + path[k..]
  }

  /** A path concerns an address that follows the root bus in it, and a SCSI address, one that ends in "block", that
      is part of it. */
  ghost predicate Concerns(path: string, addr: string) {
    || (20 + |addr| <= |path| && path[..20 + |addr|] == "/devices/pci0000:00/" + addr)
    || (5 <= |addr| && addr[|addr| - 5..] == "block" && Inside(path, addr))
  }

  lemma ConcernsExactly(path: string, addr: string)
    ensures NotifyMatches(path, addr) <==> Concerns(path, addr)
    ensures LookupMatches(path, addr) <==> Inside(path, addr)
  {
    var prefix := "/devices/pci0000:00/" + addr;
    assert ROOT_BUS_PATH + "/" + addr == prefix && |prefix| == 20 + |addr|;
    assert StartsWith(path, prefix) <==> 20 + |addr| <= |path| && path[..20 + |addr|] == prefix;
    assert EndsWith(addr, "block") <==> 5 <= |addr| && addr[|addr| - 5..] == "block" by {
      assert 5 <= |addr| ==> addr[|addr| - 5..|addr|] == addr[|addr| - 5..];
    }
    ContainsExactly(path, addr);
    hide StartsWith, EndsWith, Contains;
  }

  /** The addresses that calls wait for. */
  lemma AddressesAre(id: string, bridge: string, bus: string, device: string)
    ensures ScsiAddress(id) == "0:0:" + id + "/block"
    ensures PciAddress(bridge, bus, device) == "0000:00:" + bridge + ".0/" + bus + ":" + device + ".0"
  {
    var front := "0000:00:" + bridge;
    assert front + ".0" + "/" == front + ".0/";
  }

  /** What a message changes, by the texts in it: a non-empty name for a block device below the root bus is kept under
      its path and sent to every waiter the path concerns, whose watchers go; any other message changes nothing. */
  lemma MessageActs(s: State, message: string)
    ensures var args, s' := Split(message, '\0')[1..], AfterMessage(s, message);
            var path, name := LastGiven(args, "DEVPATH"), LastGiven(args, "DEVNAME");
            if name != "" && LastGiven(args, "SUBSYSTEM") == "block"
               && 19 <= |path| && path[..19] == "/devices/pci0000:00"
            then
              && s'.pciDeviceMap == s.pciDeviceMap[path := name]
              && s'.waiters.Keys == s.waiters.Keys
              && (forall id | id in s.waiters ::
                    var w := s.waiters[id];
                    s'.waiters[id].sent
                      == if w.addr in s.watchers && s.watchers[w.addr] == id && Concerns(path, w.addr)
                         then w.sent + [name] else w.sent)
              && (forall a :: a in s'.watchers <==> a in s.watchers && !Concerns(path, a))
            else s' == s
  {
    var args := Split(message, '\0')[1..];
    var event := SetFields(DEFAULT, args);
    FieldsAreLastGiven(args);
    assert |ROOT_BUS_PATH| == 19;
    assert StartsWith(event.devpath, ROOT_BUS_PATH)
      <==> 19 <= |event.devpath| && event.devpath[..19] == "/devices/pci0000:00";
    forall a ensures NotifyMatches(event.devpath, a) <==> Concerns(event.devpath, a) {
      ConcernsExactly(event.devpath, a);
    }
    hide Concerns, NotifyMatches, StartsWith, SetFields, LastGiven, Split;
  }

  /** For instance: the message that announces a disk behind a bridge wakes the call that waits for it. */
  lemma DiskWakesItsWaiter(s: State, header: string, bridge: string, bus: string, device: string, rest: string,
                           name: string, id: Ticket)
    requires Inv(s) && id in s.waiters && s.waiters[id].Idle() && Owns(s, id)
    requires s.waiters[id].addr == "0000:00:" + bridge + ".0/" + bus + ":" + device + ".0"
    requires name != "" && forall t | t in {header, bridge, bus, device, rest, name} :: '\0' !in t
    ensures var path := "/devices/pci0000:00/0000:00:" + bridge + ".0/" + bus + ":" + device + ".0" + rest;
            var text := header + "\0" + "ACTION=add" + "\0" + ("DEVPATH=" + path) + "\0"
                        + ("SUBSYSTEM=" + "block") + "\0" + ("DEVNAME=" + name);
            var s' := AfterMessage(s, text);
            path in s'.pciDeviceMap && s'.pciDeviceMap[path] == name && s'.waiters[id].sent == [name]
  {
    var path := "/devices/pci0000:00/0000:00:" + bridge + ".0/" + bus + ":" + device + ".0" + rest;
    PathOf(bridge, bus, device, rest);
    NoZeroIn(bridge, bus, device, rest);
    hide NotifyMatches, Concerns, StartsWith, AfterMessage, Apply, Inv;
    ConcernedWakes(s, header, path, name, id);
  }

  lemma NoZeroIn(bridge: string, bus: string, device: string, rest: string)
    requires '\0' !in bridge && '\0' !in bus && '\0' !in device && '\0' !in rest
    ensures '\0' !in "/devices/pci0000:00/0000:00:" + bridge + ".0/" + bus + ":" + device + ".0" + rest
  {
  }

  lemma ConcernedWakes(s: State, header: string, path: string, name: string, id: Ticket)
    requires id in s.waiters && s.waiters[id].Idle() && Owns(s, id) && Concerns(path, s.waiters[id].addr)
    requires name != "" && StartsWith(path, ROOT_BUS_PATH) && '\0' !in header && '\0' !in path && '\0' !in name
    ensures var text := header + "\0" + "ACTION=add" + "\0" + ("DEVPATH=" + path) + "\0"
                        + ("SUBSYSTEM=" + "block") + "\0" + ("DEVNAME=" + name);
            var s' := AfterMessage(s, text);
            && id in s'.waiters && path in s'.pciDeviceMap && s'.pciDeviceMap[path] == name
            && s'.waiters[id].sent == [name]
  {
    var text := header + "\0" + "ACTION=add" + "\0" + ("DEVPATH=" + path) + "\0"
                + ("SUBSYSTEM=" + "block") + "\0" + ("DEVNAME=" + name);
    ConcernsExactly(path, s.waiters[id].addr);
    assert '\0' !in "block";
    DiskIsAnnounced(header, path, name, "block");
    hide NotifyMatches, Concerns, Split, SetFields, StartsWith, AfterMessage, Apply;
    Announced(s, text, path, name);
    EventWakes(s, path, name, id);
  }

  lemma Announced(s: State, text: string, path: string, name: string)
    requires SetFields(DEFAULT, Split(text, '\0')[1..]) == Uevent("add", path, name, "block", "", "")
    requires name != "" && StartsWith(path, ROOT_BUS_PATH)
    ensures AfterMessage(s, text) == Apply(s, Event(path, name))
  {
    hide Split, SetFields, StartsWith, Apply;
  }

  lemma EventWakes(s: State, path: string, name: string, id: Ticket)
    requires id in s.waiters && s.waiters[id].Idle() && Owns(s, id) && NotifyMatches(path, s.waiters[id].addr)
    requires name != "" && StartsWith(path, ROOT_BUS_PATH)
    ensures var s' := Apply(s, Event(path, name));
            && id in s'.waiters && path in s'.pciDeviceMap && s'.pciDeviceMap[path] == name
            && s'.waiters[id].sent == [name]
  {
    hide NotifyMatches;
    assert [] + [name] == [name];
  }

  lemma PathOf(bridge: string, bus: string, device: string, rest: string)
    ensures var addr := "0000:00:" + bridge + ".0/" + bus + ":" + device + ".0";
            var path := "/devices/pci0000:00/0000:00:" + bridge + ".0/" + bus + ":" + device + ".0" + rest;
            && path == "/devices/pci0000:00/" + addr + rest && Concerns(path, addr)
            && StartsWith(path, ROOT_BUS_PATH)
  {
    var addr := "0000:00:" + bridge + ".0/" + bus + ":" + device + ".0";
    var path := "/devices/pci0000:00/0000:00:" + bridge + ".0/" + bus + ":" + device + ".0" + rest;
    assert path == "/devices/pci0000:00/" + addr + rest;
    assert path[..20 + |addr|] == "/devices/pci0000:00/" + addr;
    assert path[0..19] == "/devices/pci0000:00";
  }
}
