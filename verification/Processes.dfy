/** How the exit of a container process reaches the call that waits for it: the reaper collects exited children,
    records their status and closes their exit pipes; a waiter reads the pipe to its end, then takes the status. */
module Processes {
  import opened Basics

  type Pid = int
  type Cid = string

  /** Identifies one process ever started; process ids may come round again, births do not. */
  type Birth = nat

  datatype WaitStatus = Exited(code: int) | Signaled(signal: int) | OtherStatus

  predicate Final(st: WaitStatus) {
    !st.OtherStatus?
  }

  function Code(st: WaitStatus): int {
    match st
    case Exited(code) => code
    case Signaled(signal) => signal
    case OtherStatus => 0
  }

  /** The agent's descriptors for a process. ExitW is the end of the exit pipe that the reaper closes. */
  datatype Role = Stdin | Stdout | Stderr | Term | ExitR | ExitW

  datatype Fd = Fd(birth: Birth, role: Role)

  /** fds: the descriptor fields that are set. */
  datatype Process = Process(birth: Birth, fds: set<Role>, exitCode: int)

  type Containers = map<Cid, map<Pid, Process>>

  datatype Corpse = Corpse(birth: Birth, status: WaitStatus)

  datatype Reaped = Reaped(pid: Pid, corpse: Corpse)

  datatype Phase = Reading | AtEof | Returned(status: int)

  datatype Wait = Wait(cid: Cid, pid: Pid, birth: Birth, piped: bool, phase: Phase) {
    predicate Live() { !phase.Returned? }
  }

  datatype Building = Building(cid: Cid, isNew: bool, processes: map<Pid, Process>)

  datatype State = State(
    containers: Containers,          // Sandbox.containers
    building: Option<Building>,      // the container that the holder of the sandbox lock is starting a process in
    running: map<Pid, Birth>,
    zombies: map<Pid, Corpse>,       // exited, not collected yet
    pending: Option<Reaped>,         // collected by the reaper, which now needs the lock
    waits: map<nat, Wait>,
    closed: multiset<Fd>,            // every close so far
    handed: set<Fd>,                 // every descriptor ever handed to a process record
    died: map<Birth, WaitStatus>,    // every exit so far
    pids: map<Birth, Pid>,           // the process id each birth got
    next: Birth)

  const INIT := State(map[], None, map[], map[], None, map[], multiset{}, {}, map[], map[], 0)

  datatype Step =
    | BeginCreate(cid: Cid)
    | BeginExec(cid: Cid)
    | Fork(pid: Pid, fds: set<Role>)
    | Finish
    | Abandon
    | Exit(pid: Pid, status: WaitStatus)
    | Collect(pid: Pid)
    | Record(cid: Cid)
    | Unknown
    | WaitBegin(w: nat, cid: Cid, pid: Pid)
    | WaitEof(w: nat)
    | WaitFinish(w: nat)
    | CloseStdin(cid: Cid, pid: Pid)
    | Remove(cid: Cid)

  predicate Holds(cs: Containers, cid: Cid, pid: Pid) {
    cid in cs && pid in cs[cid]
  }

  predicate Enabled(s: State, step: Step) {
    match step
    case BeginCreate(_) => s.building == None
    case BeginExec(cid) => s.building == None && cid in s.containers
    case Fork(pid, _) => s.building.Some? && pid !in s.running && pid !in s.zombies
    case Finish => s.building.Some?
    case Abandon => s.building.Some? && s.building.value.isNew
    case Exit(pid, _) => pid in s.running
    case Collect(pid) => s.pending == None && pid in s.zombies
    case Record(cid) => s.building == None && s.pending.Some? && Holds(s.containers, cid, s.pending.value.pid)
    case Unknown =>
      && s.building == None && s.pending.Some?
      && forall cid | cid in s.containers :: !Holds(s.containers, cid, s.pending.value.pid)
    case WaitBegin(w, cid, pid) => s.building == None && w !in s.waits && Holds(s.containers, cid, pid)
    case WaitEof(w) =>
      w in s.waits && s.waits[w].phase == Reading && Fd(s.waits[w].birth, ExitW) in s.closed
    case WaitFinish(w) =>
      && s.building == None && w in s.waits && s.waits[w].phase == AtEof
      && Holds(s.containers, s.waits[w].cid, s.waits[w].pid)
    case CloseStdin(cid, pid) => s.building == None && Holds(s.containers, cid, pid)
    case Remove(cid) => s.building == None && cid in s.containers
  }

  function Put(cs: Containers, cid: Cid, pid: Pid, p: Process): Containers
    requires cid in cs
  {
    cs[cid := cs[cid][pid := p]]
  }

  function Drop(cs: Containers, cid: Cid, pid: Pid): Containers
    requires cid in cs
  {
    cs[cid := cs[cid] - {pid}]
  }

  function FdsOf(birth: Birth, roles: set<Role>): set<Fd> {
    set r | r in roles :: Fd(birth, r)
  }

  /** Whether the reaper writes the status down and closes the pipe. */
  predicate Recordable(p: Process, st: WaitStatus) {
    ExitW in p.fds && Final(st)
  }

  /** The reaper's locked block, once it has found the process. */
  function WriteDown(s: State, cid: Cid): State
    requires s.pending.Some? && Holds(s.containers, cid, s.pending.value.pid)
  {
    var pid, corpse := s.pending.value.pid, s.pending.value.corpse;
    var p := s.containers[cid][pid];
    if !Recordable(p, corpse.status) then s.(pending := None)
    else s.(pending := None,
            containers := Put(s.containers, cid, pid, p.(exitCode := Code(corpse.status))),
            closed := s.closed + multiset{Fd(p.birth, ExitW)})
  }

  function Apply(s: State, step: Step): State
    requires Enabled(s, step)
  {
    match step
    case BeginCreate(cid) => s.(building := Some(Building(cid, true, map[])))
    case BeginExec(cid) => s.(building := Some(Building(cid, false, s.containers[cid])))
    case Fork(pid, fds) =>
      var b := s.building.value;
      s.(building := Some(b.(processes := b.processes[pid := Process(s.next, fds, 0)])),
         running := s.running[pid := s.next],
         handed := s.handed + FdsOf(s.next, fds),
         pids := s.pids[s.next := pid],
         next := s.next + 1)
    case Finish =>
      s.(containers := s.containers[s.building.value.cid := s.building.value.processes], building := None)
    case Abandon => s.(building := None)
    case Exit(pid, status) =>
      s.(running := s.running - {pid},
         zombies := s.zombies[pid := Corpse(s.running[pid], status)],
         died := s.died[s.running[pid] := status])
    case Collect(pid) => s.(zombies := s.zombies - {pid}, pending := Some(Reaped(pid, s.zombies[pid])))
    case Record(cid) => WriteDown(s, cid)
    case Unknown => s.(pending := None)
    case WaitBegin(w, cid, pid) =>
      var p := s.containers[cid][pid];
      var piped := ExitR in p.fds;
      s.(waits := s.waits[w := Wait(cid, pid, p.birth, piped, if piped then Reading else AtEof)])
    case WaitEof(w) => s.(waits := s.waits[w := s.waits[w].(phase := AtEof)])
    case WaitFinish(w) =>
      var wait := s.waits[w];
      var p := s.containers[wait.cid][wait.pid];
      s.(waits := s.waits[w := wait.(phase := Returned(p.exitCode))],
         containers := Drop(s.containers, wait.cid, wait.pid),
         closed := s.closed + multiset(FdsOf(p.birth, p.fds - {ExitW})))
    case CloseStdin(cid, pid) =>
      var p := s.containers[cid][pid];
      s.(containers := Put(s.containers, cid, pid, p.(fds := p.fds - {Term, Stdin})),
         closed := s.closed + multiset(FdsOf(p.birth, p.fds * {Term, Stdin})))
    case Remove(cid) => s.(containers := s.containers - {cid})
  }

  // What goes wrong, step by step

  /** Container ids are new when a container is created: the runtime makes them up. */
  predicate NewContainers(s: State, step: Step) {
    step.BeginCreate? ==> step.cid !in s.containers
  }

  /** The reaper finds a process that is not the one it collected. */
  predicate Misdirected(s: State, step: Step) {
    && step.Record? && Enabled(s, step)
    && s.containers[step.cid][s.pending.value.pid].birth != s.pending.value.corpse.birth
  }

  /** It writes the status down there. */
  predicate Misrecords(s: State, step: Step) {
    && Misdirected(s, step)
    && ExitW in s.containers[step.cid][s.pending.value.pid].fds && !s.pending.value.corpse.status.OtherStatus?
  }

  /** The process it did collect is there to be found, and its status would have been written down. */
  predicate Misses(s: State, step: Step) {
    && Misdirected(s, step)
    && var pid, corpse := s.pending.value.pid, s.pending.value.corpse;
       exists cid | cid in s.containers ::
         && Holds(s.containers, cid, pid) && s.containers[cid][pid].birth == corpse.birth
         && ExitW in s.containers[cid][pid].fds && !corpse.status.OtherStatus?
  }

  /** The step removes or replaces the process that this other call is waiting for. */
  predicate DisturbsWait(s: State, step: Step, w: nat)
    requires w in s.waits
  {
    match step
    case Fork(pid, _) => s.building.Some? && s.building.value.cid == s.waits[w].cid && pid == s.waits[w].pid
    case Remove(cid) => cid == s.waits[w].cid
    case WaitFinish(v) =>
      v != w && v in s.waits && s.waits[v].cid == s.waits[w].cid && s.waits[v].pid == s.waits[w].pid
    case _ => false
  }

  predicate Disturbs(s: State, step: Step) {
    exists w | w in s.waits :: s.waits[w].Live() && DisturbsWait(s, step, w)
  }

  /** The containers as they will be once the lock holder is done. */
  function Full(s: State): Containers {
    match s.building
    case None => s.containers
    case Some(b) => s.containers[b.cid := b.processes]
  }

  // Invariants

  /** Births identify tracked processes, each under the process id it got. */
  ghost predicate Identities(s: State) {
    var cs := Full(s);
    && (s.building.Some? ==> (s.building.value.isNew <==> s.building.value.cid !in s.containers))
    && (forall cid, pid | Holds(cs, cid, pid) ::
          var b := cs[cid][pid].birth;
          b < s.next && b in s.pids && s.pids[b] == pid)
    && (forall cid, cid', pid |
          Holds(cs, cid, pid) && Holds(cs, cid', pid) && cs[cid][pid].birth == cs[cid'][pid].birth ::
          cid == cid')
  }

  /** What the kernel and the reaper hold: each exit is in one place, under the id its birth got. */
  ghost predicate Kernel(s: State) {
    && (forall b | b in s.died :: b < s.next)
    && (forall pid | pid in s.running ::
          var b := s.running[pid];
          b < s.next && b in s.pids && s.pids[b] == pid && b !in s.died && pid !in s.zombies)
    && (forall pid | pid in s.zombies ::
          var c := s.zombies[pid];
          c.birth in s.pids && s.pids[c.birth] == pid && c.birth in s.died && s.died[c.birth] == c.status)
    && (s.pending.Some? ==>
          var pid, c := s.pending.value.pid, s.pending.value.corpse;
          && c.birth in s.pids && s.pids[c.birth] == pid && c.birth in s.died && s.died[c.birth] == c.status
          && (pid in s.zombies ==> s.zombies[pid].birth != c.birth))
  }

  predicate Recorded(s: State, b: Birth) {
    Fd(b, ExitW) in s.closed
  }

  /** A birth whose exit is still on its way: alive, uncollected, or in the reaper's hand. */
  predicate Underway(s: State, pid: Pid, b: Birth) {
    || (pid in s.running && s.running[pid] == b)
    || (pid in s.zombies && s.zombies[pid].birth == b)
    || (s.pending.Some? && s.pending.value.pid == pid && s.pending.value.corpse.birth == b)
  }

  /** A pipe is closed only after the exit of this very process was collected, and then the recorded code is that
      exit's. */
  ghost predicate ProcessOk(s: State, pid: Pid, p: Process) {
    && (Underway(s, pid, p.birth) ==> !Recorded(s, p.birth))
    && (!Underway(s, pid, p.birth) ==> p.birth in s.died)
    && (Recorded(s, p.birth) ==>
          p.birth in s.died && match s.died[p.birth]
                               case Exited(code) => p.exitCode == code
                               case Signaled(signal) => p.exitCode == signal
                               case OtherStatus => false)
  }

  ghost predicate Honest(s: State) {
    forall cid, pid | Holds(Full(s), cid, pid) :: ProcessOk(s, pid, Full(s)[cid][pid])
  }

  /** An exit that has been collected and can be recorded has been recorded. */
  ghost predicate NotMissed(s: State, pid: Pid, p: Process) {
    && !Underway(s, pid, p.birth) && p.birth in s.died && ExitW in p.fds && !s.died[p.birth].OtherStatus?
    ==> Recorded(s, p.birth)
  }

  ghost predicate NothingMissed(s: State) {
    forall cid, pid | Holds(Full(s), cid, pid) :: NotMissed(s, pid, Full(s)[cid][pid])
  }

  /** The descriptors of one tracked process: the fields set are open, and an unset one was closed once. */
  ghost predicate FdsOk(s: State, p: Process) {
    forall r: Role ::
      && (r in p.fds ==> Fd(p.birth, r) in s.handed)
      && (r != ExitW ==> s.closed[Fd(p.birth, r)] == if Fd(p.birth, r) in s.handed && r !in p.fds then 1 else 0)
      && (r == ExitW ==> (Fd(p.birth, r) in s.handed ==> r in p.fds))
  }

  ghost predicate ClosedOnce(s: State) {
    forall f: Fd :: s.closed[f] <= 1 && (f in s.closed ==> f in s.handed)
  }

  ghost predicate Descriptors(s: State) {
    && (forall f | f in s.handed :: f.birth < s.next)
    && ClosedOnce(s)
    && (forall cid, pid | Holds(Full(s), cid, pid) :: FdsOk(s, Full(s)[cid][pid]))
  }

  ghost predicate Core(s: State) {
    Identities(s) && Kernel(s) && Honest(s) && Descriptors(s)
  }

  // How a step changes the tracked processes

  /** The one process a step creates or rewrites. */
  predicate Touches(s: State, step: Step, cid: Cid, pid: Pid) {
    match step
    case Fork(p, _) => s.building.Some? && s.building.value.cid == cid && p == pid
    case Record(c) => s.pending.Some? && c == cid && s.pending.value.pid == pid
    case CloseStdin(c, p) => c == cid && p == pid
    case _ => false
  }

  /** Steps of the call that starts a process, holding the lock throughout. */
  predicate Starts(step: Step) {
    step.BeginCreate? || step.BeginExec? || step.Fork? || step.Finish? || step.Abandon?
  }

  /** What FullAfter says about one place. */
  ghost predicate PlaceAfter(s: State, s': State, step: Step, cid: Cid, pid: Pid) {
    Holds(Full(s'), cid, pid) ==>
      if step.Fork? && Touches(s, step, cid, pid) then
        Full(s')[cid][pid] == Process(s.next, step.fds, 0)
      else if !Touches(s, step, cid, pid) then
        Holds(Full(s), cid, pid) && Full(s')[cid][pid] == Full(s)[cid][pid]
      else
        Holds(Full(s), cid, pid) && Full(s')[cid][pid].birth == Full(s)[cid][pid].birth
  }

  lemma FullAfterStart(s: State, step: Step, cid: Cid, pid: Pid)
    requires Identities(s) && Enabled(s, step) && NewContainers(s, step) && Starts(step)
    ensures PlaceAfter(s, Apply(s, step), step, cid, pid)
  {
  }

  lemma FullAfterRecord(s: State, c: Cid, cid: Cid, pid: Pid)
    requires Enabled(s, Record(c))
    ensures PlaceAfter(s, Apply(s, Record(c)), Record(c), cid, pid)
  {
  }

  lemma FullAfterFinish(s: State, w: nat, cid: Cid, pid: Pid)
    requires Enabled(s, WaitFinish(w))
    ensures PlaceAfter(s, Apply(s, WaitFinish(w)), WaitFinish(w), cid, pid)
  {
  }

  lemma FullAfterOther(s: State, step: Step, cid: Cid, pid: Pid)
    requires Enabled(s, step) && !Starts(step) && !step.Record? && !step.WaitFinish?
    ensures PlaceAfter(s, Apply(s, step), step, cid, pid)
  {
  }

  lemma FullAfter(s: State, step: Step, cid: Cid, pid: Pid)
    requires Identities(s) && Enabled(s, step) && NewContainers(s, step)
    ensures PlaceAfter(s, Apply(s, step), step, cid, pid)
  {
    hide Apply, PlaceAfter;
    if Starts(step) {
      FullAfterStart(s, step, cid, pid);
    } else if step.Record? {
      FullAfterRecord(s, step.cid, cid, pid);
    } else if step.WaitFinish? {
      FullAfterFinish(s, step.w, cid, pid);
    } else {
      FullAfterOther(s, step, cid, pid);
    }
  }

  lemma SameBirthSamePlace(s: State, cid: Cid, pid: Pid, cid': Cid, pid': Pid)
    requires Identities(s) && Holds(Full(s), cid, pid) && Holds(Full(s), cid', pid')
    ensures Full(s)[cid][pid].birth == Full(s)[cid'][pid'].birth ==> cid == cid' && pid == pid'
  {
  }

  lemma PidsGrow(s: State, step: Step)
    requires Enabled(s, step)
    ensures var s' := Apply(s, step);
            s.next <= s'.next && (step.Fork? ==> s'.next == s.next + 1 && s'.pids == s.pids[s.next := step.pid])
            && (!step.Fork? ==> s'.next == s.next && s'.pids == s.pids)
  {
    if !MovesKernel(step) {
      KernelUnmoved(s, step);
      hide Apply;
    }
  }

  lemma IdentityKept(s: State, step: Step, cid: Cid, pid: Pid)
    requires Identities(s) && Enabled(s, step) && NewContainers(s, step) && Holds(Full(Apply(s, step)), cid, pid)
    ensures var s' := Apply(s, step);
            var b := Full(s')[cid][pid].birth;
            b < s'.next && b in s'.pids && s'.pids[b] == pid
  {
    hide Apply, Full;
    FullAfter(s, step, cid, pid);
    PidsGrow(s, step);
  }

  lemma OnePlaceKept(s: State, step: Step, cid: Cid, cid': Cid, pid: Pid)
    requires Identities(s) && Enabled(s, step) && NewContainers(s, step)
    requires Holds(Full(Apply(s, step)), cid, pid) && Holds(Full(Apply(s, step)), cid', pid)
    requires Full(Apply(s, step))[cid][pid].birth == Full(Apply(s, step))[cid'][pid].birth
    ensures cid == cid'
  {
    hide Apply, Full;
    FullAfter(s, step, cid, pid);
    FullAfter(s, step, cid', pid);
  }

  lemma BuildingKept(s: State, step: Step)
    requires Identities(s) && Enabled(s, step) && NewContainers(s, step)
    ensures var s' := Apply(s, step);
            s'.building.Some? ==> (s'.building.value.isNew <==> s'.building.value.cid !in s'.containers)
  {
  }

  lemma IdentitiesKept(s: State, step: Step)
    requires Identities(s) && Enabled(s, step) && NewContainers(s, step)
    ensures Identities(Apply(s, step))
  {
    BuildingKept(s, step);
    hide Apply, Full;
    var s' := Apply(s, step);
    forall cid, pid | Holds(Full(s'), cid, pid)
      ensures var b := Full(s')[cid][pid].birth; b < s'.next && b in s'.pids && s'.pids[b] == pid
    {
      IdentityKept(s, step, cid, pid);
    }
    forall cid, cid', pid | Holds(Full(s'), cid, pid) && Holds(Full(s'), cid', pid)
        && Full(s')[cid][pid].birth == Full(s')[cid'][pid].birth
      ensures cid == cid'
    {
      OnePlaceKept(s, step, cid, cid', pid);
    }
  }

  lemma KernelAfterFork(s: State, pid: Pid, fds: set<Role>)
    requires Kernel(s) && Enabled(s, Fork(pid, fds))
    ensures Kernel(Apply(s, Fork(pid, fds)))
  {
  }

  lemma KernelAfterExit(s: State, pid: Pid, status: WaitStatus)
    requires Kernel(s) && Enabled(s, Exit(pid, status))
    ensures Kernel(Apply(s, Exit(pid, status)))
  {
  }

  lemma KernelAfterCollect(s: State, pid: Pid)
    requires Kernel(s) && Enabled(s, Collect(pid))
    ensures Kernel(Apply(s, Collect(pid)))
  {
  }

  predicate MovesKernel(step: Step) {
    step.Fork? || step.Exit? || step.Collect?
  }

  ghost predicate SameKernel(s: State, s': State) {
    s'.died == s.died && s'.running == s.running && s'.zombies == s.zombies && s'.pids == s.pids && s'.next == s.next
  }

  lemma KernelUnmovedAtStart(s: State, step: Step)
    requires Enabled(s, step) && Starts(step) && !step.Fork?
    ensures SameKernel(s, Apply(s, step)) && Apply(s, step).pending == s.pending
  {
  }

  predicate Closing(step: Step) {
    step.Record? || step.WaitFinish? || step.CloseStdin?
  }

  lemma KernelUnmovedByRecord(s: State, cid: Cid)
    requires Enabled(s, Record(cid))
    ensures SameKernel(s, Apply(s, Record(cid))) && Apply(s, Record(cid)).pending == None
  {
    var s' := Apply(s, Record(cid));
    if !Recordable(s.containers[cid][s.pending.value.pid], s.pending.value.corpse.status) {
      assert s' == s.(pending := None);
    } else {
      assert s' == s.(pending := None, containers := s'.containers, closed := s'.closed);
    }
  }

  lemma KernelUnmovedByFinish(s: State, w: nat)
    requires Enabled(s, WaitFinish(w))
    ensures SameKernel(s, Apply(s, WaitFinish(w))) && Apply(s, WaitFinish(w)).pending == s.pending
  {
  }

  lemma KernelUnmovedByCloseStdin(s: State, cid: Cid, pid: Pid)
    requires Enabled(s, CloseStdin(cid, pid))
    ensures SameKernel(s, Apply(s, CloseStdin(cid, pid))) && Apply(s, CloseStdin(cid, pid)).pending == s.pending
  {
  }

  lemma KernelUnmovedElsewhere(s: State, step: Step)
    requires Enabled(s, step) && !MovesKernel(step) && !Starts(step) && !Closing(step)
    ensures SameKernel(s, Apply(s, step))
    ensures Apply(s, step).pending == if step.Unknown? then None else s.pending
  {
  }

  lemma KernelUnmoved(s: State, step: Step)
    requires Enabled(s, step) && !MovesKernel(step)
    ensures SameKernel(s, Apply(s, step))
    ensures Apply(s, step).pending == if step.Record? || step.Unknown? then None else s.pending
  {
    if Starts(step) {
      KernelUnmovedAtStart(s, step);
    } else if step.Record? {
      KernelUnmovedByRecord(s, step.cid);
    } else if step.WaitFinish? {
      KernelUnmovedByFinish(s, step.w);
    } else if step.CloseStdin? {
      KernelUnmovedByCloseStdin(s, step.cid, step.pid);
    } else {
      KernelUnmovedElsewhere(s, step);
    }
  }

  lemma KernelKept(s: State, step: Step)
    requires Kernel(s) && Enabled(s, step)
    ensures Kernel(Apply(s, step))
  {
    hide Apply;
    if step.Fork? {
      KernelAfterFork(s, step.pid, step.fds);
    } else if step.Exit? {
      KernelAfterExit(s, step.pid, step.status);
    } else if step.Collect? {
      KernelAfterCollect(s, step.pid);
    } else {
      KernelUnmoved(s, step);
    }
  }

  // Closing

  /** The tracked process whose descriptors a step closes. */
  function Target(s: State, step: Step): Option<(Cid, Pid)>
    requires Enabled(s, step)
  {
    match step
    case Record(cid) => Some((cid, s.pending.value.pid))
    case WaitFinish(w) => Some((s.waits[w].cid, s.waits[w].pid))
    case CloseStdin(cid, pid) => Some((cid, pid))
    case _ => None
  }

  /** Which of them. */
  function ClosedRoles(s: State, step: Step, p: Process): set<Role>
    requires Enabled(s, step)
  {
    match step
    case Record(cid) => if Recordable(p, s.pending.value.corpse.status) then {ExitW} else {}
    case WaitFinish(w) => p.fds - {ExitW}
    case CloseStdin(cid, pid) => p.fds * {Term, Stdin}
    case _ => {}
  }

  lemma ClosedAfter(s: State, step: Step, f: Fd)
    requires Enabled(s, step)
    ensures Apply(s, step).closed[f]
         == s.closed[f] + match Target(s, step)
                          case None => 0
                          case Some((cid, pid)) =>
                            var p := s.containers[cid][pid];
                            if f.birth == p.birth && f.role in ClosedRoles(s, step, p) then 1 else 0
  {
    match step
    case Record(_) =>
    case WaitFinish(_) =>
    case CloseStdin(_, _) =>
    case _ => assert Apply(s, step).closed == s.closed;
  }

  lemma ClosedUnlessTarget(s: State, step: Step, f: Fd)
    requires Enabled(s, step)
    requires match Target(s, step)
             case None => true
             case Some((cid, pid)) => s.containers[cid][pid].birth != f.birth
    ensures Apply(s, step).closed[f] == s.closed[f]
  {
    ClosedAfter(s, step, f);
  }

  /** A step other than the reaper's leaves every exit pipe's write end as it was. */
  lemma RecordedAfter(s: State, step: Step, b: Birth)
    requires Enabled(s, step) && !step.Record?
    ensures Recorded(Apply(s, step), b) <==> Recorded(s, b)
  {
    ClosedAfter(s, step, Fd(b, ExitW));
  }

  lemma TargetOk(s: State, step: Step)
    requires Honest(s) && Descriptors(s) && Enabled(s, step) && Target(s, step).Some?
    ensures var (cid, pid) := Target(s, step).value;
            && Full(s) == s.containers && Holds(Full(s), cid, pid)
            && FdsOk(s, s.containers[cid][pid]) && ProcessOk(s, pid, s.containers[cid][pid])
  {
    var (cid, pid) := Target(s, step).value;
    assert Holds(Full(s), cid, pid);
  }

  /** Whatever a step closes was open, unless the reaper writes a status down in the wrong place. */
  lemma ClosesOpen(s: State, step: Step, r: Role)
    requires Honest(s) && Descriptors(s) && Enabled(s, step) && !Misrecords(s, step) && Target(s, step).Some?
    ensures var (cid, pid) := Target(s, step).value;
            var p := s.containers[cid][pid];
            r in ClosedRoles(s, step, p) ==> Fd(p.birth, r) in s.handed && s.closed[Fd(p.birth, r)] == 0
  {
    TargetOk(s, step);
  }
}
