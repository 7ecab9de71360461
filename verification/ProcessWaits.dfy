/** What one step does to the waiting calls, and the care with which nothing goes wrong. */
module ProcessWaits {
  import opened Basics
  import opened Processes
  import opened ProcessSteps

  // Waiting calls

  ghost predicate KeepsProcess(s: State, t: Wait) {
    && Holds(s.containers, t.cid, t.pid) && Holds(Full(s), t.cid, t.pid)
    && s.containers[t.cid][t.pid].birth == t.birth && Full(s)[t.cid][t.pid].birth == t.birth
  }

  /** Every call that waits still finds the process it began to wait for. */
  ghost predicate WaitsKeep(s: State) {
    forall w | w in s.waits && s.waits[w].Live() :: KeepsProcess(s, s.waits[w])
  }

  lemma KeepsAtFork(s: State, q: Pid, fds: set<Role>, t: Wait)
    requires Identities(s) && Enabled(s, Fork(q, fds)) && KeepsProcess(s, t)
    ensures KeepsProcess(Apply(s, Fork(q, fds)), t) <==> !(s.building.value.cid == t.cid && q == t.pid)
  {
  }

  lemma KeepsAtStart(s: State, step: Step, t: Wait)
    requires Identities(s) && KeepsProcess(s, t) && Enabled(s, step) && NewContainers(s, step)
    requires Starts(step) && !step.Fork?
    ensures KeepsProcess(Apply(s, step), t)
  {
  }

  lemma KeepsAtFinish(s: State, v: nat, t: Wait)
    requires KeepsProcess(s, t) && Enabled(s, WaitFinish(v))
    ensures KeepsProcess(Apply(s, WaitFinish(v)), t)
       <==> !(s.waits[v].cid == t.cid && s.waits[v].pid == t.pid)
  {
  }

  lemma KeepsAtPut(s: State, cid: Cid, pid: Pid, p: Process, t: Wait)
    requires s.building == None && KeepsProcess(s, t) && Holds(s.containers, cid, pid)
    requires p.birth == s.containers[cid][pid].birth
    ensures var cs := Put(s.containers, cid, pid, p);
            Holds(cs, t.cid, t.pid) && cs[t.cid][t.pid].birth == t.birth
  {
  }

  lemma KeepsOtherwise(s: State, step: Step, t: Wait)
    requires KeepsProcess(s, t) && Enabled(s, step) && !Starts(step) && !step.WaitFinish?
    ensures KeepsProcess(Apply(s, step), t) <==> !(step.Remove? && step.cid == t.cid)
  {
    match step
    case Record(cid) =>
      var pid, corpse := s.pending.value.pid, s.pending.value.corpse;
      KeepsAtPut(s, cid, pid, s.containers[cid][pid].(exitCode := Code(corpse.status)), t);
    case CloseStdin(cid, pid) =>
      KeepsAtPut(s, cid, pid, s.containers[cid][pid].(fds := s.containers[cid][pid].fds - {Term, Stdin}), t);
    case Remove(_) =>
    case _ =>
  }

  /** A step takes a waiting call's process away exactly when it disturbs it. */
  lemma KeepsExactly(s: State, step: Step, w: nat)
    requires Identities(s) && Enabled(s, step) && NewContainers(s, step)
    requires w in s.waits && KeepsProcess(s, s.waits[w]) && step != WaitFinish(w)
    ensures KeepsProcess(Apply(s, step), s.waits[w]) <==> !DisturbsWait(s, step, w)
  {
    hide Apply, KeepsProcess, Identities;
    var t := s.waits[w];
    if step.Fork? {
      KeepsAtFork(s, step.pid, step.fds, t);
    } else if Starts(step) {
      KeepsAtStart(s, step, t);
    } else if step.WaitFinish? {
      KeepsAtFinish(s, step.w, t);
    } else {
      KeepsOtherwise(s, step, t);
    }
  }

  lemma WaitsSame(s: State, step: Step)
    requires Enabled(s, step) && !step.WaitBegin? && !step.WaitEof? && !step.WaitFinish?
    ensures Apply(s, step).waits == s.waits
  {
    if step.Record? {
      assert Apply(s, step) == WriteDown(s, step.cid);
      hide Apply;
    } else {
      hide Put, Drop, FdsOf, Full, WriteDown;
    }
  }

  lemma WaitFinished(s: State, w: nat)
    requires Enabled(s, WaitFinish(w))
    ensures Apply(s, WaitFinish(w)).waits
         == s.waits[w := s.waits[w].(phase := Returned(s.containers[s.waits[w].cid][s.waits[w].pid].exitCode))]
  {
  }

  lemma WaitsAfter(s: State, step: Step)
    requires Enabled(s, step)
    ensures Apply(s, step).waits
         == match step
            case WaitBegin(w, cid, pid) =>
              var p := s.containers[cid][pid];
              s.waits[w := Wait(cid, pid, p.birth, ExitR in p.fds, if ExitR in p.fds then Reading else AtEof)]
            case WaitEof(w) => s.waits[w := s.waits[w].(phase := AtEof)]
            case WaitFinish(w) =>
              s.waits[w := s.waits[w].(phase := Returned(s.containers[s.waits[w].cid][s.waits[w].pid].exitCode))]
            case _ => s.waits
  {
    if step.WaitFinish? {
      WaitFinished(s, step.w);
      hide Apply;
    } else if !step.WaitBegin? && !step.WaitEof? {
      WaitsSame(s, step);
      hide Apply;
    }
  }

  lemma BeginKeeps(s: State, w: nat, cid: Cid, pid: Pid)
    requires Enabled(s, WaitBegin(w, cid, pid))
    ensures KeepsProcess(Apply(s, WaitBegin(w, cid, pid)), Apply(s, WaitBegin(w, cid, pid)).waits[w])
  {
  }

  /** One step: the waiting calls keep their processes exactly when none of them is disturbed. */
  lemma StepKeepsWaitsExactly(s: State, step: Step)
    requires Identities(s) && WaitsKeep(s) && Enabled(s, step) && NewContainers(s, step)
    ensures WaitsKeep(Apply(s, step)) <==> !Disturbs(s, step)
  {
    WaitsAfter(s, step);
    hide Apply, KeepsProcess, Identities, DisturbsWait;
    var s' := Apply(s, step);
    if !Disturbs(s, step) {
      forall w | w in s'.waits && s'.waits[w].Live() ensures KeepsProcess(s', s'.waits[w]) {
        KeepsLive(s, step, w);
      }
    } else {
      var w :| w in s.waits && s.waits[w].Live() && DisturbsWait(s, step, w);
      NotItself(s, step, w);
      KeepsExactly(s, step, w);
      SamePlaceAfter(s, step, w);
    }
  }

  lemma NotItself(s: State, step: Step, w: nat)
    requires w in s.waits && DisturbsWait(s, step, w)
    ensures step != WaitFinish(w) && step != WaitEof(w) && !step.WaitBegin?
  {
  }

  /** A wait that neither begins nor ends is the same wait, at most one phase further. */
  lemma SamePlaceAfter(s: State, step: Step, w: nat)
    requires Enabled(s, step) && w in s.waits && step != WaitFinish(w)
    ensures var s' := Apply(s, step);
            && w in s'.waits && s'.waits[w] == s.waits[w].(phase := s'.waits[w].phase)
            && (s.waits[w].Live() <==> s'.waits[w].Live())
            && (KeepsProcess(s', s'.waits[w]) <==> KeepsProcess(s', s.waits[w]))
            && (step != WaitEof(w) ==> s'.waits[w] == s.waits[w])
  {
    WaitsAfter(s, step);
    hide Apply;
  }

  lemma KeepsLive(s: State, step: Step, w: nat)
    requires Identities(s) && WaitsKeep(s) && Enabled(s, step) && NewContainers(s, step) && !Disturbs(s, step)
    requires w in Apply(s, step).waits && Apply(s, step).waits[w].Live()
    ensures KeepsProcess(Apply(s, step), Apply(s, step).waits[w])
  {
    WaitsAfter(s, step);
    hide Apply, KeepsProcess, Identities, DisturbsWait;
    if w !in s.waits {
      BeginKeeps(s, w, step.cid, step.pid);
    } else {
      SamePlaceAfter(s, step, w);
      KeepsExactly(s, step, w);
    }
  }

  /** Every descriptor the process ever had has been closed exactly once. */
  ghost predicate AllClosed(s: State, b: Birth) {
    forall r: Role | Fd(b, r) in s.handed :: s.closed[Fd(b, r)] == 1
  }

  /** What a wait on a process with an exit pipe knows and promises. */
  ghost predicate WaitOk(s: State, w: Wait) {
    && w.birth < s.next
    && (w.piped && !w.phase.Reading? ==> Recorded(s, w.birth))
    && (w.piped && w.phase.Returned? ==>
          && w.birth in s.died
          && (match s.died[w.birth]
              case Exited(code) => w.phase.status == code
              case Signaled(signal) => w.phase.status == signal
              case OtherStatus => false)
          && AllClosed(s, w.birth))
  }

  ghost predicate Waits(s: State) {
    forall w | w in s.waits :: WaitOk(s, s.waits[w])
  }

  lemma ClosedGrows(s: State, step: Step, f: Fd)
    requires Enabled(s, step)
    ensures s.closed[f] <= Apply(s, step).closed[f]
    ensures f in s.closed ==> f in Apply(s, step).closed
  {
    ClosedAfter(s, step, f);
  }

  lemma AllClosedStays(s: State, step: Step, b: Birth)
    requires Enabled(s, step) && Core(s) && Core(Apply(s, step)) && b < s.next && AllClosed(s, b)
    ensures AllClosed(Apply(s, step), b)
  {
    hide Apply, Identities, Kernel, Honest;
    var s' := Apply(s, step);
    HandedAfter(s, step);
    forall r: Role | Fd(b, r) in s'.handed ensures s'.closed[Fd(b, r)] == 1 {
      assert Fd(b, r) in s.handed;
      ClosedGrows(s, step, Fd(b, r));
    }
  }

  lemma OtherWaitKept(s: State, step: Step, w: nat)
    requires Enabled(s, step) && Core(s) && Core(Apply(s, step)) && Waits(s) && w in s.waits
    ensures WaitOk(Apply(s, step), s.waits[w])
  {
    hide Apply, Identities, Honest, Descriptors;
    var t := s.waits[w];
    assert WaitOk(s, t);
    PidsGrow(s, step);
    ClosedGrows(s, step, Fd(t.birth, ExitW));
    if t.piped && t.phase.Returned? {
      DiedGrows(s, step, t.birth);
      AllClosedStays(s, step, t.birth);
    }
  }

  lemma EofKept(s: State, w: nat)
    requires Waits(s) && Enabled(s, WaitEof(w))
    ensures WaitOk(Apply(s, WaitEof(w)), Apply(s, WaitEof(w)).waits[w])
  {
    assert WaitOk(s, s.waits[w]);
  }

  lemma BeginKept(s: State, w: nat, cid: Cid, pid: Pid)
    requires Core(s) && Enabled(s, WaitBegin(w, cid, pid))
    ensures WaitOk(Apply(s, WaitBegin(w, cid, pid)), Apply(s, WaitBegin(w, cid, pid)).waits[w])
  {
    assert Holds(Full(s), cid, pid);
  }

  /** What the waiter takes: the code of this very process's own exit, with every descriptor closed once. */
  lemma FinishKept(s: State, w: nat)
    requires Core(s) && Waits(s) && WaitsKeep(s) && Enabled(s, WaitFinish(w))
    ensures WaitOk(Apply(s, WaitFinish(w)), Apply(s, WaitFinish(w)).waits[w])
  {
    var t, s' := s.waits[w], Apply(s, WaitFinish(w));
    assert WaitOk(s, t) && KeepsProcess(s, t);
    TargetOk(s, WaitFinish(w));
    RecordedAfter(s, WaitFinish(w), t.birth);
    if t.piped {
      AllClosedAtFinish(s, w);
    }
  }

  lemma AllClosedAtFinish(s: State, w: nat)
    requires Honest(s) && Descriptors(s) && Enabled(s, WaitFinish(w)) && KeepsProcess(s, s.waits[w])
    requires Recorded(s, s.waits[w].birth)
    ensures AllClosed(Apply(s, WaitFinish(w)), s.waits[w].birth)
  {
    var t, s' := s.waits[w], Apply(s, WaitFinish(w));
    TargetOk(s, WaitFinish(w));
    forall r: Role | Fd(t.birth, r) in s'.handed ensures s'.closed[Fd(t.birth, r)] == 1 {
      ClosedAfter(s, WaitFinish(w), Fd(t.birth, r));
      assert r == ExitW ==> s.closed[Fd(t.birth, r)] >= 1;
      assert s.closed[Fd(t.birth, r)] <= 1;
    }
  }

  lemma WaitKept(s: State, step: Step, w: nat)
    requires Enabled(s, step) && Core(s) && Core(Apply(s, step)) && Waits(s) && WaitsKeep(s)
    requires w in Apply(s, step).waits
    ensures WaitOk(Apply(s, step), Apply(s, step).waits[w])
  {
    WaitsAfter(s, step);
    hide Apply, Core, WaitOk, WaitsKeep;
    if step == WaitFinish(w) {
      FinishKept(s, w);
    } else if step == WaitEof(w) {
      EofKept(s, w);
    } else if w in s.waits {
      OtherWaitKept(s, step, w);
    } else {
      BeginKept(s, w, step.cid, step.pid);
    }
  }

  lemma WaitsKept(s: State, step: Step)
    requires Enabled(s, step) && Core(s) && Core(Apply(s, step)) && Waits(s) && WaitsKeep(s)
    ensures Waits(Apply(s, step))
  {
    hide Apply, Core, WaitOk, WaitsKeep;
    var s' := Apply(s, step);
    forall w | w in s'.waits ensures WaitOk(s', s'.waits[w]) {
      WaitKept(s, step, w);
    }
  }

  // The kernel's care

  predicate Tracked(s: State, pid: Pid) {
    exists cid | cid in Full(s) :: Holds(Full(s), cid, pid)
  }

  /** A process id is not handed out again while the agent still tracks it or is about to look it up. */
  predicate FreshPid(s: State, step: Step) {
    step.Fork? ==> !Tracked(s, step.pid) && (s.pending.Some? ==> s.pending.value.pid != step.pid)
  }

  /** With that, a process id identifies what the agent tracks. */
  ghost predicate Unique(s: State) {
    && (forall cid, cid', pid | Holds(Full(s), cid, pid) && Holds(Full(s), cid', pid) :: cid == cid')
    && (forall cid, pid | Holds(Full(s), cid, pid) ::
          var b := Full(s)[cid][pid].birth;
          && (pid in s.running ==> s.running[pid] == b)
          && (pid in s.zombies ==> s.zombies[pid].birth == b)
          && (s.pending.Some? && s.pending.value.pid == pid ==> s.pending.value.corpse.birth == b))
    && (s.pending.Some? ==> s.pending.value.pid !in s.running && s.pending.value.pid !in s.zombies)
  }

  lemma UniqueFinds(s: State, step: Step)
    requires Unique(s) && Enabled(s, step)
    ensures !Misdirected(s, step)
  {
    if step.Record? {
      assert Holds(Full(s), step.cid, s.pending.value.pid);
    }
  }

  lemma UniquePlace(s: State, step: Step, cid: Cid, pid: Pid)
    requires Identities(s) && Kernel(s) && Unique(s) && Enabled(s, step) && NewContainers(s, step) && FreshPid(s, step)
    requires Holds(Full(Apply(s, step)), cid, pid)
    ensures var s' := Apply(s, step);
            var b := Full(s')[cid][pid].birth;
            && (pid in s'.running ==> s'.running[pid] == b)
            && (pid in s'.zombies ==> s'.zombies[pid].birth == b)
            && (s'.pending.Some? && s'.pending.value.pid == pid ==> s'.pending.value.corpse.birth == b)
  {
    FullAfter(s, step, cid, pid);
    if !MovesKernel(step) {
      KernelUnmoved(s, step);
      hide Apply;
    } else if step.Fork? {
      assert pid != step.pid ==> Holds(Full(s), cid, pid);
    } else {
      assert Holds(Full(s), cid, pid);
    }
  }

  lemma UniqueKept(s: State, step: Step)
    requires Identities(s) && Kernel(s) && Unique(s) && Enabled(s, step) && NewContainers(s, step) && FreshPid(s, step)
    ensures Unique(Apply(s, step))
  {
    var s' := Apply(s, step);
    UniquePending(s, step);
    hide Apply, Full, Kernel, Identities;
    forall cid, cid', pid | Holds(Full(s'), cid, pid) && Holds(Full(s'), cid', pid) ensures cid == cid' {
      UniqueCid(s, step, cid, cid', pid);
    }
    forall cid, pid | Holds(Full(s'), cid, pid)
      ensures var b := Full(s')[cid][pid].birth;
              && (pid in s'.running ==> s'.running[pid] == b)
              && (pid in s'.zombies ==> s'.zombies[pid].birth == b)
              && (s'.pending.Some? && s'.pending.value.pid == pid ==> s'.pending.value.corpse.birth == b)
    {
      UniquePlace(s, step, cid, pid);
    }
  }

  lemma UniqueCid(s: State, step: Step, cid: Cid, cid': Cid, pid: Pid)
    requires Identities(s) && Unique(s) && Enabled(s, step) && NewContainers(s, step) && FreshPid(s, step)
    requires Holds(Full(Apply(s, step)), cid, pid) && Holds(Full(Apply(s, step)), cid', pid)
    ensures cid == cid'
  {
    FullAfter(s, step, cid, pid);
    FullAfter(s, step, cid', pid);
    hide Apply;
    if step.Fork? && step.pid == pid {
      assert Holds(Full(s), cid, pid) ==> Tracked(s, pid);
      assert Holds(Full(s), cid', pid) ==> Tracked(s, pid);
    }
  }

  lemma UniquePending(s: State, step: Step)
    requires Kernel(s) && Unique(s) && Enabled(s, step) && FreshPid(s, step)
    ensures var s' := Apply(s, step);
            s'.pending.Some? ==> s'.pending.value.pid !in s'.running && s'.pending.value.pid !in s'.zombies
  {
    if !MovesKernel(step) {
      KernelUnmoved(s, step);
    }
  }

  /** Two calls never wait for the same process. */
  ghost predicate OneWaiter(s: State) {
    forall w, w' | w in s.waits && w' in s.waits && s.waits[w].Live() && s.waits[w'].Live() ::
      s.waits[w].cid == s.waits[w'].cid && s.waits[w].pid == s.waits[w'].pid ==> w == w'
  }

  /** How careful callers and a careful kernel use the protocol. */
  predicate Careful(s: State, step: Step) {
    && NewContainers(s, step) && FreshPid(s, step)
    && (step.WaitBegin? ==> forall w | w in s.waits :: s.waits[w].Live() ==>
          s.waits[w].cid != step.cid || s.waits[w].pid != step.pid)
    && (step.Remove? ==> forall w | w in s.waits :: s.waits[w].Live() ==> s.waits[w].cid != step.cid)
  }

  lemma OneWaiterKept(s: State, step: Step)
    requires OneWaiter(s) && Enabled(s, step) && Careful(s, step)
    ensures OneWaiter(Apply(s, step))
  {
    WaitsAfter(s, step);
    hide Apply, NewContainers, FreshPid;
  }

  lemma CarefulDisturbsNone(s: State, step: Step)
    requires WaitsKeep(s) && OneWaiter(s) && Enabled(s, step) && Careful(s, step)
    ensures !Disturbs(s, step)
  {
    forall w | w in s.waits && s.waits[w].Live() ensures !DisturbsWait(s, step, w) {
      assert KeepsProcess(s, s.waits[w]);
      assert Holds(Full(s), s.waits[w].cid, s.waits[w].pid);
      assert Tracked(s, s.waits[w].pid);
    }
  }

  ghost predicate Inv(s: State) {
    && Core(s) && NothingMissed(s) && Waits(s) && WaitsKeep(s)
    && Unique(s) && OneWaiter(s)
  }

  lemma InvKept(s: State, step: Step)
    requires Inv(s) && Enabled(s, step) && Careful(s, step)
    ensures Inv(Apply(s, step))
  {
    UniqueFinds(s, step);
    CarefulDisturbsNone(s, step);
    CoreKept(s, step);
    hide Apply, Identities, Kernel, Honest, Descriptors, NothingMissed, Waits, WaitsKeep, Unique, OneWaiter;
    WaitsKept(s, step);
    StepKeepsWaitsExactly(s, step);
    UniqueKept(s, step);
    OneWaiterKept(s, step);
  }
}
