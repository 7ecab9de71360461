/** Runs of the process protocol: what holds in every interleaving, and exactly when. */
module ProcessRuns {
  import opened Basics
  import opened Processes
  import opened ProcessSteps
  import opened ProcessWaits

  ghost predicate OneStep(s: State, step: Step, s': State) {
    Enabled(s, step) && NewContainers(s, step) && s' == Apply(s, step)
  }

  ghost predicate Segment(states: seq<State>, steps: seq<Step>) {
    && |states| == |steps| + 1
    && forall i | 0 <= i < |steps| :: OneStep(states[i], steps[i], states[i + 1])
  }

  /** A run from the empty sandbox in which container ids are new when containers are created. */
  ghost predicate Execution(states: seq<State>, steps: seq<Step>) {
    Segment(states, steps) && states[0] == INIT
  }

  lemma StepOf(states: seq<State>, steps: seq<Step>, i: nat)
    requires Segment(states, steps) && i < |steps|
    ensures OneStep(states[i], steps[i], states[i + 1])
  {
  }

  ghost predicate NoMisrecord(states: seq<State>, steps: seq<Step>, n: nat)
    requires n <= |states| && n <= |steps|
  {
    forall i | 0 <= i < n :: !Misrecords(states[i], steps[i])
  }

  ghost predicate NoMiss(states: seq<State>, steps: seq<Step>, n: nat)
    requires n <= |states| && n <= |steps|
  {
    forall i | 0 <= i < n :: !Misses(states[i], steps[i])
  }

  ghost predicate NoDisturbance(states: seq<State>, steps: seq<Step>, n: nat)
    requires n <= |states| && n <= |steps|
  {
    forall i | 0 <= i < n :: !Disturbs(states[i], steps[i])
  }

  lemma StartsWell()
    ensures Inv(INIT) && Faithful(INIT)
  {
  }

  /** As long as no status is written down in the wrong place, the invariant holds; and as long as no collected exit
      is passed over, none is missed. */
  lemma {:induction false} CoreAlong(states: seq<State>, steps: seq<Step>, n: nat)
    requires Segment(states, steps) && Core(states[0]) && NothingMissed(states[0])
    requires n <= |steps| && NoMisrecord(states, steps, n)
    ensures Core(states[n])
    ensures NoMiss(states, steps, n) ==> NothingMissed(states[n])
  {
    hide Core, NothingMissed, Misrecords, Misses;
    if n > 0 {
      CoreAlong(states, steps, n - 1);
      StepOf(states, steps, n - 1);
      CoreKept(states[n - 1], steps[n - 1]);
    }
  }

  lemma InitIsCore()
    ensures Core(INIT) && NothingMissed(INIT)
  {
    StartsWell();
  }

  lemma CoreUpTo(states: seq<State>, steps: seq<Step>, n: nat)
    requires Execution(states, steps) && n <= |steps| && NoMisrecord(states, steps, n)
    ensures Core(states[n])
    ensures NoMiss(states, steps, n) ==> NothingMissed(states[n])
  {
    hide Core, NothingMissed;
    InitIsCore();
    CoreAlong(states, steps, n);
  }

  /** From any state with the invariant in which no exit is missed, on any way from there. */
  lemma {:induction false} FaithfulAlong(states: seq<State>, steps: seq<Step>, n: nat)
    requires Segment(states, steps) && Core(states[0]) && NothingMissed(states[0]) && n <= |steps|
    ensures (forall i | 0 <= i <= n :: Faithful(states[i]))
       <==> NoMisrecord(states, steps, n) && NoMiss(states, steps, n)
  {
    hide Faithful, Core, NothingMissed, Misrecords, Misses, Apply, Enabled;
    if n == 0 {
      CoreIsFaithful(states[0]);
    } else {
      FaithfulAlong(states, steps, n - 1);
      var before := forall i | 0 <= i <= n - 1 :: Faithful(states[i]);
      var step := !Misrecords(states[n - 1], steps[n - 1]) && !Misses(states[n - 1], steps[n - 1]);
      OneMoreStep(states, steps, n);
      if before {
        CoreAlong(states, steps, n - 1);
        StepOf(states, steps, n - 1);
        StepFaithfulExactly(states[n - 1], steps[n - 1]);
        assert Faithful(states[n]) <==> step;
      }
      assert (forall i | 0 <= i <= n :: Faithful(states[i])) <==> before && Faithful(states[n]);
    }
  }

  lemma CoreIsFaithful(s: State)
    requires Core(s) && NothingMissed(s)
    ensures Faithful(s)
  {
  }

  lemma OneMoreStep(states: seq<State>, steps: seq<Step>, n: nat)
    requires 0 < n <= |steps| < |states|
    ensures NoMisrecord(states, steps, n) && NoMiss(states, steps, n)
       <==> NoMisrecord(states, steps, n - 1) && NoMiss(states, steps, n - 1)
            && !Misrecords(states[n - 1], steps[n - 1]) && !Misses(states[n - 1], steps[n - 1])
  {
    hide Misrecords, Misses;
  }

  /** Over every run, each pipe is closed at most once and only after its own process's exit was collected, every
      recorded code is that exit's, and no collected exit stays unrecorded, if and only if the reaper never writes a
      status down for another process than it collected, nor passes the one it collected over. */
  lemma FaithfulExactly(states: seq<State>, steps: seq<Step>)
    requires Execution(states, steps)
    ensures (forall i | 0 <= i < |states| :: Faithful(states[i]))
       <==> (forall i | 0 <= i < |steps| :: !Misrecords(states[i], steps[i]) && !Misses(states[i], steps[i]))
  {
    hide Faithful, Core, NothingMissed, Misrecords, Misses, Apply, Enabled;
    InitIsCore();
    FaithfulAlong(states, steps, |steps|);
  }

  lemma FirstMisrecord(states: seq<State>, steps: seq<Step>, n: nat) returns (i: nat)
    requires n <= |steps| < |states| && !NoMisrecord(states, steps, n)
    ensures i < n && Misrecords(states[i], steps[i]) && NoMisrecord(states, steps, i)
    decreases n
  {
    hide Misrecords;
    if NoMisrecord(states, steps, n - 1) {
      i := n - 1;
    } else {
      i := FirstMisrecord(states, steps, n - 1);
    }
  }

  /** In particular, over every run that passes no collected exit over, each pipe is closed at most once and every
      recorded code is that of the process's own exit, if and only if no status is written down for a process other
      than the one that was collected. */
  lemma HonestExactly(states: seq<State>, steps: seq<Step>)
    requires Execution(states, steps) && NoMiss(states, steps, |steps|)
    ensures (forall i | 0 <= i < |states| :: ClosedOnce(states[i]) && Honest(states[i]))
       <==> NoMisrecord(states, steps, |steps|)
  {
    hide ClosedOnce, Misrecords, Misses, Honest, Apply, Enabled;
    if NoMisrecord(states, steps, |steps|) {
      forall i | 0 <= i < |states| ensures ClosedOnce(states[i]) && Honest(states[i]) {
        CoreUpTo(states, steps, i);
      }
    } else {
      var i := FirstMisrecord(states, steps, |steps|);
      CoreUpTo(states, steps, i);
      StepOf(states, steps, i);
      MisrecordShows(states[i], steps[i]);
    }
  }

  lemma {:induction false} IdentitiesAlways(states: seq<State>, steps: seq<Step>, i: nat)
    requires Execution(states, steps) && i < |states|
    ensures Identities(states[i])
  {
    hide Identities, Core, Inv;
    if i > 0 {
      IdentitiesAlways(states, steps, i - 1);
      StepOf(states, steps, i - 1);
      IdentitiesKept(states[i - 1], steps[i - 1]);
    } else {
      InitHasIdentities();
    }
  }

  lemma InitHasIdentities()
    ensures Identities(INIT) && WaitsKeep(INIT) && Waits(INIT)
  {
    StartsWell();
  }

  lemma {:induction false} WaitsKeepUpTo(states: seq<State>, steps: seq<Step>, n: nat)
    requires Execution(states, steps) && n <= |steps|
    ensures (forall i | 0 <= i <= n :: WaitsKeep(states[i])) <==> NoDisturbance(states, steps, n)
  {
    hide WaitsKeep, Disturbs, Identities, Inv, Apply, Enabled;
    if n == 0 {
      InitHasIdentities();
    } else {
      WaitsKeepUpTo(states, steps, n - 1);
      IdentitiesAlways(states, steps, n - 1);
      var before := forall i | 0 <= i <= n - 1 :: WaitsKeep(states[i]);
      if before {
        assert WaitsKeep(states[n - 1]);
        StepOf(states, steps, n - 1);
        StepKeepsWaitsExactly(states[n - 1], steps[n - 1]);
      }
      assert (forall i | 0 <= i <= n :: WaitsKeep(states[i])) <==> before && WaitsKeep(states[n]);
      assert NoDisturbance(states, steps, n)
        <==> NoDisturbance(states, steps, n - 1) && !Disturbs(states[n - 1], steps[n - 1]);
    }
  }

  /** Over every run, every waiting call still finds the process it began to wait for, if and only if no step removes
      that process's record or puts another one in its place. */
  lemma WaitsKeepExactly(states: seq<State>, steps: seq<Step>)
    requires Execution(states, steps)
    ensures (forall i | 0 <= i < |states| :: WaitsKeep(states[i]))
       <==> (forall i | 0 <= i < |steps| :: !Disturbs(states[i], steps[i]))
  {
    hide WaitsKeep, Disturbs, Apply, Enabled;
    WaitsKeepUpTo(states, steps, |steps|);
  }

  lemma {:induction false} WaitsUpTo(states: seq<State>, steps: seq<Step>, n: nat)
    requires Execution(states, steps) && n <= |steps|
    requires NoMisrecord(states, steps, n) && NoDisturbance(states, steps, n)
    ensures Core(states[n]) && Waits(states[n]) && WaitsKeep(states[n])
  {
    hide WaitsKeep, Waits, Disturbs, Misrecords, Core, Inv;
    if n == 0 {
      InitHasIdentities();
      InitIsCore();
    } else {
      WaitsUpTo(states, steps, n - 1);
      CoreUpTo(states, steps, n);
      StepOf(states, steps, n - 1);
      WaitsKept(states[n - 1], steps[n - 1]);
      WaitsKeepUpTo(states, steps, n);
    }
  }

  /** Exit status agreement: when no status is written down in the wrong place and no waiting call is disturbed, in
      every interleaving a wait on a process with an exit pipe gets past the pipe only after the reaper closed its
      write end, and returns exactly the code or signal of that process's own exit. */
  lemma ExitStatusAgreement(states: seq<State>, steps: seq<Step>, i: nat, w: nat)
    requires Execution(states, steps) && i < |states| && w in states[i].waits && states[i].waits[w].piped
    requires NoMisrecord(states, steps, i) && NoDisturbance(states, steps, i)
    ensures var s, t := states[i], states[i].waits[w];
            && (!t.phase.Reading? ==> Fd(t.birth, ExitW) in s.closed)
            && (t.phase.Returned? ==>
                  t.birth in s.died && match s.died[t.birth]
                                       case Exited(code) => t.phase.status == code
                                       case Signaled(signal) => t.phase.status == signal
                                       case OtherStatus => false)
  {
    hide NoMisrecord, NoDisturbance, Core, WaitsKeep;
    WaitsUpTo(states, steps, i);
    assert WaitOk(states[i], states[i].waits[w]);
  }

  lemma {:induction false} WaitLasts(states: seq<State>, steps: seq<Step>, j: nat, i: nat, w: nat, cid: Cid, pid: Pid)
    requires Execution(states, steps) && j < i < |states| && steps[j] == WaitBegin(w, cid, pid)
    ensures Holds(states[j].containers, cid, pid)
    ensures var p := states[j].containers[cid][pid];
            && w in states[i].waits && states[i].waits[w].birth == p.birth
            && states[i].waits[w].piped == (ExitR in p.fds)
  {
    StepOf(states, steps, j);
    StepOf(states, steps, i - 1);
    WaitsAfter(states[i - 1], steps[i - 1]);
    hide Apply;
    if i > j + 1 {
      WaitLasts(states, steps, j, i - 1, w, cid, pid);
    }
  }

  /** The same from the call's own view: a call that begins to wait at a process with the read end of an exit pipe
      can only return the code that this very process exited with, or the signal that killed it. */
  lemma StatusReturned(states: seq<State>, steps: seq<Step>, j: nat, i: nat, w: nat, cid: Cid, pid: Pid)
    requires Execution(states, steps) && j < i < |states| && steps[j] == WaitBegin(w, cid, pid)
    requires NoMisrecord(states, steps, i) && NoDisturbance(states, steps, i)
    ensures Holds(states[j].containers, cid, pid) && w in states[i].waits
    ensures var p, s := states[j].containers[cid][pid], states[i];
            ExitR in p.fds && s.waits[w].phase.Returned? ==>
              p.birth in s.died && match s.died[p.birth]
                                   case Exited(code) => s.waits[w].phase.status == code
                                   case Signaled(signal) => s.waits[w].phase.status == signal
                                   case OtherStatus => false
  {
    WaitLasts(states, steps, j, i, w, cid, pid);
    hide Execution, NoMisrecord, NoDisturbance;
    if states[i].waits[w].piped {
      ExitStatusAgreement(states, steps, i, w);
    }
  }

  /** No exit is missed, however early the process dies: once no exit is uncollected or in the reaper's hand,
      every tracked process with an exit pipe that has ended has its code recorded and its pipe closed, so its
      waiter can go on. */
  lemma NoExitMissed(states: seq<State>, steps: seq<Step>, i: nat, cid: Cid, pid: Pid)
    requires Execution(states, steps) && i < |states|
    requires NoMisrecord(states, steps, i) && NoMiss(states, steps, i)
    requires states[i].pending == None && states[i].zombies == map[] && Holds(states[i].containers, cid, pid)
    requires states[i].building == None
    ensures var s, p := states[i], states[i].containers[cid][pid];
            p.birth in s.died && ExitW in p.fds && !s.died[p.birth].OtherStatus? ==>
              && Fd(p.birth, ExitW) in s.closed
              && (match s.died[p.birth]
                  case Exited(code) => p.exitCode == code
                  case Signaled(signal) => p.exitCode == signal
                  case OtherStatus => false)
              && forall w | w in s.waits && s.waits[w].birth == p.birth && s.waits[w].phase == Reading ::
                   Enabled(s, WaitEof(w))
  {
    hide NoMisrecord, NoMiss;
    CoreUpTo(states, steps, i);
    var s, p := states[i], states[i].containers[cid][pid];
    assert Holds(Full(s), cid, pid);
    assert ProcessOk(s, pid, p) && NotMissed(s, pid, p);
  }

  /** Descriptor conservation: while no status is written down in the wrong place, no descriptor is closed twice and
      only descriptors that were handed to a process record are closed; and while no waiting call is disturbed, when a
      wait on a process with an exit pipe has returned, every descriptor the process ever had has been closed exactly
      once. */
  lemma DescriptorConservation(states: seq<State>, steps: seq<Step>, i: nat)
    requires Execution(states, steps) && i < |states| && NoMisrecord(states, steps, i)
    ensures forall f: Fd :: states[i].closed[f] <= 1 && (f in states[i].closed ==> f in states[i].handed)
    ensures NoDisturbance(states, steps, i) ==>
              forall w | w in states[i].waits && states[i].waits[w].piped && states[i].waits[w].phase.Returned? ::
                AllClosed(states[i], states[i].waits[w].birth)
  {
    hide NoMisrecord, NoDisturbance, Identities, Kernel, Honest, WaitsKeep;
    CoreUpTo(states, steps, i);
    if NoDisturbance(states, steps, i) {
      WaitsUpTo(states, steps, i);
      forall w | w in states[i].waits && states[i].waits[w].piped && states[i].waits[w].phase.Returned?
        ensures AllClosed(states[i], states[i].waits[w].birth)
      {
        assert WaitOk(states[i], states[i].waits[w]);
      }
    }
  }

  /** With careful callers, and a kernel that does not reuse process ids the agent still tracks, none of this goes
      wrong. */
  lemma {:induction false} CarefulIsSafe(states: seq<State>, steps: seq<Step>, n: nat)
    requires Execution(states, steps) && n <= |steps|
    requires forall i | 0 <= i < n :: Careful(states[i], steps[i])
    ensures Inv(states[n])
    ensures NoMisrecord(states, steps, n) && NoMiss(states, steps, n) && NoDisturbance(states, steps, n)
  {
    hide Careful, Core, NothingMissed, Waits, Disturbs;
    if n == 0 {
      StartsWell();
    } else {
      CarefulIsSafe(states, steps, n - 1);
      StepOf(states, steps, n - 1);
      InvKept(states[n - 1], steps[n - 1]);
      UniqueFinds(states[n - 1], steps[n - 1]);
      CarefulDisturbsNone(states[n - 1], steps[n - 1]);
    }
  }

  // A process id that comes round again

  const PIPED: set<Role> := {ExitR, ExitW}

  function Birthing(cid: Cid, pid: Pid, fds: set<Role>, status: WaitStatus): seq<Step> {
    [BeginCreate(cid), Fork(pid, fds), Finish, Exit(pid, status), Collect(pid)]
  }

  /** Between two runs of a container's start: nobody holds the lock and every process has ended. */
  predicate Quiet(s: State) {
    s.building == None && s.pending == None && s.running == map[] && s.zombies == map[]
  }

  lemma AfterStarting(s: State, cid: Cid, pid: Pid, fds: set<Role>) returns (s1: State, s2: State, s3: State)
    requires Quiet(s) && cid !in s.containers
    ensures Enabled(s, BeginCreate(cid)) && s1 == Apply(s, BeginCreate(cid))
    ensures Enabled(s1, Fork(pid, fds)) && s2 == Apply(s1, Fork(pid, fds))
    ensures Enabled(s2, Finish) && s3 == Apply(s2, Finish)
    ensures s3.containers == s.containers[cid := map[pid := Process(s.next, fds, 0)]]
    ensures s3.building == None && s3.pending == None && s3.zombies == map[] && s3.running == map[pid := s.next]
    ensures s3.closed == s.closed && s3.next == s.next + 1 && s3.died == s.died
  {
    s1 := Apply(s, BeginCreate(cid));
    s2 := Apply(s1, Fork(pid, fds));
    s3 := Apply(s2, Finish);
  }

  /** A container created, its process dead and collected: the state the reaper then finds. */
  lemma AfterBirthing(s: State, cid: Cid, pid: Pid, fds: set<Role>, status: WaitStatus) returns (states: seq<State>)
    requires Quiet(s) && cid !in s.containers
    ensures var b := s.next;
            && Segment(states, Birthing(cid, pid, fds, status)) && states[0] == s
            && states[5].containers == s.containers[cid := map[pid := Process(b, fds, 0)]]
            && states[5].building == None && states[5].pending == Some(Reaped(pid, Corpse(b, status)))
            && states[5].running == map[] && states[5].zombies == map[]
            && states[5].closed == s.closed && states[5].next == b + 1 && states[5].died == s.died[b := status]
  {
    var s1, s2, s3 := AfterStarting(s, cid, pid, fds);
    var s4 := Apply(s3, Exit(pid, status));
    var s5 := Apply(s4, Collect(pid));
    states := [s, s1, s2, s3, s4, s5];
  }

  /** When the kernel reuses the id of a process that has exited but not been waited for, the reaper may find the
      old process again: it closes the old pipe a second time, and the new process's exit is lost. */
  lemma ReusedPidLosesExit(pid: Pid, first: int, second: int)
    ensures exists states: seq<State>, steps: seq<Step> ::
              && Execution(states, steps)
              && steps == Birthing("a", pid, PIPED, Exited(first)) + [Record("a")]
                          + Birthing("b", pid, PIPED, Exited(second)) + [Record("a")]
              && states[12].closed[Fd(0, ExitW)] == 2
              && Holds(states[12].containers, "b", pid) && states[12].containers["b"][pid].birth == 1
              && 1 in states[12].died && states[12].pending == None && states[12].zombies == map[]
              && Fd(1, ExitW) !in states[12].closed
              && Misrecords(states[11], steps[11])
  {
    var one, two := Birthing("a", pid, PIPED, Exited(first)), Birthing("b", pid, PIPED, Exited(second));
    var x, y := TwoBirthings(pid, first, second);
    var z := [Apply(y[5], Record("a"))];
    Glue(x + y, one + [Record("a")] + two, Record("a"), z, []);
    var states, steps := x + y + z, one + [Record("a")] + two + [Record("a")];
    assert steps + [] == steps;
    assert Execution(states, steps);
    assert states[12] == z[0] && states[11] == y[5] && steps[11] == Record("a");
  }

  lemma TwoBirthings(pid: Pid, first: int, second: int) returns (x: seq<State>, y: seq<State>)
    ensures |x| == |y| == 6 && x[0] == INIT
    ensures Segment(x + y, Birthing("a", pid, PIPED, Exited(first)) + [Record("a")]
                           + Birthing("b", pid, PIPED, Exited(second)))
    ensures var s := y[5];
            && Enabled(s, Record("a")) && s.pending.value.pid == pid
            && Holds(s.containers, "b", pid) && s.containers["b"][pid].birth == 1
            && Recordable(s.containers["a"][pid], s.pending.value.corpse.status) && s.containers["a"][pid].birth == 0
            && s.zombies == map[] && 1 in s.died && s.closed == multiset{Fd(0, ExitW)}
            && Misrecords(s, Record("a"))
  {
    x := AfterBirthing(INIT, "a", pid, PIPED, Exited(first));
    assert Holds(x[5].containers, "a", pid);
    var s6 := Apply(x[5], Record("a"));
    y := AfterBirthing(s6, "b", pid, PIPED, Exited(second));
    Glue(x, Birthing("a", pid, PIPED, Exited(first)), Record("a"), y, Birthing("b", pid, PIPED, Exited(second)));
    assert "a"[0] != "b"[0];
  }

  /** Why HonestExactly asks that no exit be passed over: the reaper passes one over, at an old record without a pipe;
      then a later owner of the id ends with the same code, which is written down where the first one's is missing. */
  lemma CoincidenceHidesMisrecord(pid: Pid, code: int)
    ensures exists states: seq<State>, steps: seq<Step> ::
              && Execution(states, steps) && !NoMisrecord(states, steps, |steps|)
              && forall i | 0 <= i < |states| :: ClosedOnce(states[i]) && Honest(states[i])
  {
    var x, y, z := ThreeBirthings(pid, code);
    var last := Apply(z[5], Record("a"));
    var before, steps := x + y + z, ThreeStarts(pid, code);
    Glue(before, steps, Record("a"), [last], []);
    var states := before + [last];
    assert steps + [Record("a")] + [] == steps + [Record("a")];
    steps := steps + [Record("a")];
    assert Execution(states, steps) && Misrecords(states[17], steps[17]);
    hide Misrecords, ClosedOnce, Honest, Core, Execution, Segment;
    forall i | 0 <= i < |states| ensures ClosedOnce(states[i]) && Honest(states[i]) {
      if i <= 17 {
        CoreUpTo(states, steps, i);
        CoreSays(states[i]);
      } else {
        CoreUpTo(states, steps, 17);
        StillHonest(z[5], pid, code);
      }
    }
  }

  lemma CoreSays(s: State)
    requires Core(s)
    ensures ClosedOnce(s) && Honest(s)
  {
  }

  function ThreeStarts(pid: Pid, code: int): seq<Step> {
    Birthing("b", pid, {}, Exited(code)) + [Record("b")] + Birthing("a", pid, PIPED, Exited(code)) + [Record("b")]
    + Birthing("c", pid, PIPED, Exited(code))
  }

  /** Just before the status is written down in the wrong place, but fits it. */
  predicate AboutToCoincide(s: State, pid: Pid, code: int) {
    && s.building == None && s.running == map[] && s.zombies == map[]
    && s.pending == Some(Reaped(pid, Corpse(2, Exited(code))))
    && Holds(s.containers, "a", pid) && s.containers["a"][pid] == Process(1, PIPED, 0)
    && 1 in s.died && s.died[1] == Exited(code) && s.closed == multiset{}
  }

  lemma StillHonest(s: State, pid: Pid, code: int)
    requires Core(s) && AboutToCoincide(s, pid, code)
    ensures ClosedOnce(Apply(s, Record("a"))) && Honest(Apply(s, Record("a")))
  {
    var s' := Apply(s, Record("a"));
    assert Holds(Full(s), "a", pid);
    forall cid, p | Holds(Full(s'), cid, p) ensures ProcessOk(s', p, Full(s')[cid][p]) {
      assert Holds(Full(s), cid, p) && ProcessOk(s, p, Full(s)[cid][p]);
    }
  }

  predicate TwoBorn(s: State, pid: Pid, code: int) {
    && s.containers == map["b" := map[pid := Process(0, {}, 0)], "a" := map[pid := Process(1, PIPED, 0)]]
    && s.building == None && s.pending == Some(Reaped(pid, Corpse(1, Exited(code))))
    && s.running == map[] && s.zombies == map[] && s.closed == multiset{} && s.next == 2
    && 1 in s.died && s.died[1] == Exited(code)
  }

  lemma FirstTwoBirthings(pid: Pid, code: int) returns (x: seq<State>, y: seq<State>)
    ensures |x| == |y| == 6 && x[0] == INIT && !Misrecords(x[5], Record("b"))
    ensures Segment(x + y, Birthing("b", pid, {}, Exited(code)) + [Record("b")]
                           + Birthing("a", pid, PIPED, Exited(code)))
    ensures TwoBorn(y[5], pid, code)
  {
    x := AfterBirthing(INIT, "b", pid, {}, Exited(code));
    assert Holds(x[5].containers, "b", pid);
    assert "a"[0] != "b"[0];
    y := AfterBirthing(Apply(x[5], Record("b")), "a", pid, PIPED, Exited(code));
    Glue(x, Birthing("b", pid, {}, Exited(code)), Record("b"), y, Birthing("a", pid, PIPED, Exited(code)));
  }

  lemma ThirdBirthing(s: State, pid: Pid, code: int) returns (z: seq<State>)
    requires TwoBorn(s, pid, code)
    ensures Segment(z, Birthing("c", pid, PIPED, Exited(code))) && |z| == 6
    ensures OneStep(s, Record("b"), z[0]) && !Misrecords(s, Record("b"))
    ensures AboutToCoincide(z[5], pid, code) && Misrecords(z[5], Record("a"))
  {
    assert "a"[0] != "c"[0] && "b"[0] != "c"[0];
    assert Holds(s.containers, "b", pid);
    z := AfterBirthing(Apply(s, Record("b")), "c", pid, PIPED, Exited(code));
  }

  lemma OnlyRecordsMisrecord(states: seq<State>, pid: Pid, code: int)
    requires |states| == 18 && !Misrecords(states[5], Record("b")) && !Misrecords(states[11], Record("b"))
    ensures NoMisrecord(states, ThreeStarts(pid, code), 17)
  {
    var steps := ThreeStarts(pid, code);
    assert steps[5] == steps[11] == Record("b");
    assert forall i | 0 <= i < 17 && i != 5 && i != 11 :: !steps[i].Record?;
  }

  lemma ThreeBirthings(pid: Pid, code: int) returns (x: seq<State>, y: seq<State>, z: seq<State>)
    ensures |x| == |y| == |z| == 6 && x[0] == INIT
    ensures Segment(x + y + z, ThreeStarts(pid, code)) && NoMisrecord(x + y + z, ThreeStarts(pid, code), 17)
    ensures AboutToCoincide(z[5], pid, code) && Misrecords(z[5], Record("a"))
  {
    var one, two := Birthing("b", pid, {}, Exited(code)), Birthing("a", pid, PIPED, Exited(code));
    hide Birthing, OneStep, Misrecords, TwoBorn, AboutToCoincide;
    x, y := FirstTwoBirthings(pid, code);
    z := ThirdBirthing(y[5], pid, code);
    Glue(x + y, one + [Record("b")] + two, Record("b"), z, Birthing("c", pid, PIPED, Exited(code)));
    hide Segment;
    OnlyRecordsMisrecord(x + y + z, pid, code);
  }

  lemma Glue(x: seq<State>, xs: seq<Step>, step: Step, y: seq<State>, ys: seq<Step>)
    requires Segment(x, xs) && Segment(y, ys)
    requires OneStep(x[|xs|], step, y[0])
    ensures Segment(x + y, xs + [step] + ys)
  {
    var states, steps := x + y, xs + [step] + ys;
    forall i | 0 <= i < |steps|
      ensures OneStep(states[i], steps[i], states[i + 1])
    {
      if i < |xs| {
        assert steps[i] == xs[i] && states[i] == x[i] && states[i + 1] == x[i + 1];
      } else if i > |xs| {
        var k := i - |xs| - 1;
        assert steps[i] == ys[k] && states[i] == y[k] && states[i + 1] == y[k + 1];
      }
    }
  }
}
