/** The agent's code for processes: the reaper, and the calls that wait for a process or close its input. */
module ProcessReaper {
  import opened Basics
  import opened Processes
  import opened ProcessSteps
  import opened ProcessWaits
  import opened ProcessRuns

  class Sandbox {
    var containers: Containers
    var zombies: map<Pid, Corpse>  // what waitpid will report
    var closed: multiset<Fd>       // what close has been called on
    ghost var world: State

    constructor ()
      ensures Valid() && world == INIT && Inv(world)
    {
      containers, zombies, closed, world := map[], map[], multiset{}, INIT;
    }

    /** Nobody is in the middle of starting or reaping a process, and the fields are the state's. */
    ghost predicate Valid()
      reads this
    {
      && world.building == None && world.pending == None
      && world.containers == containers && world.zombies == zombies && world.closed == closed
    }

    /** Sandbox::find_process: some container that holds the process id. */
    method FindProcess(pid: Pid) returns (found: Option<Cid>)
      ensures found.Some? ==> Holds(containers, found.value, pid)
      ensures found.None? ==> forall cid | cid in containers :: !Holds(containers, cid, pid)
    {
      var keys := containers.Keys;
      while keys != {}
        invariant keys <= containers.Keys
        invariant forall cid | cid in containers.Keys - keys :: !Holds(containers, cid, pid)
        decreases keys
      {
        var cid :| cid in keys;
        if pid in containers[cid] {
          return Some(cid);
        }
        keys := keys - {cid};
      }
      return None;
    }

    /** The locked part of the reaper's inner loop, for a child that waitpid reported. */
    method RecordExit(pid: Pid, status: WaitStatus) returns (found: Option<Cid>)
      modifies this`containers, this`closed
      ensures found.None? ==>
                && (forall cid | cid in old(containers) :: !Holds(old(containers), cid, pid))
                && containers == old(containers) && closed == old(closed)
      ensures found.Some? ==>
                && Holds(old(containers), found.value, pid)
                && var p := old(containers)[found.value][pid];
                   if ExitW !in p.fds || status.OtherStatus? then
                     containers == old(containers) && closed == old(closed)
                   else
                     && closed == old(closed) + multiset{Fd(p.birth, ExitW)}
                     && match status
                        case Exited(code) => containers == Put(old(containers), found.value, pid, p.(exitCode := code))
                        case Signaled(signal) =>
                          containers == Put(old(containers), found.value, pid, p.(exitCode := signal))
                        case OtherStatus => true
    {
      found := FindProcess(pid);
      if found == None {
        return;
      }
      var cid := found.value;
      var p := containers[cid][pid];
      if ExitW !in p.fds || status.OtherStatus? {
        return;
      }
      containers := containers[cid := containers[cid][pid := p.(exitCode := Code(status))]];
      closed := closed + multiset{Fd(p.birth, ExitW)};
    }

    /** One turn of the reaper's inner loop: two steps, of which the second depends on what it finds. */
    method ReapOne(pid: Pid) returns (ghost step: Step)
      requires Valid() && pid in zombies
      modifies this
      ensures Valid() && zombies == old(zombies) - {pid}
      ensures Reaps(old(world), pid, step, world)
    {
      ghost var before := world;
      var corpse := zombies[pid];
      zombies := zombies - {pid};
      var found := RecordExit(pid, corpse.status);
      step := if found == None then Unknown else Record(found.value);
      world := Apply(Apply(before, Collect(pid)), step);
      ReapingShows(before, pid, step);
    }

    /** One activation of the reaper, however many signals were folded into it, drains every exited child. It keeps
        the books faithful all along exactly when it writes no status down for a process other than the one it
        collected and passes none over; and then each tracked process that is no longer running has its own exit
        recorded and its pipe closed. */
    method ReapAll() returns (ghost states: seq<State>, ghost steps: seq<Step>)
      requires Valid()
      modifies this
      ensures Valid() && zombies == map[]
      ensures Segment(states, steps) && states[0] == old(world) && states[|steps|] == world
      ensures SameProcesses(old(world), world)
      ensures Core(old(world)) && NothingMissed(old(world)) ==>
                ((forall i | 0 <= i < |states| :: Faithful(states[i]))
                 <==> NoMisrecord(states, steps, |steps|) && NoMiss(states, steps, |steps|))
      ensures Core(old(world)) && NothingMissed(old(world))
              && NoMisrecord(states, steps, |steps|) && NoMiss(states, steps, |steps|) ==>
                Core(world) && NothingMissed(world) && EndedAreRecorded(world)
      ensures Inv(old(world)) ==>
                Inv(world) && NoMisrecord(states, steps, |steps|) && NoMiss(states, steps, |steps|)
    {
      hide Inv, Core, NothingMissed, Faithful, EndedAreRecorded, SameProcesses, Misrecords, Misses, Reaps;
      states, steps := [world], [];
      NothingReaped(world);
      var left := zombies.Keys;
      while left != {}
        invariant Valid() && left == zombies.Keys
        invariant Reaping(states, steps) && states[0] == old(world) && states[|steps|] == world
        decreases left
      {
        var pid := AnyOf(left);
        ghost var before := world;
        ghost var step := ReapOne(pid);
        left := left - {pid};
        OneMoreReaped(states, steps, pid, step, world);
        states, steps := states + [Apply(before, Collect(pid)), world], steps + [Collect(pid), step];
      }
      ReapingExactly(states, steps);
    }

    /** The last locked block of do_wait_process: closes what is set, takes the status, forgets the process. */
    method TakeStatus(cid: Cid, pid: Pid) returns (status: int)
      requires Holds(containers, cid, pid)
      modifies this`containers, this`closed
      ensures var p := old(containers)[cid][pid];
              && containers == Drop(old(containers), cid, pid) && status == p.exitCode
              && closed == old(closed) + multiset(FdsOf(p.birth, p.fds - {ExitW}))
    {
      var p := containers[cid][pid];
      CloseIfSet(p, Stdin);
      CloseIfSet(p, Stdout);
      CloseIfSet(p, Stderr);
      CloseIfSet(p, Term);
      CloseIfSet(p, ExitR);
      OneByOne(p);
      status := p.exitCode;
      containers := containers[cid := containers[cid] - {pid}];
    }

    method FinishWait(w: nat, cid: Cid, pid: Pid) returns (status: int)
      requires Valid() && Enabled(world, WaitFinish(w)) && cid == world.waits[w].cid && pid == world.waits[w].pid
      modifies this
      ensures Valid() && world == Apply(old(world), WaitFinish(w)) && world.waits[w].phase == Returned(status)
      ensures Core(old(world)) ==> Core(world)
      ensures Inv(old(world)) ==> Inv(world)
    {
      status := TakeStatus(cid, pid);
      ElsewhereKept(world, WaitFinish(w));
      world := Apply(world, WaitFinish(w));
    }

    /** What close_stdin does to a process it found. */
    method DropStdin(cid: Cid, pid: Pid)
      requires Holds(containers, cid, pid)
      modifies this`containers, this`closed
      ensures var p := old(containers)[cid][pid];
              && containers == Put(old(containers), cid, pid, p.(fds := p.fds - {Term, Stdin}))
              && closed == old(closed) + multiset(FdsOf(p.birth, p.fds * {Term, Stdin}))
    {
      var p := containers[cid][pid];
      CloseIfSet(p, Term);
      CloseIfSet(p, Stdin);
      BothInputs(p);
      containers := containers[cid := containers[cid][pid := p.(fds := p.fds - {Term, Stdin})]];
    }

    method CloseIfSet(p: Process, role: Role)
      modifies this`closed
      ensures closed == old(closed) + One(p, role)
    {
      if role in p.fds {
        closed := closed + multiset{Fd(p.birth, role)};
      }
    }

    /** close_stdin: an unknown process is an error and changes nothing. */
    method CloseStdinOf(cid: Cid, pid: Pid) returns (ok: bool)
      requires Valid()
      modifies this
      ensures Valid() && ok == Holds(old(containers), cid, pid)
      ensures world == if ok then Apply(old(world), CloseStdin(cid, pid)) else old(world)
      ensures Core(old(world)) ==> Core(world)
      ensures Inv(old(world)) ==> Inv(world)
    {
      if cid !in containers || pid !in containers[cid] {
        return false;
      }
      DropStdin(cid, pid);
      ElsewhereKept(world, CloseStdin(cid, pid));
      world := Apply(world, CloseStdin(cid, pid));
      return true;
    }
  }

  /** The multiset that closing one descriptor, if set, adds. */
  function One(p: Process, role: Role): multiset<Fd> {
    if role in p.fds then multiset{Fd(p.birth, role)} else multiset{}
  }

  lemma OneMore(p: Process, roles: set<Role>, r: Role)
    requires r !in roles
    ensures multiset(FdsOf(p.birth, p.fds * roles)) + One(p, r) == multiset(FdsOf(p.birth, p.fds * (roles + {r})))
  {
    var before, after := FdsOf(p.birth, p.fds * roles), FdsOf(p.birth, p.fds * (roles + {r}));
    if r in p.fds {
      assert after == before + {Fd(p.birth, r)};
    } else {
      assert p.fds * (roles + {r}) == p.fds * roles;
    }
  }

  lemma OneByOne(p: Process)
    ensures One(p, Stdin) + One(p, Stdout) + One(p, Stderr) + One(p, Term) + One(p, ExitR)
         == multiset(FdsOf(p.birth, p.fds - {ExitW}))
  {
    OneMore(p, {}, Stdin);
    OneMore(p, {Stdin}, Stdout);
    OneMore(p, {Stdin, Stdout}, Stderr);
    OneMore(p, {Stdin, Stdout, Stderr}, Term);
    OneMore(p, {Stdin, Stdout, Stderr, Term}, ExitR);
    assert {Stdin} + {Stdout} == {Stdin, Stdout};
    assert {Stdin, Stdout} + {Stderr} == {Stdin, Stdout, Stderr};
    assert {Stdin, Stdout, Stderr} + {Term} == {Stdin, Stdout, Stderr, Term};
    var roles := {Stdin, Stdout, Stderr, Term} + {ExitR};
    assert FdsOf(p.birth, p.fds * {}) == {};
    assert {} + {Stdin} == {Stdin};
    forall r: Role ensures r in p.fds * roles <==> r in p.fds - {ExitW} {
      match r
      case Stdin => case Stdout => case Stderr => case Term => case ExitR => case ExitW =>
    }
    assert p.fds * roles == p.fds - {ExitW};
  }

  lemma BothInputs(p: Process)
    ensures One(p, Term) + One(p, Stdin) == multiset(FdsOf(p.birth, p.fds * {Term, Stdin}))
  {
    OneMore(p, {}, Term);
    OneMore(p, {Term}, Stdin);
    assert FdsOf(p.birth, p.fds * {}) == {};
    assert {} + {Term} == {Term};
    assert {Term} + {Stdin} == {Term, Stdin};
  }

  /** Steps that are not the reaper's keep the invariants they find. */
  lemma ElsewhereKept(s: State, step: Step)
    requires Enabled(s, step) && (step.WaitFinish? || step.CloseStdin?)
    ensures Core(s) ==> Core(Apply(s, step))
    ensures Inv(s) ==> Inv(Apply(s, step))
  {
    hide Apply, Core, Inv;
    if Core(s) {
      CoreKept(s, step);
    }
    if Inv(s) {
      InvKept(s, step);
    }
  }

  /** Collecting a child, and then recording its exit or finding nobody. */
  ghost predicate Reaps(s: State, pid: Pid, step: Step, s': State) {
    && Enabled(s, Collect(pid)) && (step.Record? || step.Unknown?)
    && Enabled(Apply(s, Collect(pid)), step) && s' == Apply(Apply(s, Collect(pid)), step)
  }

  lemma ReapingShows(s: State, pid: Pid, step: Step)
    requires Enabled(s, Collect(pid)) && (step.Record? || step.Unknown?) && Enabled(Apply(s, Collect(pid)), step)
    ensures Reaps(s, pid, step, Apply(Apply(s, Collect(pid)), step))
    ensures Apply(Apply(s, Collect(pid)), step).zombies == s.zombies - {pid}
  {
    var collected := Apply(s, Collect(pid));
    KernelUnmoved(collected, step);
  }

  /** Steps of the reaper, one after another. */
  ghost predicate Reaping(states: seq<State>, steps: seq<Step>) {
    && Segment(states, steps) && SameProcesses(states[0], states[|steps|])
    && forall i | 0 <= i < |steps| :: steps[i].Collect? || steps[i].Record? || steps[i].Unknown?
  }

  lemma NothingReaped(s: State)
    ensures Reaping([s], [])
  {
  }

  lemma OneMoreReaped(states: seq<State>, steps: seq<Step>, pid: Pid, step: Step, s': State)
    requires Reaping(states, steps) && Reaps(states[|steps|], pid, step, s')
    ensures Reaping(states + [Apply(states[|steps|], Collect(pid)), s'], steps + [Collect(pid), step])
  {
    var s := states[|steps|];
    var collected := Apply(s, Collect(pid));
    ReapingSame(s, Collect(pid));
    ReapingSame(collected, step);
    hide Apply, Enabled, SameProcesses;
    SameTwice(s, collected, s');
    SameTwice(states[0], s, s');
    var states', steps' := states + [collected, s'], steps + [Collect(pid), step];
    forall i | 0 <= i < |steps'| ensures OneStep(states'[i], steps'[i], states'[i + 1]) {
      if i < |steps| {
        assert OneStep(states[i], steps[i], states[i + 1]);
      }
    }
  }

  /** Every tracked process that has ended has its own exit recorded and its pipe closed. */
  ghost predicate EndedAreRecorded(s: State) {
    forall cid, pid | Holds(s.containers, cid, pid) && pid !in s.running :: EndIsRecorded(s, s.containers[cid][pid])
  }

  ghost predicate EndIsRecorded(s: State, p: Process) {
    && p.birth in s.died
    && (ExitW in p.fds && !s.died[p.birth].OtherStatus? ==>
          Fd(p.birth, ExitW) in s.closed && match s.died[p.birth]
                                            case Exited(code) => p.exitCode == code
                                            case Signaled(signal) => p.exitCode == signal
                                            case OtherStatus => false)
  }

  lemma DrainedAreRecorded(s: State)
    requires Core(s) && NothingMissed(s) && s.building == None && s.pending == None && s.zombies == map[]
    ensures EndedAreRecorded(s)
  {
    forall cid, pid | Holds(s.containers, cid, pid) && pid !in s.running
      ensures EndIsRecorded(s, s.containers[cid][pid])
    {
      assert Holds(Full(s), cid, pid);
      assert ProcessOk(s, pid, s.containers[cid][pid]) && NotMissed(s, pid, s.containers[cid][pid]);
    }
  }

  lemma ReapingExactly(states: seq<State>, steps: seq<Step>)
    requires Reaping(states, steps)
    requires var s := states[|steps|]; s.building == None && s.pending == None && s.zombies == map[]
    ensures Core(states[0]) && NothingMissed(states[0]) ==>
              ((forall i | 0 <= i < |states| :: Faithful(states[i]))
               <==> NoMisrecord(states, steps, |steps|) && NoMiss(states, steps, |steps|))
    ensures Core(states[0]) && NothingMissed(states[0])
            && NoMisrecord(states, steps, |steps|) && NoMiss(states, steps, |steps|) ==>
              Core(states[|steps|]) && NothingMissed(states[|steps|]) && EndedAreRecorded(states[|steps|])
    ensures Inv(states[0]) ==>
              Inv(states[|steps|]) && NoMisrecord(states, steps, |steps|) && NoMiss(states, steps, |steps|)
  {
    hide Inv, Core, NothingMissed, Faithful, EndedAreRecorded, SameProcesses, Misrecords, Misses;
    if Core(states[0]) && NothingMissed(states[0]) {
      FaithfulAlong(states, steps, |steps|);
      if NoMisrecord(states, steps, |steps|) && NoMiss(states, steps, |steps|) {
        CoreAlong(states, steps, |steps|);
        DrainedAreRecorded(states[|steps|]);
      }
    }
    if Inv(states[0]) {
      InvAlong(states, steps, |steps|);
    }
  }

  lemma {:induction false} InvAlong(states: seq<State>, steps: seq<Step>, n: nat)
    requires Reaping(states, steps) && Inv(states[0]) && n <= |steps|
    ensures Inv(states[n]) && NoMisrecord(states, steps, n) && NoMiss(states, steps, n)
  {
    hide Core, NothingMissed, Waits, WaitsKeep, OneWaiter, SameProcesses;
    if n > 0 {
      InvAlong(states, steps, n - 1);
      StepOf(states, steps, n - 1);
      UniqueFinds(states[n - 1], steps[n - 1]);
      hide Inv;
      InvKept(states[n - 1], steps[n - 1]);
    }
  }

  lemma ReapingSame(s: State, step: Step)
    requires Enabled(s, step) && (step.Collect? || step.Record? || step.Unknown?)
    ensures SameProcesses(s, Apply(s, step))
  {
    if step.Record? {
      RecordSame(s, step.cid);
    } else {
      var s' := Apply(s, step);
      assert s'.running == s.running && s'.died == s.died && s'.waits == s.waits && s'.containers == s.containers;
    }
  }

  lemma RecordSame(s: State, cid: Cid)
    requires Enabled(s, Record(cid))
    ensures SameProcesses(s, Apply(s, Record(cid)))
  {
    var pid, corpse := s.pending.value.pid, s.pending.value.corpse;
    var p, s' := s.containers[cid][pid], Apply(s, Record(cid));
    if Recordable(p, corpse.status) {
      PutSame(s.containers, cid, pid, Code(corpse.status));
      SameByContainers(s, s');
    }
  }

  lemma SameByContainers(s: State, s': State)
    requires s'.running == s.running && s'.died == s.died && s'.waits == s.waits
    requires var cs, cs' := s.containers, s'.containers;
             && cs'.Keys == cs.Keys
             && (forall c | c in cs :: cs'[c].Keys == cs[c].Keys)
             && (forall c, q | Holds(cs, c, q) && Holds(cs', c, q) ::
                   cs'[c][q].birth == cs[c][q].birth && cs'[c][q].fds == cs[c][q].fds)
    ensures SameProcesses(s, s')
  {
  }

  lemma PutSame(cs: Containers, cid: Cid, pid: Pid, code: int)
    requires Holds(cs, cid, pid)
    ensures var cs' := Put(cs, cid, pid, cs[cid][pid].(exitCode := code));
            && cs'.Keys == cs.Keys
            && (forall c | c in cs :: cs'[c].Keys == cs[c].Keys)
            && (forall c, q | Holds(cs, c, q) && Holds(cs', c, q) ::
                  cs'[c][q].birth == cs[c][q].birth && cs'[c][q].fds == cs[c][q].fds)
  {
  }

  lemma SameTwice(a: State, b: State, c: State)
    requires SameProcesses(a, b) && SameProcesses(b, c)
    ensures SameProcesses(a, c)
  {
    forall cid, pid | Holds(a.containers, cid, pid) && Holds(c.containers, cid, pid)
      ensures c.containers[cid][pid].birth == a.containers[cid][pid].birth
      ensures c.containers[cid][pid].fds == a.containers[cid][pid].fds
    {
      assert Holds(b.containers, cid, pid);
    }
  }

  /** Reaping tracks the same processes, runs nothing, ends nothing and forgets no wait. */
  ghost predicate SameProcesses(s: State, s': State) {
    && s'.running == s.running && s'.died == s.died && s'.waits == s.waits
    && s'.containers.Keys == s.containers.Keys
    && (forall cid | cid in s.containers :: s'.containers[cid].Keys == s.containers[cid].Keys)
    && (forall cid, pid | Holds(s.containers, cid, pid) && Holds(s'.containers, cid, pid) ::
          s'.containers[cid][pid].birth == s.containers[cid][pid].birth
          && s'.containers[cid][pid].fds == s.containers[cid][pid].fds)
  }
}
