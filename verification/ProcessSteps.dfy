/** What one step does to the invariant of tracked processes and their descriptors, and exactly when it keeps it. */
module ProcessSteps {
  import opened Basics
  import opened Processes

  // Keeping the process invariant

  /** What the invariants of an unchanged process depend on. */
  lemma ProcessOkFrame(s: State, s': State, pid: Pid, p: Process)
    requires ProcessOk(s, pid, p) && (Recorded(s', p.birth) <==> Recorded(s, p.birth))
    requires Underway(s', pid, p.birth) <==> Underway(s, pid, p.birth)
    requires p.birth in s.died ==> p.birth in s'.died && s'.died[p.birth] == s.died[p.birth]
    ensures ProcessOk(s', pid, p)
    ensures NotMissed(s, pid, p) ==> NotMissed(s', pid, p)
  {
  }

  /** The exit of a tracked process stays where it is, or moves one station on, unless the reaper lets go of it. */
  lemma UnderwayAfter(s: State, step: Step, pid: Pid, b: Birth)
    requires Kernel(s) && Enabled(s, step) && b < s.next && b in s.pids && s.pids[b] == pid
    requires step.Record? || step.Unknown? ==> s.pending.value.corpse.birth != b
    ensures Underway(Apply(s, step), pid, b) <==> Underway(s, pid, b)
  {
    if !MovesKernel(step) {
      KernelUnmoved(s, step);
      hide Apply;
    }
  }

  lemma DiedGrows(s: State, step: Step, b: Birth)
    requires Kernel(s) && Enabled(s, step) && b in s.died
    ensures b in Apply(s, step).died && Apply(s, step).died[b] == s.died[b]
  {
    if !MovesKernel(step) {
      KernelUnmoved(s, step);
    }
  }

  /** The reaper lets go of an exit: it is on its way no more. */
  lemma LetGo(s: State, step: Step)
    requires Kernel(s) && Enabled(s, step) && (step.Record? || step.Unknown?)
    ensures var pid, b := s.pending.value.pid, s.pending.value.corpse.birth;
            !Underway(Apply(s, step), pid, b) && b in s.died && s.died[b] == s.pending.value.corpse.status
  {
    KernelUnmoved(s, step);
  }

  /** A process the step does not touch: the one whose exit the reaper lets go unwritten may be missed, every other
      one is as before. */
  lemma UntouchedOk(s: State, step: Step, cid: Cid, pid: Pid)
    requires Core(s) && Enabled(s, step)
    requires Holds(Full(s), cid, pid) && !Touches(s, step, cid, pid)
    ensures var s', p := Apply(s, step), Full(s)[cid][pid];
            && ProcessOk(s', pid, p)
            && (step.Record? && p.birth == s.pending.value.corpse.birth ==> !Recorded(s', p.birth))
            && (!step.Record? || p.birth != s.pending.value.corpse.birth ==>
                  NotMissed(s, pid, p) ==> NotMissed(s', pid, p))
  {
    var s', p := Apply(s, step), Full(s)[cid][pid];
    assert ProcessOk(s, pid, p);
    UntouchedRecord(s, step, cid, pid);
    if p.birth in s.died { DiedGrows(s, step, p.birth); }
    if step.Unknown? { NotThePending(s, cid, pid); }
    if step.Record? && s.pending.value.corpse.birth == p.birth {
      LetGo(s, step);
    } else {
      UnderwayAfter(s, step, pid, p.birth);
      ProcessOkFrame(s, s', pid, p);
    }
  }

  /** An exit the reaper finds no process for belongs to none. */
  lemma NotThePending(s: State, cid: Cid, pid: Pid)
    requires Core(s) && Enabled(s, Unknown) && Holds(Full(s), cid, pid)
    ensures Full(s)[cid][pid].birth != s.pending.value.corpse.birth
  {
  }

  lemma UntouchedRecord(s: State, step: Step, cid: Cid, pid: Pid)
    requires Core(s) && Enabled(s, step)
    requires Holds(Full(s), cid, pid) && !Touches(s, step, cid, pid)
    ensures var b := Full(s)[cid][pid].birth;
            Recorded(Apply(s, step), b) <==> Recorded(s, b)
  {
    var b := Full(s)[cid][pid].birth;
    if step.Record? {
      var pid' := s.pending.value.pid;
      assert Holds(Full(s), step.cid, pid');
      SameBirthSamePlace(s, cid, pid, step.cid, pid');
      ClosedUnlessTarget(s, step, Fd(b, ExitW));
    } else {
      RecordedAfter(s, step, b);
    }
  }

  lemma ForkedOk(s: State, q: Pid, fds: set<Role>)
    requires Core(s) && Enabled(s, Fork(q, fds))
    ensures ProcessOk(Apply(s, Fork(q, fds)), q, Process(s.next, fds, 0))
    ensures NotMissed(Apply(s, Fork(q, fds)), q, Process(s.next, fds, 0))
  {
    assert forall f | f in s.closed :: f.birth < s.next;
  }

  /** The process the reaper found, when it is the one it collected or nothing is written down there. */
  lemma FoundOk(s: State, cid: Cid)
    requires Core(s) && Enabled(s, Record(cid)) && !Misrecords(s, Record(cid))
    ensures var s', pid := Apply(s, Record(cid)), s.pending.value.pid;
            var p, p' := s.containers[cid][pid], s'.containers[cid][pid];
            && ProcessOk(s', pid, p')
            && (p.birth == s.pending.value.corpse.birth ==> NotMissed(s', pid, p'))
            && (NotMissed(s, pid, p) ==> NotMissed(s', pid, p'))
  {
    var s', pid := Apply(s, Record(cid)), s.pending.value.pid;
    var p := s.containers[cid][pid];
    TargetOk(s, Record(cid));
    LetGo(s, Record(cid));
    ClosedAfter(s, Record(cid), Fd(p.birth, ExitW));
    if p.birth != s.pending.value.corpse.birth {
      assert Holds(Full(s), cid, pid);
      UnderwayAfter(s, Record(cid), pid, p.birth);
      if p.birth in s.died { DiedGrows(s, Record(cid), p.birth); }
    }
  }

  lemma StdinClosedOk(s: State, cid: Cid, pid: Pid)
    requires Core(s) && Enabled(s, CloseStdin(cid, pid))
    ensures var s' := Apply(s, CloseStdin(cid, pid));
            var p, p' := s.containers[cid][pid], s'.containers[cid][pid];
            ProcessOk(s', pid, p') && (NotMissed(s, pid, p) ==> NotMissed(s', pid, p'))
  {
    TargetOk(s, CloseStdin(cid, pid));
    RecordedAfter(s, CloseStdin(cid, pid), s.containers[cid][pid].birth);
  }

  lemma ProcessAfter(s: State, step: Step, cid: Cid, pid: Pid)
    requires Core(s) && Enabled(s, step) && NewContainers(s, step) && !Misrecords(s, step)
    requires Holds(Full(Apply(s, step)), cid, pid)
    ensures ProcessOk(Apply(s, step), pid, Full(Apply(s, step))[cid][pid])
    ensures NothingMissed(s) && !Misses(s, step) ==> NotMissed(Apply(s, step), pid, Full(Apply(s, step))[cid][pid])
  {
    FullAfter(s, step, cid, pid);
    if Touches(s, step, cid, pid) {
      if step.Fork? {
        ForkedOk(s, pid, step.fds);
      } else if step.Record? {
        FoundOk(s, step.cid);
      } else {
        StdinClosedOk(s, cid, pid);
      }
    } else {
      UntouchedOk(s, step, cid, pid);
      if step.Record? && Full(s)[cid][pid].birth == s.pending.value.corpse.birth {
        UnfoundMissed(s, step, cid, pid);
      }
    }
  }

  /** The collected process is somewhere else than the reaper looks. */
  lemma UnfoundMissed(s: State, step: Step, cid: Cid, pid: Pid)
    requires Core(s) && Enabled(s, step) && step.Record? && Holds(Full(s), cid, pid) && !Touches(s, step, cid, pid)
    requires Full(s)[cid][pid].birth == s.pending.value.corpse.birth
    ensures Misses(s, step) <== Recordable(Full(s)[cid][pid], s.pending.value.corpse.status)
    ensures NotMissed(Apply(s, step), pid, Full(s)[cid][pid])
       <==> !Recordable(Full(s)[cid][pid], s.pending.value.corpse.status)
  {
    var p := Full(s)[cid][pid];
    assert pid == s.pending.value.pid && Holds(Full(s), step.cid, pid);
    SameBirthSamePlace(s, cid, pid, step.cid, pid);
    LetGo(s, step);
    DiedGrows(s, step, p.birth);
    UntouchedOk(s, step, cid, pid);
  }

  lemma HonestKept(s: State, step: Step)
    requires Core(s) && Enabled(s, step) && NewContainers(s, step) && !Misrecords(s, step)
    ensures Honest(Apply(s, step))
    ensures NothingMissed(s) && !Misses(s, step) ==> NothingMissed(Apply(s, step))
  {
    hide Apply, ProcessOk, NotMissed, Misses;
    var s' := Apply(s, step);
    forall cid, pid | Holds(Full(s'), cid, pid)
      ensures ProcessOk(s', pid, Full(s')[cid][pid])
      ensures NothingMissed(s) && !Misses(s, step) ==> NotMissed(s', pid, Full(s')[cid][pid])
    {
      ProcessAfter(s, step, cid, pid);
    }
  }

  // Keeping the descriptor invariant

  lemma FdsUntouched(s: State, step: Step, cid: Cid, pid: Pid)
    requires Core(s) && Enabled(s, step) && NewContainers(s, step)
    requires Holds(Full(Apply(s, step)), cid, pid) && !Touches(s, step, cid, pid)
    ensures FdsOk(Apply(s, step), Full(Apply(s, step))[cid][pid])
  {
    FullAfter(s, step, cid, pid);
    var s', p := Apply(s, step), Full(s)[cid][pid];
    assert FdsOk(s, p);
    NotTheTarget(s, step, cid, pid);
    forall r: Role ensures s'.closed[Fd(p.birth, r)] == s.closed[Fd(p.birth, r)] {
      ClosedUnlessTarget(s, step, Fd(p.birth, r));
    }
    HandedAfter(s, step);
    assert forall r: Role :: Fd(p.birth, r) in s'.handed <==> Fd(p.birth, r) in s.handed;
  }

  /** What stays untouched and tracked has none of its descriptors closed. */
  lemma NotTheTarget(s: State, step: Step, cid: Cid, pid: Pid)
    requires Core(s) && Enabled(s, step) && NewContainers(s, step)
    requires Holds(Full(s), cid, pid) && Holds(Full(Apply(s, step)), cid, pid) && !Touches(s, step, cid, pid)
    ensures match Target(s, step)
            case None => true
            case Some((c, q)) => s.containers[c][q].birth != Full(s)[cid][pid].birth
  {
    if Target(s, step).Some? {
      var (c, q) := Target(s, step).value;
      TargetOk(s, step);
      SameBirthSamePlace(s, cid, pid, c, q);
    }
  }

  lemma HandedAfter(s: State, step: Step)
    requires Enabled(s, step)
    ensures Apply(s, step).handed == if step.Fork? then s.handed + FdsOf(s.next, step.fds) else s.handed
  {
    hide Put, Drop, FdsOf, Code;
    if step.Record? {
      assert Apply(s, step) == WriteDown(s, step.cid);
      hide Apply;
    }
  }

  lemma FdsForked(s: State, q: Pid, fds: set<Role>)
    requires Descriptors(s) && Enabled(s, Fork(q, fds))
    ensures FdsOk(Apply(s, Fork(q, fds)), Process(s.next, fds, 0))
  {
    var s' := Apply(s, Fork(q, fds));
    forall r: Role ensures s'.closed[Fd(s.next, r)] == 0 {
      assert Fd(s.next, r) !in s.handed;
    }
  }

  lemma FoundKeepsFds(s: State, cid: Cid)
    requires Enabled(s, Record(cid))
    ensures var pid := s.pending.value.pid;
            var p, p' := s.containers[cid][pid], Apply(s, Record(cid)).containers[cid][pid];
            p'.birth == p.birth && p'.fds == p.fds
  {
    assert Apply(s, Record(cid)) == WriteDown(s, cid);
    hide Apply, Enabled;
  }

  lemma TargetCloses(s: State, step: Step)
    requires Enabled(s, step) && Target(s, step).Some?
    ensures var (cid, pid) := Target(s, step).value;
            var p := s.containers[cid][pid];
            forall r: Role ::
              Apply(s, step).closed[Fd(p.birth, r)]
                == s.closed[Fd(p.birth, r)] + if r in ClosedRoles(s, step, p) then 1 else 0
  {
    hide Apply, ClosedRoles;
    var (cid, pid) := Target(s, step).value;
    forall r: Role { ClosedAfter(s, step, Fd(s.containers[cid][pid].birth, r)); }
  }

  /** Closing set descriptors once each, and unsetting all but the write end. */
  lemma FdsClosed(s: State, s': State, p: Process, p': Process, gone: set<Role>)
    requires FdsOk(s, p) && p'.birth == p.birth && gone <= p.fds && p'.fds == p.fds - (gone - {ExitW})
    requires s'.handed == s.handed
    requires forall r: Role ::
               s'.closed[Fd(p.birth, r)] == s.closed[Fd(p.birth, r)] + if r in gone then 1 else 0
    ensures FdsOk(s', p')
  {
  }

  lemma FdsRecorded(s: State, cid: Cid)
    requires Honest(s) && Descriptors(s) && Enabled(s, Record(cid))
    ensures FdsOk(Apply(s, Record(cid)), Apply(s, Record(cid)).containers[cid][s.pending.value.pid])
  {
    TargetOk(s, Record(cid));
    FoundKeepsFds(s, cid);
    HandedAfter(s, Record(cid));
    TargetCloses(s, Record(cid));
    hide Apply, Honest, Descriptors, FdsOk;
    var pid, s' := s.pending.value.pid, Apply(s, Record(cid));
    var p := s.containers[cid][pid];
    FdsClosed(s, s', p, s'.containers[cid][pid], ClosedRoles(s, Record(cid), p));
  }

  lemma StdinUnset(s: State, cid: Cid, pid: Pid)
    requires Enabled(s, CloseStdin(cid, pid))
    ensures var p, p' := s.containers[cid][pid], Apply(s, CloseStdin(cid, pid)).containers[cid][pid];
            p'.birth == p.birth && p'.fds == p.fds - (p.fds * {Term, Stdin} - {ExitW})
  {
  }

  lemma FdsStdinClosed(s: State, cid: Cid, pid: Pid)
    requires Honest(s) && Descriptors(s) && Enabled(s, CloseStdin(cid, pid))
    ensures FdsOk(Apply(s, CloseStdin(cid, pid)), Apply(s, CloseStdin(cid, pid)).containers[cid][pid])
  {
    TargetOk(s, CloseStdin(cid, pid));
    StdinUnset(s, cid, pid);
    HandedAfter(s, CloseStdin(cid, pid));
    TargetCloses(s, CloseStdin(cid, pid));
    hide Apply, Honest, Descriptors, FdsOk;
    var p, s' := s.containers[cid][pid], Apply(s, CloseStdin(cid, pid));
    FdsClosed(s, s', p, s'.containers[cid][pid], p.fds * {Term, Stdin});
  }

  lemma FdsAfter(s: State, step: Step, cid: Cid, pid: Pid)
    requires Core(s) && Enabled(s, step) && NewContainers(s, step)
    requires Holds(Full(Apply(s, step)), cid, pid)
    ensures FdsOk(Apply(s, step), Full(Apply(s, step))[cid][pid])
  {
    if !Touches(s, step, cid, pid) {
      FdsUntouched(s, step, cid, pid);
    } else if step.Fork? {
      FullAfter(s, step, cid, pid);
      FdsForked(s, pid, step.fds);
    } else if step.Record? {
      FdsRecorded(s, step.cid);
    } else {
      FdsStdinClosed(s, cid, pid);
    }
  }

  lemma DescriptorsKept(s: State, step: Step)
    requires Core(s) && Enabled(s, step) && NewContainers(s, step) && !Misrecords(s, step)
    ensures Descriptors(Apply(s, step))
  {
    hide Apply, FdsOk, ClosedRoles;
    var s' := Apply(s, step);
    forall cid, pid | Holds(Full(s'), cid, pid) ensures FdsOk(s', Full(s')[cid][pid]) {
      FdsAfter(s, step, cid, pid);
    }
    HandedAfter(s, step);
    PidsGrow(s, step);
    forall f: Fd ensures s'.closed[f] <= 1 && (f in s'.closed ==> f in s'.handed) {
      ClosedAfter(s, step, f);
      if Target(s, step).Some? { ClosesOpen(s, step, f.role); }
    }
  }

  lemma CoreKept(s: State, step: Step)
    requires Core(s) && Enabled(s, step) && NewContainers(s, step) && !Misrecords(s, step)
    ensures Core(Apply(s, step))
    ensures NothingMissed(s) && !Misses(s, step) ==> NothingMissed(Apply(s, step))
  {
    hide Apply, Identities, Kernel, Honest, Descriptors, NothingMissed;
    IdentitiesKept(s, step);
    KernelKept(s, step);
    HonestKept(s, step);
    DescriptorsKept(s, step);
  }

  // When the reaper finds another process than it collected

  /** What the reaper is for: every pipe is closed once, after its own process's exit was collected; the recorded
      code is that exit's; and no collected exit stays unrecorded. */
  ghost predicate Faithful(s: State) {
    ClosedOnce(s) && Honest(s) && NothingMissed(s)
  }

  /** A status written down in the wrong place shows at once: the pipe was closed before, or the process has not been
      collected, or it had no status that could be written down. */
  lemma MisrecordShows(s: State, step: Step)
    requires Core(s) && NothingMissed(s) && Enabled(s, step) && Misrecords(s, step)
    ensures !ClosedOnce(Apply(s, step)) || !Honest(Apply(s, step))
  {
    var s', cid, pid := Apply(s, step), step.cid, s.pending.value.pid;
    var p, p' := s.containers[cid][pid], s'.containers[cid][pid];
    assert Holds(Full(s), cid, pid);
    assert ProcessOk(s, pid, p) && NotMissed(s, pid, p);
    ClosedAfter(s, step, Fd(p.birth, ExitW));
    UnderwayAfter(s, step, pid, p.birth);
    KernelUnmoved(s, step);
    assert p'.birth == p.birth && Holds(Full(s'), cid, pid) && Full(s')[cid][pid] == p';
    assert Recorded(s', p.birth);
    assert Recorded(s, p.birth) ==> s'.closed[Fd(p.birth, ExitW)] > 1;
    assert !Recorded(s, p.birth) ==> !ProcessOk(s', pid, p');
  }

  /** A collected exit that was not written down shows as well. */
  lemma MissShows(s: State, step: Step)
    requires Core(s) && Enabled(s, step) && NewContainers(s, step) && Misses(s, step)
    ensures !NothingMissed(Apply(s, step))
  {
    var s', pid := Apply(s, step), s.pending.value.pid;
    var cid :| cid in s.containers && Holds(s.containers, cid, pid)
      && s.containers[cid][pid].birth == s.pending.value.corpse.birth
      && Recordable(s.containers[cid][pid], s.pending.value.corpse.status);
    assert Holds(Full(s), cid, pid) && Holds(Full(s'), cid, pid);
    FullAfter(s, step, cid, pid);
    UnfoundMissed(s, step, cid, pid);
  }

  lemma StepFaithfulExactly(s: State, step: Step)
    requires Core(s) && NothingMissed(s) && Enabled(s, step) && NewContainers(s, step)
    ensures Faithful(Apply(s, step)) <==> !Misrecords(s, step) && !Misses(s, step)
  {
    hide Apply, Identities, Kernel, Honest, NothingMissed, Misrecords, Misses, ClosedOnce;
    if Misrecords(s, step) {
      MisrecordShows(s, step);
    } else if Misses(s, step) {
      MissShows(s, step);
    } else {
      CoreKept(s, step);
    }
  }
}
