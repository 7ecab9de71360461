/** The sandbox's storages, counted by the containers that use them. */
module SandboxStorage {

  import opened Basics

  type Storages = map<string, u32>

  datatype Op = Set(path: string) | Unset(path: string)

  /** The new counts and the answer to the caller; the counter has 32 bits and wraps. */
  datatype Outcome = Outcome(storages: Storages, answer: bool)

  function Step(s: Storages, op: Op): Outcome {
    match op
    case Set(path) =>
      if path !in s then Outcome(s[path := 1], true)
      else Outcome(s[path := (s[path] + 1) % TWO_TO_THE_32], false)
    case Unset(path) =>
      if path !in s then Outcome(s, false)
      else
        var count := (s[path] - 1) % TWO_TO_THE_32;
        Outcome(if count < 1 then s - {path} else s[path := count], true)
  }

  class Sandbox {
    var storages: Storages

    constructor ()
      ensures storages == map[]
    {
      storages := map[];
    }

    method SetSandboxStorage(path: string) returns (isNew: bool)
      modifies this
      ensures isNew == (path !in old(storages))
      ensures var users: int := if isNew then 0 else old(storages)[path];
              storages == old(storages)[path := (users + 1) % 0x1_0000_0000]
      ensures Outcome(storages, isNew) == Step(old(storages), Set(path))
    {
      if path !in storages {
        storages := storages[path := 1];
        isNew := true;
      } else {
        storages := storages[path := (storages[path] + 1) % TWO_TO_THE_32];
        isNew := false;
      }
    }

    method UnsetSandboxStorage(path: string) returns (found: bool)
      modifies this
      ensures found == (path in old(storages))
      ensures storages == if !found || old(storages)[path] == 1 then old(storages) - {path}
                          else if old(storages)[path] == 0 then old(storages)[path := 0xFFFF_FFFF]
                          else old(storages)[path := old(storages)[path] - 1]
      ensures Outcome(storages, found) == Step(old(storages), Unset(path))
    {
      if path !in storages {
        return false;
      }
      var count := (storages[path] - 1) % TWO_TO_THE_32;
      if count < 1 {
        storages := storages - {path};
      } else {
        storages := storages[path := count];
      }
      return true;
    }
  }

  // Whole runs

  /** The counts after a run from an empty sandbox. */
  function Run(ops: seq<Op>): Storages {
    if ops == [] then map[] else Step(Run(ops[..|ops| - 1]), ops[|ops| - 1]).storages
  }

  /** How many users a path has: an unset without a user is no debt. */
  function Users(ops: seq<Op>, path: string): nat {
    if ops == [] then 0
    else
      var before, op := Users(ops[..|ops| - 1], path), ops[|ops| - 1];
      if op.path != path then before
      else if op.Set? then before + 1
      else if before == 0 then 0 else before - 1
  }

  /** A path is listed exactly while it has users, with their number. */
  predicate Counted(s: Storages, path: string, users: nat) {
    && (path in s <==> users > 0)
    && (path in s ==> s[path] == users)
  }

  lemma StepKeepsCounts(s: Storages, op: Op, path: string, users: nat)
    requires Counted(s, path, users) && users < 0x1_0000_0000
    requires op == Set(path) ==> users + 1 < 0x1_0000_0000
    ensures var after := if op.path != path then users
                         else if op.Set? then users + 1
                         else if users == 0 then 0 else users - 1;
            Counted(Step(s, op).storages, path, after)
  {
  }

  lemma {:induction false} CountsAreUsers(ops: seq<Op>, path: string)
    requires forall k | 0 <= k <= |ops| :: Users(ops[..k], path) < 0x1_0000_0000
    ensures Counted(Run(ops), path, Users(ops, path))
  {
    if ops != [] {
      var before := ops[..|ops| - 1];
      forall k | 0 <= k <= |before| ensures Users(before[..k], path) < 0x1_0000_0000 {
        assert before[..k] == ops[..k];
      }
      CountsAreUsers(before, path);
      assert ops[..|ops|] == ops;
      StepKeepsCounts(Run(before), ops[|ops| - 1], path, Users(before, path));
    }
  }

  /** Over every run, the counts are right all along exactly when no path ever has 2^32 users; in particular the
      decrement never underflows. */
  lemma CountsAreUsersExactly(ops: seq<Op>, path: string)
    ensures (forall k | 0 <= k <= |ops| :: Counted(Run(ops[..k]), path, Users(ops[..k], path)))
        <==> (forall k | 0 <= k <= |ops| :: Users(ops[..k], path) < 0x1_0000_0000)
  {
    if forall k | 0 <= k <= |ops| :: Users(ops[..k], path) < 0x1_0000_0000 {
      forall k | 0 <= k <= |ops| ensures Counted(Run(ops[..k]), path, Users(ops[..k], path)) {
        forall i | 0 <= i <= k ensures Users(ops[..k][..i], path) < 0x1_0000_0000 {
          assert ops[..k][..i] == ops[..i];
        }
        CountsAreUsers(ops[..k], path);
      }
    } else {
      var k :| 0 <= k <= |ops| && Users(ops[..k], path) >= 0x1_0000_0000;
      assert !Counted(Run(ops[..k]), path, Users(ops[..k], path));
    }
  }

  /** Set answers true exactly for a path's first user, unset exactly when there was a user; other paths keep their
      counts. */
  lemma AnswersAreTransitions(ops: seq<Op>, op: Op, other: string)
    requires forall k | 0 <= k <= |ops| :: Users(ops[..k], op.path) < 0x1_0000_0000
    ensures op.Set? ==> Step(Run(ops), op).answer == (Users(ops, op.path) == 0)
    ensures op.Unset? ==> Step(Run(ops), op).answer == (Users(ops, op.path) > 0)
    ensures other != op.path ==>
              forall users: nat ::
                Counted(Step(Run(ops), op).storages, other, users) <==> Counted(Run(ops), other, users)
  {
    CountsAreUsers(ops, op.path);
  }

  lemma LastUserExactly(s: Storages, path: string, users: nat)
    requires Counted(s, path, users) && users < 0x1_0000_0000
    ensures (Step(s, Unset(path)).answer ==> path !in Step(s, Unset(path)).storages) <==> users <= 1
  {
  }

  /** The comment above the code promises true only once no container uses the storage; the code keeps that promise
      exactly when there was at most one user left. */
  lemma UnsetKeepsItsPromiseExactly(ops: seq<Op>, path: string)
    requires forall k | 0 <= k <= |ops| :: Users(ops[..k], path) < 0x1_0000_0000
    ensures (Step(Run(ops), Unset(path)).answer ==> path !in Step(Run(ops), Unset(path)).storages)
        <==> Users(ops, path) <= 1
  {
    CountsAreUsers(ops, path);
    assert ops[..|ops|] == ops;
    LastUserExactly(Run(ops), path, Users(ops, path));
  }
}
