/** What containers do with the sandbox's storages: creation counts and mounts them, removal unmounts and uncounts
    them. */
module ContainerStorages {
  import opened Basics
  import Counts = SandboxStorage

  type Cid = string

  /** Ephemeral storages are counted and mounted once, local ones only counted, all others mounted every time. */
  datatype Kind = Ephemeral | Local | Plain

  datatype Request = Request(kind: Kind, path: string)

  datatype State = State(
    storages: Counts.Storages,
    mounted: multiset<string>,       // the mount table: a path can be mounted over
    lists: map<Cid, seq<string>>,    // container_mounts
    containers: set<Cid>,
    users: map<Cid, set<string>>)    // the ephemeral storages that each container not yet destroyed was created with

  const INIT := State(map[], multiset{}, map[], {}, map[])

  // Creation

  function Listed(path: string): seq<string> {
    if path == "" then [] else [path]
  }

  /** One storage handler, and what add_storages notes of it. */
  function AddOne(s: State, r: Request): (State, seq<string>) {
    match r.kind
    case Plain => (s.(mounted := s.mounted + multiset{r.path}), Listed(r.path))
    case Local => (s.(storages := Counts.Step(s.storages, Counts.Set(r.path)).storages), [])
    case Ephemeral =>
      var o := Counts.Step(s.storages, Counts.Set(r.path));
      if o.answer then (s.(storages := o.storages, mounted := s.mounted + multiset{r.path}), Listed(r.path))
      else (s.(storages := o.storages), [])
  }

  function AddAll(s: State, rs: seq<Request>): (State, seq<string>) {
    if rs == [] then (s, [])
    else
      var (before, list) := AddAll(s, rs[..|rs| - 1]);
      var (after, more) := AddOne(before, rs[|rs| - 1]);
      (after, list + more)
  }

  function EphemeralPaths(rs: seq<Request>): set<string> {
    set r | r in rs && r.kind == Ephemeral :: r.path
  }

  function Created(s: State, cid: Cid, rs: seq<Request>): State {
    var (added, list) := AddAll(s, rs);
    added.(lists := s.lists[cid := list], containers := s.containers + {cid},
           users := s.users[cid := EphemeralPaths(rs)])
  }

  // Removal

  /** The paths that remove_mounts unmounts: all, or those before the first that is not mounted. */
  function Unmounted(mounted: multiset<string>, ms: seq<string>): seq<string> {
    if ms == [] || ms[0] !in mounted then [] else [ms[0]] + Unmounted(mounted - multiset{ms[0]}, ms[1..])
  }

  datatype Released = Released(storages: Counts.Storages, mounted: multiset<string>, ok: bool)

  /** unset_and_remove_sandbox_storage, path after path, up to the first that cannot be unmounted. */
  function Release(storages: Counts.Storages, mounted: multiset<string>, ms: seq<string>): Released
    decreases |ms|
  {
    if ms == [] then Released(storages, mounted, true)
    else
      var o := Counts.Step(storages, Counts.Unset(ms[0]));
      if !o.answer then Release(o.storages, mounted, ms[1..])
      else if ms[0] !in mounted then Released(o.storages, mounted, false)
      else Release(o.storages, mounted - multiset{ms[0]}, ms[1..])
  }

  function Counted(ms: seq<string>, storages: Counts.Storages): seq<string> {
    if ms == [] then [] else (if ms[0] in storages then [ms[0]] else []) + Counted(ms[1..], storages)
  }

  /** do_remove_container, once the container is destroyed: the new state, and whether it succeeds. */
  function Removed(s: State, cid: Cid): (State, bool) {
    var destroyed := s.(users := s.users - {cid});
    if cid !in s.lists then (destroyed.(containers := s.containers - {cid}), true)
    else
      var us := Unmounted(s.mounted, s.lists[cid]);
      var unmounted := destroyed.(mounted := s.mounted - multiset(us));
      if us != s.lists[cid] then (unmounted, false)
      else
        var r := Release(s.storages, unmounted.mounted, Counted(s.lists[cid], s.storages));
        var released := unmounted.(storages := r.storages, mounted := r.mounted);
        if !r.ok then (released, false)
        else (released.(lists := s.lists - {cid}, containers := s.containers - {cid}), true)
  }

  /** Removal by what it comes to: no list, a path that cannot be unmounted, a counted one that cannot be released, or
      the whole way. The container is destroyed in any case. */
  lemma RemovalInStages(s: State, cid: Cid)
    ensures cid !in s.lists ==>
              Removed(s, cid) == (State(s.storages, s.mounted, s.lists, s.containers - {cid}, s.users - {cid}), true)
    ensures cid in s.lists ==>
              var list, us := s.lists[cid], Unmounted(s.mounted, s.lists[cid]);
              var r := Release(s.storages, s.mounted - multiset(list), Counted(list, s.storages));
              Removed(s, cid)
              == if us != list then
                   (State(s.storages, s.mounted - multiset(us), s.lists, s.containers, s.users - {cid}), false)
                 else if !r.ok then (State(r.storages, r.mounted, s.lists, s.containers, s.users - {cid}), false)
                 else (State(r.storages, r.mounted, s.lists - {cid}, s.containers - {cid}, s.users - {cid}), true)
  {
  }

  lemma NoneUnmounted(mounted: multiset<string>, ms: seq<string>)
    requires ms == [] || ms[0] !in mounted
    ensures Unmounted(mounted, ms) == []
  {
  }

  lemma OneUnmounted(mounted: multiset<string>, m: string, ms: seq<string>)
    requires m in mounted
    ensures Unmounted(mounted, [m] + ms) == [m] + Unmounted(mounted - multiset{m}, ms)
  {
    assert ([m] + ms)[1..] == ms;
  }

  lemma MoveOver(a: seq<string>, m: string, b: seq<string>)
    ensures a + ([m] + b) == a + [m] + b
  {
  }

  lemma TakenOff(was: multiset<string>, done: seq<string>, m: string)
    ensures was - multiset(done) - multiset{m} == was - multiset(done + [m])
  {
    var a := multiset(done);
    assert multiset(done + [m]) == a + multiset{m};
    forall x ensures (was - a - multiset{m})[x] == (was - (a + multiset{m}))[x] {
    }
  }

  /** The first i paths are unmounted. */
  ghost predicate UnmountedUpTo(was: multiset<string>, now: multiset<string>, ms: seq<string>, i: nat) {
    && i <= |ms| && now == was - multiset(ms[..i])
    && Unmounted(was, ms) == ms[..i] + Unmounted(now, ms[i..])
  }

  lemma UnmountingStarts(was: multiset<string>, ms: seq<string>)
    ensures UnmountedUpTo(was, was, ms, 0)
  {
    assert ms[..0] == [] && ms[0..] == ms && [] + Unmounted(was, ms) == Unmounted(was, ms);
  }

  lemma UnmountingGoesOn(was: multiset<string>, now: multiset<string>, ms: seq<string>, i: nat)
    requires UnmountedUpTo(was, now, ms, i) && i < |ms| && ms[i] in now
    ensures UnmountedUpTo(was, now - multiset{ms[i]}, ms, i + 1)
  {
    hide Unmounted;
    var done, m, rest := ms[..i], ms[i], ms[i + 1..];
    assert ms[i..] == [m] + rest && ms[..i + 1] == done + [m];
    OneUnmounted(now, m, rest);
    MoveOver(done, m, Unmounted(now - multiset{m}, rest));
    TakenOff(was, done, m);
  }

  lemma UnmountingStops(was: multiset<string>, now: multiset<string>, ms: seq<string>, i: nat)
    requires UnmountedUpTo(was, now, ms, i) && (i == |ms| || ms[i] !in now)
    ensures now == was - multiset(Unmounted(was, ms)) && (Unmounted(was, ms) == ms <==> i == |ms|)
  {
    NoneUnmounted(now, ms[i..]);
    hide Unmounted;
    assert ms[..i] + [] == ms[..i];
  }

  /** The sandbox, as creation and removal of containers use it. */
  class Sandbox {
    var storages: Counts.Storages
    var mounted: multiset<string>
    var lists: map<Cid, seq<string>>
    var containers: set<Cid>
    ghost var users: map<Cid, set<string>>

    constructor ()
      ensures Model() == INIT
    {
      storages, mounted, lists, containers, users := map[], multiset{}, map[], {}, map[];
    }

    ghost function Model(): State
      reads this
    {
      State(storages, mounted, lists, containers, users)
    }

    method AddStorage(r: Request) returns (list: seq<string>)
      modifies this`storages, this`mounted
      ensures (Model(), list) == AddOne(old(Model()), r)
    {
      match r.kind {
        case Plain =>
          mounted := mounted + multiset{r.path};
          return Listed(r.path);
        case Local =>
          storages := Counts.Step(storages, Counts.Set(r.path)).storages;
          return [];
        case Ephemeral =>
          var o := Counts.Step(storages, Counts.Set(r.path));
          storages := o.storages;
          if !o.answer {
            return [];
          }
          mounted := mounted + multiset{r.path};
          return Listed(r.path);
      }
    }

    method AddStorages(rs: seq<Request>) returns (list: seq<string>)
      modifies this`storages, this`mounted
      ensures (Model(), list) == AddAll(old(Model()), rs)
    {
      list := [];
      for i := 0 to |rs|
        invariant lists == old(lists) && containers == old(containers) && users == old(users)
        invariant (Model(), list) == AddAll(old(Model()), rs[..i])
      {
        var more := AddStorage(rs[i]);
        list := list + more;
        assert rs[..i + 1][..i] == rs[..i];
      }
      assert rs[..|rs|] == rs;
    }

    method CreateContainer(cid: Cid, rs: seq<Request>)
      modifies this
      ensures mounted == old(mounted) + multiset(Mounts(old(storages).Keys, rs))
      ensures forall path :: CountsAfter(old(storages), storages, rs, path)
      ensures lists == old(lists)[cid := NonEmpty(Mounts(old(storages).Keys, rs))]
      ensures containers == old(containers) + {cid}
      ensures users == old(users)[cid := set r | r in rs && r.kind == Ephemeral :: r.path]
      ensures Model() == Created(old(Model()), cid, rs)
    {
      AddedExactly(Model(), rs);
      var list := AddStorages(rs);
      lists := lists[cid := list];
      containers := containers + {cid};
      users := users[cid := EphemeralPaths(rs)];
    }

    method RemoveMounts(ms: seq<string>) returns (ok: bool)
      modifies this`mounted
      ensures var us := Unmounted(old(mounted), ms);
              mounted == old(mounted) - multiset(us) && ok == (us == ms)
    {
      hide Unmounted, UnmountedUpTo;
      var i := 0;
      UnmountingStarts(mounted, ms);
      while i < |ms|
        invariant 0 <= i <= |ms| && UnmountedUpTo(old(mounted), mounted, ms, i)
      {
        if ms[i] !in mounted {
          UnmountingStops(old(mounted), mounted, ms, i);
          return false;
        }
        UnmountingGoesOn(old(mounted), mounted, ms, i);
        mounted := mounted - multiset{ms[i]};
        i := i + 1;
      }
      UnmountingStops(old(mounted), mounted, ms, i);
      return true;
    }

    method ReleaseAll(ms: seq<string>) returns (ok: bool)
      modifies this`storages, this`mounted
      ensures Released(storages, mounted, ok) == Release(old(storages), old(mounted), ms)
    {
      var i := 0;
      assert ms[0..] == ms;
      while i < |ms|
        invariant 0 <= i <= |ms|
        invariant Release(old(storages), old(mounted), ms) == Release(storages, mounted, ms[i..])
      {
        assert ms[i..][1..] == ms[i + 1..];
        var o := Counts.Step(storages, Counts.Unset(ms[i]));
        storages := o.storages;
        if o.answer {
          if ms[i] !in mounted {
            return false;
          }
          mounted := mounted - multiset{ms[i]};
        }
        i := i + 1;
      }
      return true;
    }

    method RemoveContainer(cid: Cid) returns (ok: bool)
      modifies this
      ensures (Model(), ok) == Removed(old(Model()), cid)
    {
      users := users - {cid};
      if cid in lists {
        ok := RemoveMounts(lists[cid]);
        if !ok {
          return;
        }
        ok := ReleaseAll(Counted(lists[cid], storages));
        if !ok {
          return;
        }
        lists := lists - {cid};
      }
      containers := containers - {cid};
      return true;
    }
  }

  // What one creation and one removal come to

  /** The paths that creation mounts, in request order, when these are counted already. */
  function Mounts(counted: set<string>, rs: seq<Request>): seq<string>
    decreases |rs|
  {
    if rs == [] then []
    else if rs[0].kind == Plain then [rs[0].path] + Mounts(counted, rs[1..])
    else
      (if rs[0].kind == Ephemeral && rs[0].path !in counted then [rs[0].path] else [])
      + Mounts(counted + {rs[0].path}, rs[1..])
  }

  /** How often a path is asked for by requests that count. */
  function Asked(rs: seq<Request>, path: string): nat {
    multiset(rs)[Request(Ephemeral, path)] + multiset(rs)[Request(Local, path)]
  }

  function NonEmpty(paths: seq<string>): seq<string> {
    if paths == [] then [] else (if paths[0] == "" then [] else [paths[0]]) + NonEmpty(paths[1..])
  }

  ghost predicate CountsAfter(before: Counts.Storages, after: Counts.Storages, rs: seq<Request>, path: string) {
    && (path in after <==> path in before || Asked(rs, path) > 0)
    && (path in after ==>
          after[path] == ((if path in before then before[path] else 0) + Asked(rs, path)) % 0x1_0000_0000)
  }

  lemma {:induction false} MountsSnoc(counted: set<string>, rs: seq<Request>, r: Request)
    ensures var more := if r.kind == Plain
                           || (r.kind == Ephemeral && r.path !in counted && Asked(rs, r.path) == 0) then [r.path]
                        else [];
            Mounts(counted, rs + [r]) == Mounts(counted, rs) + more
    decreases |rs|
  {
    if rs == [] {
      assert (rs + [r])[1..] == [];
      assert Mounts(counted + {r.path}, []) == [] && Mounts(counted, []) == [];
    } else {
      assert (rs + [r])[1..] == rs[1..] + [r] && (rs + [r])[0] == rs[0];
      assert rs == [rs[0]] + rs[1..];
      assert multiset(rs) == multiset{rs[0]} + multiset(rs[1..]);
      MountsSnoc(if rs[0].kind == Plain then counted else counted + {rs[0].path}, rs[1..], r);
    }
  }

  lemma {:induction false} NonEmptySnoc(paths: seq<string>, path: string)
    ensures NonEmpty(paths + [path]) == NonEmpty(paths) + if path == "" then [] else [path]
  {
    if paths == [] {
      assert ([path])[1..] == [];
    } else {
      assert (paths + [path])[1..] == paths[1..] + [path] && (paths + [path])[0] == paths[0];
      NonEmptySnoc(paths[1..], path);
    }
  }

  /** Ephemeral storages are mounted for the first that asks, local ones never, all others each time; what is mounted,
      but for empty paths, is noted in request order; and every ephemeral and local request counts. */
  lemma {:induction false} AddedExactly(s: State, rs: seq<Request>)
    ensures var (added, list) := AddAll(s, rs);
            && added.mounted == s.mounted + multiset(Mounts(s.storages.Keys, rs))
            && list == NonEmpty(Mounts(s.storages.Keys, rs))
            && forall path :: CountsAfter(s.storages, added.storages, rs, path)
  {
    if rs == [] {
      NothingAdded(s);
    } else {
      hide AddAll, AddOne, Mounts, NonEmpty, CountsAfter;
      var front, r := rs[..|rs| - 1], rs[|rs| - 1];
      assert front + [r] == rs;
      AddedExactly(s, front);
      AddAllStep(s, front, r);
      var (before, list) := AddAll(s, front);
      OneAdded(s.storages, before, front, r);
      var paths := Mounts(s.storages.Keys, front);
      MountsSnoc(s.storages.Keys, front, r);
      NonEmptySnoc(paths, r.path);
      assert multiset(paths + [r.path]) == multiset(paths) + multiset{r.path};
      assert paths + [] == paths && list + [] == list;
    }
  }

  lemma AddAllStep(s: State, front: seq<Request>, r: Request)
    ensures var (before, list) := AddAll(s, front);
            var (after, more) := AddOne(before, r);
            AddAll(s, front + [r]) == (after, list + more)
  {
    assert (front + [r])[..|front|] == front;
  }

  lemma NothingAdded(s: State)
    ensures AddAll(s, []) == (s, []) && Mounts(s.storages.Keys, []) == [] && NonEmpty([]) == []
    ensures forall path :: CountsAfter(s.storages, s.storages, [], path)
  {
  }

  lemma OneAdded(start: Counts.Storages, before: State, front: seq<Request>, r: Request)
    requires forall path :: CountsAfter(start, before.storages, front, path)
    ensures var (after, more) := AddOne(before, r);
            var mounts := r.kind == Plain || (r.kind == Ephemeral && r.path !in start && Asked(front, r.path) == 0);
            && (forall path :: CountsAfter(start, after.storages, front + [r], path))
            && after.mounted == before.mounted + (if mounts then multiset{r.path} else multiset{})
            && more == if mounts && r.path != "" then [r.path] else []
  {
    assert CountsAfter(start, before.storages, front, r.path);
    forall path ensures CountsAfter(start, AddOne(before, r).0.storages, front + [r], path) {
      assert CountsAfter(start, before.storages, front, path);
      OneCounted(start, before, front, r, path);
    }
    hide CountsAfter;
  }

  lemma AskedSnoc(front: seq<Request>, r: Request, path: string)
    ensures Asked(front + [r], path) == Asked(front, path) + if r.kind != Plain && r.path == path then 1 else 0
  {
    assert multiset(front + [r]) == multiset(front) + multiset{r};
  }

  lemma OneCounted(start: Counts.Storages, before: State, front: seq<Request>, r: Request, path: string)
    requires CountsAfter(start, before.storages, front, path)
    ensures CountsAfter(start, AddOne(before, r).0.storages, front + [r], path)
  {
    AskedSnoc(front, r, path);
    hide Asked, Listed;
    NextNumber((if path in start then start[path] else 0) + Asked(front, path));
    assert AddOne(before, r).0.storages
      == if r.kind == Plain then before.storages else Counts.Step(before.storages, Counts.Set(r.path)).storages;
    hide AddOne;
  }

  /** Unmounting stops at the first path that is not mounted any more. */
  lemma {:induction false} UnmountedExactly(mounted: multiset<string>, ms: seq<string>, n: nat)
    requires n <= |ms| && multiset(ms[..n]) <= mounted
    requires n < |ms| ==> mounted[ms[n]] == multiset(ms[..n])[ms[n]]
    ensures Unmounted(mounted, ms) == ms[..n]
    decreases |ms|
  {
    if n > 0 {
      assert ms[..n] == [ms[0]] + ms[1..][..n - 1];
      assert multiset(ms[..n]) == multiset{ms[0]} + multiset(ms[1..][..n - 1]);
      UnmountedExactly(mounted - multiset{ms[0]}, ms[1..], n - 1);
    }
  }

  /** These paths have one user less, the others the same. */
  ghost predicate OneUserLess(before: Counts.Storages, after: Counts.Storages, ms: seq<string>) {
    forall path ::
      if path in ms && path in before then
        var users: int := before[path];
        if users == 1 then path !in after else path in after && after[path] == (users - 1) % 0x1_0000_0000
      else
        (path in after <==> path in before) && (path in after ==> after[path] == before[path])
  }

  lemma FirstReleased(storages: Counts.Storages, m: string)
    requires m in storages
    ensures var o := Counts.Step(storages, Counts.Unset(m));
            o.answer && OneUserLess(storages, o.storages, [m])
  {
  }

  lemma OneUserLessOn(a: Counts.Storages, m: string, b: Counts.Storages, ms: seq<string>, c: Counts.Storages)
    requires OneUserLess(a, b, [m]) && OneUserLess(b, c, ms) && m !in ms
    ensures OneUserLess(a, c, [m] + ms)
  {
  }

  lemma StillMounted(mounted: multiset<string>, ms: seq<string>, n: nat)
    requires forall i, j | 0 <= i < j < |ms| :: ms[i] != ms[j]
    requires 0 < n <= |ms| && (forall i | 0 <= i < n :: ms[i] in mounted) && (n < |ms| ==> ms[n] !in mounted)
    ensures var left, rest := mounted - multiset{ms[0]}, ms[1..];
            && (forall i | 0 <= i < n - 1 :: rest[i] in left) && (n - 1 < |rest| ==> rest[n - 1] !in left)
            && left - multiset(rest[..n - 1]) == mounted - multiset(ms[..n])
  {
    var rest := ms[1..];
    assert forall i | 0 <= i < |rest| :: rest[i] == ms[i + 1] && rest[i] != ms[0];
    assert ms[..n] == [ms[0]] + rest[..n - 1];
    assert multiset(ms[..n]) == multiset{ms[0]} + multiset(rest[..n - 1]);
  }

  /** The first n paths are unmounted, and these and the next have one user less. */
  ghost predicate ReleasedUpTo(storages: Counts.Storages, mounted: multiset<string>, ms: seq<string>, n: nat) {
    var r := Release(storages, mounted, ms);
    && n <= |ms| && r.mounted == mounted - multiset(ms[..n]) && r.ok == (n == |ms|)
    && OneUserLess(storages, r.storages, ms[..if n < |ms| then n + 1 else n])
  }

  ghost predicate Releasable(storages: Counts.Storages, mounted: multiset<string>, ms: seq<string>, n: nat) {
    && (forall m | m in ms :: m in storages) && (forall i, j | 0 <= i < j < |ms| :: ms[i] != ms[j])
    && n <= |ms| && (forall i | 0 <= i < n :: ms[i] in mounted) && (n < |ms| ==> ms[n] !in mounted)
  }

  /** Releasing paths that are counted: each loses one user and is unmounted, up to the first with nothing mounted on
      it, which still loses its user. */
  lemma {:induction false} ReleasedExactly(storages: Counts.Storages, mounted: multiset<string>, ms: seq<string>,
                                           n: nat)
    requires Releasable(storages, mounted, ms, n)
    ensures ReleasedUpTo(storages, mounted, ms, n)
    decreases |ms|
  {
    if ms == [] {
      assert OneUserLess(storages, storages, []);
    } else {
      var o := Counts.Step(storages, Counts.Unset(ms[0]));
      ReleaseStep(storages, mounted, ms);
      FirstReleased(storages, ms[0]);
      if n == 0 {
        assert ms[..1] == [ms[0]] && ms[..0] == [];
      } else {
        StillReleasable(storages, mounted, ms, n);
        hide Releasable, ReleasedUpTo;
        ReleasedExactly(o.storages, mounted - multiset{ms[0]}, ms[1..], n - 1);
        ReleasedOn(storages, mounted, ms, n);
      }
    }
  }

  lemma StillReleasable(storages: Counts.Storages, mounted: multiset<string>, ms: seq<string>, n: nat)
    requires Releasable(storages, mounted, ms, n) && n > 0
    ensures Releasable(Counts.Step(storages, Counts.Unset(ms[0])).storages, mounted - multiset{ms[0]}, ms[1..], n - 1)
  {
    assert forall i | 0 <= i < |ms| - 1 :: ms[1..][i] == ms[i + 1];
    StillMounted(mounted, ms, n);
    FirstReleased(storages, ms[0]);
    forall m | m in ms[1..] ensures m in Counts.Step(storages, Counts.Unset(ms[0])).storages {
      OthersStay(storages, ms[0], Counts.Step(storages, Counts.Unset(ms[0])).storages, m);
    }
  }

  lemma ReleasedOn(storages: Counts.Storages, mounted: multiset<string>, ms: seq<string>, n: nat)
    requires Releasable(storages, mounted, ms, n) && n > 0
    requires var o := Counts.Step(storages, Counts.Unset(ms[0]));
             ReleasedUpTo(o.storages, mounted - multiset{ms[0]}, ms[1..], n - 1)
    ensures ReleasedUpTo(storages, mounted, ms, n)
  {
    var rest, o := ms[1..], Counts.Step(storages, Counts.Unset(ms[0]));
    var k := if n < |ms| then n + 1 else n;
    FirstOfMany(storages, mounted, ms, k);
    hide Releasable, OneUserLess, Release, Counts.Step;
    LessToTake(mounted, ms, n);
    OneUserLessOn(storages, ms[0], o.storages, rest[..k - 1], Release(storages, mounted, ms).storages);
  }

  lemma FirstOfMany(storages: Counts.Storages, mounted: multiset<string>, ms: seq<string>, k: nat)
    requires Releasable(storages, mounted, ms, k) || (k > 1 && Releasable(storages, mounted, ms, k - 1))
    requires 0 < k <= |ms|
    ensures ms[0] in mounted && ms[0] !in ms[1..][..k - 1] && ms[..k] == [ms[0]] + ms[1..][..k - 1]
    ensures var o := Counts.Step(storages, Counts.Unset(ms[0]));
            && OneUserLess(storages, o.storages, [ms[0]])
            && Release(storages, mounted, ms) == Release(o.storages, mounted - multiset{ms[0]}, ms[1..])
  {
    ReleaseStep(storages, mounted, ms);
    FirstReleased(storages, ms[0]);
    hide OneUserLess, Release, Counts.Step;
    var front := ms[1..][..k - 1];
    assert forall i | 0 <= i < |front| :: front[i] == ms[i + 1];
  }

  lemma LessToTake(mounted: multiset<string>, ms: seq<string>, n: nat)
    requires 0 < n <= |ms|
    ensures mounted - multiset{ms[0]} - multiset(ms[1..][..n - 1]) == mounted - multiset(ms[..n])
  {
    assert ms[..n] == [ms[0]] + ms[1..][..n - 1];
    assert multiset(ms[..n]) == multiset{ms[0]} + multiset(ms[1..][..n - 1]);
  }

  lemma ReleaseStep(storages: Counts.Storages, mounted: multiset<string>, ms: seq<string>)
    requires ms != [] && ms[0] in storages
    ensures var o := Counts.Step(storages, Counts.Unset(ms[0]));
            Release(storages, mounted, ms)
            == if ms[0] !in mounted then Released(o.storages, mounted, false)
               else Release(o.storages, mounted - multiset{ms[0]}, ms[1..])
  {
  }

  lemma OthersStay(before: Counts.Storages, m: string, after: Counts.Storages, other: string)
    requires OneUserLess(before, after, [m]) && other != m && other in before
    ensures other in after
  {
  }

  // Runs

  datatype Step = Create(cid: Cid, requests: seq<Request>) | Remove(cid: Cid)

  /** The given paths are those of ephemeral storages and of no others. */
  predicate Apart(rs: seq<Request>, shared: set<string>) {
    forall r | r in rs :: r.kind == Ephemeral <==> r.path in shared
  }

  predicate Enabled(s: State, step: Step, shared: set<string>) {
    match step
    case Create(cid, rs) => cid !in s.containers && Apart(rs, shared)
    case Remove(cid) => cid in s.containers
  }

  function Apply(s: State, step: Step): State {
    match step
    case Create(cid, rs) => Created(s, cid, rs)
    case Remove(cid) => Removed(s, cid).0
  }

  ghost predicate Execution(states: seq<State>, steps: seq<Step>, shared: set<string>) {
    && |states| == |steps| + 1 && states[0] == INIT
    && forall i | 0 <= i < |steps| ::
         Enabled(states[i], steps[i], shared) && states[i + 1] == Apply(states[i], steps[i])
  }

  /** A shared path is mounted once at most, and is counted while it is; who lists it does so once. */
  ghost predicate PathOk(s: State, path: string) {
    && s.mounted[path] <= 1 && (path in s.mounted ==> path in s.storages)
    && forall cid | cid in s.lists :: multiset(s.lists[cid])[path] <= 1
  }

  ghost predicate Inv(s: State, shared: set<string>) {
    && (forall path | path in shared :: PathOk(s, path))
    && s.lists.Keys <= s.containers && s.users.Keys <= s.containers
    && forall cid | cid in s.users :: s.users[cid] <= shared
  }

  /** What adding storages does about one path, if it is asked for as an ephemeral one, or not at all. */
  ghost predicate Effect(s: State, s': State, list: seq<string>, asked: bool, path: string) {
    var mounts := asked && path !in s.storages;
    && s'.lists == s.lists && s'.containers == s.containers && s'.users == s.users
    && s'.mounted[path] == s.mounted[path] + (if mounts then 1 else 0)
    && (path in s'.storages <==> path in s.storages || asked)
    && multiset(list)[path] <= if mounts then 1 else 0
  }

  lemma AddOneAt(s: State, r: Request, path: string)
    requires r.path == path ==> r.kind == Ephemeral
    ensures var (s', list) := AddOne(s, r); Effect(s, s', list, r.path == path, path)
  {
    match r.kind
    case Plain =>
    case Local =>
    case Ephemeral =>
  }

  lemma EffectTwice(s: State, m: State, l: seq<string>, a: bool, s': State, k: seq<string>, b: bool, path: string)
    requires Effect(s, m, l, a, path) && Effect(m, s', k, b, path)
    ensures Effect(s, s', l + k, a || b, path)
  {
    assert multiset(l + k) == multiset(l) + multiset(k);
  }

  lemma {:induction false} AddAllAt(s: State, rs: seq<Request>, shared: set<string>, path: string)
    requires Apart(rs, shared) && path in shared
    ensures var (s', list) := AddAll(s, rs); Effect(s, s', list, path in EphemeralPaths(rs), path)
  {
    if rs == [] {
      assert path !in EphemeralPaths([]);
    } else {
      var front, r := rs[..|rs| - 1], rs[|rs| - 1];
      assert r in rs && forall q | q in front :: q in rs;
      assert front + [r] == rs;
      AddAllAt(s, front, shared, path);
      hide Effect, AddOne, EphemeralPaths, Apart;
      var (before, list) := AddAll(s, front);
      var (after, more) := AddOne(before, r);
      AddOneAt(before, r, path);
      EffectTwice(s, before, list, path in EphemeralPaths(front), after, more, r.path == path, path);
      PathsSnoc(front, r, path);
    }
  }

  lemma PathsSnoc(front: seq<Request>, r: Request, path: string)
    requires r.path == path ==> r.kind == Ephemeral
    ensures path in EphemeralPaths(front + [r]) <==> path in EphemeralPaths(front) || r.path == path
  {
    assert forall q :: q in front + [r] <==> q in front || q == r;
  }

  lemma {:induction false} UnmountedAt(mounted: multiset<string>, ms: seq<string>, path: string)
    ensures var us := Unmounted(mounted, ms);
            && us <= ms && multiset(us)[path] <= mounted[path] && multiset(us)[path] <= multiset(ms)[path]
            && (path in us <==> multiset(us)[path] > 0)
    decreases |ms|
  {
    if ms != [] && ms[0] in mounted {
      var rest := Unmounted(mounted - multiset{ms[0]}, ms[1..]);
      UnmountedAt(mounted - multiset{ms[0]}, ms[1..], path);
      assert ms == [ms[0]] + ms[1..];
      assert multiset([ms[0]] + rest) == multiset{ms[0]} + multiset(rest);
      assert multiset(ms) == multiset{ms[0]} + multiset(ms[1..]);
    }
  }

  /** Releasing never mounts, and does nothing to what is not released. */
  lemma {:induction false} ReleaseAt(storages: Counts.Storages, mounted: multiset<string>, ms: seq<string>,
                                     path: string)
    ensures var r := Release(storages, mounted, ms);
            && r.mounted[path] <= mounted[path]
            && (path !in ms ==> r.mounted[path] == mounted[path] && (path in r.storages <==> path in storages))
    decreases |ms|
  {
    if ms != [] {
      var o := Counts.Step(storages, Counts.Unset(ms[0]));
      assert path !in ms ==> path != ms[0] && path !in ms[1..];
      if !o.answer {
        ReleaseAt(o.storages, mounted, ms[1..], path);
      } else if ms[0] in mounted {
        ReleaseAt(o.storages, mounted - multiset{ms[0]}, ms[1..], path);
      }
    }
  }

  lemma {:induction false} CountedAt(ms: seq<string>, storages: Counts.Storages, path: string)
    ensures multiset(Counted(ms, storages))[path] == if path in storages then multiset(ms)[path] else 0
    ensures path in Counted(ms, storages) <==> path in ms && path in storages
  {
    if ms != [] {
      CountedAt(ms[1..], storages, path);
      var head := if ms[0] in storages then [ms[0]] else [];
      assert ms == [ms[0]] + ms[1..];
      assert multiset(ms) == multiset{ms[0]} + multiset(ms[1..]);
      assert multiset(head + Counted(ms[1..], storages)) == multiset(head) + multiset(Counted(ms[1..], storages));
    }
  }

  /** What a removal unmounts. */
  function Takes(s: State, cid: Cid): seq<string> {
    if cid in s.lists then Unmounted(s.mounted, s.lists[cid]) else []
  }

  lemma RemovedAt(s: State, cid: Cid, path: string)
    requires PathOk(s, path)
    ensures var s' := Removed(s, cid).0;
            && s'.mounted[path] + (if path in Takes(s, cid) then 1 else 0) == s.mounted[path]
            && PathOk(s', path)
  {
    RemovalInStages(s, cid);
    hide Removed, Release, Unmounted, Counted, Counts.Step;
    if cid in s.lists {
      var list := s.lists[cid];
      var us := Unmounted(s.mounted, list);
      UnmountedAt(s.mounted, list, path);
      if us == list {
        var left := s.mounted - multiset(us);
        ReleaseAt(s.storages, left, Counted(list, s.storages), path);
        CountedAt(list, s.storages, path);
      }
    }
  }

  /** A path with nothing mounted on it stops the releasing. */
  lemma {:induction false} ReleaseFails(storages: Counts.Storages, mounted: multiset<string>, ms: seq<string>,
                                        path: string)
    requires path in ms && path in storages && path !in mounted && multiset(ms)[path] <= 1
    ensures !Release(storages, mounted, ms).ok
    decreases |ms|
  {
    if ms[0] != path {
      assert ms == [ms[0]] + ms[1..];
      assert multiset(ms) == multiset{ms[0]} + multiset(ms[1..]);
      var o := Counts.Step(storages, Counts.Unset(ms[0]));
      if !o.answer {
        ReleaseFails(o.storages, mounted, ms[1..], path);
      } else if ms[0] in mounted {
        ReleaseFails(o.storages, mounted - multiset{ms[0]}, ms[1..], path);
      }
    }
  }

  /** The container that an ephemeral storage was mounted for cannot be removed: what remove_mounts has unmounted is
      to be unmounted once more. */
  lemma OwnerIsNotRemoved(s: State, cid: Cid, path: string)
    requires PathOk(s, path) && cid in s.lists && path in s.lists[cid]
    ensures !Removed(s, cid).1 && Removed(s, cid).0.containers == s.containers && Removed(s, cid).0.lists == s.lists
  {
    var list := s.lists[cid];
    var us := Unmounted(s.mounted, list);
    UnmountedAt(s.mounted, list, path);
    if us == list {
      CountedAt(list, s.storages, path);
      ReleaseFails(s.storages, s.mounted - multiset(us), Counted(list, s.storages), path);
    }
  }

  lemma {:induction false} AllUnmounted(mounted: multiset<string>, ms: seq<string>)
    requires multiset(ms) <= mounted
    ensures Unmounted(mounted, ms) == ms
    decreases |ms|
  {
    if ms != [] {
      assert ms == [ms[0]] + ms[1..];
      assert multiset(ms) == multiset{ms[0]} + multiset(ms[1..]);
      AllUnmounted(mounted - multiset{ms[0]}, ms[1..]);
    }
  }

  lemma NothingCounted(ms: seq<string>, storages: Counts.Storages)
    ensures Counted(ms, storages) == [] <==> forall m | m in ms :: m !in storages
  {
    if Counted(ms, storages) == [] {
      forall m | m in ms ensures m !in storages {
        CountedAt(ms, storages, m);
      }
    } else {
      CountedAt(ms, storages, Counted(ms, storages)[0]);
    }
  }

  /** When everything a container lists is mounted just for it, its removal succeeds exactly when none of it is
      counted as a sandbox storage. */
  lemma RemovalSucceedsExactly(s: State, cid: Cid)
    requires cid in s.lists && forall m | m in s.lists[cid] :: s.mounted[m] == multiset(s.lists[cid])[m]
    ensures Removed(s, cid).1 <==> forall m | m in s.lists[cid] :: m !in s.storages
  {
    var list := s.lists[cid];
    forall m ensures multiset(list)[m] <= s.mounted[m] {
      assert m !in list ==> multiset(list)[m] == 0;
    }
    assert multiset(list) <= s.mounted;
    AllUnmounted(s.mounted, list);
    NothingCounted(list, s.storages);
    var counted := Counted(list, s.storages);
    if counted != [] {
      CountedAt(list, s.storages, counted[0]);
      assert counted[0] in list && counted[0] !in s.mounted - multiset(list);
    }
  }

  // The invariant, over runs

  lemma StepKeepsPath(s: State, step: Step, shared: set<string>, path: string)
    requires PathOk(s, path) && path in shared && Enabled(s, step, shared)
    ensures PathOk(Apply(s, step), path)
  {
    match step
    case Create(cid, rs) => AddAllAt(s, rs, shared, path);
    case Remove(cid) => RemovedAt(s, cid, path);
  }

  lemma StepKeepsInv(s: State, step: Step, shared: set<string>)
    requires Inv(s, shared) && Enabled(s, step, shared)
    ensures Inv(Apply(s, step), shared)
  {
    forall path | path in shared ensures PathOk(Apply(s, step), path) {
      StepKeepsPath(s, step, shared, path);
    }
    StepKeepsKeys(s, step, shared);
    hide Apply, PathOk;
  }

  lemma StepKeepsKeys(s: State, step: Step, shared: set<string>)
    requires s.lists.Keys <= s.containers && s.users.Keys <= s.containers && Enabled(s, step, shared)
    requires forall cid | cid in s.users :: s.users[cid] <= shared
    ensures var s' := Apply(s, step);
            && s'.lists.Keys <= s'.containers && s'.users.Keys <= s'.containers
            && forall cid | cid in s'.users :: s'.users[cid] <= shared
  {
    if step.Create? {
      AddAllRest(s, step.requests);
      hide AddAll;
    }
  }

  lemma {:induction false} AddAllRest(s: State, rs: seq<Request>)
    ensures var s' := AddAll(s, rs).0;
            s'.lists == s.lists && s'.containers == s.containers && s'.users == s.users
  {
    if rs != [] {
      AddAllRest(s, rs[..|rs| - 1]);
    }
  }

  lemma {:induction false} InvAlways(states: seq<State>, steps: seq<Step>, shared: set<string>, i: nat)
    requires Execution(states, steps, shared) && i < |states|
    ensures Inv(states[i], shared)
  {
    hide Inv, Apply, Enabled;
    if i > 0 {
      InvAlways(states, steps, shared, i - 1);
      assert Enabled(states[i - 1], steps[i - 1], shared) && states[i] == Apply(states[i - 1], steps[i - 1]);
      StepKeepsInv(states[i - 1], steps[i - 1], shared);
    } else {
      InitInv(shared);
    }
  }

  lemma InitInv(shared: set<string>)
    ensures Inv(INIT, shared) && AllMounted(INIT)
  {
  }

  // Storages in use stay mounted

  /** Every ephemeral storage of a container that lives is mounted. */
  ghost predicate AllMounted(s: State) {
    forall cid, path | cid in s.users && path in s.users[cid] :: path in s.mounted
  }

  /** A container asks for a storage that is still counted although nothing is mounted there. */
  predicate TakesUpStale(s: State, step: Step) {
    step.Create? && exists path | path in EphemeralPaths(step.requests) :: path in s.storages && path !in s.mounted
  }

  /** A removal unmounts a storage that another container, which lives, was created with. */
  predicate TakesAway(s: State, step: Step) {
    step.Remove? && exists cid, path | cid in s.users && path in s.users[cid] ::
      cid != step.cid && path in Takes(s, step.cid)
  }

  lemma CreateKeepsMounted(s: State, cid: Cid, rs: seq<Request>, shared: set<string>)
    requires Inv(s, shared) && AllMounted(s) && Enabled(s, Create(cid, rs), shared)
    ensures AllMounted(Created(s, cid, rs)) <==> !TakesUpStale(s, Create(cid, rs))
  {
    var s' := Created(s, cid, rs);
    forall path | path in shared
      ensures path in s'.mounted
         <==> path in s.mounted || (path in EphemeralPaths(rs) && path !in s.storages)
    {
      AddAllAt(s, rs, shared, path);
    }
    assert EphemeralPaths(rs) <= shared;
    if AllMounted(s') {
      forall path | path in EphemeralPaths(rs) ensures !(path in s.storages && path !in s.mounted) {
        assert cid in s'.users && path in s'.users[cid];
      }
    } else {
      var c, path :| c in s'.users && path in s'.users[c] && path !in s'.mounted;
      if c != cid {
        assert false;
      }
    }
  }

  lemma RemoveKeepsMounted(s: State, cid: Cid, shared: set<string>)
    requires Inv(s, shared) && AllMounted(s)
    ensures AllMounted(Removed(s, cid).0) <==> !TakesAway(s, Remove(cid))
  {
    var s' := Removed(s, cid).0;
    assert s'.users == s.users - {cid};
    forall path | path in shared
      ensures path in s.mounted ==> (path in s'.mounted <==> path !in Takes(s, cid))
    {
      RemovedAt(s, cid, path);
    }
    if AllMounted(s') {
      forall c, path | c in s.users && path in s.users[c] && c != cid ensures path !in Takes(s, cid) {
        assert c in s'.users && path in s'.users[c];
      }
    } else {
      var c, path :| c in s'.users && path in s'.users[c] && path !in s'.mounted;
      assert c in s.users && path in s.users[c] && c != cid;
    }
  }

  lemma StepKeepsMountedExactly(s: State, step: Step, shared: set<string>)
    requires Inv(s, shared) && AllMounted(s) && Enabled(s, step, shared)
    ensures AllMounted(Apply(s, step)) <==> !TakesUpStale(s, step) && !TakesAway(s, step)
  {
    hide Inv, AllMounted, TakesUpStale, TakesAway, Created, Removed;
    match step
    case Create(cid, rs) =>
      CreateKeepsMounted(s, cid, rs, shared);
      NotTaken(s, step);
    case Remove(cid) =>
      RemoveKeepsMounted(s, cid, shared);
      NotTaken(s, step);
  }

  lemma NotTaken(s: State, step: Step)
    ensures step.Create? ==> !TakesAway(s, step)
    ensures step.Remove? ==> !TakesUpStale(s, step)
  {
  }

  ghost predicate NoneTaken(states: seq<State>, steps: seq<Step>, n: nat)
    requires n <= |steps| && n <= |states|
  {
    forall i | 0 <= i < n :: !TakesUpStale(states[i], steps[i]) && !TakesAway(states[i], steps[i])
  }

  lemma {:induction false} MountedUpTo(states: seq<State>, steps: seq<Step>, shared: set<string>, n: nat)
    requires Execution(states, steps, shared) && n <= |steps|
    ensures (forall i | 0 <= i <= n :: AllMounted(states[i])) <==> NoneTaken(states, steps, n)
  {
    hide Inv, AllMounted, TakesUpStale, TakesAway, Apply, Enabled;
    if n == 0 {
      InitInv(shared);
    } else {
      MountedUpTo(states, steps, shared, n - 1);
      InvAlways(states, steps, shared, n - 1);
      var before := forall i | 0 <= i <= n - 1 :: AllMounted(states[i]);
      assert Enabled(states[n - 1], steps[n - 1], shared) && states[n] == Apply(states[n - 1], steps[n - 1]);
      if before {
        assert AllMounted(states[n - 1]);
        StepKeepsMountedExactly(states[n - 1], steps[n - 1], shared);
      }
      assert (forall i | 0 <= i <= n :: AllMounted(states[i])) <==> before && AllMounted(states[n]);
      assert NoneTaken(states, steps, n)
        <==> NoneTaken(states, steps, n - 1)
             && !TakesUpStale(states[n - 1], steps[n - 1]) && !TakesAway(states[n - 1], steps[n - 1]);
    }
  }

  /** Over every run, every ephemeral storage is mounted as long as a container lives that was created with it, if and
      only if no removal unmounts one that another living container has, and no creation asks for one that is still
      counted but not mounted. */
  lemma InUseIsMountedExactly(states: seq<State>, steps: seq<Step>, shared: set<string>)
    requires Execution(states, steps, shared)
    ensures (forall i | 0 <= i < |states| :: AllMounted(states[i]))
       <==> (forall i | 0 <= i < |steps| :: !TakesUpStale(states[i], steps[i]) && !TakesAway(states[i], steps[i]))
  {
    hide AllMounted, TakesUpStale, TakesAway, Apply, Enabled;
    MountedUpTo(states, steps, shared, |steps|);
  }

  lemma OwnerStaysOnce(s: State, step: Step, shared: set<string>, cid: Cid, path: string)
    requires PathOk(s, path) && Enabled(s, step, shared)
    requires cid in s.containers && cid in s.lists && path in s.lists[cid]
    ensures var s' := Apply(s, step); cid in s'.containers && cid in s'.lists && s'.lists[cid] == s.lists[cid]
  {
    match step
    case Create(_, rs) => AddAllRest(s, rs);
    case Remove(other) =>
      if other == cid {
        OwnerIsNotRemoved(s, cid, path);
      }
  }

  /** And over every run, a container that an ephemeral storage was mounted for is never removed again. */
  lemma {:induction false} OwnersStay(states: seq<State>, steps: seq<Step>, shared: set<string>, i: nat, j: nat,
                                      cid: Cid, path: string)
    requires Execution(states, steps, shared) && i <= j < |states|
    requires path in shared && cid in states[i].lists && path in states[i].lists[cid]
    ensures cid in states[j].containers && cid in states[j].lists && states[j].lists[cid] == states[i].lists[cid]
    decreases j - i
  {
    hide Apply, Enabled, PathOk;
    if i == j {
      InvAlways(states, steps, shared, j);
    } else {
      OwnersStay(states, steps, shared, i, j - 1, cid, path);
      InvAlways(states, steps, shared, j - 1);
      var s, step := states[j - 1], steps[j - 1];
      assert Enabled(s, step, shared) && states[j] == Apply(s, step);
      OwnerStaysOnce(s, step, shared, cid, path);
    }
  }

  /** The smallest run that goes wrong: two containers share a storage, and the first to come is removed first. */
  lemma SecondUserLosesStorage(path: string)
    requires path != ""
    ensures exists states: seq<State>, steps: seq<Step> ::
              && Execution(states, steps, {path})
              && steps == [Create("a", [Request(Ephemeral, path)]), Create("b", [Request(Ephemeral, path)]),
                           Remove("a")]
              && "b" in states[3].users && path in states[3].users["b"] && path !in states[3].mounted
  {
    var rs := [Request(Ephemeral, path)];
    var s1, s2 := TwoUsers(path);
    var s3 := Removed(s2, "a").0;
    OwnerLeaves(s2, path);
    var states, steps := [INIT, s1, s2, s3], [Create("a", rs), Create("b", rs), Remove("a")];
    hide Created, Removed;
    assert Execution(states, steps, {path});
  }

  lemma TwoUsers(path: string) returns (s1: State, s2: State)
    requires path != ""
    ensures var rs := [Request(Ephemeral, path)];
            && Apart(rs, {path}) && s1 == Created(INIT, "a", rs) && s2 == Created(s1, "b", rs)
    ensures s1.containers == {"a"} && s2.containers == {"a", "b"}
    ensures "a" in s2.lists && s2.lists["a"] == [path] && s2.mounted == multiset{path}
    ensures s2.users == map["a" := {path}, "b" := {path}]
  {
    var rs := [Request(Ephemeral, path)];
    s1, s2 := Created(INIT, "a", rs), Created(Created(INIT, "a", rs), "b", rs);
    OneStorage(INIT, path);
    OneStorage(s1, path);
    assert "a"[0] != "b"[0];
  }

  lemma OwnerLeaves(s: State, path: string)
    requires "a" in s.lists && s.lists["a"] == [path] && s.mounted == multiset{path}
    ensures path !in Removed(s, "a").0.mounted && Removed(s, "a").0.users == s.users - {"a"}
  {
    assert [path][1..] == [];
    assert Unmounted(s.mounted, [path]) == [path];
    ReleaseAt(s.storages, s.mounted - multiset([path]), Counted([path], s.storages), path);
  }

  lemma OneStorage(s: State, path: string)
    ensures AddAll(s, [Request(Ephemeral, path)]) == AddOne(s, Request(Ephemeral, path))
    ensures EphemeralPaths([Request(Ephemeral, path)]) == {path}
  {
    var r := Request(Ephemeral, path);
    assert [r][..0] == [] && [r][0] == r;
    assert AddAll(s, []) == (s, []);
    assert [] + AddOne(s, r).1 == AddOne(s, r).1;
  }
}
