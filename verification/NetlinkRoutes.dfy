/** Replacing the routes of the main table (RFC 3549, section 3.1.1): delete what was listed, then add what was
    requested, routes without a gateway first. */
module NetlinkRoutes {
  import opened Basics
  import opened Text
  import opened Bytes

  const RTPROTO_KERNEL := 2
  const RTPROTO_BOOT := 3

  /** A route as the request names it. */
  datatype Route = Route(dest: string, gateway: string, device: string, source: string, scope: nat)

  /** A route as the kernel knows it. */
  datatype RtRoute = RtRoute(
    dest: Option<seq<byte>>, source: Option<seq<byte>>, gateway: Option<seq<byte>>,
    index: int, scope: nat, dstLen: nat, srcLen: nat, protocol: nat)

  datatype Change = Delete(route: RtRoute) | Add(route: RtRoute)

  datatype Failure = NoListing | NoName | Refused | Panicked

  datatype Outcome = Ok | Failed(failure: Failure)

  /** Interface names by index, and how request routes translate (absent: the translation panics). */
  datatype World = World(names: map<int, string>, translate: map<Route, RtRoute>)

  /** Routes of loopback-like devices and routes the kernel made itself are left alone. */
  predicate Removable(w: World, r: RtRoute) {
    && r.index in w.names
    && !Contains(w.names[r.index], "lo") && !Contains(w.names[r.index], "::1")
    && r.protocol != RTPROTO_KERNEL
  }

  // What an update sends

  datatype Action = Send(change: Change) | Stop(failure: Failure)

  function DeleteOf(w: World, r: RtRoute): seq<Action> {
    if r.index !in w.names then [Stop(NoName)]
    else if Removable(w, r) then [Send(Delete(r))]
    else []
  }

  function Deletes(w: World, rs: seq<RtRoute>): seq<Action> {
    if rs == [] then [] else DeleteOf(w, rs[0]) + Deletes(w, rs[1..])
  }

  function AddOf(w: World, g: Route, gatewayed: bool): seq<Action> {
    if (g.gateway != "") != gatewayed then []
    else if g !in w.translate then [Stop(Panicked)]
    else [Send(Add(w.translate[g]))]
  }

  /** The additions of one pass over the request: the routes with a gateway, or those without. */
  function Adds(w: World, rt: seq<Route>, gatewayed: bool): seq<Action> {
    if rt == [] then [] else AddOf(w, rt[0], gatewayed) + Adds(w, rt[1..], gatewayed)
  }

  function Plan(w: World, listing: seq<RtRoute>, request: seq<Route>): seq<Action> {
    Deletes(w, listing) + Adds(w, request, false) + Adds(w, request, true)
  }

  /** Performs actions until one stops the update or the kernel refuses a change. `refusals` are the numbers
      of the changes, counted over the whole life of the handle, that the kernel answers with an error. */
  function Perform(sent: seq<Change>, actions: seq<Action>, refusals: set<nat>): (seq<Change>, Outcome)
    decreases |actions|
  {
    if actions == [] then (sent, Ok)
    else
      match actions[0]
      case Stop(f) => (sent, Failed(f))
      case Send(c) =>
        if |sent| in refusals then (sent + [c], Failed(Refused)) else Perform(sent + [c], actions[1..], refusals)
  }

  lemma {:induction false} PerformConcat(sent: seq<Change>, a: seq<Action>, b: seq<Action>, refusals: set<nat>)
    ensures var r := Perform(sent, a, refusals);
            Perform(sent, a + b, refusals) == if r.1 == Ok then Perform(r.0, b, refusals) else r
    decreases |a|
  {
    if a == [] {
      assert a + b == b;
    } else {
      assert (a + b)[0] == a[0] && (a + b)[1..] == a[1..] + b;
      if a[0].Send? && |sent| !in refusals {
        PerformConcat(sent + [a[0].change], a[1..], b, refusals);
      }
    }
  }

  predicate NoStop(actions: seq<Action>) {
    forall a | a in actions :: a.Send?
  }

  class RtnlHandle {
    const world: World
    const refusals: set<nat>
    var sent: seq<Change>

    constructor (world: World, refusals: set<nat>)
      ensures this.world == world && this.refusals == refusals && sent == []
    {
      this.world, this.refusals, sent := world, refusals, [];
    }

    method Talk(c: Change) returns (ok: bool)
      modifies this
      ensures sent == old(sent) + [c] && ok == (old(|sent|) !in refusals)
    {
      ok := |sent| !in refusals;
      sent := sent + [c];
    }

    method DeleteAllRoutes(rs: seq<RtRoute>) returns (o: Outcome)
      modifies this
      ensures (sent, o) == Perform(old(sent), Deletes(world, rs), refusals)
    {
      var i := 0;
      while i < |rs|
        invariant 0 <= i <= |rs|
        invariant Perform(old(sent), Deletes(world, rs), refusals)
               == Perform(sent, Deletes(world, rs[i..]), refusals)
      {
        var r := rs[i];
        assert rs[i..][0] == r && rs[i..][1..] == rs[i + 1..];
        ghost var rest := Deletes(world, rs[i + 1..]);
        if r.index !in world.names {
          return Failed(NoName);
        }
        var name := world.names[r.index];
        if Contains(name, "lo") || Contains(name, "::1") || r.protocol == RTPROTO_KERNEL {
          assert [] + rest == rest;
        } else {
          assert ([Send(Delete(r))] + rest)[1..] == rest;
          var ok := Talk(Delete(r));
          if !ok {
            return Failed(Refused);
          }
        }
        i := i + 1;
      }
      return Ok;
    }

    /** One of the two loops of update_routes. */
    method AddRoutes(rt: seq<Route>, gatewayed: bool) returns (o: Outcome)
      modifies this
      ensures (sent, o) == Perform(old(sent), Adds(world, rt, gatewayed), refusals)
    {
      var i := 0;
      while i < |rt|
        invariant 0 <= i <= |rt|
        invariant Perform(old(sent), Adds(world, rt, gatewayed), refusals)
               == Perform(sent, Adds(world, rt[i..], gatewayed), refusals)
      {
        var g := rt[i];
        assert rt[i..][0] == g && rt[i..][1..] == rt[i + 1..];
        ghost var rest := Adds(world, rt[i + 1..], gatewayed);
        if (g.gateway != "") != gatewayed {
          assert [] + rest == rest;
        } else {
          if g !in world.translate {
            return Failed(Panicked);
          }
          assert ([Send(Add(world.translate[g]))] + rest)[1..] == rest;
          var ok := Talk(Add(world.translate[g]));
          if !ok {
            return Failed(Refused);
          }
        }
        i := i + 1;
      }
      return Ok;
    }

    /** Fails before sending anything when the table cannot be listed. */
    method UpdateRoutes(listing: Option<seq<RtRoute>>, request: seq<Route>) returns (o: Outcome)
      modifies this
      ensures (sent, o) == if listing == None then (old(sent), Failed(NoListing))
                           else Perform(old(sent), Plan(world, listing.value, request), refusals)
    {
      if listing == None {
        return Failed(NoListing);
      }
      var rs := listing.value;
      ghost var d, a, b := Deletes(world, rs), Adds(world, request, false), Adds(world, request, true);
      PerformConcat(sent, d + a, b, refusals);
      PerformConcat(sent, d, a, refusals);
      o := DeleteAllRoutes(rs);
      if o != Ok { return; }
      o := AddRoutes(request, false);
      if o != Ok { return; }
      o := AddRoutes(request, true);
    }
  }

  /** The changes the actions send when nothing interferes. */
  function Changes(actions: seq<Action>): seq<Change> {
    if actions == [] then []
    else (if actions[0].Send? then [actions[0].change] else []) + Changes(actions[1..])
  }

  lemma {:induction false} ChangesConcat(a: seq<Action>, b: seq<Action>)
    ensures Changes(a + b) == Changes(a) + Changes(b)
  {
    if a == [] {
      assert a + b == b;
    } else {
      var head := if a[0].Send? then [a[0].change] else [];
      assert (a + b)[0] == a[0] && (a + b)[1..] == a[1..] + b;
      ChangesConcat(a[1..], b);
      assert head + (Changes(a[1..]) + Changes(b)) == head + Changes(a[1..]) + Changes(b);
    }
  }

  /** Whatever happens, what has been sent is a prefix of the planned changes; the update succeeds exactly
      when no action stops it and the kernel refuses none of the changes. */
  lemma {:induction false} PerformIsPrefix(sent: seq<Change>, actions: seq<Action>, refusals: set<nat>)
    ensures sent <= Perform(sent, actions, refusals).0 <= sent + Changes(actions)
    ensures Perform(sent, actions, refusals).1 == Ok
       <==> NoStop(actions) && forall k | |sent| <= k < |sent| + |actions| :: k !in refusals
    ensures Perform(sent, actions, refusals).1 == Ok ==> Perform(sent, actions, refusals).0 == sent + Changes(actions)
    decreases |actions|
  {
    if actions != [] {
      var rest := actions[1..];
      assert NoStop(actions) <==> actions[0].Send? && NoStop(rest);
      if actions[0].Send? {
        var sent' := sent + [actions[0].change];
        assert sent' + Changes(rest) == sent + Changes(actions);
        if |sent| !in refusals {
          PerformIsPrefix(sent', rest, refusals);
        }
      }
    }
  }

  // What a successful update means

  function Filtered(rs: seq<RtRoute>, w: World): seq<RtRoute> {
    if rs == [] then [] else (if MayGo(w, rs[0]) then [rs[0]] else []) + Filtered(rs[1..], w)
  }

  /** The device has a name, in which neither "lo" nor "::1" occurs anywhere, and the protocol is not 2. */
  predicate MayGo(w: World, r: RtRoute) {
    && r.index in w.names && r.protocol != 2
    && forall i: nat, k: nat | i <= k <= |w.names[r.index]| ::
         w.names[r.index][i..k] != "lo" && w.names[r.index][i..k] != "::1"
  }

  lemma RemovableExactly(w: World, r: RtRoute)
    ensures Removable(w, r) <==> MayGo(w, r)
  {
    if r.index in w.names {
      ContainsSlice(w.names[r.index], "lo");
      ContainsSlice(w.names[r.index], "::1");
    }
  }

  lemma ContainsSlice(s: string, part: string)
    ensures Contains(s, part) <==> exists i: nat, k: nat | i <= k <= |s| :: s[i..k] == part
  {
    if i: nat :| i <= |s| && OccursAt(s, part, i) {
      assert s[i..i + |part|] == part;
    }
    if i: nat, k: nat :| i <= k <= |s| && s[i..k] == part {
      assert OccursAt(s, part, i);
    }
  }

  function KindOf(g: Route, gatewayed: bool): seq<Route> {
    if (g.gateway != "") == gatewayed then [g] else []
  }

  /** The routes of one kind, in request order. */
  function OfKind(rt: seq<Route>, gatewayed: bool): seq<Route> {
    if rt == [] then [] else KindOf(rt[0], gatewayed) + OfKind(rt[1..], gatewayed)
  }

  function AsDeletes(rs: seq<RtRoute>): seq<Change> {
    seq(|rs|, i requires 0 <= i < |rs| => Delete(rs[i]))
  }

  ghost predicate Translatable(w: World, rt: seq<Route>) {
    forall g | g in rt :: g in w.translate
  }

  function AsAdds(w: World, rt: seq<Route>): seq<Change>
    requires Translatable(w, rt)
  {
    seq(|rt|, i requires 0 <= i < |rt| => Add(w.translate[rt[i]]))
  }

  ghost predicate Named(w: World, rs: seq<RtRoute>) {
    forall r | r in rs :: r.index in w.names
  }

  lemma {:induction false} DeletesPlanned(w: World, rs: seq<RtRoute>)
    ensures NoStop(Deletes(w, rs)) <==> Named(w, rs)
    ensures Named(w, rs) ==>
              Changes(Deletes(w, rs)) == AsDeletes(Filtered(rs, w)) && |Deletes(w, rs)| == |Filtered(rs, w)|
  {
    if rs != [] {
      var r, rest := rs[0], rs[1..];
      DeletesPlanned(w, rest);
      DeleteOfPlanned(w, r);
      assert Named(w, rs) <==> r.index in w.names && Named(w, rest);
      var go := if MayGo(w, r) then [r] else [];
      assert Filtered(rs, w) == go + Filtered(rest, w) && Deletes(w, rs) == DeleteOf(w, r) + Deletes(w, rest);
      hide MayGo, DeleteOf, NoStop, AsDeletes, Filtered, Changes, Named;
      ChangesConcat(DeleteOf(w, r), Deletes(w, rest));
      NoStopConcat(DeleteOf(w, r), Deletes(w, rest));
      AsDeletesConcat(go, Filtered(rest, w));
    }
  }

  lemma AsDeletesConcat(a: seq<RtRoute>, b: seq<RtRoute>)
    ensures AsDeletes(a + b) == AsDeletes(a) + AsDeletes(b)
  {
  }

  lemma DeleteOfPlanned(w: World, r: RtRoute)
    ensures NoStop(DeleteOf(w, r)) <==> r.index in w.names
    ensures r.index in w.names ==>
              && Changes(DeleteOf(w, r)) == AsDeletes(if MayGo(w, r) then [r] else [])
              && |DeleteOf(w, r)| == |if MayGo(w, r) then [r] else []|
  {
    RemovableExactly(w, r);
    hide MayGo, Removable;
    if r.index !in w.names {
      assert Stop(NoName) in DeleteOf(w, r);
    } else if MayGo(w, r) {
      assert DeleteOf(w, r) == [Send(Delete(r))] && DeleteOf(w, r)[1..] == [];
    }
  }

  lemma NoStopConcat(a: seq<Action>, b: seq<Action>)
    ensures NoStop(a + b) <==> NoStop(a) && NoStop(b)
  {
    assert forall x :: x in a + b <==> x in a || x in b;
  }

  lemma {:induction false} AddsPlanned(w: World, rt: seq<Route>, gatewayed: bool)
    ensures NoStop(Adds(w, rt, gatewayed)) <==> Translatable(w, OfKind(rt, gatewayed))
    ensures Translatable(w, OfKind(rt, gatewayed)) ==>
              && Changes(Adds(w, rt, gatewayed)) == AsAdds(w, OfKind(rt, gatewayed))
              && |Adds(w, rt, gatewayed)| == |OfKind(rt, gatewayed)|
  {
    if rt != [] {
      var g, rest := rt[0], rt[1..];
      AddsPlanned(w, rest, gatewayed);
      ChangesConcat(AddOf(w, g, gatewayed), Adds(w, rest, gatewayed));
      NoStopConcat(AddOf(w, g, gatewayed), Adds(w, rest, gatewayed));
      TranslatableConcat(w, KindOf(g, gatewayed), OfKind(rest, gatewayed));
      AddOfPlanned(w, g, gatewayed);
    }
  }

  lemma AddOfPlanned(w: World, g: Route, gatewayed: bool)
    ensures NoStop(AddOf(w, g, gatewayed)) <==> Translatable(w, KindOf(g, gatewayed))
    ensures Translatable(w, KindOf(g, gatewayed)) ==>
              && Changes(AddOf(w, g, gatewayed)) == AsAdds(w, KindOf(g, gatewayed))
              && |AddOf(w, g, gatewayed)| == |KindOf(g, gatewayed)|
  {
  }

  lemma TranslatableConcat(w: World, a: seq<Route>, b: seq<Route>)
    ensures Translatable(w, a + b) <==> Translatable(w, a) && Translatable(w, b)
    ensures Translatable(w, a + b) ==> AsAdds(w, a + b) == AsAdds(w, a) + AsAdds(w, b)
  {
    assert forall x :: x in a + b <==> x in a || x in b;
  }

  /** The two passes rearrange the request without losing or repeating anything, each kind in request order. */
  lemma {:induction false} KindsPartition(rt: seq<Route>)
    ensures multiset(OfKind(rt, false) + OfKind(rt, true)) == multiset(rt)
    ensures forall g | g in OfKind(rt, false) :: g.gateway == ""
    ensures forall g | g in OfKind(rt, true) :: g.gateway != ""
  {
    if rt != [] {
      KindsPartition(rt[1..]);
      assert rt == [rt[0]] + rt[1..];
    }
  }

  ghost predicate AllTranslatable(w: World, request: seq<Route>) {
    Translatable(w, OfKind(request, false)) && Translatable(w, OfKind(request, true))
  }

  lemma AllTranslatableMeansAll(w: World, request: seq<Route>)
    ensures AllTranslatable(w, request) <==> Translatable(w, request)
  {
    KindsPartition(request);
    var a, b := OfKind(request, false), OfKind(request, true);
    assert forall g :: g in request <==> g in multiset(request);
    assert forall g :: g in a + b <==> g in multiset(a + b);
  }

  function Planned(w: World, listing: seq<RtRoute>, request: seq<Route>): seq<Change>
    requires AllTranslatable(w, request)
  {
    AsDeletes(Filtered(listing, w)) + AsAdds(w, OfKind(request, false)) + AsAdds(w, OfKind(request, true))
  }

  /** An update succeeds exactly when every listed route's device has a name, every requested route translates,
      and the kernel refuses none of the changes; and then the changes sent are the deletions of exactly the
      removable listed routes in listing order, then the gateway-less routes, then the gatewayed ones. */
  lemma UpdateExactly(w: World, listing: seq<RtRoute>, request: seq<Route>, sent: seq<Change>, refusals: set<nat>)
    ensures var (sent', o) := Perform(sent, Plan(w, listing, request), refusals);
            && (o == Ok <==>
                  && Named(w, listing) && Translatable(w, request)
                  && forall k | |sent| <= k < |sent| + |Plan(w, listing, request)| :: k !in refusals)
            && (o == Ok ==>
                  && AllTranslatable(w, request)
                  && |Plan(w, listing, request)| == |Planned(w, listing, request)|
                  && sent' == sent + Planned(w, listing, request))
    ensures forall r :: r in Filtered(listing, w) <==> r in listing && MayGo(w, r)
  {
    FilteredElements(listing, w);
    var d, a, b := Deletes(w, listing), Adds(w, request, false), Adds(w, request, true);
    DeletesPlanned(w, listing);
    AddsPlanned(w, request, false);
    AddsPlanned(w, request, true);
    ChangesConcat(d, a);
    ChangesConcat(d + a, b);
    NoStopConcat(d, a);
    NoStopConcat(d + a, b);
    AllTranslatableMeansAll(w, request);
    PerformIsPrefix(sent, Plan(w, listing, request), refusals);
  }

  // How an update fails

  lemma PerformOn(sent: seq<Change>, a: seq<Action>, last: Action, b: seq<Action>, refusals: set<nat>)
    requires NoStop(a) && forall k | |sent| <= k < |sent| + |a| :: k !in refusals
    ensures var all := sent + Changes(a);
            && |Changes(a)| == |a|
            && (last.Stop? ==> Perform(sent, a + [last] + b, refusals) == (all, Failed(last.failure)))
            && (last.Send? && |all| in refusals ==>
                  Perform(sent, a + [last] + b, refusals) == (all + [last.change], Failed(Refused)))
  {
    PerformIsPrefix(sent, a, refusals);
    AllSent(a);
    PerformConcat(sent, a, [last] + b, refusals);
    assert a + [last] + b == a + ([last] + b);
    assert ([last] + b)[0] == last;
  }

  lemma {:induction false} AllSent(a: seq<Action>)
    requires NoStop(a)
    ensures |Changes(a)| == |a|
  {
    if a != [] {
      assert forall x | x in a[1..] :: x in a;
      AllSent(a[1..]);
    }
  }

  lemma {:induction false} DeletesConcat(w: World, a: seq<RtRoute>, b: seq<RtRoute>)
    ensures Deletes(w, a + b) == Deletes(w, a) + Deletes(w, b)
  {
    if a == [] {
      assert a + b == b;
    } else {
      assert (a + b)[1..] == a[1..] + b;
      DeletesConcat(w, a[1..], b);
    }
  }

  lemma {:induction false} AddsConcat(w: World, a: seq<Route>, b: seq<Route>, gatewayed: bool)
    ensures Adds(w, a + b, gatewayed) == Adds(w, a, gatewayed) + Adds(w, b, gatewayed)
  {
    if a == [] {
      assert a + b == b;
    } else {
      assert (a + b)[1..] == a[1..] + b;
      AddsConcat(w, a[1..], b, gatewayed);
    }
  }

  /** Deleting stops at the first listed route whose device has no name, and at the first deletion that is refused,
      which has been sent; the routes listed before it are dealt with, those after it are not. */
  lemma DeletesStop(w: World, front: seq<RtRoute>, r: RtRoute, rest: seq<RtRoute>, sent: seq<Change>,
                    refusals: set<nat>)
    requires Named(w, front) && forall k | |sent| <= k < |sent| + |Filtered(front, w)| :: k !in refusals
    ensures var all := sent + AsDeletes(Filtered(front, w));
            var result := Perform(sent, Deletes(w, front + [r] + rest), refusals);
            && (r.index !in w.names ==> result == (all, Failed(NoName)))
            && (MayGo(w, r) && |all| in refusals ==> result == (all + [Delete(r)], Failed(Refused)))
  {
    DeletesPlanned(w, front);
    RemovableExactly(w, r);
    DeletesConcat(w, front + [r], rest);
    DeletesConcat(w, front, [r]);
    assert [r][1..] == [];
    hide MayGo, Removable, Filtered, AsDeletes;
    var a, b := Deletes(w, front), Deletes(w, rest);
    if r.index !in w.names {
      assert Deletes(w, [r]) == [Stop(NoName)];
      PerformOn(sent, a, Stop(NoName), b, refusals);
    } else if MayGo(w, r) {
      assert Deletes(w, [r]) == [Send(Delete(r))];
      PerformOn(sent, a, Send(Delete(r)), b, refusals);
    }
  }

  /** Adding stops at the first route of the pass that does not translate, and at the first addition that is
      refused. */
  lemma AddsStop(w: World, front: seq<Route>, g: Route, rest: seq<Route>, gatewayed: bool, sent: seq<Change>,
                 refusals: set<nat>)
    requires Translatable(w, OfKind(front, gatewayed)) && (g.gateway != "") == gatewayed
    requires forall k | |sent| <= k < |sent| + |OfKind(front, gatewayed)| :: k !in refusals
    ensures var all := sent + AsAdds(w, OfKind(front, gatewayed));
            var result := Perform(sent, Adds(w, front + [g] + rest, gatewayed), refusals);
            && (g !in w.translate ==> result == (all, Failed(Panicked)))
            && (g in w.translate && |all| in refusals ==>
                  result == (all + [Add(w.translate[g])], Failed(Refused)))
  {
    AddsPlanned(w, front, gatewayed);
    AddsConcat(w, front + [g], rest, gatewayed);
    AddsConcat(w, front, [g], gatewayed);
    assert [g][1..] == [];
    hide OfKind, AsAdds;
    var a, b := Adds(w, front, gatewayed), Adds(w, rest, gatewayed);
    if g !in w.translate {
      assert Adds(w, [g], gatewayed) == [Stop(Panicked)];
      PerformOn(sent, a, Stop(Panicked), b, refusals);
    } else {
      assert Adds(w, [g], gatewayed) == [Send(Add(w.translate[g]))];
      PerformOn(sent, a, Send(Add(w.translate[g])), b, refusals);
    }
  }

  /** A pass that fails ends the update: nothing of what would follow is sent. */
  lemma UpdateStops(w: World, listing: seq<RtRoute>, request: seq<Route>, sent: seq<Change>, refusals: set<nat>)
    ensures var deleted := Perform(sent, Deletes(w, listing), refusals);
            var added := Perform(deleted.0, Adds(w, request, false), refusals);
            Perform(sent, Plan(w, listing, request), refusals)
            == if deleted.1 != Ok then deleted
               else if added.1 != Ok then added
               else Perform(added.0, Adds(w, request, true), refusals)
  {
    var d, a, b := Deletes(w, listing), Adds(w, request, false), Adds(w, request, true);
    PerformConcat(sent, d + a, b, refusals);
    PerformConcat(sent, d, a, refusals);
  }

  // The kernel's table

  /** What a change names: everything but the protocol, which a deletion leaves out. */
  function Key(r: RtRoute): RtRoute {
    r.(protocol := 0)
  }

  function Class(table: set<RtRoute>, key: RtRoute): set<RtRoute> {
    set x | x in table && Key(x) == key
  }

  /** The kernel chooses which of the routes that fit a deletion go, but one goes at least; a deletion that fits none
      is refused. */
  ghost predicate Deleted(t: set<RtRoute>, r: RtRoute, t': set<RtRoute>) {
    t - Class(t, Key(r)) <= t' < t
  }

  ghost predicate Changed(t: set<RtRoute>, c: Change, t': set<RtRoute>) {
    match c
    case Delete(r) => Deleted(t, r, t')
    case Add(r) => t' == t + {r.(protocol := 3)}
  }

  /** The table before the first change and after each of them, when the kernel carries all of them out. */
  ghost predicate TableRun(tables: seq<set<RtRoute>>, cs: seq<Change>) {
    && |tables| == |cs| + 1
    && forall i | 0 <= i < |cs| :: Changed(tables[i], cs[i], tables[i + 1])
  }

  lemma SplitRun(tables: seq<set<RtRoute>>, a: seq<Change>, b: seq<Change>)
    requires TableRun(tables, a + b)
    ensures TableRun(tables[..|a| + 1], a) && TableRun(tables[|a|..], b)
  {
    assert forall i | 0 <= i < |a| :: (a + b)[i] == a[i];
    assert forall i | 0 <= i < |b| :: (a + b)[|a| + i] == b[i];
  }

  /** How many of the deletions fit the key. */
  function Fitting(rs: seq<RtRoute>, key: RtRoute): nat {
    if rs == [] then 0 else Fitting(rs[..|rs| - 1], key) + if Key(rs[|rs| - 1]) == key then 1 else 0
  }

  lemma SmallerClass(t: set<RtRoute>, r: RtRoute, t': set<RtRoute>, key: RtRoute)
    requires Deleted(t, r, t')
    ensures Key(r) != key ==> Class(t', key) == Class(t, key)
    ensures Key(r) == key ==> Class(t', key) <= Class(t, key)
    ensures Key(r) == key ==> |Class(t', key)| < |Class(t, key)|
  {
    if Key(r) == key {
      assert t == (t - Class(t, key)) + Class(t, key);
      assert Class(t', key) <= t';
      Shrinks(Class(t', key), Class(t, key));
    }
  }

  lemma Shrinks<T>(a: set<T>, b: set<T>)
    requires a <= b
    ensures a != b ==> |a| < |b|
  {
    var rest := b - a;
    assert b == a + rest;
  }

  /** Deletions only ever shrink the classes they fit, each by one at least. */
  lemma {:induction false} DeletionsShrink(tables: seq<set<RtRoute>>, rs: seq<RtRoute>, key: RtRoute)
    requires TableRun(tables, AsDeletes(rs))
    ensures var before, after := Class(tables[0], key), Class(tables[|rs|], key);
            && after <= before && |after| + Fitting(rs, key) <= |before|
            && (Fitting(rs, key) == 0 ==> after == before)
  {
    if rs != [] {
      var n, front, last := |rs|, rs[..|rs| - 1], rs[|rs| - 1];
      assert AsDeletes(rs) == AsDeletes(front) + [Delete(last)];
      SplitRun(tables, AsDeletes(front), [Delete(last)]);
      assert tables[..n][n - 1] == tables[n - 1];
      DeletionsShrink(tables[..n], front, key);
      assert AsDeletes(rs)[n - 1] == Delete(last);
      assert Changed(tables[n - 1], AsDeletes(rs)[n - 1], tables[n]);
      SmallerClass(tables[n - 1], last, tables[n], key);
    }
  }

  /** Routes that are all among the deletions are no more than the deletions that fit. */
  lemma {:induction false} EachHasItsDeletion(rs: seq<RtRoute>, key: RtRoute, routes: set<RtRoute>)
    requires forall x | x in routes :: x in rs && Key(x) == key
    ensures |routes| <= Fitting(rs, key)
  {
    if rs != [] {
      var front, last := rs[..|rs| - 1], rs[|rs| - 1];
      assert forall x | x in rs :: x in front || x == last;
      EachHasItsDeletion(front, key, routes - {last});
      if last in routes {
        assert routes == (routes - {last}) + {last};
      } else {
        assert routes - {last} == routes;
      }
    }
  }

  lemma {:induction false} FittingMeansSome(rs: seq<RtRoute>, key: RtRoute)
    ensures Fitting(rs, key) == 0 <==> forall r | r in rs :: Key(r) != key
  {
    if rs != [] {
      FittingMeansSome(rs[..|rs| - 1], key);
      assert forall r | r in rs :: r in rs[..|rs| - 1] || r == rs[|rs| - 1];
      assert forall r | r in rs[..|rs| - 1] :: r in rs;
    }
  }

  ghost function Booted(w: World, rt: seq<Route>): set<RtRoute>
    requires Translatable(w, rt)
  {
    set g | g in rt :: w.translate[g].(protocol := 3)
  }

  lemma {:induction false} AddsRun(w: World, tables: seq<set<RtRoute>>, rt: seq<Route>)
    requires Translatable(w, rt) && TableRun(tables, AsAdds(w, rt))
    ensures tables[|rt|] == tables[0] + Booted(w, rt)
  {
    if rt == [] {
      assert Booted(w, rt) == {};
    } else {
      var n, front, last := |rt|, rt[..|rt| - 1], rt[|rt| - 1];
      assert forall x | x in front :: x in rt;
      assert AsAdds(w, rt) == AsAdds(w, front) + [Add(w.translate[last])];
      SplitRun(tables, AsAdds(w, front), [Add(w.translate[last])]);
      AddsRun(w, tables[..n], front);
      assert Changed(tables[n - 1], AsAdds(w, rt)[n - 1], tables[n]);
      assert forall x :: x in rt <==> x in front || x == last;
      assert Booted(w, rt) == Booted(w, front) + {w.translate[last].(protocol := 3)};
    }
  }

  ghost function Kept(w: World, table: set<RtRoute>): set<RtRoute> {
    set r | r in table && !MayGo(w, r)
  }

  /** No route that is left alone differs from one to be removed in its protocol alone. */
  ghost predicate NoConflict(w: World, table: set<RtRoute>) {
    forall x, r | x in table && r in table && !MayGo(w, x) && MayGo(w, r) :: Key(x) != Key(r)
  }

  /** The listing names every route of the table, once. */
  ghost predicate Lists(listing: seq<RtRoute>, table: set<RtRoute>) {
    && (forall r :: r in listing <==> r in table)
    && Distinct(listing)
  }

  /** Without a conflict every kernel removes exactly the removable routes. */
  lemma RemovableGo(w: World, table: set<RtRoute>, listing: seq<RtRoute>, tables: seq<set<RtRoute>>)
    requires Lists(listing, table) && NoConflict(w, table)
    requires TableRun(tables, AsDeletes(Filtered(listing, w))) && tables[0] == table
    ensures tables[|Filtered(listing, w)|] == Kept(w, table)
  {
    var rs := Filtered(listing, w);
    FilteredElements(listing, w);
    forall x ensures x in tables[|rs|] <==> x in Kept(w, table) {
      var key := Key(x);
      DeletionsShrink(tables, rs, key);
      FittingMeansSome(rs, key);
      if x in table && MayGo(w, x) {
        assert forall y | y in Class(table, key) :: MayGo(w, y) && y in rs;
        EachHasItsDeletion(rs, key, Class(table, key));
        assert x in rs && Fitting(rs, key) != 0;
        EmptyClass(tables[|rs|], key);
      } else if x in table {
        assert forall r | r in rs :: Key(r) != key;
        assert x in Class(table, key);
      }
      assert x in tables[|rs|] ==> x in Class(tables[|rs|], key);
    }
  }

  lemma EmptyClass(table: set<RtRoute>, key: RtRoute)
    ensures Class(table, key) == {} ==> forall x | x in table :: Key(x) != key
    ensures Class(table, key) != {} ==> |Class(table, key)| > 0
  {
    if Class(table, key) == {} {
      forall x | x in table ensures Key(x) != key {
        assert x !in Class(table, key);
      }
    }
  }

  // One kernel there may be

  /** It removes one route for each deletion, and if it can, this one. */
  ghost function DeleteOne(t: set<RtRoute>, r: RtRoute, first: RtRoute): set<RtRoute> {
    if Class(t, Key(r)) == {} then t
    else if first in Class(t, Key(r)) then t - {first}
    else
      var x :| x in Class(t, Key(r));
      t - {x}
  }

  ghost function ChangeOne(t: set<RtRoute>, c: Change, first: RtRoute): set<RtRoute> {
    match c
    case Delete(r) => DeleteOne(t, r, first)
    case Add(r) => t + {r.(protocol := RTPROTO_BOOT)}
  }

  ghost function RunOne(table: set<RtRoute>, cs: seq<Change>, first: RtRoute): (tables: seq<set<RtRoute>>)
    ensures |tables| == |cs| + 1 && tables[0] == table
  {
    if cs == [] then [table]
    else
      var before := RunOne(table, cs[..|cs| - 1], first);
      before + [ChangeOne(before[|cs| - 1], cs[|cs| - 1], first)]
  }

  /** Every deletion that is still to come has a route of its own to remove. */
  ghost predicate Enough(t: set<RtRoute>, rs: seq<RtRoute>) {
    forall key :: Fitting(rs, key) <= |Class(t, key)|
  }

  lemma OneGoes(t: set<RtRoute>, r: RtRoute, first: RtRoute, key: RtRoute)
    requires Class(t, Key(r)) != {}
    ensures Deleted(t, r, DeleteOne(t, r, first))
    ensures |Class(DeleteOne(t, r, first), key)| == |Class(t, key)| - if Key(r) == key then 1 else 0
    ensures first in t && Key(first) == Key(r) ==> first !in DeleteOne(t, r, first)
  {
    var t' := DeleteOne(t, r, first);
    var x :| x in Class(t, Key(r)) && t' == t - {x};
    assert Class(t', key) == Class(t, key) - {x};
  }

  lemma RunOneSnoc(table: set<RtRoute>, cs: seq<Change>, c: Change, first: RtRoute)
    ensures var before := RunOne(table, cs, first);
            RunOne(table, cs + [c], first) == before + [ChangeOne(before[|cs|], c, first)]
  {
    assert (cs + [c])[..|cs|] == cs;
  }

  /** That kernel carries out every deletion. */
  lemma {:induction false} DeletesRun(table: set<RtRoute>, rs: seq<RtRoute>, first: RtRoute)
    requires Enough(table, rs)
    ensures TableRun(RunOne(table, AsDeletes(rs), first), AsDeletes(rs))
    ensures forall key ::
              |Class(RunOne(table, AsDeletes(rs), first)[|rs|], key)| == |Class(table, key)| - Fitting(rs, key)
  {
    if rs != [] {
      var front, last := rs[..|rs| - 1], rs[|rs| - 1];
      assert AsDeletes(rs) == AsDeletes(front) + [Delete(last)];
      forall key ensures Fitting(front, key) <= |Class(table, key)| {
        assert Fitting(rs, key) <= |Class(table, key)|;
      }
      DeletesRun(table, front, first);
      RunOneSnoc(table, AsDeletes(front), Delete(last), first);
      hide Class, TableRun, RunOne, AsDeletes, Deleted, DeleteOne;
      var t := RunOne(table, AsDeletes(front), first)[|front|];
      assert Fitting(rs, Key(last)) <= |Class(table, Key(last))|;
      forall key ensures |Class(DeleteOne(t, last, first), key)| == |Class(table, key)| - Fitting(rs, key) {
        OneGoes(t, last, first, key);
      }
      OneGoes(t, last, first, Key(last));
      OneMoreChange(RunOne(table, AsDeletes(front), first), AsDeletes(front), Delete(last), DeleteOne(t, last, first));
    }
  }

  lemma OneMoreChange(tables: seq<set<RtRoute>>, cs: seq<Change>, c: Change, t: set<RtRoute>)
    requires TableRun(tables, cs) && Changed(tables[|cs|], c, t)
    ensures TableRun(tables + [t], cs + [c])
  {
    hide Changed;
    forall i | 0 <= i < |cs| + 1 ensures Changed((tables + [t])[i], (cs + [c])[i], (tables + [t])[i + 1]) {
      if i < |cs| {
        assert Changed(tables[i], cs[i], tables[i + 1]);
      }
    }
  }

  lemma {:induction false} AddsRunOn(table: set<RtRoute>, cs: seq<Change>, adds: seq<Change>, first: RtRoute)
    requires TableRun(RunOne(table, cs, first), cs) && forall c | c in adds :: c.Add?
    ensures TableRun(RunOne(table, cs + adds, first), cs + adds)
    decreases |adds|
  {
    hide TableRun, RunOne;
    if adds == [] {
      assert cs + adds == cs;
    } else {
      var front, last := adds[..|adds| - 1], adds[|adds| - 1];
      assert last in adds && forall c | c in front :: c in adds;
      AddsRunOn(table, cs, front, first);
      assert cs + adds == cs + front + [last];
      var tables := RunOne(table, cs + front, first);
      RunOneSnoc(table, cs + front, last, first);
      OneMoreChange(tables, cs + front, last, ChangeOne(tables[|cs + front|], last, first));
    }
  }

  /** A route that a deletion fits and that this kernel removes first does not survive, unless an addition brings
      it. */
  lemma {:induction false} FirstGoes(table: set<RtRoute>, cs: seq<Change>, r: RtRoute, first: RtRoute)
    requires Delete(r) in cs && Key(first) == Key(r) && first.protocol != RTPROTO_BOOT
    ensures first !in RunOne(table, cs, first)[|cs|]
    decreases |cs|
  {
    var front, last := cs[..|cs| - 1], cs[|cs| - 1];
    assert front + [last] == cs;
    RunOneSnoc(table, front, last, first);
    var before := RunOne(table, front, first)[|front|];
    hide RunOne;
    if last != Delete(r) {
      assert Delete(r) in front;
      FirstGoes(table, front, r, first);
    }
    GoesOrStaysAway(before, last, r, first);
  }

  lemma GoesOrStaysAway(t: set<RtRoute>, c: Change, r: RtRoute, first: RtRoute)
    requires Key(first) == Key(r) && first.protocol != RTPROTO_BOOT
    requires c == Delete(r) || first !in t
    ensures first !in ChangeOne(t, c, first)
  {
    assert first in t ==> first in Class(t, Key(r));
  }

  // A listing leaves enough to delete

  ghost predicate Distinct(rs: seq<RtRoute>) {
    forall i, j | 0 <= i < j < |rs| :: rs[i] != rs[j]
  }

  lemma {:induction false} FilteredDistinct(rs: seq<RtRoute>, w: World)
    requires Distinct(rs)
    ensures Distinct(Filtered(rs, w))
  {
    if rs != [] {
      assert forall k | 0 <= k < |rs| - 1 :: rs[1..][k] == rs[k + 1] && rs[0] != rs[k + 1];
      FilteredDistinct(rs[1..], w);
      FilteredElements(rs[1..], w);
      assert rs[0] !in rs[1..];
      var rest := Filtered(rs[1..], w);
      assert forall k | 0 <= k < |rest| :: rest[k] in rest;
    }
  }

  lemma {:induction false} DistinctFit(rs: seq<RtRoute>, key: RtRoute, routes: set<RtRoute>)
    requires Distinct(rs) && forall r | r in rs && Key(r) == key :: r in routes
    ensures Fitting(rs, key) <= |routes|
  {
    if rs != [] {
      var front, last := rs[..|rs| - 1], rs[|rs| - 1];
      assert last in rs && last !in front;
      assert forall r | r in front :: r in rs;
      if Key(last) == key {
        DistinctFit(front, key, routes - {last});
      } else {
        DistinctFit(front, key, routes);
      }
    }
  }

  lemma ListingIsEnough(w: World, table: set<RtRoute>, listing: seq<RtRoute>)
    requires Lists(listing, table)
    ensures Enough(table, Filtered(listing, w))
  {
    FilteredDistinct(listing, w);
    FilteredElements(listing, w);
    forall key ensures Fitting(Filtered(listing, w), key) <= |Class(table, key)| {
      DistinctFit(Filtered(listing, w), key, Class(table, key));
    }
  }

  /** So a kernel that carries out the whole update always exists, whichever route it prefers to remove. */
  lemma PlanRuns(w: World, table: set<RtRoute>, listing: seq<RtRoute>, request: seq<Route>, first: RtRoute)
    requires Lists(listing, table) && AllTranslatable(w, request) && Translatable(w, request)
    ensures TableRun(RunOne(table, Planned(w, listing, request), first), Planned(w, listing, request))
  {
    var rs := Filtered(listing, w);
    var adds := AsAdds(w, OfKind(request, false)) + AsAdds(w, OfKind(request, true));
    ListingIsEnough(w, table, listing);
    DeletesRun(table, rs, first);
    assert forall c | c in adds :: c.Add?;
    AddsRunOn(table, AsDeletes(rs), adds, first);
    assert AsDeletes(rs) + adds == Planned(w, listing, request);
  }

  /** However the kernel chooses, if it carries out the update, the table ends as the routes left alone and the
      requested ones. */
  ghost predicate EndsAsMeant(w: World, table: set<RtRoute>, listing: seq<RtRoute>, request: seq<Route>)
    requires AllTranslatable(w, request) && Translatable(w, request)
  {
    forall tables | TableRun(tables, Planned(w, listing, request)) && tables[0] == table ::
      tables[|tables| - 1] == Kept(w, table) + Booted(w, request)
  }

  /** After a successful update of a table that was listed completely, the table holds the kept routes and the
      requested ones, however the kernel chooses among the routes that fit a deletion, exactly when no kept route
      differs from a removable one in its protocol alone. */
  lemma TableAfterUpdate(w: World, table: set<RtRoute>, listing: seq<RtRoute>, request: seq<Route>)
    requires Lists(listing, table) && AllTranslatable(w, request) && Translatable(w, request)
    ensures EndsAsMeant(w, table, listing, request) <==> NoConflict(w, table)
  {
    if NoConflict(w, table) {
      forall tables | TableRun(tables, Planned(w, listing, request)) && tables[0] == table
        ensures tables[|tables| - 1] == Kept(w, table) + Booted(w, request)
      {
        UpdatedTable(w, table, listing, request, tables);
      }
    } else {
      var tables := ConflictLosesARoute(w, table, listing, request);
    }
  }

  lemma UpdatedTable(w: World, table: set<RtRoute>, listing: seq<RtRoute>, request: seq<Route>,
                     tables: seq<set<RtRoute>>)
    requires Lists(listing, table) && AllTranslatable(w, request) && Translatable(w, request) && NoConflict(w, table)
    requires TableRun(tables, Planned(w, listing, request)) && tables[0] == table
    ensures tables[|tables| - 1] == Kept(w, table) + Booted(w, request)
  {
    var removed, a, b := Filtered(listing, w), OfKind(request, false), OfKind(request, true);
    var d, x, y := AsDeletes(removed), AsAdds(w, a), AsAdds(w, b);
    SplitRun(tables, d + x, y);
    SplitRun(tables[..|d + x| + 1], d, x);
    RemovableGo(w, table, listing, tables[..|d + x| + 1][..|d| + 1]);
    AddsRun(w, tables[..|d + x| + 1][|d|..], a);
    AddsRun(w, tables[|d + x|..], b);
    BootedByKind(w, request);
  }

  /** A kept route that a deletion also fits: a kernel that removes it first loses it. It was kept for its protocol,
      which is not the one additions get, so the request does not bring it back. */
  lemma ConflictLosesARoute(w: World, table: set<RtRoute>, listing: seq<RtRoute>, request: seq<Route>)
    returns (tables: seq<set<RtRoute>>)
    requires Lists(listing, table) && AllTranslatable(w, request) && Translatable(w, request)
    requires !NoConflict(w, table)
    ensures TableRun(tables, Planned(w, listing, request)) && tables[0] == table
    ensures tables[|tables| - 1] != Kept(w, table) + Booted(w, request)
  {
    var x, r :| x in table && r in table && !MayGo(w, x) && MayGo(w, r) && Key(x) == Key(r);
    var cs := Planned(w, listing, request);
    KeptForItsProtocol(w, x, r);
    FilteredElements(listing, w);
    var d := AsDeletes(Filtered(listing, w));
    var i := IndexOf(Filtered(listing, w), r);
    assert d[i] == Delete(r) && cs[i] == d[i];
    tables := RunOne(table, cs, x);
    PlanRuns(w, table, listing, request, x);
    FirstGoes(table, cs, r, x);
    assert x in Kept(w, table);
  }

  lemma IndexOf(rs: seq<RtRoute>, r: RtRoute) returns (i: nat)
    requires r in rs
    ensures i < |rs| && rs[i] == r
  {
    i :| 0 <= i < |rs| && rs[i] == r;
  }

  lemma KeptForItsProtocol(w: World, x: RtRoute, r: RtRoute)
    requires !MayGo(w, x) && MayGo(w, r) && Key(x) == Key(r)
    ensures x.protocol == 2
  {
    assert Key(x).index == x.index && Key(r).index == r.index;
  }

  /** Such a table: the same route twice, once made by the kernel and once from elsewhere. */
  lemma ConflictExists(w: World, r: RtRoute)
    requires MayGo(w, r)
    ensures !NoConflict(w, {r, r.(protocol := 2)})
  {
    assert !MayGo(w, r.(protocol := 2));
    assert Key(r) == Key(r.(protocol := 2));
  }

  lemma BootedByKind(w: World, request: seq<Route>)
    requires AllTranslatable(w, request) && Translatable(w, request)
    ensures Booted(w, OfKind(request, false)) + Booted(w, OfKind(request, true)) == Booted(w, request)
  {
    KindsPartition(request);
    var a, b := OfKind(request, false), OfKind(request, true);
    assert forall g :: g in request <==> g in multiset(request);
    assert forall g :: g in a + b <==> g in multiset(a + b);
  }

  lemma {:induction false} FilteredElements(rs: seq<RtRoute>, w: World)
    ensures forall r :: r in Filtered(rs, w) <==> r in rs && Removable(w, r)
    ensures forall r :: r in Filtered(rs, w) <==> r in rs && MayGo(w, r)
  {
    if rs != [] {
      RemovableExactly(w, rs[0]);
      FilteredElements(rs[1..], w);
      assert forall r :: r in rs <==> r == rs[0] || r in rs[1..];
    }
  }
}
