/** Receiving the answer to a netlink dump: a stream of datagrams, each a run of messages, ended by NLMSG_DONE. */
module NetlinkDump {
  import opened Basics
  import opened Bytes
  import opened NetlinkWire

  const NLMSG_ERROR := 2
  const NLMSG_DONE := 3
  const NLMSGERR_SIZE := 20

  datatype Msg = Msg(msgType: nat, flags: nat, seqNo: nat, pid: nat, body: seq<byte>)

  function DecodeMsg(b: seq<byte>, off: nat): Msg
    requires RecordOk(b, off, MESSAGE)
  {
    Msg(Value(b[off + 4..off + 6]), Value(b[off + 6..off + 8]), Value(b[off + 8..off + 12]),
        Value(b[off + 12..off + 16]), b[off + 16..off + RecordLen(b, off, MESSAGE)])
  }

  /** What one receive call yields. */
  datatype Recv = Datagram(bytes: seq<byte>) | RecvError(errno: int)

  datatype DumpError = SendFailed(errno: int) | ReceiveFailed(errno: int) | Truncated | Kernel(error: int) | Leftover

  /** Blocked: the stream given so far is used up and the call still waits. Underflowed: the remaining length was made
      smaller than zero. */
  datatype Outcome = Done(msgs: seq<Msg>) | Failed(error: DumpError) | Underflowed | Blocked

  function Signed32(v: nat): int {
    if v < 0x8000_0000 then v else v - TWO_TO_THE_32
  }

  function ErrorOf(m: Msg): DumpError {
    if |m.body| < NLMSGERR_SIZE then Truncated else Kernel(Signed32(Value(m.body[0..4])))
  }

  predicate Mine(m: Msg, pid: nat, dump: nat) {
    m.pid == pid && m.seqNo == dump
  }

  predicate Terminal(m: Msg, pid: nat, dump: nat) {
    Mine(m, pid, dump) && (m.msgType == NLMSG_ERROR || m.msgType == NLMSG_DONE)
  }

  // One datagram

  /** Overrun: stepping past a message would go beyond the datagram. */
  datatype Scan = Finished(msgs: seq<Msg>) | Refused(error: DumpError) | More(msgs: seq<Msg>, rest: nat) | Overrun

  function Ahead(ms: seq<Msg>, s: Scan): Scan {
    match s
    case Finished(msgs) => Finished(ms + msgs)
    case More(msgs, rest) => More(ms + msgs, rest)
    case _ => s
  }

  /** The scan of one more message in front. */
  function ScanCons(m: Msg, s: Scan, pid: nat, dump: nat): Scan {
    if Terminal(m, pid, dump) then
      if m.msgType == NLMSG_ERROR then Refused(ErrorOf(m)) else Finished([m])
    else Ahead(if Mine(m, pid, dump) then [m] else [], s)
  }

  /** Messages are judged one by one; only stepping past one can overrun, so a terminal message ends the
      scan before its own length is subtracted. */
  function ScanFrom(b: seq<byte>, off: nat, pid: nat, dump: nat): Scan
    requires off <= |b|
    decreases |b| - off
  {
    if !RecordOk(b, off, MESSAGE) then More([], |b| - off)
    else
      var next := off + Align(RecordLen(b, off, MESSAGE));
      ScanCons(DecodeMsg(b, off), if next > |b| then Overrun else ScanFrom(b, next, pid, dump), pid, dump)
  }

  // The stream

  datatype Reception = Reception(outcome: Outcome, consumed: nat)

  function After(ms: seq<Msg>, n: nat, r: Reception): Reception {
    Reception(if r.outcome.Done? then Done(ms + r.outcome.msgs) else r.outcome, n + r.consumed)
  }

  function Receive(stream: seq<Recv>, pid: nat, dump: nat): Reception {
    if stream == [] then Reception(Blocked, 0)
    else
      match stream[0]
      case RecvError(errno) => Reception(Failed(ReceiveFailed(errno)), 1)
      case Datagram(b) =>
        match ScanFrom(b, 0, pid, dump)
        case Finished(ms) => Reception(Done(ms), 1)
        case Refused(e) => Reception(Failed(e), 1)
        case Overrun => Reception(Underflowed, 1)
        case More(ms, rest) =>
          if rest != 0 then Reception(Failed(Leftover), 1) else After(ms, 1, Receive(stream[1..], pid, dump))
  }

  lemma AheadTwice(a: seq<Msg>, b: seq<Msg>, s: Scan)
    ensures Ahead(a, Ahead(b, s)) == Ahead(a + b, s)
  {
    match s
    case Finished(ms) => assert a + (b + ms) == a + b + ms;
    case More(ms, _) => assert a + (b + ms) == a + b + ms;
    case _ =>
  }

  lemma AfterTwice(a: seq<Msg>, m: nat, b: seq<Msg>, n: nat, r: Reception)
    ensures After(a, m, After(b, n, r)) == After(a + b, m + n, r)
  {
    if r.outcome.Done? {
      assert a + (b + r.outcome.msgs) == a + b + r.outcome.msgs;
    }
  }

  lemma ConsStep(lv: seq<Msg>, m: Msg, s: Scan, pid: nat, dump: nat)
    ensures Ahead(lv, ScanCons(m, s, pid, dump))
            == if Mine(m, pid, dump) && m.msgType == NLMSG_ERROR then Refused(ErrorOf(m))
               else if Mine(m, pid, dump) && m.msgType == NLMSG_DONE then Finished(lv + [m])
               else Ahead(if Mine(m, pid, dump) then lv + [m] else lv, s)
  {
    AheadTwice(lv, if Mine(m, pid, dump) then [m] else [], s);
    assert lv + [] == lv;
  }

  /** The inner loop over one datagram. */
  method ScanDatagram(b: seq<byte>, pid: nat, dump: nat) returns (s: Scan)
    ensures s == ScanFrom(b, 0, pid, dump)
  {
    hide DecodeMsg, Align, ErrorOf, Terminal;
    var lv: seq<Msg> := [];
    var nlh, msglen := 0, |b|;
    while RecordOk(b, nlh, MESSAGE)
      invariant 0 <= nlh <= |b| && msglen == |b| - nlh
      invariant ScanFrom(b, 0, pid, dump) == Ahead(lv, ScanFrom(b, nlh, pid, dump))
      decreases msglen
    {
      var m, step := DecodeMsg(b, nlh), Align(RecordLen(b, nlh, MESSAGE));
      ConsStep(lv, m, if nlh + step > |b| then Overrun else ScanFrom(b, nlh + step, pid, dump), pid, dump);
      if Mine(m, pid, dump) {
        if m.msgType == NLMSG_ERROR {
          return Refused(ErrorOf(m));
        }
        lv := lv + [m];
        if m.msgType == NLMSG_DONE {
          return Finished(lv);
        }
      }
      if step > msglen {
        return Overrun;
      }
      nlh, msglen := nlh + step, msglen - step;
    }
    assert lv + [] == lv;
    return More(lv, msglen);
  }

  /** The outer loop over receive calls. */
  method RecvDumpMessage(stream: seq<Recv>, pid: nat, dump: nat) returns (r: Reception)
    ensures r == Receive(stream, pid, dump)
  {
    var lv: seq<Msg> := [];
    var i := 0;
    assert stream[0..] == stream;
    while i < |stream|
      invariant 0 <= i <= |stream|
      invariant Receive(stream, pid, dump) == After(lv, i, Receive(stream[i..], pid, dump))
    {
      assert stream[i..][0] == stream[i] && stream[i..][1..] == stream[i + 1..];
      if stream[i].RecvError? {
        return Reception(Failed(ReceiveFailed(stream[i].errno)), i + 1);
      }
      var s := ScanDatagram(stream[i].bytes, pid, dump);
      match s {
        case Finished(ms) => return Reception(Done(lv + ms), i + 1);
        case Refused(e) => return Reception(Failed(e), i + 1);
        case Overrun => return Reception(Underflowed, i + 1);
        case More(ms, rest) =>
          if rest != 0 {
            return Reception(Failed(Leftover), i + 1);
          }
          AfterTwice(lv, i, ms, 1, Receive(stream[i + 1..], pid, dump));
          lv := lv + ms;
      }
      i := i + 1;
    }
    return Reception(Blocked, i);
  }

  // The simple reading of a dump: one flat list of messages

  /** A datagram is well formed when whole messages fill it exactly. */
  ghost predicate WellFormed(b: seq<byte>) {
    var w := WalkFrom(b, 0, MESSAGE);
    w.Stopped? && w.at == |b|
  }

  ghost function MessagesFrom(b: seq<byte>, off: nat): seq<Msg>
    requires off <= |b|
    decreases |b| - off
  {
    if !RecordOk(b, off, MESSAGE) then []
    else
      var next := off + Align(RecordLen(b, off, MESSAGE));
      [DecodeMsg(b, off)] + if next <= |b| then MessagesFrom(b, next) else []
  }

  ghost function AllMessages(ds: seq<seq<byte>>): seq<Msg> {
    if ds == [] then [] else MessagesFrom(ds[0], 0) + AllMessages(ds[1..])
  }

  function OwnMessages(ms: seq<Msg>, pid: nat, dump: nat): seq<Msg> {
    if ms == [] then []
    else (if ms[0].pid == pid && ms[0].seqNo == dump then [ms[0]] else []) + OwnMessages(ms[1..], pid, dump)
  }

  ghost predicate NoTerminal(ms: seq<Msg>, pid: nat, dump: nat) {
    forall m | m in ms :: !Terminal(m, pid, dump)
  }

  /** Everything up to and including the first message that ends the dump. */
  function Judge(ms: seq<Msg>, pid: nat, dump: nat): Outcome {
    if ms == [] then Blocked
    else if !Mine(ms[0], pid, dump) then Judge(ms[1..], pid, dump)
    else if ms[0].msgType == NLMSG_ERROR then Failed(ErrorOf(ms[0]))
    else if ms[0].msgType == NLMSG_DONE then Done([ms[0]])
    else
      var o := Judge(ms[1..], pid, dump);
      if o.Done? then Done([ms[0]] + o.msgs) else o
  }

  /** Judge in closed form: the first terminal message decides, and our messages before it are the answer. */
  lemma {:induction false} JudgeByFirstTerminal(ms: seq<Msg>, pid: nat, dump: nat, k: nat)
    requires k <= |ms| && NoTerminal(ms[..k], pid, dump)
    requires k < |ms| ==> Terminal(ms[k], pid, dump)
    ensures Judge(ms, pid, dump)
         == if k == |ms| then Blocked
            else if ms[k].msgType == NLMSG_ERROR then Failed(ErrorOf(ms[k]))
            else Done(OwnMessages(ms[..k], pid, dump) + [ms[k]])
  {
    if k > 0 {
      assert ms[0] == ms[..k][0] && ms[1..][..k - 1] == ms[..k][1..];
      JudgeByFirstTerminal(ms[1..], pid, dump, k - 1);
      assert !Terminal(ms[0], pid, dump);
    }
  }

  function JudgeAfter(own: seq<Msg>, o: Outcome): Outcome {
    if o.Done? then Done(own + o.msgs) else o
  }

  /** The scan of some messages agrees with the simple reading of them and whatever follows. */
  ghost predicate Agrees(s: Scan, ms: seq<Msg>, later: seq<Msg>, pid: nat, dump: nat) {
    match s
    case More(own, rest) =>
      && rest == 0 && NoTerminal(ms, pid, dump)
      && Judge(ms + later, pid, dump) == JudgeAfter(own, Judge(later, pid, dump))
    case Finished(own) => !NoTerminal(ms, pid, dump) && Judge(ms + later, pid, dump) == Done(own)
    case Refused(e) => !NoTerminal(ms, pid, dump) && Judge(ms + later, pid, dump) == Failed(e)
    case Overrun => false
  }

  lemma AgreesCons(m: Msg, s: Scan, ms: seq<Msg>, later: seq<Msg>, pid: nat, dump: nat)
    requires Agrees(s, ms, later, pid, dump)
    ensures Agrees(ScanCons(m, s, pid, dump), [m] + ms, later, pid, dump)
  {
    var all := [m] + ms;
    assert m in all;
    assert (all + later)[1..] == ms + later;
    if !NoTerminal(ms, pid, dump) {
      var t :| t in ms && Terminal(t, pid, dump);
      assert t in all;
    }
  }

  lemma WholeRest(b: seq<byte>, off: nat, pid: nat, dump: nat)
    requires RecordOk(b, off, MESSAGE)
    requires var w := WalkFrom(b, off, MESSAGE); w.Stopped? && w.at == |b|
    ensures var m, next := DecodeMsg(b, off), off + Align(RecordLen(b, off, MESSAGE));
            && next <= |b|
            && WalkFrom(b, next, MESSAGE).Stopped? && WalkFrom(b, next, MESSAGE).at == |b|
            && MessagesFrom(b, off) == [m] + MessagesFrom(b, next)
            && ScanFrom(b, off, pid, dump) == ScanCons(m, ScanFrom(b, next, pid, dump), pid, dump)
  {
  }

  lemma {:induction false} ScanIsJudge(b: seq<byte>, off: nat, pid: nat, dump: nat, later: seq<Msg>)
    requires off <= |b|
    requires var w := WalkFrom(b, off, MESSAGE); w.Stopped? && w.at == |b|
    ensures Agrees(ScanFrom(b, off, pid, dump), MessagesFrom(b, off), later, pid, dump)
    decreases |b| - off
  {
    hide ScanFrom, MessagesFrom, WalkFrom, DecodeMsg, Agrees, ScanCons, Align;
    if RecordOk(b, off, MESSAGE) {
      WholeRest(b, off, pid, dump);
      var m, next := DecodeMsg(b, off), off + Align(RecordLen(b, off, MESSAGE));
      ScanIsJudge(b, next, pid, dump, later);
      AgreesCons(m, ScanFrom(b, next, pid, dump), MessagesFrom(b, next), later, pid, dump);
    } else {
      NothingLeft(b, off, pid, dump);
      AgreesNil(later, pid, dump);
    }
  }

  lemma NothingLeft(b: seq<byte>, off: nat, pid: nat, dump: nat)
    requires off <= |b| && !RecordOk(b, off, MESSAGE)
    requires var w := WalkFrom(b, off, MESSAGE); w.Stopped? && w.at == |b|
    ensures ScanFrom(b, off, pid, dump) == More([], 0) && MessagesFrom(b, off) == []
  {
  }

  lemma AgreesNil(later: seq<Msg>, pid: nat, dump: nat)
    ensures Agrees(More([], 0), [], later, pid, dump)
  {
    assert [] + later == later;
    if Judge(later, pid, dump).Done? {
      assert [] + Judge(later, pid, dump).msgs == Judge(later, pid, dump).msgs;
    }
  }

  function Datagrams(ds: seq<seq<byte>>): seq<Recv> {
    seq(|ds|, i requires 0 <= i < |ds| => Datagram(ds[i]))
  }

  /** The datagrams up to and including the first one holding a message that ends the dump. */
  ghost function Needed(ds: seq<seq<byte>>, pid: nat, dump: nat): nat {
    if ds == [] then 0
    else if !NoTerminal(MessagesFrom(ds[0], 0), pid, dump) then 1
    else 1 + Needed(ds[1..], pid, dump)
  }

  /** Refinement: over well-formed datagrams, reception is the simple reading of all their messages in order,
      however the kernel cut them into datagrams, and it consumes exactly the datagrams it needs. */
  lemma {:induction false} ReceiveIsJudge(ds: seq<seq<byte>>, pid: nat, dump: nat)
    requires forall b | b in ds :: WellFormed(b)
    ensures Receive(Datagrams(ds), pid, dump)
         == Reception(Judge(AllMessages(ds), pid, dump), Needed(ds, pid, dump))
  {
    if ds != [] {
      ReceiveIsJudge(ds[1..], pid, dump);
      assert Datagrams(ds)[1..] == Datagrams(ds[1..]);
      assert WellFormed(ds[0]);
      ScanIsJudge(ds[0], 0, pid, dump, AllMessages(ds[1..]));
    }
  }

  /** Over any stream whatever, only messages of this very dump are ever returned, the last one ending it. */
  lemma {:induction false} OnlyOwnMessages(stream: seq<Recv>, pid: nat, dump: nat)
    ensures var o := Receive(stream, pid, dump).outcome;
            o.Done? ==>
              && (forall m | m in o.msgs :: Mine(m, pid, dump) && m.msgType != NLMSG_ERROR)
              && o.msgs != [] && o.msgs[|o.msgs| - 1].msgType == NLMSG_DONE
              && forall i | 0 <= i < |o.msgs| - 1 :: o.msgs[i].msgType != NLMSG_DONE
  {
    if stream != [] && stream[0].Datagram? {
      ScanOwn(stream[0].bytes, 0, pid, dump);
      OnlyOwnMessages(stream[1..], pid, dump);
    }
  }

  ghost predicate OwnScan(s: Scan, pid: nat, dump: nat) {
    && (s.Finished? || s.More? ==> forall m | m in s.msgs :: Mine(m, pid, dump) && m.msgType != NLMSG_ERROR)
    && (s.More? ==> forall m | m in s.msgs :: m.msgType != NLMSG_DONE)
    && (s.Finished? ==>
          && s.msgs != [] && s.msgs[|s.msgs| - 1].msgType == NLMSG_DONE
          && forall i | 0 <= i < |s.msgs| - 1 :: s.msgs[i].msgType != NLMSG_DONE)
  }

  lemma OwnCons(m: Msg, s: Scan, pid: nat, dump: nat)
    requires OwnScan(s, pid, dump)
    ensures OwnScan(ScanCons(m, s, pid, dump), pid, dump)
  {
  }

  lemma {:induction false} ScanOwn(b: seq<byte>, off: nat, pid: nat, dump: nat)
    requires off <= |b|
    ensures OwnScan(ScanFrom(b, off, pid, dump), pid, dump)
    decreases |b| - off
  {
    if RecordOk(b, off, MESSAGE) {
      var next := off + Align(RecordLen(b, off, MESSAGE));
      if next <= |b| {
        ScanOwn(b, next, pid, dump);
      }
      OwnCons(DecodeMsg(b, off), if next > |b| then Overrun else ScanFrom(b, next, pid, dump), pid, dump);
    }
  }

  // Request numbers

  /** Dumps and route changes also move the number that dump replies are matched against. */
  datatype Request = DumpRequest | TalkRequest | RouteRequest

  datatype Counters = Counters(seqNo: nat, dump: nat)

  function Bump(c: Counters, req: Request): Counters {
    var next := (c.seqNo + 1) % TWO_TO_THE_32;
    Counters(next, if req == TalkRequest then c.dump else next)
  }

  function AfterRequests(c: Counters, reqs: seq<Request>): Counters {
    if reqs == [] then c else Bump(AfterRequests(c, reqs[..|reqs| - 1]), reqs[|reqs| - 1])
  }

  /** The number the i-th request of the run carries. */
  function NumberOf(c: Counters, reqs: seq<Request>, i: nat): nat
    requires i < |reqs|
  {
    AfterRequests(c, reqs[..i + 1]).seqNo
  }

  lemma {:induction false} SequenceNumber(c: Counters, reqs: seq<Request>)
    requires c.seqNo < TWO_TO_THE_32
    ensures AfterRequests(c, reqs).seqNo == (c.seqNo + |reqs|) % 0x1_0000_0000
  {
    if reqs != [] {
      SequenceNumber(c, reqs[..|reqs| - 1]);
      NextNumber(c.seqNo + |reqs| - 1);
    }
  }

  /** Dump replies are matched against the number of the last request that was not a talk. */
  lemma {:induction false} DumpNumber(c: Counters, reqs: seq<Request>, k: nat)
    requires c.seqNo < 0x1_0000_0000 && k < |reqs| && reqs[k] != TalkRequest
    requires forall i | k < i < |reqs| :: reqs[i] == TalkRequest
    ensures AfterRequests(c, reqs).dump == (c.seqNo + k + 1) % 0x1_0000_0000
  {
    if k < |reqs| - 1 {
      DumpNumber(c, reqs[..|reqs| - 1], k);
    } else {
      SequenceNumber(c, reqs);
    }
  }

  lemma SameNumberExactly(c: Counters, reqs: seq<Request>, i: nat, j: nat)
    requires c.seqNo < TWO_TO_THE_32 && i <= j < |reqs|
    ensures NumberOf(c, reqs, i) == NumberOf(c, reqs, j) <==> (j - i) % 0x1_0000_0000 == 0
  {
    SequenceNumber(c, reqs[..i + 1]);
    SequenceNumber(c, reqs[..j + 1]);
    SameRemainder(c.seqNo + i + 1, j - i);
  }

  lemma SameRemainder(a: nat, d: nat)
    ensures (a + d) % TWO_TO_THE_32 == a % TWO_TO_THE_32 <==> d % TWO_TO_THE_32 == 0
  {
    var qa, ra, qd, rd := a / TWO_TO_THE_32, a % TWO_TO_THE_32, d / TWO_TO_THE_32, d % TWO_TO_THE_32;
    assert a + d == (qa + qd) * TWO_TO_THE_32 + (ra + rd);
    var q := if ra + rd < TWO_TO_THE_32 then qa + qd else qa + qd + 1;
    RemainderIs(a + d, q, if ra + rd < TWO_TO_THE_32 then ra + rd else ra + rd - TWO_TO_THE_32);
  }

  lemma RemainderIs(n: nat, q: nat, r: nat)
    requires n == q * TWO_TO_THE_32 + r && r < TWO_TO_THE_32
    ensures n % TWO_TO_THE_32 == r
  {
  }

  /** No stale replies. Whatever arrives after request j has been sent as a dump, every message the dump
      returns carries j's own number; so a reply to an earlier request i of the same run can be among them
      only if the counter has gone round exactly a multiple of 2^32 times between the two. */
  lemma NoStaleReplies(c: Counters, reqs: seq<Request>, i: nat, j: nat, stream: seq<Recv>, pid: nat, m: Msg)
    requires c.seqNo < TWO_TO_THE_32 && i < j < |reqs| && reqs[j] == DumpRequest
    requires m.seqNo == NumberOf(c, reqs, i)
    requires var o := Receive(stream, pid, AfterRequests(c, reqs[..j + 1]).dump).outcome; o.Done? && m in o.msgs
    ensures (j - i) % TWO_TO_THE_32 == 0
  {
    var upto := reqs[..j + 1];
    assert upto[|upto| - 1] == reqs[j];
    OnlyOwnMessages(stream, pid, AfterRequests(c, upto).dump);
    assert AfterRequests(c, upto).dump == NumberOf(c, reqs, j);
    SameNumberExactly(c, reqs, i, j);
  }

  /** The socket handle: its counters, and requests as they move them. */
  class RtnlHandle {
    const pid: nat
    var seqNo: nat
    var dump: nat

    constructor (pid: nat, now: nat)
      ensures this.pid == pid && seqNo == now % 0x1_0000_0000 && dump == 0
    {
      this.pid := pid;
      seqNo, dump := now % TWO_TO_THE_32, 0;
    }

    ghost function Model(): Counters
      reads this
    {
      Counters(seqNo, dump)
    }

    method BeginTalk()
      modifies this
      ensures seqNo == (old(seqNo) + 1) % 0x1_0000_0000 && dump == old(dump)
      ensures Model() == Bump(old(Model()), TalkRequest)
    {
      seqNo := (seqNo + 1) % TWO_TO_THE_32;
    }

    method BeginRouteChange()
      modifies this
      ensures dump == seqNo == (old(seqNo) + 1) % 0x1_0000_0000
      ensures Model() == Bump(old(Model()), RouteRequest)
    {
      seqNo := (seqNo + 1) % TWO_TO_THE_32;
      dump := seqNo;
    }

    /** dump_all_links, dump_all_addresses and dump_all_route_msgs, given whether sending fails and what the kernel
        answers. */
    method Dump(sending: Option<int>, answers: seq<Recv>) returns (r: Reception)
      modifies this
      ensures dump == seqNo == (old(seqNo) + 1) % 0x1_0000_0000
      ensures Model() == Bump(old(Model()), DumpRequest)
      ensures r == if sending.Some? then Reception(Failed(SendFailed(sending.value)), 0)
                   else Receive(answers, pid, dump)
    {
      seqNo := (seqNo + 1) % TWO_TO_THE_32;
      dump := seqNo;
      if sending.Some? {
        return Reception(Failed(SendFailed(sending.value)), 0);
      }
      r := RecvDumpMessage(answers, pid, dump);
    }
  }
}
