/** Requests that are answered by one datagram: rtnl_talk sends, receives once and judges the first message for this
    socket, whatever request it answers. */
module NetlinkTalk {
  import opened Basics
  import opened Bytes
  import opened NetlinkWire
  import opened NetlinkDump

  // One datagram

  /** Accepted: an acknowledgement, or any message where no answer is wanted. NobodyHere: no message for this socket,
      which is EINVAL. */
  datatype Verdict = Copied(msg: Msg) | Accepted | Rejected(error: DumpError) | NobodyHere | Beyond

  function VerdictOn(m: Msg, answer: bool): Verdict {
    if m.msgType == NLMSG_ERROR then
      if ErrorOf(m) == Kernel(0) then Accepted else Rejected(ErrorOf(m))
    else if answer then Copied(m)
    else Accepted
  }

  /** The first message for this socket decides. */
  function FirstForUs(b: seq<byte>, off: nat, pid: nat, answer: bool): Verdict
    requires off <= |b|
    decreases |b| - off
  {
    if !RecordOk(b, off, MESSAGE) then NobodyHere
    else
      var m, next := DecodeMsg(b, off), off + Align(RecordLen(b, off, MESSAGE));
      if m.pid == pid then VerdictOn(m, answer)
      else if next > |b| then Beyond
      else FirstForUs(b, next, pid, answer)
  }

  method ScanReply(b: seq<byte>, pid: nat, answer: bool) returns (v: Verdict)
    ensures v == FirstForUs(b, 0, pid, answer)
  {
    hide DecodeMsg, Align, ErrorOf;
    var nlh, msglen := 0, |b|;
    while RecordOk(b, nlh, MESSAGE)
      invariant 0 <= nlh <= |b| && msglen == |b| - nlh
      invariant FirstForUs(b, 0, pid, answer) == FirstForUs(b, nlh, pid, answer)
      decreases msglen
    {
      var m, step := DecodeMsg(b, nlh), Align(RecordLen(b, nlh, MESSAGE));
      if m.pid != pid {
        if step > msglen {
          return Beyond;
        }
        nlh, msglen := nlh + step, msglen - step;
      } else if m.msgType == NLMSG_ERROR {
        return if ErrorOf(m) == Kernel(0) then Accepted else Rejected(ErrorOf(m));
      } else {
        return if answer then Copied(m) else Accepted;
      }
    }
    return NobodyHere;
  }

  /** The same over a list of messages. */
  function FirstOf(ms: seq<Msg>, pid: nat, answer: bool): Verdict {
    if ms == [] then NobodyHere
    else if ms[0].pid == pid then VerdictOn(ms[0], answer)
    else FirstOf(ms[1..], pid, answer)
  }

  lemma FirstStep(b: seq<byte>, off: nat, pid: nat, answer: bool)
    requires off <= |b| && RecordOk(b, off, MESSAGE) && off + Align(RecordLen(b, off, MESSAGE)) <= |b|
    ensures FirstForUs(b, off, pid, answer)
         == if DecodeMsg(b, off).pid == pid then VerdictOn(DecodeMsg(b, off), answer)
            else FirstForUs(b, off + Align(RecordLen(b, off, MESSAGE)), pid, answer)
  {
  }

  /** Over whole datagrams: messages for others are passed over, and the first for this socket decides. */
  lemma {:induction false} FirstDecides(b: seq<byte>, off: nat, pid: nat, answer: bool)
    requires off <= |b|
    requires var w := WalkFrom(b, off, MESSAGE); w.Stopped? && w.at == |b|
    ensures FirstForUs(b, off, pid, answer) == FirstOf(MessagesFrom(b, off), pid, answer)
    decreases |b| - off
  {
    hide FirstForUs, MessagesFrom, WalkFrom, DecodeMsg, Align, ScanFrom, VerdictOn;
    if RecordOk(b, off, MESSAGE) {
      WholeRest(b, off, pid, 0);
      FirstStep(b, off, pid, answer);
      var m, next := DecodeMsg(b, off), off + Align(RecordLen(b, off, MESSAGE));
      FirstDecides(b, next, pid, answer);
      assert ([m] + MessagesFrom(b, next))[1..] == MessagesFrom(b, next);
    } else {
      NobodyLeft(b, off, pid, answer);
    }
  }

  lemma NobodyLeft(b: seq<byte>, off: nat, pid: nat, answer: bool)
    requires off <= |b| && !RecordOk(b, off, MESSAGE)
    ensures FirstForUs(b, off, pid, answer) == NobodyHere && MessagesFrom(b, off) == []
  {
  }

  // One talk on a socket

  /** Unread: receiving fails and leaves what has arrived where it is. */
  datatype Talk = SendFailed(errno: int) | Unread(errno: int) | Judged(verdict: Verdict)

  /** How one attempt goes, but for the bytes. */
  datatype Attempt = Attempt(sending: Option<int>, receiving: Option<int>)

  predicate Sends(a: Attempt) {
    a.sending == None
  }

  predicate Reads(a: Attempt) {
    Sends(a) && a.receiving == None
  }

  /** The datagrams that wait afterwards, and the result, when the kernel answers a request with this one. */
  function TalkOn(queue: seq<seq<byte>>, a: Attempt, reply: seq<byte>, pid: nat, answer: bool)
      : (seq<seq<byte>>, Talk) {
    if a.sending.Some? then (queue, Talk.SendFailed(a.sending.value))
    else
      var waiting := queue + [reply];
      if a.receiving.Some? then (waiting, Unread(a.receiving.value))
      else (waiting[1..], Judged(FirstForUs(waiting[0], 0, pid, answer)))
  }

  class Socket {
    const pid: nat
    var queue: seq<seq<byte>>

    constructor (pid: nat)
      ensures this.pid == pid && queue == []
    {
      this.pid, queue := pid, [];
    }

    method RtnlTalk(a: Attempt, reply: seq<byte>, answer: bool) returns (r: Talk)
      modifies this
      ensures a.sending.Some? ==> queue == old(queue) && r == Talk.SendFailed(a.sending.value)
      ensures a.sending.None? && a.receiving.Some? ==>
                queue == old(queue) + [reply] && r == Unread(a.receiving.value)
      ensures a.sending.None? && a.receiving.None? ==>
                var waiting := old(queue) + [reply];
                [waiting[0]] + queue == waiting && r == Judged(FirstForUs(waiting[0], 0, pid, answer))
      ensures (queue, r) == TalkOn(old(queue), a, reply, pid, answer)
    {
      if a.sending.Some? {
        return Talk.SendFailed(a.sending.value);
      }
      queue := queue + [reply];
      if a.receiving.Some? {
        return Unread(a.receiving.value);
      }
      var buf := queue[0];
      queue := queue[1..];
      var v := ScanReply(buf, pid, answer);
      return Judged(v);
    }
  }

  // A dump in between

  /** A dump that is answered to its end on the same socket reads away everything that waits, as long as nothing of
      that ends the dump. */
  lemma {:induction false} DumpDrains(queue: seq<seq<byte>>, ds: seq<seq<byte>>, pid: nat, dump: nat)
    requires forall b | b in queue + ds :: WellFormed(b)
    requires forall b | b in queue :: NoTerminal(MessagesFrom(b, 0), pid, dump)
    requires |ds| > 0 && !NoTerminal(MessagesFrom(ds[|ds| - 1], 0), pid, dump)
    requires forall b | b in ds[..|ds| - 1] :: NoTerminal(MessagesFrom(b, 0), pid, dump)
    ensures Receive(Datagrams(queue + ds), pid, dump).consumed == |queue + ds|
  {
    ReceiveIsJudge(queue + ds, pid, dump);
    var all := queue + ds;
    assert all[..|all| - 1] == queue + ds[..|ds| - 1];
    NeededAll(all, pid, dump);
  }

  lemma {:induction false} NeededAll(ds: seq<seq<byte>>, pid: nat, dump: nat)
    requires |ds| > 0 && !NoTerminal(MessagesFrom(ds[|ds| - 1], 0), pid, dump)
    requires forall b | b in ds[..|ds| - 1] :: NoTerminal(MessagesFrom(b, 0), pid, dump)
    ensures Needed(ds, pid, dump) == |ds|
    decreases |ds|
  {
    hide NoTerminal, MessagesFrom;
    if |ds| > 1 {
      assert ds[0] == ds[..|ds| - 1][0] && ds[1..][..|ds| - 2] == ds[..|ds| - 1][1..];
      NeededAll(ds[1..], pid, dump);
    }
  }

  // Runs of talks and dumps

  /** A talk, or a dump that is answered to its end. */
  datatype Act = Talking(a: Attempt) | Dumping

  predicate Asks(act: Act) {
    act.Talking? && Sends(act.a)
  }

  predicate Takes(act: Act) {
    act.Talking? && Reads(act.a)
  }

  /** What waits after a run, when reply(i) answers the i-th act. */
  function QueueAfter(run: seq<Act>, reply: nat -> seq<byte>): seq<seq<byte>> {
    if run == [] then []
    else
      var n := |run| - 1;
      match run[n]
      case Dumping => []
      case Talking(a) => TalkOn(QueueAfter(run[..n], reply), a, reply(n), 0, false).0
  }

  /** The acts whose requests went out, and how many receives have failed since the last dump. */
  function Sent(run: seq<Act>): (r: seq<nat>)
    ensures forall i | i in r :: i < |run|
  {
    if run == [] then [] else Sent(run[..|run| - 1]) + if Asks(run[|run| - 1]) then [|run| - 1] else []
  }

  function Missed(run: seq<Act>): nat {
    if run == [] then 0
    else
      var act := run[|run| - 1];
      if act.Dumping? then 0 else Missed(run[..|run| - 1]) + if Asks(act) && !Takes(act) then 1 else 0
  }

  function Replies(ids: seq<nat>, reply: nat -> seq<byte>): seq<seq<byte>> {
    seq(|ids|, i requires 0 <= i < |ids| => reply(ids[i]))
  }

  lemma RepliesSnoc(ids: seq<nat>, n: nat, reply: nat -> seq<byte>)
    ensures Replies(ids + [n], reply) == Replies(ids, reply) + [reply(n)]
    ensures ids != [] ==> Replies(ids, reply)[1..] == Replies(ids[1..], reply)
  {
  }

  /** Nothing is lost and nothing overtakes: what waits are the answers to the last requests that went out, one for
      each receive that has failed since the last dump. */
  lemma {:induction false} QueueIs(run: seq<Act>, reply: nat -> seq<byte>)
    ensures Missed(run) <= |Sent(run)|
    ensures QueueAfter(run, reply) == Replies(Sent(run)[|Sent(run)| - Missed(run)..], reply)
  {
    hide Replies;
    if run == [] {
      NoReplies(reply);
    } else {
      var n := |run| - 1;
      var sent, lag := Sent(run[..n]), Missed(run[..n]);
      QueueIs(run[..n], reply);
      QueueStep(run, reply);
      NoReplies(reply);
      RepliesOfLast(sent, lag, n, reply);
      assert sent + [] == sent && sent[|sent|..] == [];
      hide QueueAfter;
    }
  }

  lemma RepliesOfLast(sent: seq<nat>, lag: nat, n: nat, reply: nat -> seq<byte>)
    requires lag <= |sent|
    ensures var waiting := Replies(sent[|sent| - lag..], reply) + [reply(n)];
            && Replies((sent + [n])[|sent| - lag..], reply) == waiting
            && Replies((sent + [n])[|sent| + 1 - lag..], reply) == waiting[1..]
  {
    var ids := sent[|sent| - lag..];
    RepliesSnoc(ids, n, reply);
    RepliesSnoc(ids + [n], n, reply);
    assert (sent + [n])[|sent| - lag..] == ids + [n];
    assert (sent + [n])[|sent| + 1 - lag..] == (ids + [n])[1..];
  }

  lemma QueueStep(run: seq<Act>, reply: nat -> seq<byte>)
    requires run != []
    ensures var n := |run| - 1;
            var waiting := QueueAfter(run[..n], reply) + [reply(n)];
            QueueAfter(run, reply)
            == if run[n].Dumping? then []
               else if !Asks(run[n]) then QueueAfter(run[..n], reply)
               else if Takes(run[n]) then waiting[1..]
               else waiting
  {
    hide FirstForUs;
  }

  lemma NoReplies(reply: nat -> seq<byte>)
    ensures Replies([], reply) == []
  {
  }

  /** So an attempt that receives judges the answer to the request that went out as many requests before its own as
      receives have failed since the last dump: talks alone never catch up. */
  lemma JudgesLagging(run: seq<Act>, reply: nat -> seq<byte>, n: nat, pid: nat, answer: bool)
    requires n < |run| && Takes(run[n])
    ensures var sent, lag := Sent(run[..n + 1]), Missed(run[..n]);
            && lag < |sent|
            && TalkOn(QueueAfter(run[..n], reply), run[n].a, reply(n), pid, answer).1
                 == Judged(FirstForUs(reply(sent[|sent| - 1 - lag]), 0, pid, answer))
  {
    var before, lag := Sent(run[..n]), Missed(run[..n]);
    assert run[..n + 1][..n] == run[..n];
    QueueIs(run[..n], reply);
    assert Sent(run[..n + 1]) == before + [n];
    var waiting := QueueAfter(run[..n], reply) + [reply(n)];
    assert waiting[0] == reply((before + [n])[|before| - lag]);
  }

  /** An answer that was left behind has been read away by a dump since. */
  ghost predicate Drained(run: seq<Act>, m: nat)
    requires m < |run|
  {
    Asks(run[m]) && !Takes(run[m]) ==> exists d: nat | m < d < |run| :: run[d].Dumping?
  }

  lemma {:induction false} MissedNone(run: seq<Act>)
    ensures Missed(run) == 0 <==> forall m: nat | m < |run| :: Drained(run, m)
  {
    if run != [] {
      var n, before := |run| - 1, run[..|run| - 1];
      MissedNone(before);
      assert forall m: nat | m < n :: before[m] == run[m];
      if run[n].Dumping? {
        assert forall m: nat | m < n :: Drained(run, m);
      } else {
        forall m: nat | m < n ensures Drained(run, m) <==> Drained(before, m) {
          if d: nat :| m < d < |run| && run[d].Dumping? {
            assert before[d].Dumping?;
          }
          if d: nat :| m < d < |before| && before[d].Dumping? {
            assert run[d].Dumping?;
          }
        }
        assert Drained(run, n) <==> !(Asks(run[n]) && !Takes(run[n]));
      }
    }
  }

  /** Sent attempts come in their order, so an earlier one is another one. */
  lemma {:induction false} SentGrows(run: seq<Act>, i: nat, j: nat)
    requires i < j < |Sent(run)|
    ensures Sent(run)[i] < Sent(run)[j]
  {
    var before := Sent(run[..|run| - 1]);
    if j < |before| {
      SentGrows(run[..|run| - 1], i, j);
    } else {
      assert Sent(run)[i] in before;
    }
  }

  /** The request whose answer an attempt judges. */
  function Judges(run: seq<Act>, n: nat): nat
    requires n < |run| && Missed(run[..n]) < |Sent(run[..n + 1])|
  {
    var sent := Sent(run[..n + 1]);
    sent[|sent| - 1 - Missed(run[..n])]
  }

  lemma OwnAnswerExactly(run: seq<Act>, n: nat)
    requires n < |run| && Takes(run[n])
    ensures Missed(run[..n]) < |Sent(run[..n + 1])|
    ensures Judges(run, n) == n <==> Missed(run[..n]) == 0
    ensures Judges(run, n) <= n
  {
    var lag := Missed(run[..n]);
    QueueIs(run[..n], _ => []);
    assert run[..n + 1][..n] == run[..n];
    var sent := Sent(run[..n + 1]);
    assert sent == Sent(run[..n]) + [n];
    if lag > 0 {
      SentGrows(run[..n + 1], |sent| - 1 - lag, |sent| - 1);
    }
  }

  /** Over a whole run, every attempt that receives judges the answer to its own request if and only if, whenever a
      receive has failed after its request went out, a dump has been answered to its end before the next attempt
      receives. */
  lemma TalksAreOwnExactly(run: seq<Act>)
    ensures (forall n: nat | n < |run| && Takes(run[n]) ::
               Missed(run[..n]) < |Sent(run[..n + 1])| && Judges(run, n) == n)
       <==> (forall m: nat, n: nat | m < n < |run| && Takes(run[n]) :: Drained(run[..n], m))
  {
    forall n: nat | n < |run| && Takes(run[n])
      ensures Missed(run[..n]) < |Sent(run[..n + 1])|
      ensures Judges(run, n) == n <==> forall m: nat | m < n :: Drained(run[..n], m)
    {
      OwnAnswerExactly(run, n);
      MissedNone(run[..n]);
    }
  }

  /** The code does not look, but the numbers would tell: within 2^32 requests, an answer that carries its request's
      number carries the judging attempt's number exactly when it is its own. */
  lemma NumbersWouldTell(c: Counters, reqs: seq<Request>, run: seq<Act>, n: nat)
    requires c.seqNo < TWO_TO_THE_32 && |reqs| == |run| < TWO_TO_THE_32 && n < |run| && Takes(run[n])
    ensures Missed(run[..n]) < |Sent(run[..n + 1])| && Judges(run, n) <= n
    ensures NumberOf(c, reqs, Judges(run, n)) == NumberOf(c, reqs, n) <==> Missed(run[..n]) == 0
  {
    OwnAnswerExactly(run, n);
    SameNumberExactly(c, reqs, Judges(run, n), n);
  }

  /** A run in which it matters: the answer to the first request is left unread, and the second, which the kernel
      refuses, is taken for accepted. */
  lemma RefusalIsMissed(first: seq<byte>, second: seq<byte>, pid: nat, errno: int)
    requires FirstForUs(first, 0, pid, false) == Accepted && FirstForUs(second, 0, pid, false).Rejected?
    ensures var a, b := Attempt(None, Some(errno)), Attempt(None, None);
            var (queue, r) := TalkOn([], a, first, pid, false);
            r == Unread(errno) && TalkOn(queue, b, second, pid, false) == ([second], Judged(Accepted))
  {
    assert [] + [first] == [first] && ([first] + [second])[1..] == [second];
  }
}
