/** The messages on the wire: what a datagram that carries a given list of messages is read as, stated from the bytes
    of struct nlmsghdr (RFC 3549, section 2.3.2) and struct nlmsgerr. */
module NetlinkBytes {
  import opened Basics
  import opened Bytes
  import opened NetlinkWire
  import opened NetlinkDump
  import opened NetlinkTalk

  /** The fields fit their places in the header. */
  ghost predicate Sendable(m: Msg) {
    && m.msgType < 0x1_0000 && m.flags < 0x1_0000 && m.seqNo < 0x1_0000_0000 && m.pid < 0x1_0000_0000
    && 16 + |m.body| < 0x1_0000_0000
  }

  function HeaderBytes(m: Msg): (h: seq<byte>)
    ensures |h| == 16
  {
    LittleEndian(16 + |m.body|, 4) + LittleEndian(m.msgType, 2) + LittleEndian(m.flags, 2)
    + LittleEndian(m.seqNo, 4) + LittleEndian(m.pid, 4)
  }

  /** The bytes are the message's header and body, and whatever fills them up to the next multiple of four. */
  ghost predicate Carries(r: seq<byte>, m: Msg) {
    && Sendable(m)
    && |r| % 4 == 0 && 16 + |m.body| <= |r| < 16 + |m.body| + 4
    && r[..16] == HeaderBytes(m) && r[16..16 + |m.body|] == m.body
  }

  ghost predicate CarryAll(rs: seq<seq<byte>>, ms: seq<Msg>) {
    |rs| == |ms| && forall i | 0 <= i < |rs| :: Carries(rs[i], ms[i])
  }

  lemma PowsOf256()
    ensures Pow256(2) == 0x1_0000 && Pow256(4) == 0x1_0000_0000
  {
    assert Pow256(1) == 256;
    assert Pow256(3) == 0x100_0000 by { assert Pow256(2) == 0x1_0000; }
  }

  lemma HeaderParts(m: Msg)
    ensures var h := HeaderBytes(m);
            && h[0..4] == LittleEndian(16 + |m.body|, 4)
            && h[4..6] == LittleEndian(m.msgType, 2) && h[6..8] == LittleEndian(m.flags, 2)
            && h[8..12] == LittleEndian(m.seqNo, 4) && h[12..16] == LittleEndian(m.pid, 4)
  {
    hide LittleEndian;
  }

  lemma HeaderFields(m: Msg)
    requires Sendable(m)
    ensures var h := HeaderBytes(m);
            && Value(h[0..4]) == 16 + |m.body|
            && Value(h[4..6]) == m.msgType && Value(h[6..8]) == m.flags
            && Value(h[8..12]) == m.seqNo && Value(h[12..16]) == m.pid
  {
    hide LittleEndian, HeaderBytes;
    HeaderParts(m);
    PowsOf256();
    ValueOfLittleEndian(16 + |m.body|, 4);
    ValueOfLittleEndian(m.msgType, 2);
    ValueOfLittleEndian(m.flags, 2);
    ValueOfLittleEndian(m.seqNo, 4);
    ValueOfLittleEndian(m.pid, 4);
  }

  lemma CarriedIsRecord(r: seq<byte>, m: Msg)
    requires Carries(r, m)
    ensures IsRecord(r, MESSAGE) && RecordLen(r, 0, MESSAGE) == 16 + |m.body|
  {
    hide HeaderBytes, Value;
    HeaderFields(m);
    assert r[0..4] == r[..16][0..4];
  }

  /** Round trip: whatever surrounds its bytes, the message is decoded to exactly the fields that were put in. */
  lemma DecodeOfCarried(pre: seq<byte>, r: seq<byte>, post: seq<byte>, m: Msg)
    requires Carries(r, m)
    ensures RecordOk(pre + r + post, |pre|, MESSAGE)
    ensures RecordLen(pre + r + post, |pre|, MESSAGE) == 16 + |m.body|
    ensures DecodeMsg(pre + r + post, |pre|) == m
  {
    hide HeaderBytes, Value, IsRecord;
    var b, n := pre + r + post, |pre|;
    CarriedIsRecord(r, m);
    RecordAt(pre, r, post, MESSAGE);
    HeaderFields(m);
    assert b[n..n + |r|] == r;
    FieldOf(b, n, r, 4, 6);
    FieldOf(b, n, r, 6, 8);
    FieldOf(b, n, r, 8, 12);
    FieldOf(b, n, r, 12, 16);
    SubSlice(b, n, n + |r|, 16, 16 + |m.body|);
  }

  lemma FieldOf(b: seq<byte>, n: nat, r: seq<byte>, i: nat, j: nat)
    requires i <= j <= 16 <= |r| && n + |r| <= |b| && b[n..n + |r|] == r
    ensures b[n + i..n + j] == r[..16][i..j]
  {
    SubSlice(b, n, n + |r|, i, j);
    SubSlice(r, 0, 16, i, j);
    assert r[0..16] == r[..16];
  }

  lemma AllRecords(rs: seq<seq<byte>>, ms: seq<Msg>)
    requires CarryAll(rs, ms)
    ensures forall r | r in rs :: IsRecord(r, MESSAGE)
  {
    forall r | r in rs ensures IsRecord(r, MESSAGE) {
      var i :| 0 <= i < |rs| && rs[i] == r;
      CarriedIsRecord(r, ms[i]);
    }
  }

  /** A datagram of such records is whole. */
  lemma CarriedIsWhole(rs: seq<seq<byte>>, ms: seq<Msg>)
    requires CarryAll(rs, ms)
    ensures WellFormed(Flatten(rs))
  {
    AllRecords(rs, ms);
    FormatsAreProper();
    WalkVisitsAll([], rs, MESSAGE);
    assert [] + Flatten(rs) == Flatten(rs);
  }

  /** And its messages are those it carries, in order. */
  lemma {:induction false} MessagesOfCarried(pre: seq<byte>, rs: seq<seq<byte>>, ms: seq<Msg>)
    requires CarryAll(rs, ms)
    ensures MessagesFrom(pre + Flatten(rs), |pre|) == ms
    decreases |rs|
  {
    hide Carries, DecodeMsg, Value;
    var b := pre + Flatten(rs);
    if rs != [] {
      var r, post := rs[0], Flatten(rs[1..]);
      assert Carries(rs[0], ms[0]);
      assert b == pre + r + post == (pre + r) + post;
      DecodeOfCarried(pre, r, post, ms[0]);
      CarriedIsRecord(r, ms[0]);
      MessagesOfCarried(pre + r, rs[1..], ms[1..]);
      assert ms == [ms[0]] + ms[1..];
    }
  }

  lemma DecodedIsCarried(r: seq<byte>)
    requires IsRecord(r, MESSAGE)
    ensures Carries(r, DecodeMsg(r, 0))
  {
    hide LittleEndian, Value;
    var m := DecodeMsg(r, 0);
    assert 16 + |m.body| == RecordLen(r, 0, MESSAGE);
    LittleEndianOfValue(r[0..4]);
    LittleEndianOfValue(r[4..6]);
    LittleEndianOfValue(r[6..8]);
    LittleEndianOfValue(r[8..12]);
    LittleEndianOfValue(r[12..16]);
    PowsOf256();
    assert r[..16] == r[0..4] + r[4..6] + r[6..8] + r[8..12] + r[12..16];
  }

  /** Every whole datagram is of this form. */
  lemma {:induction false} EveryDatagramCarries(b: seq<byte>) returns (rs: seq<seq<byte>>, ms: seq<Msg>)
    requires WalkFrom(b, 0, MESSAGE).Stopped? && WalkFrom(b, 0, MESSAGE).at == |b|
    ensures CarryAll(rs, ms) && Flatten(rs) == b
    decreases |b|
  {
    hide Carries, DecodeMsg, IsRecord;
    if !RecordOk(b, 0, MESSAGE) {
      return [], [];
    }
    var n := Align(RecordLen(b, 0, MESSAGE));
    FirstRecord(b, n);
    DecodedIsCarried(b[..n]);
    WalkShiftsWhole(b[..n], b[n..], 0);
    assert b[..n] + b[n..] == b;
    var rest, more := EveryDatagramCarries(b[n..]);
    rs, ms := [b[..n]] + rest, [DecodeMsg(b[..n], 0)] + more;
    assert Flatten(rs) == b[..n] + Flatten(rs[1..]);
  }

  lemma FirstRecord(b: seq<byte>, n: nat)
    requires RecordOk(b, 0, MESSAGE) && n == Align(RecordLen(b, 0, MESSAGE)) <= |b|
    ensures IsRecord(b[..n], MESSAGE) && RecordOk(b[..n], 0, MESSAGE)
  {
    assert b[..n][0..4] == b[0..4];
  }

  lemma {:induction false} WalkShiftsWhole(pre: seq<byte>, b: seq<byte>, off: nat)
    requires off <= |b|
    ensures var w, v := WalkFrom(pre + b, |pre| + off, MESSAGE), WalkFrom(b, off, MESSAGE);
            w.Stopped? && w.at == |pre| + |b| ==> v.Stopped? && v.at == |b|
    decreases |b| - off
  {
    if off + 16 <= |b| {
      assert (pre + b)[|pre| + off..|pre| + off + 4] == b[off..off + 4];
    }
    if RecordOk(b, off, MESSAGE) {
      var next := off + Align(RecordLen(b, off, MESSAGE));
      if next <= |b| {
        WalkShiftsWhole(pre, b, next);
      }
    }
  }

  // Whole receptions

  /** Datagrams of records, and the messages they carry between them. */
  function Joined<T>(lists: seq<seq<T>>): seq<T> {
    if lists == [] then [] else lists[0] + Joined(lists[1..])
  }

  function Packed(packets: seq<seq<seq<byte>>>): seq<seq<byte>> {
    seq(|packets|, i requires 0 <= i < |packets| => Flatten(packets[i]))
  }

  ghost predicate CarryLists(packets: seq<seq<seq<byte>>>, lists: seq<seq<Msg>>) {
    |packets| == |lists| && forall i | 0 <= i < |packets| :: CarryAll(packets[i], lists[i])
  }

  lemma {:induction false} AllMessagesOfCarried(packets: seq<seq<seq<byte>>>, lists: seq<seq<Msg>>)
    requires CarryLists(packets, lists)
    ensures AllMessages(Packed(packets)) == Joined(lists)
    ensures forall b | b in Packed(packets) :: WellFormed(b)
  {
    hide CarryAll, MessagesFrom, WellFormed;
    if packets != [] {
      AllMessagesOfCarried(packets[1..], lists[1..]);
      assert Packed(packets)[1..] == Packed(packets[1..]);
      MessagesOfCarried([], packets[0], lists[0]);
      CarriedIsWhole(packets[0], lists[0]);
      assert [] + Flatten(packets[0]) == Flatten(packets[0]);
    }
  }

  /** The signed number in the first four bytes. */
  function CodeIn(body: seq<byte>): int
    requires |body| >= 4
  {
    var (a: int, b: int, c: int, d: int) := (body[0], body[1], body[2], body[3]);
    var v := a + 0x100 * b + 0x1_0000 * c + 0x100_0000 * d;
    if v < 0x8000_0000 then v else v - 0x1_0000_0000
  }

  /** A message that ends this dump, by its numbers: NLMSG_ERROR is 2 and NLMSG_DONE 3. */
  ghost predicate Ends(m: Msg, pid: nat, dump: nat) {
    m.pid == pid && m.seqNo == dump && (m.msgType == 2 || m.msgType == 3)
  }

  /** A dump from the bytes on: the first message that ends it decides, wherever the datagrams are cut. */
  lemma DumpIsRead(packets: seq<seq<seq<byte>>>, lists: seq<seq<Msg>>, pid: nat, dump: nat, k: nat)
    requires CarryLists(packets, lists) && k <= |Joined(lists)|
    requires forall i | 0 <= i < k :: !Ends(Joined(lists)[i], pid, dump)
    requires k < |Joined(lists)| ==> Ends(Joined(lists)[k], pid, dump)
    ensures Receive(Datagrams(Packed(packets)), pid, dump).outcome
         == var ms := Joined(lists);
            if k == |ms| then Blocked
            else if ms[k].msgType == 3 then Done(OwnMessages(ms[..k], pid, dump) + [ms[k]])
            else if |ms[k].body| < 20 then Failed(Truncated)
            else Failed(Kernel(CodeIn(ms[k].body)))
  {
    hide CarryLists, WellFormed, Receive, Datagrams, Packed, Judge, OwnMessages, Joined, CodeIn, ErrorOf;
    var ms := Joined(lists);
    AllMessagesOfCarried(packets, lists);
    ReceiveIsJudge(Packed(packets), pid, dump);
    assert NoTerminal(ms[..k], pid, dump);
    JudgeByFirstTerminal(ms, pid, dump, k);
    if k < |ms| {
      ErrorIs(ms[k]);
    }
  }

  lemma ErrorIs(m: Msg)
    ensures ErrorOf(m) == if |m.body| < 20 then Truncated else Kernel(CodeIn(m.body))
  {
    if |m.body| >= 20 {
      ValueOfFour(m.body[0..4]);
    }
  }

  // Streams that break off

  /** Records before a tail are scanned as the messages they carry. */
  lemma {:induction false} ScanOfCarried(pre: seq<byte>, rs: seq<seq<byte>>, ms: seq<Msg>, tail: seq<byte>, pid: nat,
                                         dump: nat)
    requires CarryAll(rs, ms) && forall m | m in ms :: !Ends(m, pid, dump)
    ensures var b, at := pre + Flatten(rs) + tail, |pre| + |Flatten(rs)|;
            ScanFrom(b, |pre|, pid, dump) == Ahead(OwnMessages(ms, pid, dump), ScanFrom(b, at, pid, dump))
    decreases |rs|
  {
    hide Carries, DecodeMsg, Value, Align, ScanFrom, Mine, Ends;
    var b := pre + Flatten(rs) + tail;
    var last := ScanFrom(b, |pre| + |Flatten(rs)|, pid, dump);
    if rs == [] {
      AheadNothing(last);
    } else {
      var r, m := rs[0], ms[0];
      assert Carries(rs[0], ms[0]);
      assert b == pre + r + (Flatten(rs[1..]) + tail) == (pre + r) + Flatten(rs[1..]) + tail;
      DecodeOfCarried(pre, r, Flatten(rs[1..]) + tail, m);
      CarriedIsRecord(r, m);
      assert m in ms;
      ScanStep(b, |pre|, m, |pre| + |r|, pid, dump);
      ScanOfCarried(pre + r, rs[1..], ms[1..], tail, pid, dump);
      AheadTwice(if m.pid == pid && m.seqNo == dump then [m] else [], OwnMessages(ms[1..], pid, dump), last);
    }
  }

  lemma ScanStep(b: seq<byte>, off: nat, m: Msg, next: nat, pid: nat, dump: nat)
    requires RecordOk(b, off, MESSAGE) && DecodeMsg(b, off) == m && !Ends(m, pid, dump)
    requires next == off + Align(RecordLen(b, off, MESSAGE)) <= |b|
    ensures ScanFrom(b, off, pid, dump)
         == Ahead(if m.pid == pid && m.seqNo == dump then [m] else [], ScanFrom(b, next, pid, dump))
  {
    hide DecodeMsg, Value, Align;
  }

  lemma AheadNothing(s: Scan)
    ensures Ahead([], s) == s
  {
    assert s.Finished? || s.More? ==> [] + s.msgs == s.msgs;
  }

  lemma AfterNothing(r: Reception)
    ensures After([], 0, r) == r
  {
    assert r.outcome.Done? ==> [] + r.outcome.msgs == r.outcome.msgs;
  }

  lemma {:induction false} OwnOfJoined(a: seq<Msg>, b: seq<Msg>, pid: nat, dump: nat)
    ensures OwnMessages(a + b, pid, dump) == OwnMessages(a, pid, dump) + OwnMessages(b, pid, dump)
  {
    if a == [] {
      assert [] + b == b;
    } else {
      assert (a + b)[1..] == a[1..] + b;
      OwnOfJoined(a[1..], b, pid, dump);
    }
  }

  /** Whole datagrams in which nothing ends the dump are passed over, and their own messages kept. */
  lemma {:induction false} ReceiveGoesOn(packets: seq<seq<seq<byte>>>, lists: seq<seq<Msg>>, rest: seq<Recv>, pid: nat,
                                         dump: nat)
    requires CarryLists(packets, lists) && forall m | m in Joined(lists) :: !Ends(m, pid, dump)
    ensures Receive(Datagrams(Packed(packets)) + rest, pid, dump)
         == After(OwnMessages(Joined(lists), pid, dump), |packets|, Receive(rest, pid, dump))
  {
    hide CarryAll, ScanFrom, OwnMessages, Flatten;
    var front := Datagrams(Packed(packets));
    if packets == [] {
      assert front + rest == rest;
      NoneOwn(pid, dump);
      AfterNothing(Receive(rest, pid, dump));
    } else {
      var b, ms, more := Flatten(packets[0]), lists[0], Joined(lists[1..]);
      assert (front + rest)[0] == Datagram(b);
      assert (front + rest)[1..] == Datagrams(Packed(packets[1..])) + rest;
      assert forall m | m in ms :: m in Joined(lists);
      assert forall m | m in more :: m in Joined(lists);
      WholeScan(packets[0], ms, pid, dump);
      ReceiveGoesOn(packets[1..], lists[1..], rest, pid, dump);
      AfterTwice(OwnMessages(ms, pid, dump), 1, OwnMessages(more, pid, dump), |packets| - 1,
                 Receive(rest, pid, dump));
      OwnOfJoined(ms, more, pid, dump);
    }
  }

  lemma NoneOwn(pid: nat, dump: nat)
    ensures OwnMessages([], pid, dump) == []
  {
  }

  lemma WholeScan(rs: seq<seq<byte>>, ms: seq<Msg>, pid: nat, dump: nat)
    requires CarryAll(rs, ms) && forall m | m in ms :: !Ends(m, pid, dump)
    ensures ScanFrom(Flatten(rs), 0, pid, dump) == More(OwnMessages(ms, pid, dump), 0)
  {
    hide CarryAll, OwnMessages;
    assert [] + Flatten(rs) + [] == Flatten(rs);
    ScanOfCarried([], rs, ms, [], pid, dump);
    assert OwnMessages(ms, pid, dump) + [] == OwnMessages(ms, pid, dump);
  }

  /** Bytes after the last message that cannot hold a header. */
  lemma ScanLeavesRest(rs: seq<seq<byte>>, ms: seq<Msg>, tail: seq<byte>, pid: nat, dump: nat)
    requires CarryAll(rs, ms) && (forall m | m in ms :: !Ends(m, pid, dump)) && |tail| < 16
    ensures ScanFrom(Flatten(rs) + tail, 0, pid, dump) == More(OwnMessages(ms, pid, dump), |tail|)
  {
    hide CarryAll, OwnMessages, ScanFrom, Ends;
    var b := Flatten(rs) + tail;
    assert [] + Flatten(rs) + tail == b;
    ScanOfCarried([], rs, ms, tail, pid, dump);
    ScanStops(b, |Flatten(rs)|, pid, dump);
    hide Flatten;
    MoreNothing(OwnMessages(ms, pid, dump), |tail|);
  }

  lemma MoreNothing(own: seq<Msg>, rest: nat)
    ensures Ahead(own, More([], rest)) == More(own, rest)
  {
    assert own + [] == own;
  }

  lemma ScanStops(b: seq<byte>, off: nat, pid: nat, dump: nat)
    requires |b| - 16 < off <= |b|
    ensures ScanFrom(b, off, pid, dump) == More([], |b| - off)
  {
    hide DecodeMsg, Value, Align;
  }

  /** A last message whose padding is missing. */
  lemma ScanOverruns(rs: seq<seq<byte>>, ms: seq<Msg>, m: Msg, pid: nat, dump: nat)
    requires CarryAll(rs, ms) && (forall m | m in ms :: !Ends(m, pid, dump))
    requires Sendable(m) && |m.body| % 4 != 0 && !Ends(m, pid, dump)
    ensures ScanFrom(Flatten(rs) + (HeaderBytes(m) + m.body), 0, pid, dump) == Overrun
  {
    hide CarryAll, OwnMessages, HeaderBytes, ScanFrom;
    var tail := HeaderBytes(m) + m.body;
    assert [] + Flatten(rs) + tail == Flatten(rs) + tail;
    ScanOfCarried([], rs, ms, tail, pid, dump);
    LastOverruns(Flatten(rs) + tail, |Flatten(rs)|, m, pid, dump);
  }

  lemma LastOverruns(b: seq<byte>, off: nat, m: Msg, pid: nat, dump: nat)
    requires off <= |b| && b[off..] == HeaderBytes(m) + m.body
    requires Sendable(m) && |m.body| % 4 != 0 && !Ends(m, pid, dump)
    ensures ScanFrom(b, off, pid, dump) == Overrun
  {
    hide HeaderBytes, Value;
    var tail := HeaderBytes(m) + m.body;
    HeaderFields(m);
    assert tail[..16] == HeaderBytes(m);
    assert b[off..off + |tail|] == tail;
    FieldOf(b, off, tail, 0, 4);
    FieldOf(b, off, tail, 4, 6);
    FieldOf(b, off, tail, 8, 12);
    FieldOf(b, off, tail, 12, 16);
  }

  /** How a dump fails that no message has ended: by the error of a receive call, by bytes that are left over behind
      the last message of a datagram, and by a last message without its padding. */
  lemma StreamsBreak(packets: seq<seq<seq<byte>>>, lists: seq<seq<Msg>>, rs: seq<seq<byte>>, ms: seq<Msg>,
                     later: seq<Recv>, pid: nat, dump: nat)
    requires CarryLists(packets, lists) && forall m | m in Joined(lists) :: !Ends(m, pid, dump)
    requires CarryAll(rs, ms) && forall m | m in ms :: !Ends(m, pid, dump)
    ensures forall errno :: Receive(Datagrams(Packed(packets)) + ([RecvError(errno)] + later), pid, dump)
                         == Reception(Failed(ReceiveFailed(errno)), |packets| + 1)
    ensures forall tail | 0 < |tail| < 16 ::
              Receive(Datagrams(Packed(packets)) + ([Datagram(Flatten(rs) + tail)] + later), pid, dump)
              == Reception(Failed(Leftover), |packets| + 1)
    ensures forall m | Sendable(m) && |m.body| % 4 != 0 && !Ends(m, pid, dump) ::
              Receive(Datagrams(Packed(packets)) + ([Datagram(Flatten(rs) + (HeaderBytes(m) + m.body))] + later), pid,
                      dump) == Reception(Underflowed, |packets| + 1)
  {
    hide CarryLists, CarryAll, ScanFrom, OwnMessages, Flatten, Packed, Datagrams, Joined, Ends, HeaderBytes;
    forall errno
      ensures Receive(Datagrams(Packed(packets)) + ([RecvError(errno)] + later), pid, dump)
           == Reception(Failed(ReceiveFailed(errno)), |packets| + 1)
    {
      ReceiveGoesOn(packets, lists, [RecvError(errno)] + later, pid, dump);
    }
    forall tail | 0 < |tail| < 16
      ensures Receive(Datagrams(Packed(packets)) + ([Datagram(Flatten(rs) + tail)] + later), pid, dump)
           == Reception(Failed(Leftover), |packets| + 1)
    {
      ReceiveGoesOn(packets, lists, [Datagram(Flatten(rs) + tail)] + later, pid, dump);
      ScanLeavesRest(rs, ms, tail, pid, dump);
    }
    forall m | Sendable(m) && |m.body| % 4 != 0 && !Ends(m, pid, dump)
      ensures Receive(Datagrams(Packed(packets)) + ([Datagram(Flatten(rs) + (HeaderBytes(m) + m.body))] + later), pid,
                      dump) == Reception(Underflowed, |packets| + 1)
    {
      ReceiveGoesOn(packets, lists, [Datagram(Flatten(rs) + (HeaderBytes(m) + m.body))] + later, pid, dump);
      ScanOverruns(rs, ms, m, pid, dump);
    }
  }

  // A single answer

  /** A request's answer from the bytes on: the first message with the socket's pid decides. A refusal carries its
      number, an acknowledgement zero. */
  lemma AnswerIsJudged(rs: seq<seq<byte>>, ms: seq<Msg>, pid: nat, answer: bool, k: nat)
    requires CarryAll(rs, ms) && k <= |ms|
    requires forall i | 0 <= i < k :: ms[i].pid != pid
    requires k < |ms| ==> ms[k].pid == pid
    ensures FirstForUs(Flatten(rs), 0, pid, answer)
         == if k == |ms| then NobodyHere
            else if ms[k].msgType != 2 then if answer then Copied(ms[k]) else Accepted
            else if |ms[k].body| < 20 then Rejected(Truncated)
            else if ms[k].body[..4] == [0, 0, 0, 0] then Accepted
            else Rejected(Kernel(CodeIn(ms[k].body)))
  {
    hide CarryAll, WellFormed, FirstForUs, FirstOf, CodeIn, ErrorOf, MessagesFrom, WalkFrom;
    CarriedIsWhole(rs, ms);
    assert WellFormed(Flatten(rs));
    WholeWalk(Flatten(rs));
    FirstDecides(Flatten(rs), 0, pid, answer);
    MessagesOfCarried([], rs, ms);
    assert [] + Flatten(rs) == Flatten(rs);
    FirstAt(ms, pid, answer, k);
    if k < |ms| {
      ErrorIs(ms[k]);
      ZeroCode(ms[k].body);
    }
  }

  /** A last message without its padding is judged like any other, but cannot be passed over. */
  lemma LastIsJudged(b: seq<byte>, m: Msg, pid: nat, answer: bool)
    requires b == HeaderBytes(m) + m.body && Sendable(m) && |m.body| % 4 != 0
    ensures FirstForUs(b, 0, pid, answer)
         == if m.pid != pid then Beyond
            else if m.msgType != 2 then if answer then Copied(m) else Accepted
            else if |m.body| < 20 then Rejected(Truncated)
            else if m.body[..4] == [0, 0, 0, 0] then Accepted
            else Rejected(Kernel(CodeIn(m.body)))
  {
    hide HeaderBytes, Value, CodeIn, ErrorOf;
    HeaderFields(m);
    assert b[..16] == HeaderBytes(m) && b[16..] == m.body;
    assert b[0..|b|] == b;
    FieldOf(b, 0, b, 0, 4);
    FieldOf(b, 0, b, 4, 6);
    FieldOf(b, 0, b, 6, 8);
    FieldOf(b, 0, b, 8, 12);
    FieldOf(b, 0, b, 12, 16);
    assert DecodeMsg(b, 0) == m;
    ErrorIs(m);
    ZeroCode(m.body);
  }

  lemma WholeWalk(b: seq<byte>)
    requires WellFormed(b)
    ensures var w := WalkFrom(b, 0, MESSAGE); w.Stopped? && w.at == |b|
  {
  }

  lemma {:induction false} FirstAt(ms: seq<Msg>, pid: nat, answer: bool, k: nat)
    requires k <= |ms| && forall i | 0 <= i < k :: ms[i].pid != pid
    requires k < |ms| ==> ms[k].pid == pid
    ensures FirstOf(ms, pid, answer) == if k == |ms| then NobodyHere else VerdictOn(ms[k], answer)
  {
    if k > 0 {
      FirstAt(ms[1..], pid, answer, k - 1);
    }
  }

  lemma ZeroCode(body: seq<byte>)
    ensures |body| >= 4 ==> (CodeIn(body) == 0 <==> body[..4] == [0, 0, 0, 0])
  {
    if |body| >= 4 {
      assert body[..4] == [body[0], body[1], body[2], body[3]];
    }
  }

  // In figures

  lemma HeaderInBytes(m: Msg)
    ensures HeaderBytes(m)
         == var n := 16 + |m.body|;
            [n % 256, n / 256 % 256, n / 0x1_0000 % 256, n / 0x100_0000 % 256]
            + [m.msgType % 256, m.msgType / 256 % 256] + [m.flags % 256, m.flags / 256 % 256]
            + [m.seqNo % 256, m.seqNo / 256 % 256, m.seqNo / 0x1_0000 % 256, m.seqNo / 0x100_0000 % 256]
            + [m.pid % 256, m.pid / 256 % 256, m.pid / 0x1_0000 % 256, m.pid / 0x100_0000 % 256]
  {
    hide LittleEndian;
    FourBytes(16 + |m.body|);
    TwoBytes(m.msgType);
    TwoBytes(m.flags);
    FourBytes(m.seqNo);
    FourBytes(m.pid);
  }

  /** NLMSG_DONE for the dump with number 7 on the socket with pid 42 ends it. */
  lemma DoneEndsTheDump()
    ensures Receive([Datagram([16, 0, 0, 0, 3, 0, 0, 0, 7, 0, 0, 0, 42, 0, 0, 0])], 42, 7).outcome
         == Done([Msg(3, 0, 7, 42, [])])
  {
    hide Receive, HeaderBytes, OwnMessages, Carries, Value, LittleEndian;
    var m, r := Msg(3, 0, 7, 42, []), [16, 0, 0, 0, 3, 0, 0, 0, 7, 0, 0, 0, 42, 0, 0, 0];
    DoneCarried(m, r);
    assert Joined([[m]]) == [m];
    assert Flatten([r]) == r && Datagrams(Packed([[r]])) == [Datagram(r)];
    DumpIsRead([[r]], [[m]], 42, 7, 0);
    NoneOwn(42, 7);
    assert [m][..0] == [] && [] + [m] == [m];
  }

  lemma DoneCarried(m: Msg, r: seq<byte>)
    requires m == Msg(3, 0, 7, 42, []) && r == [16, 0, 0, 0, 3, 0, 0, 0, 7, 0, 0, 0, 42, 0, 0, 0]
    ensures Carries(r, m)
  {
    hide HeaderBytes;
    HeaderInBytes(m);
    assert r[..16] == r;
  }

  /** What the kernel sends in answer to request 7 of the socket with pid 42, but for the last sixteen bytes, which
      repeat the request's header: an acknowledgement, and the refusal with -17 (EEXIST). */
  lemma AnswersInBytes(request: seq<byte>)
    requires |request| == 16
    ensures var start := [36, 0, 0, 0, 2, 0, 0, 0, 7, 0, 0, 0, 42, 0, 0, 0];
            && FirstForUs(start + [0, 0, 0, 0] + request, 0, 42, false) == Accepted
            && FirstForUs(start + [239, 255, 255, 255] + request, 0, 42, false) == Rejected(Kernel(-17))
  {
    hide FirstForUs, HeaderBytes;
    AnswerInBytes([0, 0, 0, 0], request);
    AnswerInBytes([239, 255, 255, 255], request);
  }

  lemma AnswerInBytes(code: seq<byte>, request: seq<byte>)
    requires |code| == 4 && |request| == 16
    ensures FirstForUs([36, 0, 0, 0, 2, 0, 0, 0, 7, 0, 0, 0, 42, 0, 0, 0] + code + request, 0, 42, false)
         == if code == [0, 0, 0, 0] then Accepted else Rejected(Kernel(CodeIn(code)))
  {
    hide FirstForUs, HeaderBytes, Carries, Value, CodeIn;
    var start := [36, 0, 0, 0, 2, 0, 0, 0, 7, 0, 0, 0, 42, 0, 0, 0];
    var m, r := Msg(2, 0, 7, 42, code + request), start + code + request;
    AnswerCarried(m, code, request, r);
    assert Flatten([r]) == r;
    AnswerIsJudged([r], [m], 42, false, 0);
    assert m.body[..4] == code;
    assert CodeIn(m.body) == CodeIn(code) by { SameCode(m.body, code); }
  }

  lemma AnswerCarried(m: Msg, code: seq<byte>, request: seq<byte>, r: seq<byte>)
    requires |code| == 4 && |request| == 16 && m == Msg(2, 0, 7, 42, code + request)
    requires r == [36, 0, 0, 0, 2, 0, 0, 0, 7, 0, 0, 0, 42, 0, 0, 0] + code + request
    ensures Carries(r, m)
  {
    hide HeaderBytes;
    HeaderInBytes(m);
    assert r[..16] == HeaderBytes(m);
    assert r[16..36] == m.body;
  }

  lemma SameCode(body: seq<byte>, code: seq<byte>)
    requires |code| == 4 && |body| >= 4 && body[..4] == code
    ensures CodeIn(body) == CodeIn(code)
  {
    assert forall i | 0 <= i < 4 :: body[i] == body[..4][i];
  }
}
