/** Netlink attributes: writing them behind a message in its buffer, and finding them again. */
module NetlinkAttrs {
  import opened Basics
  import opened Bytes
  import opened NetlinkWire

  /** Every request is built in a buffer of this size. */
  const BUFFER_SIZE := 2048

  // The bytes of one attribute

  /** The data followed by zeros up to the boundary. */
  function Padded(data: seq<byte>): (p: seq<byte>)
    ensures |p| == Align(|data|)
  {
    data + Zeros(Align(|data|) - |data|)
  }

  function AttrHeader(len: nat, cat: nat): seq<byte> {
    LittleEndian(len, 2) + LittleEndian(cat, 2)
  }

  /** The attribute as it lies in the message. RTA_LENGTH rounds up, so the length field counts the padding. */
  function AttrRecord(cat: nat, data: seq<byte>): seq<byte> {
    AttrHeader(Align(4 + |data|), cat) + Padded(data)
  }

  function AttrType(b: seq<byte>, off: nat): nat
    requires off + 4 <= |b|
  {
    Value(b[off + 2..off + 4])
  }

  lemma AttrRecordFields(cat: nat, data: seq<byte>)
    requires cat < 0x1_0000 && 4 + |data| < 0xFFFC
    ensures var r := AttrRecord(cat, data);
            && IsRecord(r, ATTR) && |r| == Align(4 + |data|)
            && RecordLen(r, 0, ATTR) == |r|
            && AttrType(r, 0) == cat
            && r[4..] == Padded(data)
  {
    var r := AttrRecord(cat, data);
    assert Pow256(2) == 0x1_0000 by { assert Pow256(1) == 256; }
    assert r[0..2] == LittleEndian(Align(4 + |data|), 2);
    assert r[2..4] == LittleEndian(cat, 2);
    ValueOfLittleEndian(Align(4 + |data|), 2);
    ValueOfLittleEndian(cat, 2);
  }

  // Writing: addattr_var and addattr_size

  function NlmsgLen(b: seq<byte>): nat
    requires |b| >= 4
  {
    Value(b[0..4])
  }

  /** The writes of one append stay inside the buffer. */
  predicate HasRoom(b: seq<byte>, size: nat)
    requires |b| >= 4
  {
    16 <= NlmsgLen(b) && Align(NlmsgLen(b)) + Align(4 + size) <= |b|
  }

  function Splice(b: seq<byte>, pos: nat, data: seq<byte>): (b': seq<byte>)
    requires pos + |data| <= |b|
    ensures |b'| == |b|
  {
    b[..pos] + data + b[pos + |data|..]
  }

  method WriteAt(buf: array<byte>, pos: nat, data: seq<byte>)
    requires pos + |data| <= buf.Length
    modifies buf
    ensures buf[..] == Splice(old(buf[..]), pos, data)
  {
    forall i | 0 <= i < |data| {
      buf[pos + i] := data[i];
    }
  }

  /** The attribute's header and data at pos, and the new message length at the front. */
  function Patched(b: seq<byte>, pos: nat, header: seq<byte>, data: seq<byte>, len: nat): seq<byte>
    requires 4 <= pos && |header| == 4 && pos + 4 + |data| <= |b|
  {
    LittleEndian(len, 4) + b[4..pos] + header + data + b[pos + 4 + |data|..]
  }

  lemma PatchedBySplices(b: seq<byte>, pos: nat, header: seq<byte>, data: seq<byte>, len: nat)
    requires 4 <= pos && |header| == 4 && pos + 4 + |data| <= |b|
    ensures Splice(Splice(Splice(b, pos, header), pos + 4, data), 0, LittleEndian(len, 4))
         == Patched(b, pos, header, data, len)
  {
    var b1 := Splice(b, pos, header);
    var b2 := Splice(b1, pos + 4, data);
    assert b1[..pos + 4] == b[..pos] + header;
    assert b2 == b[..pos] + header + data + b[pos + 4 + |data|..];
    assert b2[4..] == b[4..pos] + header + data + b[pos + 4 + |data|..];
  }

  method Patch(buf: array<byte>, pos: nat, header: seq<byte>, data: seq<byte>, len: nat)
    requires 4 <= pos && |header| == 4 && pos + 4 + |data| <= buf.Length
    modifies buf
    ensures buf[..] == Patched(old(buf[..]), pos, header, data, len)
  {
    PatchedBySplices(buf[..], pos, header, data, len);
    WriteAt(buf, pos, header);
    WriteAt(buf, pos + 4, data);
    WriteAt(buf, 0, LittleEndian(len, 4));
  }

  /** The buffer after an append: new length, attribute header and data; everything else stays. */
  function Appended(b: seq<byte>, cat: nat, data: seq<byte>): (b': seq<byte>)
    requires |b| >= 4 && HasRoom(b, |data|)
    ensures |b'| == |b|
  {
    var pos, alen := Align(NlmsgLen(b)), Align(4 + |data|);
    Patched(b, pos, AttrHeader(alen, cat), data, pos + alen)
  }

  method AddAttrVar(buf: array<byte>, cat: nat, data: seq<byte>)
    requires buf.Length == 2048 && HasRoom(buf[..], |data|)
    modifies buf
    ensures buf[..] == Appended(old(buf[..]), cat, data)
  {
    var pos, alen := Align(NlmsgLen(buf[..])), Align(4 + |data|);
    assert alen % 0x1_0000 == alen;
    Patch(buf, pos, AttrHeader(alen % 0x1_0000, cat), data, pos + alen);
  }

  /** The record in bytes: how long it is with its padding, its type, the data, and zeros up to the boundary. */
  lemma RecordInBytes(cat: nat, data: seq<byte>)
    requires cat < 0x1_0000 && 4 + |data| < 0xFFFC
    ensures AttrRecord(cat, data)
         == var n := (4 + |data| + 3) / 4 * 4;
            [n % 256, n / 256, cat % 256, cat / 256] + data + seq(n - 4 - |data|, _ => 0)
  {
    hide LittleEndian;
    var n := (4 + |data| + 3) / 4 * 4;
    TwoBytes(n);
    TwoBytes(cat);
    assert Zeros(n - 4 - |data|) == seq(n - 4 - |data|, _ => 0);
  }

  /** The append in bytes: the room it takes is what is asked for, the length at the front grows to the record's end,
      the record starts at the aligned old end, and every other byte stays. */
  lemma AppendedInBytes(b: seq<byte>, cat: nat, data: seq<byte>)
    requires |b| == 2048 && cat < 0x1_0000
    ensures var end := (Weighed(b[0], b[1], b[2], b[3]) + 3) / 4 * 4;
            var n := (4 + |data| + 3) / 4 * 4;
            && (HasRoom(b, |data|) <==> 16 <= Weighed(b[0], b[1], b[2], b[3]) && end + n <= 2048)
            && (HasRoom(b, |data|) ==>
                  Appended(b, cat, data)
                  == [(end + n) % 256, (end + n) / 256, 0, 0] + b[4..end]
                     + [n % 256, n / 256, cat % 256, cat / 256] + data + b[end + 4 + |data|..])
  {
    hide HasRoom, Appended, Weighed;
    RoomInBytes(b, |data|);
    if HasRoom(b, |data|) {
      PatchedInBytes(b, cat, data);
    }
  }

  lemma RoomInBytes(b: seq<byte>, size: nat)
    requires |b| == 2048
    ensures var len := Weighed(b[0], b[1], b[2], b[3]);
            && NlmsgLen(b) == len && Align(NlmsgLen(b)) == (len + 3) / 4 * 4
            && (HasRoom(b, size) <==> 16 <= len && (len + 3) / 4 * 4 + (4 + size + 3) / 4 * 4 <= 2048)
  {
    hide Value, Weighed;
    ValueOfFour(b[0..4]);
  }

  lemma PatchedInBytes(b: seq<byte>, cat: nat, data: seq<byte>)
    requires |b| == 2048 && cat < 0x1_0000 && HasRoom(b, |data|)
    ensures var end, n := Align(NlmsgLen(b)), (4 + |data| + 3) / 4 * 4;
            Appended(b, cat, data)
            == [(end + n) % 256, (end + n) / 256, 0, 0] + b[4..end]
               + [n % 256, n / 256, cat % 256, cat / 256] + data + b[end + 4 + |data|..]
  {
    var end, n := Align(NlmsgLen(b)), (4 + |data| + 3) / 4 * 4;
    hide LittleEndian, Value, NlmsgLen, AttrHeader;
    HeaderInBytes(n, cat);
    ShortInBytes(end + n);
  }

  lemma HeaderInBytes(n: nat, cat: nat)
    requires n < 0x1_0000 && cat < 0x1_0000
    ensures AttrHeader(n, cat) == [n % 256, n / 256, cat % 256, cat / 256]
  {
    hide LittleEndian;
    TwoBytes(n);
    TwoBytes(cat);
  }

  lemma ShortInBytes(v: nat)
    requires v < 0x1_0000
    ensures LittleEndian(v, 4) == [v % 256, v / 256, 0, 0]
  {
    hide LittleEndian;
    FourBytes(v);
  }

  /** The integer forms: the low `size` bytes of the value, in a record of the same layout. */
  method AddAttrSize(buf: array<byte>, cat: nat, val: nat, size: nat)
    requires size in {1, 2, 4, 8}
    requires buf.Length == 2048 && HasRoom(buf[..], size)
    modifies buf
    ensures buf[..] == Appended(old(buf[..]), cat, LittleEndian(val, size))
  {
    AddAttrVar(buf, cat, LittleEndian(val, size));
  }

  // Reading: parse_attrs and the getattr family

  /** A slot of the result vector: a null pointer, or where an attribute starts. */
  datatype Slot = Null | At(off: nat)

  datatype Parse = Parsed(attrs: seq<Slot>) | Underflowed

  ghost predicate HeadersInside(b: seq<byte>, offsets: seq<nat>) {
    forall i | 0 <= i < |offsets| :: offsets[i] + 4 <= |b|
  }

  /** The first of the given records that has the type. */
  ghost function FirstOfType(b: seq<byte>, offsets: seq<nat>, t: nat): Slot
    requires HeadersInside(b, offsets)
  {
    if offsets == [] then Null
    else if AttrType(b, offsets[0]) == t then At(offsets[0])
    else FirstOfType(b, offsets[1..], t)
  }

  lemma {:induction false} FirstOfTypeSnoc(b: seq<byte>, offsets: seq<nat>, o: nat, t: nat)
    requires HeadersInside(b, offsets) && o + 4 <= |b|
    ensures FirstOfType(b, offsets + [o], t)
         == if FirstOfType(b, offsets, t).At? then FirstOfType(b, offsets, t)
            else if AttrType(b, o) == t then At(o) else Null
  {
    if offsets == [] {
      assert ([o])[1..] == [];
    } else {
      assert (offsets + [o])[1..] == offsets[1..] + [o];
      FirstOfTypeSnoc(b, offsets[1..], o, t);
    }
  }

  function Then(seen: seq<nat>, w: Walk): Walk {
    match w
    case Stopped(offsets, at) => Stopped(seen + offsets, at)
    case Underflow(offsets) => Underflow(seen + offsets)
  }

  lemma {:induction false} VisitedAreWhole(b: seq<byte>, off: nat)
    ensures HeadersInside(b, WalkFrom(b, off, ATTR).offsets)
    decreases |b| - off
  {
    if RecordOk(b, off, ATTR) {
      var next := off + Align(RecordLen(b, off, ATTR));
      if next <= |b| {
        VisitedAreWhole(b, next);
      }
    }
  }

  ghost predicate TableFor(b: seq<byte>, seen: seq<nat>, attrs: seq<Slot>)
    requires HeadersInside(b, seen)
  {
    forall t | 0 <= t < |attrs| :: attrs[t] == FirstOfType(b, seen, t)
  }

  lemma TableStep(b: seq<byte>, seen: seq<nat>, rta: nat, attrs: seq<Slot>)
    requires HeadersInside(b, seen) && rta + 4 <= |b| && TableFor(b, seen, attrs)
    ensures var t := AttrType(b, rta);
            TableFor(b, seen + [rta], if t < |attrs| && attrs[t] == Null then attrs[t := At(rta)] else attrs)
  {
    forall t | 0 <= t < |attrs|
      ensures FirstOfType(b, seen + [rta], t)
           == if attrs[t].At? then attrs[t] else if AttrType(b, rta) == t then At(rta) else Null
    {
      FirstOfTypeSnoc(b, seen, rta, t);
    }
  }

  lemma ThenBefore(seen: seq<nat>, off: nat, w: Walk)
    ensures Then(seen, Before(off, w)) == Then(seen + [off], w)
  {
    assert seen + ([off] + w.offsets) == seen + [off] + w.offsets;
  }

  /** The whole walk is the records seen and then the walk that remains. */
  ghost predicate OnTrack(whole: Walk, b: seq<byte>, rta: nat, seen: seq<nat>) {
    HeadersInside(b, seen) && whole == Then(seen, WalkFrom(b, rta, ATTR))
  }

  lemma WalkStep(whole: Walk, b: seq<byte>, rta: nat, seen: seq<nat>)
    requires OnTrack(whole, b, rta, seen) && RecordOk(b, rta, ATTR)
    ensures var next := rta + Align(RecordLen(b, rta, ATTR));
            if next > |b| then whole == Underflow(seen + [rta]) else OnTrack(whole, b, next, seen + [rta])
  {
    var next := rta + Align(RecordLen(b, rta, ATTR));
    if next <= |b| {
      ThenBefore(seen, rta, WalkFrom(b, next, ATTR));
    }
  }

  function NoAttrs(max: nat): (attrs: seq<Slot>)
    ensures |attrs| == max && forall t | 0 <= t < max :: attrs[t] == Null
  {
    seq(max, _ => Null)
  }

  /** Each slot holds the first visited attribute of its type; the walk's underflow is reported as such. */
  method ParseAttrs(b: seq<byte>, max: nat) returns (r: Parse)
    ensures var w := WalkFrom(b, 0, ATTR);
            && HeadersInside(b, w.offsets)
            && (r == Underflowed <==> w.Underflow?)
            && (r.Parsed? ==> |r.attrs| == max && TableFor(b, w.offsets, r.attrs))
  {
    hide AttrType;
    VisitedAreWhole(b, 0);
    var attrs := NoAttrs(max);
    var rta, rtalen := 0, |b|;
    ghost var seen: seq<nat> := [];
    ghost var whole := WalkFrom(b, 0, ATTR);
    while RecordOk(b, rta, ATTR)
      invariant 0 <= rta <= |b| && rtalen == |b| - rta
      invariant OnTrack(whole, b, rta, seen)
      invariant |attrs| == max && TableFor(b, seen, attrs)
      decreases rtalen
    {
      TableStep(b, seen, rta, attrs);
      WalkStep(whole, b, rta, seen);
      var rtype := AttrType(b, rta);
      if rtype < max && attrs[rtype] == Null {
        attrs := attrs[rtype := At(rta)];
      }
      var step := Align(RecordLen(b, rta, ATTR));
      if step > rtalen {
        return Underflowed;
      }
      seen := seen + [rta];
      rta, rtalen := rta + step, rtalen - step;
    }
    assert seen + [] == seen;
    return Parsed(attrs);
  }

  /** The payload of the attribute, as getattr_var copies it out. */
  function GetAttrVar(b: seq<byte>, off: nat): seq<byte>
    requires RecordOk(b, off, ATTR)
  {
    b[off + 4..off + RecordLen(b, off, ATTR)]
  }

  /** getattr8/16/32/64: the value, or None where the length assertion fails. */
  function GetAttrSize(b: seq<byte>, off: nat, size: nat): Option<nat>
    requires RecordOk(b, off, ATTR)
  {
    var payload := GetAttrVar(b, off);
    if |payload| == size then Some(Value(payload)) else None
  }

  // What comes back is what was written

  datatype AttrCall = Var(cat: nat, bytes: seq<byte>) | Sized(cat: nat, val: nat, size: nat) {
    function Data(): seq<byte> {
      match this
      case Var(_, bytes) => bytes
      case Sized(_, val, size) => LittleEndian(val, size)
    }

    ghost predicate Ok() {
      cat < 0x1_0000 && (Sized? ==> size in {1, 2, 4, 8} && val < Pow256(size))
    }
  }

  function Records(calls: seq<AttrCall>): seq<seq<byte>> {
    seq(|calls|, i requires 0 <= i < |calls| => AttrRecord(calls[i].cat, calls[i].Data()))
  }

  /** The buffer after a list of calls; None as soon as one does not fit. */
  function AppendAll(b: seq<byte>, calls: seq<AttrCall>): Option<seq<byte>>
    requires |b| >= 4
    ensures AppendAll(b, calls).Some? ==> |AppendAll(b, calls).value| == |b|
  {
    if calls == [] then Some(b)
    else
      var last := calls[|calls| - 1];
      match AppendAll(b, calls[..|calls| - 1])
      case None => None
      case Some(b') => if HasRoom(b', |last.Data()|) then Some(Appended(b', last.cat, last.Data())) else None
  }

  ghost predicate ZeroFrom(b: seq<byte>, k: nat) {
    forall i | k <= i < |b| :: b[i] == 0
  }

  /** A request header of the given size at the front of an otherwise zeroed buffer. */
  ghost predicate Fresh(b: seq<byte>, start: nat) {
    && |b| == BUFFER_SIZE && 16 <= start <= |b| && start % 4 == 0
    && NlmsgLen(b) == start && ZeroFrom(b, start)
  }

  /** The message so far: unchanged header, then the records, then zeros. */
  ghost predicate Holds(b: seq<byte>, b0: seq<byte>, start: nat, rs: seq<seq<byte>>)
    requires |b| == |b0| == BUFFER_SIZE && 16 <= start <= |b|
  {
    var end := start + |Flatten(rs)|;
    && end <= |b| && end % 4 == 0 && NlmsgLen(b) == end
    && b[4..start] == b0[4..start]
    && b[start..end] == Flatten(rs)
    && ZeroFrom(b, end)
  }

  lemma PatchedRegions(b: seq<byte>, pos: nat, alen: nat, cat: nat, data: seq<byte>)
    requires 4 <= pos && 4 + |data| <= alen && pos + alen <= |b| && pos + alen < 0x1_0000_0000 && ZeroFrom(b, pos)
    ensures var b' := Patched(b, pos, AttrHeader(alen, cat), data, pos + alen);
            && |b'| == |b| && NlmsgLen(b') == pos + alen
            && b'[4..pos] == b[4..pos]
            && b'[pos..pos + alen] == AttrHeader(alen, cat) + data + Zeros(alen - 4 - |data|)
            && ZeroFrom(b', pos + alen)
  {
    var b' := Patched(b, pos, AttrHeader(alen, cat), data, pos + alen);
    var tail := pos + 4 + |data|;
    assert b'[0..4] == LittleEndian(pos + alen, 4);
    assert Pow256(4) == 0x1_0000_0000 by { assert Pow256(2) == 0x1_0000; }
    ValueOfLittleEndian(pos + alen, 4);
    TailStays(b, b', tail);
  }

  lemma TailStays(b: seq<byte>, b': seq<byte>, tail: nat)
    requires |b'| == |b| && tail <= |b| && b'[tail..] == b[tail..]
    ensures forall i | tail <= i < |b| :: b'[i] == b[i]
  {
    assert forall i | tail <= i < |b| :: b'[i] == b'[tail..][i - tail] && b[i] == b[tail..][i - tail];
  }

  lemma HoldsMore(b: seq<byte>, b': seq<byte>, b0: seq<byte>, start: nat, rs: seq<seq<byte>>, rec: seq<byte>)
    requires |b| == |b'| == |b0| == BUFFER_SIZE && 16 <= start <= |b| && Holds(b, b0, start, rs)
    requires var pos := NlmsgLen(b);
             && pos + |rec| <= |b| && |rec| % 4 == 0 && NlmsgLen(b') == pos + |rec|
             && b'[4..pos] == b[4..pos] && b'[pos..pos + |rec|] == rec && ZeroFrom(b', pos + |rec|)
    ensures Holds(b', b0, start, rs + [rec])
  {
    hide NlmsgLen, Align;
    var pos := NlmsgLen(b);
    FlattenSnoc(rs, rec);
    SubSlice(b', 4, pos, 0, start - 4);
    SubSlice(b, 4, pos, 0, start - 4);
    SubSlice(b', 4, pos, start - 4, pos - 4);
    SubSlice(b, 4, pos, start - 4, pos - 4);
    assert b'[start..pos + |rec|] == b'[start..pos] + b'[pos..pos + |rec|];
  }

  lemma AppendedHolds(b: seq<byte>, b0: seq<byte>, start: nat, rs: seq<seq<byte>>, cat: nat, data: seq<byte>)
    requires |b| == |b0| == BUFFER_SIZE && 16 <= start <= |b|
    requires Holds(b, b0, start, rs) && HasRoom(b, |data|)
    ensures Holds(Appended(b, cat, data), b0, start, rs + [AttrRecord(cat, data)])
  {
    var pos, alen := NlmsgLen(b), Align(4 + |data|);
    assert Align(pos) == pos;
    PatchedRegions(b, pos, alen, cat, data);
    assert AttrRecord(cat, data) == AttrHeader(alen, cat) + data + Zeros(alen - 4 - |data|);
    HoldsMore(b, Appended(b, cat, data), b0, start, rs, AttrRecord(cat, data));
  }

  lemma RecordsSnoc(calls: seq<AttrCall>)
    requires calls != []
    ensures var front, last := calls[..|calls| - 1], calls[|calls| - 1];
            Records(calls) == Records(front) + [AttrRecord(last.cat, last.Data())]
  {
    hide AttrRecord;
  }

  lemma {:induction false} AppendAllHolds(b0: seq<byte>, start: nat, calls: seq<AttrCall>)
    requires Fresh(b0, start) && AppendAll(b0, calls).Some?
    ensures Holds(AppendAll(b0, calls).value, b0, start, Records(calls))
  {
    hide Appended, HasRoom, AttrRecord, Holds, Records;
    if calls != [] {
      var front, last := calls[..|calls| - 1], calls[|calls| - 1];
      AppendAllHolds(b0, start, front);
      AppendedHolds(AppendAll(b0, front).value, b0, start, Records(front), last.cat, last.Data());
      RecordsSnoc(calls);
    } else {
      NothingHeld(b0, start);
    }
  }

  lemma NothingHeld(b0: seq<byte>, start: nat)
    requires Fresh(b0, start)
    ensures Holds(b0, b0, start, Records([]))
  {
    assert Records([]) == [];
  }

  /** The space a list of calls takes. */
  function Space(calls: seq<AttrCall>): nat {
    if calls == [] then 0 else Space(calls[..|calls| - 1]) + Align(4 + |calls[|calls| - 1].Data()|)
  }

  lemma RecordSize(cat: nat, data: seq<byte>)
    ensures |AttrRecord(cat, data)| == Align(4 + |data|)
  {
  }

  lemma {:induction false} SpaceOfRecords(calls: seq<AttrCall>)
    ensures |Flatten(Records(calls))| == Space(calls)
  {
    hide AttrRecord, Align;
    if calls != [] {
      var front, last := calls[..|calls| - 1], calls[|calls| - 1];
      SpaceOfRecords(front);
      assert Records(calls) == Records(front) + [AttrRecord(last.cat, last.Data())];
      FlattenSnoc(Records(front), AttrRecord(last.cat, last.Data()));
      RecordSize(last.cat, last.Data());
    }
  }

  /** The code has no check of its own: its writes stay inside the buffer exactly when the padded attributes fit
      behind the header. */
  lemma {:induction false} FitsExactly(b0: seq<byte>, start: nat, calls: seq<AttrCall>)
    requires Fresh(b0, start)
    ensures AppendAll(b0, calls).Some? <==> start + Space(calls) <= 2048
  {
    hide Appended, Records, Flatten, HasRoom, Holds, Align;
    if calls != [] {
      var front, last := calls[..|calls| - 1], calls[|calls| - 1];
      FitsExactly(b0, start, front);
      if AppendAll(b0, front).Some? {
        AppendAllHolds(b0, start, front);
        SpaceOfRecords(front);
        RoomBehind(AppendAll(b0, front).value, b0, start, Records(front), |last.Data()|);
      }
    }
  }

  lemma RoomBehind(b: seq<byte>, b0: seq<byte>, start: nat, rs: seq<seq<byte>>, size: nat)
    requires |b| == |b0| == BUFFER_SIZE && 16 <= start <= |b| && Holds(b, b0, start, rs)
    ensures HasRoom(b, size) <==> start + |Flatten(rs)| + Align(4 + size) <= 2048
  {
    hide Flatten, ZeroFrom, NlmsgLen;
  }

  lemma {:induction false} RecordsFit(rs: seq<seq<byte>>, i: nat)
    requires i < |rs|
    ensures |rs[i]| <= |Flatten(rs)|
  {
    if i > 0 { RecordsFit(rs[1..], i - 1); }
  }

  /** The index of the first call that writes an attribute of the type. */
  function FirstCall(calls: seq<AttrCall>, t: nat): (first: Option<nat>)
    ensures first.Some? ==> first.value < |calls| && calls[first.value].cat == t
  {
    if calls == [] then None
    else if calls[0].cat == t then Some(0)
    else match FirstCall(calls[1..], t)
         case None => None
         case Some(i) => Some(i + 1)
  }

  ghost predicate AllShort(calls: seq<AttrCall>) {
    forall c | c in calls :: c.Ok() && |c.Data()| < BUFFER_SIZE
  }

  /** The index of the first record of the type. */
  ghost function FirstRecord(rs: seq<seq<byte>>, t: nat): (first: Option<nat>)
    requires forall r | r in rs :: IsRecord(r, ATTR)
    ensures first.Some? ==> first.value < |rs|
  {
    if rs == [] then None
    else
      assert IsRecord(rs[0], ATTR);
      if AttrType(rs[0], 0) == t then Some(0)
      else match FirstRecord(rs[1..], t)
           case None => None
           case Some(i) => Some(i + 1)
  }

  lemma TypeAt(b: seq<byte>, base: nat, r: seq<byte>)
    requires base + |r| <= |b| && b[base..base + |r|] == r && |r| >= 4
    ensures AttrType(b, base) == AttrType(r, 0)
  {
    SubSlice(b, base, base + |r|, 2, 4);
  }

  lemma {:induction false} FirstFound(b: seq<byte>, base: nat, rs: seq<seq<byte>>, t: nat)
    requires base <= |b| && b[base..] == Flatten(rs)
    requires forall r | r in rs :: IsRecord(r, ATTR)
    ensures var offs := Offsets(rs, base);
            && HeadersInside(b, offs)
            && FirstOfType(b, offs, t) == match FirstRecord(rs, t)
                                          case None => Null
                                          case Some(i) => At(offs[i])
    decreases |rs|
  {
    if rs != [] {
      var r := rs[0];
      assert IsRecord(r, ATTR);
      assert b[base..base + |r|] == b[base..][..|r|] == r;
      assert b[base + |r|..] == b[base..][|r|..] == Flatten(rs[1..]);
      TypeAt(b, base, r);
      FirstFound(b, base + |r|, rs[1..], t);
      FirstOfHead(b, rs, base, t);
    }
  }

  lemma FirstOfHead(b: seq<byte>, rs: seq<seq<byte>>, base: nat, t: nat)
    requires rs != [] && base + 4 <= |b| && HeadersInside(b, Offsets(rs[1..], base + |rs[0]|))
    ensures HeadersInside(b, Offsets(rs, base))
    ensures FirstOfType(b, Offsets(rs, base), t)
         == if AttrType(b, base) == t then At(base) else FirstOfType(b, Offsets(rs[1..], base + |rs[0]|), t)
  {
    var offs := Offsets(rs, base);
    assert offs[1..] == Offsets(rs[1..], base + |rs[0]|);
  }

  lemma RecordsAreRecords(calls: seq<AttrCall>)
    requires AllShort(calls)
    ensures forall r | r in Records(calls) :: IsRecord(r, ATTR)
  {
    var rs := Records(calls);
    forall r | r in rs ensures IsRecord(r, ATTR) {
      var i :| 0 <= i < |rs| && r == rs[i];
      AttrRecordFields(calls[i].cat, calls[i].Data());
    }
  }

  lemma {:induction false} FirstRecordIsFirstCall(calls: seq<AttrCall>, t: nat)
    requires AllShort(calls) && forall r | r in Records(calls) :: IsRecord(r, ATTR)
    ensures FirstRecord(Records(calls), t) == FirstCall(calls, t)
  {
    if calls != [] {
      AttrRecordFields(calls[0].cat, calls[0].Data());
      assert Records(calls)[1..] == Records(calls[1..]);
      FirstRecordIsFirstCall(calls[1..], t);
    }
  }

  /** The attribute region of a finished message. */
  function Payload(b: seq<byte>, start: nat): seq<byte>
    requires |b| >= 4 && start <= NlmsgLen(b) <= |b|
  {
    b[start..NlmsgLen(b)]
  }

  /** The payload of the finished message is the records of the calls, and none is long. */
  lemma PayloadIsRecords(b0: seq<byte>, start: nat, calls: seq<AttrCall>)
    requires Fresh(b0, start) && (forall c | c in calls :: c.Ok()) && AppendAll(b0, calls).Some?
    ensures var b := AppendAll(b0, calls).value;
            && |b| == BUFFER_SIZE && start <= NlmsgLen(b) <= |b|
            && Payload(b, start) == Flatten(Records(calls))
    ensures AllShort(calls)
  {
    AppendAllHolds(b0, start, calls);
    AllCallsShort(b0, start, calls);
  }

  /** What parsing the laid-out records of the calls finds. */
  ghost predicate Finds(region: seq<byte>, calls: seq<AttrCall>, t: nat) {
    var w := WalkFrom(region, 0, ATTR);
    && w == Stopped(Offsets(Records(calls), 0), |region|)
    && HeadersInside(region, w.offsets)
    && match FirstCall(calls, t)
       case None => FirstOfType(region, w.offsets, t) == Null
       case Some(i) =>
         && FirstOfType(region, w.offsets, t) == At(w.offsets[i])
         && ReadsBack(region, w.offsets[i], calls[i])
  }

  lemma RecordsAreFound(calls: seq<AttrCall>, t: nat)
    requires AllShort(calls)
    ensures Finds(Flatten(Records(calls)), calls, t)
  {
    hide IsRecord, FirstOfType, FirstRecord, ReadsBack, WalkFrom, Records;
    var rs := Records(calls);
    var region := Flatten(rs);
    assert [] + region == region;
    RecordsAreRecords(calls);
    FormatsAreProper();
    WalkVisitsAll([], rs, ATTR);
    FirstFound(region, 0, rs, t);
    FirstRecordIsFirstCall(calls, t);
    if FirstCall(calls, t).Some? {
      RecordReadsBack(region, calls, FirstCall(calls, t).value);
    }
  }

  /** Round trip. After any list of appends that fits a fresh buffer, parsing the payload visits exactly the
      appended attributes; the slot of each type holds the first one appended with it; its bytes read back
      zero-padded, and four- and eight-byte integers read back exactly (the shorter ones never do). */
  lemma AppendThenParse(b0: seq<byte>, start: nat, calls: seq<AttrCall>, t: nat)
    requires Fresh(b0, start) && (forall c | c in calls :: c.Ok()) && AppendAll(b0, calls).Some?
    ensures var b := AppendAll(b0, calls).value;
            && |b| == BUFFER_SIZE && start <= NlmsgLen(b) <= |b|
            && b[4..start] == b0[4..start]
            && Finds(Payload(b, start), calls, t)
  {
    AppendAllHolds(b0, start, calls);
    PayloadIsRecords(b0, start, calls);
    RecordsAreFound(calls, t);
  }

  lemma AllCallsShort(b0: seq<byte>, start: nat, calls: seq<AttrCall>)
    requires Fresh(b0, start) && (forall c | c in calls :: c.Ok()) && AppendAll(b0, calls).Some?
    ensures AllShort(calls)
  {
    AppendAllHolds(b0, start, calls);
    forall c | c in calls ensures |c.Data()| < BUFFER_SIZE {
      var i :| 0 <= i < |calls| && c == calls[i];
      RecordsFit(Records(calls), i);
    }
  }

  ghost predicate ReadsBack(region: seq<byte>, off: nat, c: AttrCall) {
    && RecordOk(region, off, ATTR)
    && GetAttrVar(region, off) == Padded(c.Data())
    && (c.Sized? ==> (GetAttrSize(region, off, c.size) == if c.size in {4, 8} then Some(c.val) else None))
  }

  lemma RecordReadsBack(region: seq<byte>, calls: seq<AttrCall>, i: nat)
    requires AllShort(calls) && i < |calls| && region == Flatten(Records(calls))
    ensures ReadsBack(region, Offsets(Records(calls), 0)[i], calls[i])
  {
    var rs, c := Records(calls), calls[i];
    RecordAtOffset([], rs, i);
    assert [] + Flatten(rs) == region;
    assert c in calls && c.Ok();
    PayloadReadsBack(region, Offsets(rs, 0)[i], c.cat, c.Data());
    if c.Sized? {
      SizedReadsBack(region, Offsets(rs, 0)[i], c.val, c.size);
    }
  }

  lemma PayloadReadsBack(region: seq<byte>, off: nat, cat: nat, data: seq<byte>)
    requires cat < 0x1_0000 && |data| < BUFFER_SIZE
    requires var r := AttrRecord(cat, data); off + |r| <= |region| && region[off..off + |r|] == r
    ensures RecordOk(region, off, ATTR) && GetAttrVar(region, off) == Padded(data)
  {
    var r := AttrRecord(cat, data);
    AttrRecordFields(cat, data);
    SubSlice(region, off, off + |r|, 0, 2);
    SubSlice(region, off, off + |r|, 4, |r|);
  }

  lemma SizedReadsBack(region: seq<byte>, off: nat, val: nat, size: nat)
    requires size in {1, 2, 4, 8} && val < Pow256(size)
    requires RecordOk(region, off, ATTR) && GetAttrVar(region, off) == Padded(LittleEndian(val, size))
    ensures GetAttrSize(region, off, size) == if size in {4, 8} then Some(val) else None
  {
    if size in {4, 8} {
      assert Padded(LittleEndian(val, size)) == LittleEndian(val, size);
      ValueOfLittleEndian(val, size);
    }
  }
}
