/** The Protocol Buffers wire format: base 128 varints, tags, and the fields they introduce. */
module ProtoWire {
  import opened Basics
  import opened Bytes

  const TWO_TO_THE_64 := 0x1_0000_0000_0000_0000

  type u64 = x: int | 0 <= x < 0x1_0000_0000_0000_0000

  const VARINT := 0
  const FIXED64 := 1
  const LENGTH_DELIMITED := 2
  const FIXED32 := 5

  // Base 128 varints

  /** Seven bits a byte, least significant first; all but the last byte have the top bit set. */
  function Varint(v: nat): (s: seq<byte>)
    ensures |s| >= 1
  {
    if v < 128 then [v] else [v % 128 + 128] + Varint(v / 128)
  }

  /** What a reader took from the front of its input, and what is left. */
  datatype Read<+T> = Read(value: T, rest: seq<byte>)

  function VarintWithin(b: seq<byte>, bytes: nat): (r: Option<Read<nat>>)
    ensures r.Some? ==> |r.value.rest| < |b|
    decreases bytes
  {
    if b == [] || bytes == 0 then None
    else if b[0] < 128 then Some(Read(b[0], b[1..]))
    else
      match VarintWithin(b[1..], bytes - 1)
      case None => None
      case Some(r) => Some(Read(b[0] - 128 + 128 * r.value, r.rest))
  }

  /** At most ten bytes, of which 64 bits are kept. */
  function ReadVarint(b: seq<byte>): (r: Option<Read<u64>>)
    ensures r.Some? ==> |r.value.rest| < |b|
  {
    match VarintWithin(b, 10)
    case None => None
    case Some(r) => Some(Read(r.value % TWO_TO_THE_64, r.rest))
  }

  /** The size of a varint, by thresholds. */
  function VarintSize(v: nat): nat {
    if v < 0x80 then 1
    else if v < 0x4000 then 2
    else if v < 0x20_0000 then 3
    else if v < 0x1000_0000 then 4
    else if v < 0x8_0000_0000 then 5
    else if v < 0x400_0000_0000 then 6
    else if v < 0x2_0000_0000_0000 then 7
    else if v < 0x100_0000_0000_0000 then 8
    else if v < 0x8000_0000_0000_0000 then 9
    else 10
  }

  lemma {:induction false} SizeOfVarint(v: u64)
    ensures |Varint(v)| == VarintSize(v)
  {
    if v >= 128 {
      SizeOfVarint(v / 128);
    }
  }

  lemma {:induction false} VarintWithinOfVarint(v: nat, rest: seq<byte>, bytes: nat)
    requires |Varint(v)| <= bytes
    ensures VarintWithin(Varint(v) + rest, bytes) == Some(Read(v, rest))
  {
    var b := Varint(v) + rest;
    if v < 128 {
      assert b[1..] == rest;
    } else {
      assert b[1..] == Varint(v / 128) + rest;
      VarintWithinOfVarint(v / 128, rest, bytes - 1);
    }
  }

  lemma AtMostTenBytes(v: u64)
    ensures |Varint(v)| <= 10
    ensures v % TWO_TO_THE_64 == v
  {
    SizeOfVarint(v);
  }

  lemma ReadVarintOfVarint(v: u64, rest: seq<byte>)
    ensures ReadVarint(Varint(v) + rest) == Some(Read(v, rest))
  {
    AtMostTenBytes(v);
    VarintWithinOfVarint(v, rest, 10);
  }

  /** Reading looks at nothing beyond what it takes. */
  lemma {:induction false} VarintWithinExtends(b: seq<byte>, more: seq<byte>, bytes: nat)
    requires VarintWithin(b, bytes).Some?
    ensures var r := VarintWithin(b, bytes).value;
            VarintWithin(b + more, bytes) == Some(Read(r.value, r.rest + more))
    decreases bytes
  {
    assert (b + more)[1..] == b[1..] + more;
    if b[0] >= 128 {
      VarintWithinExtends(b[1..], more, bytes - 1);
    }
  }

  // Fields

  datatype Field =
    | Number(number: nat, value: u64)
    | Fixed(number: nat, width: nat, raw: seq<byte>)
    | Bytes(number: nat, payload: seq<byte>)

  function Wire(f: Field): nat {
    match f
    case Number(_, _) => VARINT
    case Fixed(_, width, _) => if width == 8 then FIXED64 else FIXED32
    case Bytes(_, _) => LENGTH_DELIMITED
  }

  datatype Tag = Tag(number: nat, wire: nat)

  /** A tag is a 32-bit varint; field number 0 is invalid. */
  function ReadTag(b: seq<byte>): (r: Option<Read<Tag>>)
    ensures r.Some? ==> |r.value.rest| < |b|
  {
    match ReadVarint(b)
    case None => None
    case Some(r) =>
      if r.value < TWO_TO_THE_32 && r.value / 8 > 0 then Some(Read(Tag(r.value / 8, r.value % 8), r.rest)) else None
  }

  function ReadRaw(b: seq<byte>, n: nat): (r: Option<Read<seq<byte>>>)
    ensures r.Some? ==> |r.value.rest| <= |b| && |r.value.value| == n
  {
    if n <= |b| then Some(Read(b[..n], b[n..])) else None
  }

  function ReadBytes(b: seq<byte>): (r: Option<Read<seq<byte>>>)
    ensures r.Some? ==> |r.value.rest| < |b|
  {
    match ReadVarint(b)
    case None => None
    case Some(len) => ReadRaw(len.rest, len.value)
  }

  /** The rest of a field whose tag has been read. Groups are not part of this model. */
  function ReadPayload(tag: Tag, b: seq<byte>): (r: Option<Read<Field>>)
    ensures r.Some? ==> |r.value.rest| <= |b|
  {
    if tag.wire == VARINT then
      match ReadVarint(b)
      case None => None
      case Some(r) => Some(Read(Number(tag.number, r.value), r.rest))
    else if tag.wire == LENGTH_DELIMITED then
      match ReadBytes(b)
      case None => None
      case Some(r) => Some(Read(Bytes(tag.number, r.value), r.rest))
    else if tag.wire == FIXED64 || tag.wire == FIXED32 then
      var width := if tag.wire == FIXED64 then 8 else 4;
      match ReadRaw(b, width)
      case None => None
      case Some(r) => Some(Read(Fixed(tag.number, width, r.value), r.rest))
    else None
  }

  function ReadField(b: seq<byte>): (r: Option<Read<Field>>)
    ensures r.Some? ==> |r.value.rest| < |b|
  {
    match ReadTag(b)
    case None => None
    case Some(tag) => ReadPayload(tag.value, tag.rest)
  }

  function EncodeTag(number: nat, wire: nat): seq<byte> {
    Varint(number * 8 + wire)
  }

  function EncodeField(f: Field): (s: seq<byte>)
    ensures |s| >= 1
  {
    EncodeTag(f.number, Wire(f))
    + match f
      case Number(_, value) => Varint(value)
      case Fixed(_, _, raw) => raw
      case Bytes(_, payload) => Varint(|payload|) + payload
  }

  /** Field numbers have 29 bits, fixed fields their width. */
  predicate Writable(f: Field) {
    && 0 < f.number < 0x2000_0000
    && (f.Fixed? ==> (f.width == 4 || f.width == 8) && |f.raw| == f.width)
  }

  /** And payloads have a length that fits. */
  predicate Encodable(f: Field) {
    Writable(f) && (f.Bytes? ==> |f.payload| < TWO_TO_THE_32)
  }

  /** What has been read can be written again. */
  lemma ReadFieldWritable(b: seq<byte>)
    requires ReadField(b).Some?
    ensures Writable(ReadField(b).value.value)
  {
    hide ReadVarint;
    var tag := ReadTag(b).value;
    assert tag.value.number < 0x2000_0000;
  }

  lemma ReadRawOf(raw: seq<byte>, rest: seq<byte>)
    ensures ReadRaw(raw + rest, |raw|) == Some(Read(raw, rest))
  {
    assert (raw + rest)[..|raw|] == raw && (raw + rest)[|raw|..] == rest;
  }

  lemma ReadBytesOf(payload: seq<byte>, rest: seq<byte>)
    requires |payload| < TWO_TO_THE_32
    ensures ReadBytes(Varint(|payload|) + payload + rest) == Some(Read(payload, rest))
  {
    hide Varint, ReadVarint, ReadRaw;
    var b := Varint(|payload|) + payload + rest;
    assert b == Varint(|payload|) + (payload + rest);
    ReadVarintOfVarint(|payload|, payload + rest);
    ReadRawOf(payload, rest);
    assert ReadVarint(b) == Some(Read(|payload|, payload + rest));
    assert ReadBytes(b) == ReadRaw(payload + rest, |payload|);
  }

  lemma ReadTagOf(number: nat, wire: nat, rest: seq<byte>)
    requires 0 < number < 0x2000_0000 && wire < 8
    ensures ReadTag(EncodeTag(number, wire) + rest) == Some(Read(Tag(number, wire), rest))
  {
    ReadVarintOfVarint(number * 8 + wire, rest);
  }

  lemma ReadFieldOfEncode(f: Field, rest: seq<byte>)
    requires Encodable(f)
    ensures ReadField(EncodeField(f) + rest) == Some(Read(f, rest))
  {
    var tag := EncodeTag(f.number, Wire(f));
    match f {
      case Number(_, value) =>
        assert EncodeField(f) + rest == tag + (Varint(value) + rest);
        ReadTagOf(f.number, VARINT, Varint(value) + rest);
        ReadVarintOfVarint(value, rest);
      case Fixed(_, _, raw) =>
        assert EncodeField(f) + rest == tag + (raw + rest);
        ReadTagOf(f.number, Wire(f), raw + rest);
        ReadRawOf(raw, rest);
      case Bytes(_, payload) =>
        assert EncodeField(f) + rest == tag + (Varint(|payload|) + payload + rest);
        ReadTagOf(f.number, LENGTH_DELIMITED, Varint(|payload|) + payload + rest);
        ReadBytesOf(payload, rest);
    }
  }

  lemma ReadVarintExtends(b: seq<byte>, more: seq<byte>)
    requires ReadVarint(b).Some?
    ensures var r := ReadVarint(b).value; ReadVarint(b + more) == Some(Read(r.value, r.rest + more))
  {
    VarintWithinExtends(b, more, 10);
  }

  lemma ReadRawExtends(b: seq<byte>, more: seq<byte>, n: nat)
    requires n <= |b|
    ensures ReadRaw(b + more, n) == Some(Read(b[..n], b[n..] + more))
  {
    assert (b + more)[..n] == b[..n] && (b + more)[n..] == b[n..] + more;
  }

  lemma ReadFieldExtends(b: seq<byte>, more: seq<byte>)
    requires ReadField(b).Some?
    ensures var r := ReadField(b).value; ReadField(b + more) == Some(Read(r.value, r.rest + more))
  {
    ReadVarintExtends(b, more);
    var tag := ReadTag(b).value;
    if tag.value.wire == VARINT {
      ReadVarintExtends(tag.rest, more);
    } else if tag.value.wire == LENGTH_DELIMITED {
      ReadVarintExtends(tag.rest, more);
      var len := ReadVarint(tag.rest).value;
      ReadRawExtends(len.rest, more, len.value);
    } else {
      ReadRawExtends(tag.rest, more, if tag.value.wire == FIXED64 then 8 else 4);
    }
  }

  // Merging

  /** Reading fields to the end of the input and letting each change the message; any failure is an error. */
  function Merge<V>(apply: (V, Field) -> Option<V>, v: V, b: seq<byte>): Option<V>
    decreases |b|
  {
    if b == [] then Some(v)
    else
      match ReadField(b)
      case None => None
      case Some(f) =>
        match apply(v, f.value)
        case None => None
        case Some(changed) => Merge(apply, changed, f.rest)
  }

  function ApplyAll<V>(apply: (V, Field) -> Option<V>, v: V, fs: seq<Field>): Option<V>
    decreases |fs|
  {
    if fs == [] then Some(v)
    else
      match apply(v, fs[0])
      case None => None
      case Some(changed) => ApplyAll(apply, changed, fs[1..])
  }

  function EncodeAll(fs: seq<Field>): seq<byte> {
    if fs == [] then [] else EncodeField(fs[0]) + EncodeAll(fs[1..])
  }

  /** Merging what was written applies exactly the fields that were written, in order. */
  lemma {:induction false} MergeOfEncode<V>(apply: (V, Field) -> Option<V>, v: V, fs: seq<Field>)
    requires forall f | f in fs :: Encodable(f)
    ensures Merge(apply, v, EncodeAll(fs)) == ApplyAll(apply, v, fs)
    decreases |fs|
  {
    if fs != [] {
      ReadFieldOfEncode(fs[0], EncodeAll(fs[1..]));
      var changed := apply(v, fs[0]);
      if changed.Some? {
        MergeOfEncode(apply, changed.value, fs[1..]);
      }
    }
  }

  /** Merging one input after another is merging their concatenation, for every message and all bytes. */
  lemma {:induction false} MergeOfConcatenation<V>(apply: (V, Field) -> Option<V>, v: V, a: seq<byte>, b: seq<byte>)
    requires Merge(apply, v, a).Some?
    ensures Merge(apply, v, a + b) == Merge(apply, Merge(apply, v, a).value, b)
    decreases |a|
  {
    if a == [] {
      assert a + b == b;
    } else {
      ReadFieldExtends(a, b);
      var f := ReadField(a).value;
      MergeOfConcatenation(apply, apply(v, f.value).value, f.rest, b);
    }
  }

  lemma {:induction false} ApplyAllConcat<V>(apply: (V, Field) -> Option<V>, v: V, fs: seq<Field>, gs: seq<Field>)
    requires ApplyAll(apply, v, fs).Some?
    ensures ApplyAll(apply, v, fs + gs) == ApplyAll(apply, ApplyAll(apply, v, fs).value, gs)
    decreases |fs|
  {
    if fs == [] {
      assert fs + gs == gs;
    } else {
      assert (fs + gs)[1..] == fs[1..] + gs;
      ApplyAllConcat(apply, apply(v, fs[0]).value, fs[1..], gs);
    }
  }

  lemma {:induction false} EncodeAllConcat(fs: seq<Field>, gs: seq<Field>)
    ensures EncodeAll(fs + gs) == EncodeAll(fs) + EncodeAll(gs)
  {
    if fs == [] {
      assert fs + gs == gs;
    } else {
      assert (fs + gs)[1..] == fs[1..] + gs;
      EncodeAllConcat(fs[1..], gs);
    }
  }

  /** What holds of a message, and is kept by every field that can be read, holds after merging any input. */
  lemma {:induction false} MergeKeeps<V(!new)>(apply: (V, Field) -> Option<V>, ok: V -> bool, v: V, b: seq<byte>)
    requires ok(v)
    requires forall w: V, f: Field | ok(w) && Writable(f) && apply(w, f).Some? :: ok(apply(w, f).value)
    ensures Merge(apply, v, b).Some? ==> ok(Merge(apply, v, b).value)
    decreases |b|
  {
    if b != [] && ReadField(b).Some? {
      ReadFieldWritable(b);
      var f := ReadField(b).value;
      if apply(v, f.value).Some? {
        MergeKeeps(apply, ok, apply(v, f.value).value, f.rest);
      }
    }
  }

  // Fields a message does not know

  function KnownOf(fs: seq<Field>, known: set<nat>): seq<Field> {
    if fs == [] then [] else (if fs[0].number in known then [fs[0]] else []) + KnownOf(fs[1..], known)
  }

  function ForeignOf(fs: seq<Field>, known: set<nat>): seq<Field> {
    if fs == [] then [] else (if fs[0].number in known then [] else [fs[0]]) + ForeignOf(fs[1..], known)
  }

  /** How a message treats fields by their numbers: those it does not know go to the end of a list, which the others
      neither touch nor look at. */
  ghost predicate StoresForeign<V(!new)>(apply: (V, Field) -> Option<V>, known: set<nat>,
                                         unknown: V -> seq<Field>, with: (V, seq<Field>) -> V) {
    && (forall v: V, f: Field | f.number !in known :: apply(v, f) == Some(with(v, unknown(v) + [f])))
    && (forall v: V, f: Field | f.number in known && apply(v, f).Some? :: unknown(apply(v, f).value) == unknown(v))
    && (forall v: V, f: Field, gs: seq<Field> | f.number in known ::
          apply(with(v, gs), f) == Rewritten(apply(v, f), gs, with))
    && (forall v: V :: with(v, unknown(v)) == v)
    && (forall v: V, gs: seq<Field> :: unknown(with(v, gs)) == gs)
    && (forall v: V, gs: seq<Field>, hs: seq<Field> :: with(with(v, gs), hs) == with(v, hs))
  }

  function Rewritten<V>(o: Option<V>, gs: seq<Field>, with: (V, seq<Field>) -> V): Option<V> {
    match o
    case None => None
    case Some(v) => Some(with(v, gs))
  }

  /** What known fields do does not depend on the list. */
  lemma {:induction false} KnownIgnoreForeign<V(!new)>(apply: (V, Field) -> Option<V>, known: set<nat>,
                                                       unknown: V -> seq<Field>, with: (V, seq<Field>) -> V,
                                                       v: V, gs: seq<Field>, fs: seq<Field>)
    requires StoresForeign(apply, known, unknown, with)
    ensures ApplyAll(apply, with(v, gs), KnownOf(fs, known))
         == Rewritten(ApplyAll(apply, v, KnownOf(fs, known)), gs, with)
    decreases |fs|
  {
    if fs != [] {
      var f, rest := fs[0], KnownOf(fs[1..], known);
      if f.number !in known {
        assert KnownOf(fs, known) == rest;
        KnownIgnoreForeign(apply, known, unknown, with, v, gs, fs[1..]);
      } else {
        Peel(apply, v, f, rest);
        Peel(apply, with(v, gs), f, rest);
        if apply(v, f).Some? {
          KnownIgnoreForeign(apply, known, unknown, with, apply(v, f).value, gs, fs[1..]);
        }
      }
    }
  }

  lemma Peel<V>(apply: (V, Field) -> Option<V>, v: V, f: Field, rest: seq<Field>)
    ensures ApplyAll(apply, v, [f] + rest)
         == match apply(v, f)
            case None => None
            case Some(changed) => ApplyAll(apply, changed, rest)
  {
    assert ([f] + rest)[1..] == rest;
  }

  /** The step at an unknown field, and after it. */
  lemma ForeignStep<V(!new)>(apply: (V, Field) -> Option<V>, known: set<nat>, unknown: V -> seq<Field>,
                             with: (V, seq<Field>) -> V, v: V, f: Field, o: Option<V>, more: seq<Field>)
    requires StoresForeign(apply, known, unknown, with) && f.number !in known
    ensures var longer := unknown(v) + [f];
            && apply(v, f) == Some(with(v, longer)) && unknown(with(v, longer)) == longer
            && Rewritten(Rewritten(o, longer, with), more, with) == Rewritten(o, more, with)
  {
  }

  lemma KnownStep<V(!new)>(apply: (V, Field) -> Option<V>, known: set<nat>, unknown: V -> seq<Field>,
                           with: (V, seq<Field>) -> V, v: V, f: Field)
    requires StoresForeign(apply, known, unknown, with) && f.number in known
    ensures apply(v, f).Some? ==> unknown(apply(v, f).value) == unknown(v)
  {
  }

  /** Of any input, the fields a message knows decide what is read, wherever they stand among the others; and the
      others are kept, all of them and in their order. */
  lemma {:induction false} UnknownSurvive<V(!new)>(apply: (V, Field) -> Option<V>, known: set<nat>,
                                                   unknown: V -> seq<Field>, with: (V, seq<Field>) -> V,
                                                   v: V, fs: seq<Field>)
    requires StoresForeign(apply, known, unknown, with)
    ensures ApplyAll(apply, v, fs)
         == Rewritten(ApplyAll(apply, v, KnownOf(fs, known)), unknown(v) + ForeignOf(fs, known), with)
    decreases |fs|, 0
  {
    if fs == [] {
      assert unknown(v) + [] == unknown(v);
    } else {
      hide StoresForeign, Rewritten;
      var f, rest := fs[0], fs[1..];
      var ks, gs := KnownOf(rest, known), ForeignOf(rest, known);
      assert fs == [f] + rest;
      if f.number in known {
        KnownFirst(apply, known, unknown, with, v, f, rest);
        assert KnownOf(fs, known) == [f] + ks && ForeignOf(fs, known) == gs;
      } else {
        ForeignFirst(apply, known, unknown, with, v, f, rest);
        assert KnownOf(fs, known) == ks && ForeignOf(fs, known) == [f] + gs;
      }
    }
  }

  lemma ForeignFirst<V(!new)>(apply: (V, Field) -> Option<V>, known: set<nat>, unknown: V -> seq<Field>,
                              with: (V, seq<Field>) -> V, v: V, f: Field, rest: seq<Field>)
    requires StoresForeign(apply, known, unknown, with) && f.number !in known
    ensures ApplyAll(apply, v, [f] + rest)
         == Rewritten(ApplyAll(apply, v, KnownOf(rest, known)), unknown(v) + ([f] + ForeignOf(rest, known)), with)
    decreases |rest|, 1
  {
    hide StoresForeign, Rewritten, ApplyAll, KnownOf, ForeignOf;
    var gs, longer := ForeignOf(rest, known), unknown(v) + [f];
    Peel(apply, v, f, rest);
    ForeignStep(apply, known, unknown, with, v, f, ApplyAll(apply, v, KnownOf(rest, known)), longer + gs);
    UnknownSurvive(apply, known, unknown, with, with(v, longer), rest);
    KnownIgnoreForeign(apply, known, unknown, with, v, longer, rest);
    assert longer + gs == unknown(v) + ([f] + gs);
  }

  lemma KnownFirst<V(!new)>(apply: (V, Field) -> Option<V>, known: set<nat>, unknown: V -> seq<Field>,
                            with: (V, seq<Field>) -> V, v: V, f: Field, rest: seq<Field>)
    requires StoresForeign(apply, known, unknown, with) && f.number in known
    ensures ApplyAll(apply, v, [f] + rest)
         == Rewritten(ApplyAll(apply, v, [f] + KnownOf(rest, known)), unknown(v) + ForeignOf(rest, known), with)
    decreases |rest|, 1
  {
    hide StoresForeign, ApplyAll, KnownOf, ForeignOf;
    Peel(apply, v, f, rest);
    Peel(apply, v, f, KnownOf(rest, known));
    KnownStep(apply, known, unknown, with, v, f);
    if apply(v, f).Some? {
      UnknownSurvive(apply, known, unknown, with, apply(v, f).value, rest);
    }
  }
}
