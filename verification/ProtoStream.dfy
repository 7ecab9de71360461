/** The output stream generated message code writes to, and the size arithmetic that precedes writing. */
module ProtoStream {
  import opened Basics
  import opened Bytes
  import opened ProtoWire
  import opened ProtoMessages

  // Sizes

  function TagSize(number: nat): nat {
    VarintSize(number * 8)
  }

  function ValueSize(number: nat, value: u64): nat {
    TagSize(number) + VarintSize(value)
  }

  function StringSize(number: nat, text: seq<byte>): nat {
    TagSize(number) + VarintSize(|text|) + |text|
  }

  /** What a nested message adds: one byte of tag, its length, itself. */
  function NestedSize(len: nat): nat {
    1 + VarintSize(len) + len
  }

  function FieldSize(f: Field): nat {
    match f
    case Number(number, value) => ValueSize(number, value)
    case Fixed(number, width, _) => TagSize(number) + width
    case Bytes(number, payload) => StringSize(number, payload)
  }

  function SizeAll(fs: seq<Field>): nat {
    if fs == [] then 0 else FieldSize(fs[0]) + SizeAll(fs[1..])
  }

  lemma {:induction false} SizeAllConcat(fs: seq<Field>, gs: seq<Field>)
    ensures SizeAll(fs + gs) == SizeAll(fs) + SizeAll(gs)
  {
    if fs == [] {
      assert fs + gs == gs;
    } else {
      assert (fs + gs)[1..] == fs[1..] + gs;
      SizeAllConcat(fs[1..], gs);
    }
  }

  lemma SizeOfTag(number: nat, wire: nat)
    requires number < 0x2000_0000 && wire < 8
    ensures |EncodeTag(number, wire)| == TagSize(number)
  {
    SizeOfVarint(number * 8 + wire);
  }

  lemma SizeOfField(f: Field)
    requires Encodable(f)
    ensures FieldSize(f) == |EncodeField(f)|
  {
    SizeOfTag(f.number, Wire(f));
    match f {
      case Number(_, value) => SizeOfVarint(value);
      case Fixed(_, _, _) =>
      case Bytes(_, payload) => SizeOfVarint(|payload|);
    }
  }

  /** The sizes add up to the bytes written. */
  lemma {:induction false} SizeIsLength(fs: seq<Field>)
    requires forall f | f in fs :: Encodable(f)
    ensures SizeAll(fs) == |EncodeAll(fs)|
  {
    if fs != [] {
      SizeOfField(fs[0]);
      SizeIsLength(fs[1..]);
    }
  }

  lemma {:induction false} NumberFieldsSnoc(number: nat, values: seq<u64>, i: nat)
    requires i < |values|
    ensures NumberFields(number, values[..i + 1]) == NumberFields(number, values[..i]) + [Number(number, values[i])]
    decreases i
  {
    if i > 0 {
      NumberFieldsSnoc(number, values[1..], i - 1);
      assert values[..i + 1][1..] == values[1..][..i] && values[..i][1..] == values[1..][..i - 1];
      assert NumberFields(number, values[..i + 1])
        == [Number(number, values[0])] + NumberFields(number, values[1..][..i]);
    } else {
      assert values[..0] == [] && values[..1] == [values[0]] && values[..1][1..] == [];
    }
  }

  lemma {:induction false} TextFieldsSnoc(number: nat, texts: seq<seq<byte>>, i: nat)
    requires i < |texts|
    ensures TextFields(number, texts[..i + 1]) == TextFields(number, texts[..i]) + [Bytes(number, texts[i])]
    decreases i
  {
    if i > 0 {
      TextFieldsSnoc(number, texts[1..], i - 1);
      assert texts[..i + 1][1..] == texts[1..][..i] && texts[..i][1..] == texts[1..][..i - 1];
      assert TextFields(number, texts[..i + 1]) == [Bytes(number, texts[0])] + TextFields(number, texts[1..][..i]);
    } else {
      assert texts[..0] == [] && texts[..1] == [texts[0]] && texts[..1][1..] == [];
    }
  }

  /** Output grows by whole runs of fields. */
  lemma Wrote(base: seq<byte>, fs: seq<Field>, gs: seq<Field>)
    ensures base + EncodeAll(fs) + EncodeAll(gs) == base + EncodeAll(fs + gs)
  {
    EncodeAllConcat(fs, gs);
  }

  lemma EncodeOne(f: Field)
    ensures EncodeAll([f]) == EncodeField(f)
  {
    var bytes := EncodeField(f);
    assert EncodeAll([f]) == bytes + [] by {
      assert [f][1..] == [];
    }
  }

  lemma WroteOne(base: seq<byte>, fs: seq<Field>, f: Field)
    ensures base + EncodeAll(fs) + EncodeField(f) == base + EncodeAll(fs + [f])
  {
    EncodeOne(f);
    Wrote(base, fs, [f]);
  }

  function NumberSize(number: nat, value: u64): (size: nat)
    ensures size == SizeAll(NumberField(number, value))
  {
    if value != 0 then ValueSize(number, value) else 0
  }

  function TextSize(number: nat, text: seq<byte>): (size: nat)
    ensures size == SizeAll(TextField(number, text))
  {
    if text != [] then StringSize(number, text) else 0
  }

  method NumbersSize(number: nat, values: seq<u64>) returns (size: nat)
    ensures size == SizeAll(NumberFields(number, values))
  {
    size := 0;
    for i := 0 to |values|
      invariant size == SizeAll(NumberFields(number, values[..i]))
    {
      size := size + ValueSize(number, values[i]);
      NumberFieldsSnoc(number, values, i);
      SizeAllConcat(NumberFields(number, values[..i]), [Number(number, values[i])]);
    }
    assert values[..|values|] == values;
  }

  method TextsSize(number: nat, texts: seq<seq<byte>>) returns (size: nat)
    ensures size == SizeAll(TextFields(number, texts))
  {
    size := 0;
    for i := 0 to |texts|
      invariant size == SizeAll(TextFields(number, texts[..i]))
    {
      size := size + StringSize(number, texts[i]);
      TextFieldsSnoc(number, texts, i);
      SizeAllConcat(TextFields(number, texts[..i]), [Bytes(number, texts[i])]);
    }
    assert texts[..|texts|] == texts;
  }

  method UnknownFieldsSize(fs: seq<Field>) returns (size: nat)
    ensures size == SizeAll(fs)
  {
    size := 0;
    for i := 0 to |fs|
      invariant size == SizeAll(fs[..i])
    {
      size := size + FieldSize(fs[i]);
      assert fs[..i + 1] == fs[..i] + [fs[i]];
      SizeAllConcat(fs[..i], [fs[i]]);
    }
    assert fs[..|fs|] == fs;
  }

  // The output stream

  class Output {
    var bytes: seq<byte>

    constructor ()
      ensures bytes == []
    {
      bytes := [];
    }

    method WriteTag(number: nat, wire: nat)
      modifies this
      ensures bytes == old(bytes) + EncodeTag(number, wire)
    {
      bytes := bytes + Varint(number * 8 + wire);
    }

    method WriteRawVarint(v: nat)
      modifies this
      ensures bytes == old(bytes) + Varint(v)
    {
      bytes := bytes + Varint(v);
    }

    method WriteUint64(number: nat, value: u64)
      modifies this
      ensures bytes == old(bytes) + EncodeField(Number(number, value))
    {
      WriteTag(number, VARINT);
      WriteRawVarint(value);
    }

    method WriteString(number: nat, text: seq<byte>)
      modifies this
      ensures bytes == old(bytes) + EncodeField(Bytes(number, text))
    {
      WriteTag(number, LENGTH_DELIMITED);
      WriteRawVarint(|text|);
      bytes := bytes + text;
    }

    method WriteBool(number: nat, flag: bool)
      modifies this
      ensures bytes == old(bytes) + EncodeField(Number(number, if flag then 1 else 0))
    {
      WriteTag(number, VARINT);
      WriteRawVarint(if flag then 1 else 0);
    }

    method WriteField(f: Field)
      modifies this
      ensures bytes == old(bytes) + EncodeField(f)
    {
      match f {
        case Number(number, value) =>
          WriteUint64(number, value);
        case Fixed(number, _, raw) =>
          WriteTag(number, Wire(f));
          bytes := bytes + raw;
        case Bytes(number, payload) =>
          WriteString(number, payload);
      }
    }

    method WriteUnknownFields(fs: seq<Field>)
      modifies this
      ensures bytes == old(bytes) + EncodeAll(fs)
    {
      hide EncodeField;
      for i := 0 to |fs|
        invariant bytes == old(bytes) + EncodeAll(fs[..i])
      {
        WriteField(fs[i]);
        assert fs[..i + 1] == fs[..i] + [fs[i]];
        WroteOne(old(bytes), fs[..i], fs[i]);
      }
      assert fs[..|fs|] == fs;
    }

    // Scalars are written unless they have their default value.

    method WriteNumber(number: nat, value: u64)
      modifies this
      ensures bytes == old(bytes) + EncodeAll(NumberField(number, value))
    {
      if value != 0 {
        WriteUint64(number, value);
        WroteOne(old(bytes), [], Number(number, value));
      }
    }

    method WriteText(number: nat, text: seq<byte>)
      modifies this
      ensures bytes == old(bytes) + EncodeAll(TextField(number, text))
    {
      if text != [] {
        WriteString(number, text);
        WroteOne(old(bytes), [], Bytes(number, text));
      }
    }

    method WriteNumbers(number: nat, values: seq<u64>)
      modifies this
      ensures bytes == old(bytes) + EncodeAll(NumberFields(number, values))
    {
      for i := 0 to |values|
        invariant bytes == old(bytes) + EncodeAll(NumberFields(number, values[..i]))
      {
        WriteUint64(number, values[i]);
        NumberFieldsSnoc(number, values, i);
        WroteOne(old(bytes), NumberFields(number, values[..i]), Number(number, values[i]));
      }
      assert values[..|values|] == values;
    }

    method WriteTexts(number: nat, texts: seq<seq<byte>>)
      modifies this
      ensures bytes == old(bytes) + EncodeAll(TextFields(number, texts))
    {
      for i := 0 to |texts|
        invariant bytes == old(bytes) + EncodeAll(TextFields(number, texts[..i]))
      {
        WriteString(number, texts[i]);
        TextFieldsSnoc(number, texts, i);
        WroteOne(old(bytes), TextFields(number, texts[..i]), Bytes(number, texts[i]));
      }
      assert texts[..|texts|] == texts;
    }
  }

  // Nested messages

  /** A nested message as it is written: its length is whatever size was cached for it. */
  function Nested(number: nat, size: nat, body: seq<byte>): seq<byte> {
    EncodeTag(number, LENGTH_DELIMITED) + Varint(size) + body
  }

  lemma WroteNested(base: seq<byte>, number: nat, size: nat, body: seq<byte>)
    ensures base + EncodeTag(number, LENGTH_DELIMITED) + Varint(size) + body == base + Nested(number, size, body)
  {
  }

  lemma NestedIsField(number: nat, body: seq<byte>)
    ensures Nested(number, |body|, body) == EncodeField(Bytes(number, body))
    ensures 0 < number < 16 ==> NestedSize(|body|) == FieldSize(Bytes(number, body))
  {
  }

  lemma MessageFieldIs(number: nat, body: seq<byte>)
    requires 0 < number < 16
    ensures EncodeAll(MessageField(number, Some(body))) == Nested(number, |body|, body)
    ensures SizeAll(MessageField(number, Some(body))) == NestedSize(|body|)
  {
    NestedIsField(number, body);
    assert EncodeField(Bytes(number, body)) + [] == EncodeField(Bytes(number, body));
  }

  /** The cached size is visible in what is written: whatever follows, two sizes never give the same bytes. */
  lemma SizeShows(number: nat, size: u64, body: seq<byte>, rest: seq<byte>, other: u64, body': seq<byte>,
                  rest': seq<byte>)
    requires Nested(number, size, body) + rest == Nested(number, other, body') + rest'
    ensures size == other
  {
    var tag := EncodeTag(number, LENGTH_DELIMITED);
    var a, b := Varint(size) + (body + rest), Varint(other) + (body' + rest');
    assert Nested(number, size, body) + rest == tag + a;
    assert Nested(number, other, body') + rest' == tag + b;
    assert (tag + a)[|tag|..] == a && (tag + b)[|tag|..] == b;
    ReadVarintOfVarint(size, body + rest);
    ReadVarintOfVarint(other, body' + rest');
  }

  /** Several nested messages under one number, each with its cached size. */
  function NestedAll(number: nat, sizes: seq<nat>, bodies: seq<seq<byte>>): seq<byte>
    requires |sizes| == |bodies|
  {
    if bodies == [] then [] else Nested(number, sizes[0], bodies[0]) + NestedAll(number, sizes[1..], bodies[1..])
  }

  lemma NoneNested(number: nat)
    ensures NestedAll(number, [], []) == []
  {
  }

  lemma {:induction false} NestedAllSnoc(number: nat, sizes: seq<nat>, bodies: seq<seq<byte>>, i: nat)
    requires |sizes| == |bodies| && i < |bodies|
    ensures NestedAll(number, sizes[..i + 1], bodies[..i + 1])
         == NestedAll(number, sizes[..i], bodies[..i]) + Nested(number, sizes[i], bodies[i])
    decreases i
  {
    assert sizes[..i + 1][1..] == sizes[1..][..i] && bodies[..i + 1][1..] == bodies[1..][..i];
    if i > 0 {
      NestedAllSnoc(number, sizes[1..], bodies[1..], i - 1);
      assert sizes[..i][1..] == sizes[1..][..i - 1] && bodies[..i][1..] == bodies[1..][..i - 1];
    }
  }

  lemma NestedSizeSnoc(number: nat, bodies: seq<seq<byte>>, i: nat)
    requires 0 < number < 16 && i < |bodies|
    ensures SizeAll(TextFields(number, bodies[..i + 1]))
         == SizeAll(TextFields(number, bodies[..i])) + NestedSize(|bodies[i]|)
  {
    TextFieldsSnoc(number, bodies, i);
    NestedIsField(number, bodies[i]);
    SizeAllConcat(TextFields(number, bodies[..i]), [Bytes(number, bodies[i])]);
  }

  ghost predicate Sized(sizes: seq<nat>, bodies: seq<seq<byte>>) {
    |sizes| == |bodies| && forall i | 0 <= i < |bodies| :: sizes[i] == |bodies[i]|
  }

  lemma {:induction false} SizedNestedAll(number: nat, sizes: seq<nat>, bodies: seq<seq<byte>>)
    requires Sized(sizes, bodies)
    ensures NestedAll(number, sizes, bodies) == EncodeAll(TextFields(number, bodies))
    decreases |bodies|
  {
    if bodies != [] {
      NestedIsField(number, bodies[0]);
      assert TextFields(number, bodies)[1..] == TextFields(number, bodies[1..]);
      SizedNestedAll(number, sizes[1..], bodies[1..]);
    }
  }

  /** All sizes show in what is written, and so does what follows. */
  lemma {:induction false} SizesShow(number: nat, sizes: seq<u32>, other: seq<u32>, bodies: seq<seq<byte>>,
                                     rest: seq<byte>, rest': seq<byte>)
    requires |sizes| == |other| == |bodies|
    requires NestedAll(number, sizes, bodies) + rest == NestedAll(number, other, bodies) + rest'
    ensures sizes == other && rest == rest'
    decreases |bodies|
  {
    hide Nested;
    if bodies == [] {
      assert [] + rest == rest && [] + rest' == rest';
    } else {
      var a, b := NestedAll(number, sizes[1..], bodies[1..]) + rest, NestedAll(number, other[1..], bodies[1..]) + rest';
      var first, second := Nested(number, sizes[0], bodies[0]), Nested(number, other[0], bodies[0]);
      assert NestedAll(number, sizes, bodies) + rest == first + a;
      assert NestedAll(number, other, bodies) + rest' == second + b;
      SizeShows(number, sizes[0], bodies[0], a, other[0], bodies[0], b);
      assert (first + a)[|first|..] == a && (first + b)[|first|..] == b;
      SizesShow(number, sizes[1..], other[1..], bodies[1..], rest, rest');
    }
  }
}
