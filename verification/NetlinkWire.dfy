/** The shape every netlink byte region shares (RFC 3549, section 2.3.2): records that start with their own
    length, each starting on a 4-byte boundary. Integers are little-endian, the host order of the VM. */
module NetlinkWire {
  import opened Basics
  import opened Bytes

  function Pow256(k: nat): (p: nat)
    ensures p >= 1
  {
    if k == 0 then 1 else 256 * Pow256(k - 1)
  }

  /** The k low bytes of v, least significant first; higher bytes are cut off as an integer cast does. */
  function LittleEndian(v: nat, k: nat): (s: seq<byte>)
    ensures |s| == k
  {
    if k == 0 then [] else [v % 256] + LittleEndian(v / 256, k - 1)
  }

  function Value(s: seq<byte>): nat {
    if s == [] then 0 else s[0] + 256 * Value(s[1..])
  }

  lemma {:induction false} ValueOfLittleEndian(v: nat, k: nat)
    requires v < Pow256(k)
    ensures Value(LittleEndian(v, k)) == v
  {
    if k > 0 {
      ValueOfLittleEndian(v / 256, k - 1);
      assert LittleEndian(v, k)[1..] == LittleEndian(v / 256, k - 1);
    }
  }

  lemma {:induction false} LittleEndianOfValue(s: seq<byte>)
    ensures Value(s) < Pow256(|s|)
    ensures LittleEndian(Value(s), |s|) == s
  {
    if s != [] {
      LittleEndianOfValue(s[1..]);
      var low: int := s[0];
      assert (low + 256 * Value(s[1..])) % 256 == low && (low + 256 * Value(s[1..])) / 256 == Value(s[1..]);
    }
  }

  lemma {:induction false} DivTwice(v: nat, k: nat)
    ensures v / 256 / Pow256(k) == v / Pow256(k + 1)
  {
    var p := Pow256(k);
    var q, r := v / 256 / p, v / 256 % p;
    assert v == 256 * (p * q + r) + v % 256 == (256 * p) * q + (256 * r + v % 256);
    assert 0 <= 256 * r + v % 256 < 256 * p;
    QuotientIs(v, 256 * p, q, 256 * r + v % 256);
  }

  /** The bytes themselves. */
  lemma {:induction false} LittleEndianDigits(v: nat, k: nat, i: nat)
    requires i < k
    ensures LittleEndian(v, k)[i] == v / Pow256(i) % 256
  {
    if i > 0 {
      LittleEndianDigits(v / 256, k - 1, i - 1);
      DivTwice(v, i - 1);
    }
  }

  lemma TwoBytes(v: nat)
    ensures LittleEndian(v, 2) == [v % 256, v / 256 % 256]
  {
    assert LittleEndian(v / 256, 1) == [v / 256 % 256];
  }

  lemma FourBytes(v: nat)
    ensures LittleEndian(v, 4) == [v % 256, v / 256 % 256, v / 0x1_0000 % 256, v / 0x100_0000 % 256]
  {
    TwoBytes(v);
    TwoBytes(v / 0x1_0000);
    assert v / 256 / 256 == v / 0x1_0000;
    assert LittleEndian(v, 4) == [v % 256] + ([v / 256 % 256] + LittleEndian(v / 256 / 256, 2));
  }

  function Weighed(a: int, b: int, c: int, d: int): int {
    a + 0x100 * b + 0x1_0000 * c + 0x100_0000 * d
  }

  lemma ValueOfFour(b: seq<byte>)
    requires |b| == 4
    ensures Value(b) == Weighed(b[0], b[1], b[2], b[3])
  {
    ValueFrom(b, 0);
    ValueFrom(b, 1);
    ValueFrom(b, 2);
    ValueFrom(b, 3);
    assert b[0..] == b && b[4..] == [];
  }

  lemma ValueFrom(b: seq<byte>, i: nat)
    requires i < |b|
    ensures var low: int := b[i]; Value(b[i..]) == low + 256 * Value(b[i + 1..])
  {
    assert b[i..][1..] == b[i + 1..];
  }

  /** NLMSG_ALIGN and RTA_ALIGN. */
  function Align(n: nat): (r: nat)
    ensures n <= r < n + 4 && r % 4 == 0
  {
    (n + 3) / 4 * 4
  }

  lemma AlignFits(a: nat, b: nat)
    requires a <= b && b % 4 == 0
    ensures Align(a) <= b
  {
  }

  lemma SubSlice(b: seq<byte>, lo: nat, hi: nat, i: nat, j: nat)
    requires lo <= hi <= |b| && i <= j <= hi - lo
    ensures b[lo..hi][i..j] == b[lo + i..lo + j]
  {
    var inner, outer := b[lo..hi][i..j], b[lo + i..lo + j];
    assert forall k | 0 <= k < j - i :: inner[k] == b[lo..hi][i + k] == outer[k];
  }

  // Walking a region

  /** How a kind of record starts: header size, and the width of the length field at its front. */
  datatype Format = Format(header: nat, width: nat)

  const ATTR := Format(4, 2)
  const MESSAGE := Format(16, 4)

  ghost predicate Proper(fmt: Format) {
    fmt.header % 4 == 0 && 1 <= fmt.width <= fmt.header && 2 * fmt.header <= Pow256(fmt.width)
  }

  function RecordLen(b: seq<byte>, off: nat, fmt: Format): nat
    requires off + fmt.header <= |b| && fmt.width <= fmt.header
  {
    Value(b[off..off + fmt.width])
  }

  /** RTA_OK and NLMSG_OK: a whole record fits into what remains of the region. */
  predicate RecordOk(b: seq<byte>, off: nat, fmt: Format)
    requires fmt.width <= fmt.header
  {
    off + fmt.header <= |b| && fmt.header <= RecordLen(b, off, fmt) <= |b| - off
  }

  /** The records a walk visits, and how it ends: at the first position with no whole record, or by
      subtracting more than the remaining length, which the unsigned counter cannot hold: a debug build stops there,
      a release build wraps and walks on outside the region. */
  datatype Walk = Stopped(offsets: seq<nat>, at: nat) | Underflow(offsets: seq<nat>)

  function Before(off: nat, w: Walk): Walk {
    match w
    case Stopped(offsets, at) => Stopped([off] + offsets, at)
    case Underflow(offsets) => Underflow([off] + offsets)
  }

  function WalkFrom(b: seq<byte>, off: nat, fmt: Format): Walk
    requires fmt.width <= fmt.header && fmt.header > 0
    decreases |b| - off
  {
    if !RecordOk(b, off, fmt) then Stopped([], off)
    else
      var next := off + Align(RecordLen(b, off, fmt));
      if next > |b| then Underflow([off]) else Before(off, WalkFrom(b, next, fmt))
  }

  ghost predicate Inside(b: seq<byte>, offsets: seq<nat>, fmt: Format)
    requires fmt.width <= fmt.header
  {
    forall o | o in offsets :: RecordOk(b, o, fmt) && o % 4 == 0
  }

  lemma NextIsAligned(size: nat, off: nat, len: nat)
    requires size % 4 == 0 && off % 4 == 0 && len <= size - off
    ensures off + Align(len) <= size && (off + Align(len)) % 4 == 0
  {
    AlignFits(len, size - off);
  }

  /** Over a 4-aligned region a walk never underflows, and visits only whole records inside the region. */
  lemma {:induction false} AlignedWalkIsSafe(b: seq<byte>, off: nat, fmt: Format)
    requires Proper(fmt) && |b| % 4 == 0 && off % 4 == 0 && off <= |b|
    ensures var w := WalkFrom(b, off, fmt);
            w.Stopped? && off <= w.at <= |b| && w.at % 4 == 0 && Inside(b, w.offsets, fmt)
    decreases |b| - off
  {
    hide Value, Pow256, Align;
    if RecordOk(b, off, fmt) {
      NextIsAligned(|b|, off, RecordLen(b, off, fmt));
      AlignedWalkIsSafe(b, off + Align(RecordLen(b, off, fmt)), fmt);
    }
  }

  /** Some bytes of any unaligned size with room for a record make a walk underflow: short records as long as the
      size is too large for a length field, then one record that claims all the rest. */
  lemma {:induction false} UnalignedUnderflows(n: nat, fmt: Format) returns (b: seq<byte>)
    requires Proper(fmt) && n % 4 != 0 && n >= fmt.header
    ensures |b| == n && WalkFrom(b, 0, fmt).Underflow?
    decreases n
  {
    if n < Pow256(fmt.width) {
      b := ClaimingAll(n, fmt);
    } else {
      var rest := UnalignedUnderflows(n - fmt.header, fmt);
      var first := ShortRecord(fmt);
      b := first + rest;
      StepOver(first, rest, fmt);
      WalkShifts(first, rest, 0, fmt);
    }
  }

  lemma ClaimingAll(n: nat, fmt: Format) returns (b: seq<byte>)
    requires Proper(fmt) && n % 4 != 0 && fmt.header <= n < Pow256(fmt.width)
    ensures |b| == n && WalkFrom(b, 0, fmt).Underflow?
  {
    b := LittleEndian(n, fmt.width) + LittleEndian(0, n - fmt.width);
    assert b[0..fmt.width] == LittleEndian(n, fmt.width);
    ValueOfLittleEndian(n, fmt.width);
  }

  lemma ShortRecord(fmt: Format) returns (r: seq<byte>)
    requires Proper(fmt)
    ensures |r| == fmt.header && IsRecord(r, fmt) && RecordLen(r, 0, fmt) == fmt.header
  {
    r := LittleEndian(fmt.header, fmt.width) + LittleEndian(0, fmt.header - fmt.width);
    assert r[0..fmt.width] == LittleEndian(fmt.header, fmt.width);
    ValueOfLittleEndian(fmt.header, fmt.width);
  }

  lemma StepOver(r: seq<byte>, rest: seq<byte>, fmt: Format)
    requires Proper(fmt) && IsRecord(r, fmt)
    ensures WalkFrom(r + rest, 0, fmt).Underflow? <==> WalkFrom(r + rest, |r|, fmt).Underflow?
  {
    assert [] + r + rest == r + rest;
    RecordAt([], r, rest, fmt);
  }

  /** Walking on behind a prefix is walking what is behind it. */
  lemma {:induction false} WalkShifts(pre: seq<byte>, b: seq<byte>, off: nat, fmt: Format)
    requires fmt.width <= fmt.header && fmt.header > 0 && off <= |b|
    ensures WalkFrom(pre + b, |pre| + off, fmt).Underflow? <==> WalkFrom(b, off, fmt).Underflow?
    decreases |b| - off
  {
    if off + fmt.header <= |b| {
      assert (pre + b)[|pre| + off..|pre| + off + fmt.width] == b[off..off + fmt.width];
    }
    if RecordOk(b, off, fmt) {
      var next := off + Align(RecordLen(b, off, fmt));
      if next <= |b| {
        WalkShifts(pre, b, next, fmt);
      }
    }
  }

  /** Alignment is exactly what safety needs: the region sizes over which no contents make a walk underflow
      are the multiples of four and those too small for any record. */
  lemma SafeSizesExactly(n: nat, fmt: Format)
    requires Proper(fmt)
    ensures (forall b: seq<byte> | |b| == n :: WalkFrom(b, 0, fmt).Stopped?) <==> n % 4 == 0 || n < fmt.header
  {
    if n % 4 == 0 {
      forall b: seq<byte> | |b| == n ensures WalkFrom(b, 0, fmt).Stopped? {
        AlignedWalkIsSafe(b, 0, fmt);
      }
    } else if n >= fmt.header {
      var b := UnalignedUnderflows(n, fmt);
      assert !WalkFrom(b, 0, fmt).Stopped?;
    }
  }

  lemma FormatsAreProper()
    ensures Proper(ATTR) && Proper(MESSAGE)
  {
    assert Pow256(2) == 0x1_0000 && Pow256(4) == 0x1_0000_0000;
  }

  // Regions built from records

  /** A record whose length field tells the truth, padded to the boundary. */
  ghost predicate IsRecord(r: seq<byte>, fmt: Format)
    requires fmt.width <= fmt.header
  {
    |r| >= fmt.header && fmt.header <= RecordLen(r, 0, fmt) && |r| == Align(RecordLen(r, 0, fmt))
  }

  /** Where each record starts when they are laid out one after another from base. */
  function Offsets(rs: seq<seq<byte>>, base: nat): (offs: seq<nat>)
    ensures |offs| == |rs|
  {
    if rs == [] then [] else [base] + Offsets(rs[1..], base + |rs[0]|)
  }

  lemma RecordAt(pre: seq<byte>, r: seq<byte>, post: seq<byte>, fmt: Format)
    requires fmt.width <= fmt.header && IsRecord(r, fmt)
    ensures RecordOk(pre + r + post, |pre|, fmt)
    ensures RecordLen(pre + r + post, |pre|, fmt) == RecordLen(r, 0, fmt)
    ensures (pre + r + post)[|pre|..|pre| + |r|] == r
  {
    var b := pre + r + post;
    assert b[|pre|..|pre| + fmt.width] == r[0..fmt.width];
  }

  /** Walking laid-out records visits every one of them, in order, and stops at the end. */
  lemma {:induction false} WalkVisitsAll(pre: seq<byte>, rs: seq<seq<byte>>, fmt: Format)
    requires Proper(fmt) && forall r | r in rs :: IsRecord(r, fmt)
    ensures WalkFrom(pre + Flatten(rs), |pre|, fmt)
         == Stopped(Offsets(rs, |pre|), |pre| + |Flatten(rs)|)
    decreases |rs|
  {
    var b := pre + Flatten(rs);
    if rs != [] {
      var r, post := rs[0], Flatten(rs[1..]);
      assert b == pre + r + post;
      RecordAt(pre, r, post, fmt);
      WalkVisitsAll(pre + r, rs[1..], fmt);
    }
  }

  /** The i-th laid-out record is found at the i-th offset. */
  lemma {:induction false} RecordAtOffset(pre: seq<byte>, rs: seq<seq<byte>>, i: nat)
    requires i < |rs|
    ensures var b, o := pre + Flatten(rs), Offsets(rs, |pre|)[i];
            |pre| <= o && o + |rs[i]| <= |b| && b[o..o + |rs[i]|] == rs[i]
    decreases |rs|
  {
    var b := pre + Flatten(rs);
    if i == 0 {
      assert b == pre + rs[0] + Flatten(rs[1..]);
    } else {
      assert b == (pre + rs[0]) + Flatten(rs[1..]);
      RecordAtOffset(pre + rs[0], rs[1..], i - 1);
    }
  }
}
