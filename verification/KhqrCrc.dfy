/** CRC-16/CCITT-FALSE as the payload builder computes it, against the bit-serial register of
    section 4.7.3 of the EMVCo merchant-presented QR specification, and the errors it detects.

    An integer kept within sixteen bits is its sixteen bits, most significant first; so is a byte
    with its eight. Shifting left and masking drops the first bit and appends a zero. */
module KhqrCrc {

  type Word = w: seq<bool> | |w| == 16 witness ZERO
  type Byte = b: seq<bool> | |b| == 8 witness seq(8, _ => false)

  const ZERO: seq<bool> := seq(16, _ => false)

  /** 0x1021. */
  const POLY: seq<bool> := [false, false, false, true, false, false, false, false,
                            false, false, true, false, false, false, false, true]

  function Xor(p: seq<bool>, q: seq<bool>): (d: seq<bool>)
    requires |p| == |q|
    ensures |d| == |p| && forall i :: 0 <= i < |p| ==> d[i] == (p[i] != q[i])
  {
    seq(|p|, i requires 0 <= i < |p| => p[i] != q[i])
  }

  function Zeros(n: nat): (z: seq<bool>)
    ensures |z| == n && forall i :: 0 <= i < n ==> !z[i]
  {
    seq(n, _ => false)
  }

  /** `(crc << 1) & 0xFFFF`. */
  function MovedUp(r: Word): Word { r[1..] + [false] }

  /** One turn of the inner loop. */
  function Shift(crc: Word): Word {
    if crc[0] then Xor(MovedUp(crc), POLY) else MovedUp(crc)
  }

  function Shifts(crc: Word, n: nat): Word
    decreases n
  {
    if n == 0 then crc else Shifts(Shift(crc), n - 1)
  }

  /** One byte: folded into the high half, then eight turns. */
  function Feed(crc: Word, b: Byte): Word { Shifts(Xor(crc, b + Zeros(8)), 8) }

  function Crc(crc: Word, data: seq<Byte>): Word
    decreases |data|
  {
    if data == [] then crc else Crc(Feed(crc, data[0]), data[1..])
  }

  /** The inner loop of `crc16_ccitt_false`. */
  method Turns(start: Word, n: nat) returns (crc: Word)
    ensures crc == Shifts(start, n)
  {
    crc := start;
    for k := 0 to n
      invariant Shifts(crc, n - k) == Shifts(start, n)
    {
      if crc[0] { crc := Xor(MovedUp(crc), POLY); } else { crc := MovedUp(crc); }
    }
  }

  /** `crc16_ccitt_false`. */
  method Crc16(data: seq<Byte>, init: Word) returns (crc: Word)
    ensures crc == Crc(init, data)
  {
    crc := init;
    assert data[0..] == data;
    for i := 0 to |data|
      invariant Crc(crc, data[i..]) == Crc(init, data)
    {
      crc := Xor(crc, data[i] + Zeros(8));
      crc := Turns(crc, 8);
      assert data[i..][1..] == data[i + 1..];
    }
  }

  // ---------------------------------------------------------------------------
  // The bit-serial reference
  // ---------------------------------------------------------------------------

  /** The register fed one message bit: everything moves up one place, and the generator is added
      when the bit leaving differs from the bit arriving. */
  function FeedBit(r: Word, bit: bool): Word {
    if r[0] != bit then Xor(MovedUp(r), POLY) else MovedUp(r)
  }

  function FeedBits(r: Word, bits: seq<bool>): Word
    decreases |bits|
  {
    if bits == [] then r else FeedBits(FeedBit(r, bits[0]), bits[1..])
  }

  /** A message as bits, most significant first. */
  function Bits(data: seq<Byte>): (bits: seq<bool>)
    ensures |bits| == 8 * |data|
  {
    if data == [] then [] else data[0] + Bits(data[1..])
  }

  /** Bits added into the top of a register. */
  function Fold(r: Word, bits: seq<bool>): Word
    requires |bits| <= 16
  {
    Xor(r, bits + Zeros(16 - |bits|))
  }

  lemma FoldStep(r: Word, bits: seq<bool>)
    requires 0 < |bits| <= 16
    ensures Shift(Fold(r, bits)) == Fold(FeedBit(r, bits[0]), bits[1..])
  {
    var f := Fold(r, bits);
    var padded := bits + Zeros(16 - |bits|);
    assert f[0] == (r[0] != bits[0]);
    assert bits[1..] + Zeros(17 - |bits|) == padded[1..] + [false];
    var left, right := Shift(f), Fold(FeedBit(r, bits[0]), bits[1..]);
    forall i | 0 <= i < 16 ensures left[i] == right[i] {
      if i < 15 { assert f[1..][i] == (r[i + 1] != padded[i + 1]); }
    }
  }

  /** Bits may be added into the top of the register first and shifted through afterwards. */
  lemma {:induction false} FoldFirst(r: Word, bits: seq<bool>)
    requires |bits| <= 16
    ensures FeedBits(r, bits) == Shifts(Fold(r, bits), |bits|)
    decreases |bits|
  {
    if bits == [] {
      assert Fold(r, bits) == r;
    } else {
      FoldStep(r, bits);
      FoldFirst(FeedBit(r, bits[0]), bits[1..]);
    }
  }

  lemma {:induction false} FeedBitsConcat(r: Word, a: seq<bool>, b: seq<bool>)
    ensures FeedBits(r, a + b) == FeedBits(FeedBits(r, a), b)
    decreases |a|
  {
    if a == [] {
      assert a + b == b;
    } else {
      assert (a + b)[1..] == a[1..] + b;
      FeedBitsConcat(FeedBit(r, a[0]), a[1..], b);
    }
  }

  /** The byte-at-a-time loop computes the bit-serial register. */
  lemma {:induction false} CrcIsBitSerial(c: Word, data: seq<Byte>)
    ensures Crc(c, data) == FeedBits(c, Bits(data))
    decreases |data|
  {
    if data != [] {
      FoldFirst(c, data[0]);
      CrcIsBitSerial(Feed(c, data[0]), data[1..]);
      FeedBitsConcat(c, data[0], Bits(data[1..]));
    }
  }

  // ---------------------------------------------------------------------------
  // The polynomial remainder
  // ---------------------------------------------------------------------------

  /** The generator x^16 + x^12 + x^5 + 1, as the places below its leading term where it has a one. */
  predicate Tap(i: int) { i == 0 || i == 4 || i == 11 || i == 16 }

  /** One turn of long division: the leading place goes, with the generator taken off if it held a one. */
  function Divided(s: seq<bool>): (t: seq<bool>)
    requires |s| > 16
    ensures |t| == |s| - 1
  {
    seq(|s| - 1, i requires 0 <= i < |s| - 1 => s[i + 1] != (s[0] && Tap(i + 1)))
  }

  /** The remainder of long division by the generator. */
  function Remainder(s: seq<bool>): (r: seq<bool>)
    requires |s| >= 16
    ensures |r| == 16
    decreases |s|
  {
    if |s| == 16 then s else Remainder(Divided(s))
  }

  /** The message moved up sixteen places, with the initial register added into its first sixteen. */
  function Dividend(r: seq<bool>, bits: seq<bool>): (s: seq<bool>)
    requires |r| == 16
    ensures |s| == |bits| + 16
  {
    Xor(bits + Zeros(16), r + Zeros(|bits|))
  }

  lemma DividedStep(r: Word, bits: seq<bool>)
    requires bits != []
    ensures Divided(Dividend(r, bits)) == Dividend(FeedBit(r, bits[0]), bits[1..])
  {
    var s, next := Dividend(r, bits), FeedBit(r, bits[0]);
    var left, right := Divided(s), Dividend(next, bits[1..]);
    assert s[0] == (bits[0] != r[0]);
    forall i | 0 <= i < |left| ensures left[i] == right[i] {
      assert (bits + Zeros(16))[i + 1] == (bits[1..] + Zeros(16))[i];
      if i < 15 {
        assert r[1..][i] == r[i + 1];
        assert POLY[i] == Tap(i + 1);
      }
    }
    SameBits(left, right);
  }

  /** The register after some bits is the remainder of their dividend. */
  lemma {:induction false} RegisterIsRemainder(r: Word, bits: seq<bool>)
    ensures FeedBits(r, bits) == Remainder(Dividend(r, bits))
    decreases |bits|
  {
    if bits == [] {
      SameBits(Dividend(r, bits), r);
    } else {
      DividedStep(r, bits);
      RegisterIsRemainder(FeedBit(r, bits[0]), bits[1..]);
    }
  }

  /** The CRC is the remainder, on division by x^16 + x^12 + x^5 + 1, of the message moved up sixteen
      places with the initial value added into its first sixteen. */
  lemma CrcIsRemainder(init: Word, data: seq<Byte>)
    ensures Crc(init, data) == Remainder(Dividend(init, Bits(data)))
  {
    CrcIsBitSerial(init, data);
    RegisterIsRemainder(init, Bits(data));
  }

  // ---------------------------------------------------------------------------
  // Error detection
  // ---------------------------------------------------------------------------

  lemma DifferenceStep(r: Word, s: Word, p: bool, q: bool)
    ensures Xor(FeedBit(r, p), FeedBit(s, q)) == FeedBit(Xor(r, s), p != q)
  {
    var d := Xor(r, s);
    assert MovedUp(d) == Xor(MovedUp(r), MovedUp(s));
  }

  /** The difference of two registers evolves as a register fed the differences of the bits. */
  lemma {:induction false} DifferenceRuns(r: Word, s: Word, p: seq<bool>, q: seq<bool>)
    requires |p| == |q|
    ensures Xor(FeedBits(r, p), FeedBits(s, q)) == FeedBits(Xor(r, s), Xor(p, q))
    decreases |p|
  {
    if p != [] {
      assert Xor(p, q)[1..] == Xor(p[1..], q[1..]);
      DifferenceStep(r, s, p[0], q[0]);
      DifferenceRuns(FeedBit(r, p[0]), FeedBit(s, q[0]), p[1..], q[1..]);
    }
  }

  /** A register that at most sixteen bits clear held exactly those bits. */
  lemma {:induction false} ClearedMeansEqual(r: Word, bits: seq<bool>)
    requires |bits| <= 16 && FeedBits(r, bits) == ZERO
    ensures r == bits + Zeros(16 - |bits|)
    decreases |bits|
  {
    if bits != [] {
      ClearedMeansEqual(FeedBit(r, bits[0]), bits[1..]);
      Unfeed(r, bits[0], bits[1..] + Zeros(17 - |bits|));
      PaddedShift(bits);
    } else {
      SameBits(ZERO, Zeros(16));
    }
  }

  lemma SameBits(p: seq<bool>, q: seq<bool>)
    requires |p| == |q| && forall i :: 0 <= i < |p| ==> p[i] == q[i]
    ensures p == q
  {}

  /** Padding the tail of some bits and moving it down behind their first one pads the bits. */
  lemma PaddedShift(bits: seq<bool>)
    requires 0 < |bits| <= 16
    ensures [bits[0]] + (bits[1..] + Zeros(17 - |bits|))[..15] == bits + Zeros(16 - |bits|)
  {
    var left, right := [bits[0]] + (bits[1..] + Zeros(17 - |bits|))[..15], bits + Zeros(16 - |bits|);
    forall i | 0 <= i < 16 ensures left[i] == right[i] {
      if 0 < i < |bits| { assert left[i] == bits[1..][i - 1]; }
    }
    SameBits(left, right);
  }

  /** A step that leaves the last place clear added no generator, so it can be read backwards. */
  lemma Unfeed(r: Word, bit: bool, next: Word)
    requires FeedBit(r, bit) == next && !next[15]
    ensures r == [bit] + next[..15]
  {
    assert POLY[15] && !MovedUp(r)[15];
    assert r[0] == bit && next == MovedUp(r);
    var back := [bit] + next[..15];
    forall i | 0 <= i < 16 ensures r[i] == back[i] {
      if i > 0 { assert back[i] == next[i - 1] == r[1..][i - 1]; }
    }
    SameBits(r, back);
  }

  /** Without arriving bits, a register is cleared only if it was clear. */
  lemma {:induction false} QuietRun(r: Word, bits: seq<bool>)
    requires forall i :: 0 <= i < |bits| ==> !bits[i]
    ensures FeedBits(r, bits) == ZERO <==> r == ZERO
    decreases |bits|
  {
    if bits != [] {
      QuietStep(r);
      QuietRun(FeedBit(r, false), bits[1..]);
    }
  }

  lemma QuietStep(r: Word)
    ensures FeedBit(r, false) == ZERO <==> r == ZERO
  {
    if FeedBit(r, false) == ZERO {
      Unfeed(r, false, ZERO);
      SameBits([false] + ZERO[..15], ZERO);
    }
    SameBits(MovedUp(ZERO), ZERO);
  }

  lemma BurstNotCleared(burst: seq<bool>, i: nat)
    requires |burst| <= 16 && i < |burst| && burst[i]
    ensures FeedBits(ZERO, burst) != ZERO
  {
    assert ZERO[i] != (burst + Zeros(16 - |burst|))[i];
    if FeedBits(ZERO, burst) == ZERO { ClearedMeansEqual(ZERO, burst); }
  }

  lemma BurstThenZeros(burst: seq<bool>, after: seq<bool>, i: nat)
    requires forall j :: 0 <= j < |after| ==> !after[j]
    requires |burst| <= 16 && i < |burst| && burst[i]
    ensures FeedBits(ZERO, burst + after) != ZERO
  {
    FeedBitsConcat(ZERO, burst, after);
    QuietRun(FeedBits(ZERO, burst), after);
    BurstNotCleared(burst, i);
  }

  lemma {:induction false} BurstStays(d: seq<bool>, k: nat, i: nat)
    requires i < |d| && d[i]
    requires forall j :: 0 <= j < |d| && d[j] ==> k <= j < k + 16
    ensures FeedBits(ZERO, d) != ZERO
    decreases k
  {
    if k == 0 {
      var hi := if 16 < |d| then 16 else |d|;
      assert d[..hi] + d[hi..] == d;
      BurstThenZeros(d[..hi], d[hi..], i);
    } else {
      QuietStep(ZERO);
      BurstStays(d[1..], k - 1, i - 1);
    }
  }

  /** Every burst error of at most sixteen bits, anywhere in any message, changes the CRC. */
  lemma BurstDetected(init: Word, m: seq<Byte>, n: seq<Byte>, k: nat)
    requires |m| == |n| && m != n
    requires forall i :: 0 <= i < 8 * |m| && Bits(m)[i] != Bits(n)[i] ==> k <= i < k + 16
    ensures Crc(init, m) != Crc(init, n)
  {
    CrcIsBitSerial(init, m);
    CrcIsBitSerial(init, n);
    DifferenceRuns(init, init, Bits(m), Bits(n));
    var i := FirstDifference(m, n);
    NoDifference(init);
    BurstStays(Xor(Bits(m), Bits(n)), k, i);
    if Crc(init, m) == Crc(init, n) { NoDifference(Crc(init, m)); }
  }

  lemma NoDifference(r: Word)
    ensures Xor(r, r) == ZERO
  {}

  lemma {:induction false} FirstDifference(m: seq<Byte>, n: seq<Byte>) returns (i: nat)
    requires |m| == |n| && m != n
    ensures i < 8 * |m| && Bits(m)[i] != Bits(n)[i]
    decreases |m|
  {
    if m[0] != n[0] {
      i :| 0 <= i < 8 && m[0][i] != n[0][i];
    } else {
      var j := FirstDifference(m[1..], n[1..]);
      i := j + 8;
    }
  }

  lemma {:induction false} BitsAt(m: seq<Byte>, i: nat)
    requires i < 8 * |m|
    ensures Bits(m)[i] == m[i / 8][i % 8]
    decreases |m|
  {
    if i >= 8 {
      BitsAt(m[1..], i - 8);
      assert (i - 8) / 8 == i / 8 - 1;
    }
  }

  /** Changing any bits of one byte, or of two adjacent bytes, changes the CRC. */
  lemma TwoByteErrorDetected(init: Word, m: seq<Byte>, n: seq<Byte>, at: nat)
    requires |m| == |n| && m != n
    requires forall j :: 0 <= j < |m| && j != at && j != at + 1 ==> m[j] == n[j]
    ensures Crc(init, m) != Crc(init, n)
  {
    forall i: nat | i < 8 * |m| && Bits(m)[i] != Bits(n)[i] ensures 8 * at <= i < 8 * at + 16 {
      BitsAt(m, i);
      BitsAt(n, i);
      assert m[i / 8] != n[i / 8];
    }
    BurstDetected(init, m, n, 8 * at);
  }
}
