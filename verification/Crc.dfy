/** The MPEG-2 section CRC-32 of internal/tuner/psi_keepalive.go and its error-detection theory. */
module Crc {
  import opened Bytes

  const POLY: bv32 := 0x04C1_1DB7
  const INIT: bv32 := 0xFFFF_FFFF

  /** Addition of polynomials over GF(2). */
  function Add(x: bv32, y: bv32): bv32 {
    x ^ y
  }

  /** Multiplication by x, dropping the top coefficient. */
  function Up(x: bv32): bv32 {
    x << 1
  }

  predicate TopBit(c: bv32) {
    c & 0x8000_0000 != 0
  }

  /** One clock of the CRC register (ISO/IEC 13818-1, Annex A), the input bit already added to its top. */
  function Shift(c: bv32): bv32 {
    if TopBit(c) then Add(Up(c), POLY) else Up(c)
  }

  function ShiftN(c: bv32, n: nat): bv32 {
    if n == 0 then c else Shift(ShiftN(c, n - 1))
  }

  /** A byte, k bytes below the top of the register. */
  function At(b: byte, k: nat): bv32
    requires k <= 3
  {
    if k == 0 then (b as bv32) << 24 else if k == 1 then (b as bv32) << 16
    else if k == 2 then (b as bv32) << 8 else b as bv32
  }

  /** Feeding one byte: add it to the top of the register, then eight clocks. */
  function Feed(c: bv32, b: byte): bv32 {
    ShiftN(Add(c, At(b, 0)), 8)
  }

  function Run(c: bv32, data: seq<byte>): bv32
    decreases |data|
  {
    if data == [] then c else Run(Feed(c, data[0]), data[1..])
  }

  function Crc32(data: seq<byte>): bv32 {
    Run(INIT, data)
  }

  /** The four bytes of a register, most significant first (psi_keepalive.go:75-78). */
  function BigEndian(c: bv32): (w: seq<byte>)
    ensures |w| == 4
  {
    [(c >> 24) as byte, ((c >> 16) & 0xFF) as byte, ((c >> 8) & 0xFF) as byte, (c & 0xFF) as byte]
  }

  // ---- the source's loop -------------------------------------------------

  /** The source's clock: it compares the two top bits and leaves the byte beside the register. */
  function SourceStep(c: bv32, t: bv32): bv32 {
    if TopBit(Add(c, t)) then Add(Up(c), POLY) else Up(c)
  }

  lemma {:induction false} SourceStepIsShift(c: bv32, t: bv32)
    ensures Shift(Add(c, t)) == Add(SourceStep(c, t), Up(t))
  {
    hide TopBit, Add, Up;
    AddShift(c, t);
    AddSwap(Up(c), Up(t), POLY);
  }

  lemma TopShifts(b: byte)
    ensures Up(At(b, 0)) == At(b << 1, 0)
  {
  }

  function ShiftOut(b: byte, n: nat): byte {
    if n == 0 then b else ShiftOut(b, n - 1) << 1
  }

  lemma {:induction false} ByteShiftsOut(b: byte)
    ensures ShiftOut(b, 8) == 0
  {
    assert ShiftOut(b, 1) == b << 1;
    assert ShiftOut(b, 2) == b << 2;
    assert ShiftOut(b, 3) == b << 3;
    assert ShiftOut(b, 4) == b << 4;
    assert ShiftOut(b, 5) == b << 5;
    assert ShiftOut(b, 6) == b << 6;
    assert ShiftOut(b, 7) == b << 7;
  }

  lemma AddZero(c: bv32)
    ensures Add(c, At(0, 0)) == c
  {
  }

  method MpegTsCrc32(data: seq<byte>) returns (crc: bv32)
    ensures crc == Crc32(data)
  {
    hide TopBit, Up, Shift, Add, At, ShiftOut;
    crc := INIT;
    for k := 0 to |data|
      invariant Run(crc, data[k..]) == Crc32(data)
    {
      var b := data[k];
      ghost var before := crc;
      assert data[k..][1..] == data[k + 1..];
      assert ShiftOut(b, 0) == b by { ShiftOutStart(b); }
      for i := 0 to 8
        invariant b == ShiftOut(data[k], i)
        invariant Add(crc, At(b, 0)) == ShiftN(Add(before, At(data[k], 0)), i)
      {
        SourceStepIsShift(crc, At(b, 0));
        TopShifts(b);
        ShiftOutStep(data[k], i);
        SourceTest(crc, b);
        if (crc ^ ((b as bv32) << 24)) & 0x8000_0000 != 0 {
          crc := (crc << 1) ^ POLY;
        } else {
          crc := crc << 1;
        }
        b := b << 1;
      }
      ByteShiftsOut(data[k]);
      AddZero(crc);
    }
  }

  lemma SourceTest(crc: bv32, b: byte)
    ensures TopBit(Add(crc, At(b, 0))) <==> (crc ^ ((b as bv32) << 24)) & 0x8000_0000 != 0
    ensures Add(Up(crc), POLY) == (crc << 1) ^ POLY && Up(crc) == crc << 1
  {
  }

  lemma ShiftOutStart(b: byte)
    ensures ShiftOut(b, 0) == b
  {
  }

  lemma ShiftOutStep(b: byte, i: nat)
    ensures ShiftOut(b, i + 1) == ShiftOut(b, i) << 1
  {
  }

  // ---- the register is linear and invertible -----------------------------

  lemma AddAssoc(x: bv32, y: bv32, z: bv32)
    ensures Add(Add(x, y), z) == Add(x, Add(y, z))
  {
  }

  lemma AddComm(x: bv32, y: bv32)
    ensures Add(x, y) == Add(y, x)
  {
  }

  lemma {:induction false} AddSelf(x: bv32, y: bv32)
    ensures Add(x, y) == 0 <==> x == y
  {
    hide Add;
    AddAssoc(x, y, y);
    AddInverse(x);
    AddInverse(y);
    AddZeroRight(x);
    AddComm(0, y);
    AddZeroRight(y);
  }

  lemma AddInverse(x: bv32)
    ensures Add(x, x) == 0
  {
  }

  lemma {:induction false} AddSwap(x: bv32, y: bv32, z: bv32)
    ensures Add(Add(x, y), z) == Add(Add(x, z), y)
  {
    hide Add;
    AddAssoc(x, y, z);
    AddAssoc(x, z, y);
    AddComm(y, z);
  }

  lemma AddShift(x: bv32, y: bv32)
    ensures Up(Add(x, y)) == Add(Up(x), Up(y))
  {
  }

  lemma TopBitOfAdd(x: bv32, y: bv32)
    ensures TopBit(Add(x, y)) <==> TopBit(x) != TopBit(y)
  {
  }

  lemma {:induction false} ShiftLinear(x: bv32, y: bv32)
    ensures Shift(Add(x, y)) == Add(Shift(x), Shift(y))
  {
    hide TopBit, Add, Up;
    TopBitOfAdd(x, y);
    AddShift(x, y);
    var u, v := Up(x), Up(y);
    AddSwap(u, v, POLY);
    AddAssoc(u, v, POLY);
    AddAssoc(Add(u, POLY), v, POLY);
    AddAssoc(u, POLY, POLY);
    AddSwap(Add(u, POLY), v, POLY);
    AddSelf(POLY, POLY);
    AddZeroRight(u);
  }

  lemma AddZeroRight(x: bv32)
    ensures Add(x, 0) == x
  {
  }

  lemma {:induction false} ShiftNLinear(x: bv32, y: bv32, n: nat)
    ensures ShiftN(Add(x, y), n) == Add(ShiftN(x, n), ShiftN(y, n))
  {
    hide Shift, Add;
    if n > 0 {
      ShiftNLinear(x, y, n - 1);
      ShiftLinear(ShiftN(x, n - 1), ShiftN(y, n - 1));
    }
  }

  /** POLY has its low bit set, so no non-zero register is clocked to zero. */
  lemma {:induction false} ShiftKernel(z: bv32)
    requires Shift(z) == 0
    ensures z == 0
  {
    hide TopBit, Add, Up;
    assert Up(z) & 1 == 0 && (Up(z) == 0 && !TopBit(z) ==> z == 0) by {
      UpKernel(z);
    }
    AddSelf(Up(z), POLY);
  }

  lemma UpKernel(z: bv32)
    ensures Up(z) & 1 == 0
    ensures Up(z) == 0 && !TopBit(z) ==> z == 0
  {
  }

  lemma {:induction false} ShiftNInjective(x: bv32, y: bv32, n: nat)
    requires ShiftN(x, n) == ShiftN(y, n)
    ensures x == y
  {
    hide Shift, Add;
    if n > 0 {
      var x', y' := ShiftN(x, n - 1), ShiftN(y, n - 1);
      ShiftLinear(x', y');
      AddSelf(Shift(x'), Shift(y'));
      ShiftKernel(Add(x', y'));
      AddSelf(x', y');
      ShiftNInjective(x, y, n - 1);
    }
  }

  lemma {:induction false} ShiftNSum(x: bv32, m: nat, n: nat)
    ensures ShiftN(ShiftN(x, m), n) == ShiftN(x, m + n)
  {
    hide Shift;
    if n > 0 {
      ShiftNSum(x, m, n - 1);
    }
  }

  lemma {:induction false} ShiftNZero(n: nat)
    ensures ShiftN(0, n) == 0
  {
    if n > 0 {
      ShiftNZero(n - 1);
    }
  }

  lemma {:induction false} FeedInjective(c: bv32, d: bv32, b: byte)
    requires Feed(c, b) == Feed(d, b)
    ensures c == d
  {
    hide Shift, ShiftN, Add, At;
    var t := At(b, 0);
    ShiftNInjective(Add(c, t), Add(d, t), 8);
    AddCancel(c, d, t);
  }

  lemma {:induction false} AddCancel(x: bv32, y: bv32, z: bv32)
    requires Add(x, z) == Add(y, z)
    ensures x == y
  {
    assert Add(Add(x, z), z) == x && Add(Add(y, z), z) == y;
  }

  /** Equal data keeps different registers different. */
  lemma {:induction false} RunInjective(c: bv32, d: bv32, data: seq<byte>)
    ensures Run(c, data) == Run(d, data) <==> c == d
    decreases |data|
  {
    hide Feed;
    if data != [] {
      RunInjective(Feed(c, data[0]), Feed(d, data[0]), data[1..]);
      if Feed(c, data[0]) == Feed(d, data[0]) {
        FeedInjective(c, d, data[0]);
      }
    }
  }

  lemma {:induction false} RunConcat(c: bv32, a: seq<byte>, b: seq<byte>)
    ensures Run(c, a + b) == Run(Run(c, a), b)
    decreases |a|
  {
    hide Feed;
    if a == [] {
      assert a + b == b;
    } else {
      assert (a + b)[1..] == a[1..] + b;
      RunConcat(Feed(c, a[0]), a[1..], b);
    }
  }

  // ---- four bytes act as one 32-bit word ---------------------------------

  /** Eight clocks move a value below bit 24 up by one byte: no top bit is ever set. */
  lemma {:induction false} EightClocks(y: bv32)
    requires y & 0xFF00_0000 == 0
    ensures ShiftN(y, 8) == y << 8
  {
    hide TopBit, Add, Up;
    ClearWhileRising(y);
    var y2 := Up(Up(y));
    var y4 := Up(Up(y2));
    var y6 := Up(Up(y4));
    assert ShiftN(y, 1) == Up(y);
    assert ShiftN(y, 2) == y2;
    assert ShiftN(y, 3) == Up(y2);
    assert ShiftN(y, 4) == y4;
    assert ShiftN(y, 5) == Up(y4);
    assert ShiftN(y, 6) == y6;
    assert ShiftN(y, 7) == Up(y6);
  }

  lemma ClearWhileRising(y: bv32)
    requires y & 0xFF00_0000 == 0
    ensures !TopBit(y) && !TopBit(Up(y)) && !TopBit(Up(Up(y))) && !TopBit(Up(Up(Up(y))))
    ensures !TopBit(Up(Up(Up(Up(y))))) && !TopBit(Up(Up(Up(Up(Up(y))))))
    ensures !TopBit(Up(Up(Up(Up(Up(Up(y))))))) && !TopBit(Up(Up(Up(Up(Up(Up(Up(y))))))))
    ensures Up(Up(Up(Up(Up(Up(Up(Up(y)))))))) == y << 8
  {
  }

  lemma LowerByte(b: byte, k: nat)
    requires 0 < k <= 3
    ensures At(b, k) & 0xFF00_0000 == 0 && At(b, k) << 8 == At(b, k - 1)
  {
  }

  lemma {:induction false} LowMovesUp(b: byte, k: nat)
    requires k <= 3
    ensures ShiftN(At(b, k), 8 * k) == At(b, 0)
  {
    hide Shift, At;
    if k > 0 {
      LowerByte(b, k);
      EightClocks(At(b, k));
      ShiftNSum(At(b, k), 8, 8 * (k - 1));
      LowMovesUp(b, k - 1);
    }
  }

  /** A byte fed after k bytes could have been added, k bytes lower, before them. */
  lemma {:induction false} FeedEarly(x: bv32, b: byte, k: nat)
    requires k <= 3
    ensures Feed(ShiftN(x, 8 * k), b) == ShiftN(Add(x, At(b, k)), 8 * (k + 1))
  {
    hide Shift, ShiftN, Add, At;
    ShiftNLinear(x, At(b, k), 8 * k);
    LowMovesUp(b, k);
    ShiftNSum(Add(x, At(b, k)), 8 * k, 8);
  }

  function Word(w: seq<byte>): bv32
    requires |w| == 4
  {
    Add(Add(Add(At(w[0], 0), At(w[1], 1)), At(w[2], 2)), At(w[3], 3))
  }

  lemma {:induction false} WordReadBack(w: seq<byte>)
    requires |w| == 4
    ensures BigEndian(Word(w)) == w
  {
    var b0, b1, b2, b3 := w[0], w[1], w[2], w[3];
    assert w == [b0, b1, b2, b3];
  }

  lemma WordOfRegister(c: bv32)
    ensures Word(BigEndian(c)) == c
  {
  }

  lemma {:induction false} FourBytes(c: bv32, w: seq<byte>)
    requires |w| == 4
    ensures Run(c, w) == ShiftN(Add(c, Word(w)), 32)
  {
    hide Shift, ShiftN, Feed, At, Add;
    var x0 := Add(c, At(w[0], 0));
    var x1 := Add(x0, At(w[1], 1));
    var x2 := Add(x1, At(w[2], 2));
    AddAssoc(c, At(w[0], 0), At(w[1], 1));
    AddAssoc(c, Add(At(w[0], 0), At(w[1], 1)), At(w[2], 2));
    AddAssoc(c, Add(Add(At(w[0], 0), At(w[1], 1)), At(w[2], 2)), At(w[3], 3));
    ShiftNStart(c);
    FeedEarly(c, w[0], 0);
    FeedEarly(x0, w[1], 1);
    FeedEarly(x1, w[2], 2);
    FeedEarly(x2, w[3], 3);
    var c1 := Feed(c, w[0]);
    var c2 := Feed(c1, w[1]);
    var c3 := Feed(c2, w[2]);
    assert w[1..][1..] == w[2..] && w[2..][1..] == w[3..] && w[3..][1..] == [];
    assert Run(c, w) == Run(c1, w[1..]) == Run(c2, w[2..]) == Run(c3, w[3..]) == Feed(c3, w[3]);
  }

  lemma ShiftNStart(c: bv32)
    ensures ShiftN(c, 0) == c
  {
  }

  // ---- main results ------------------------------------------------------

  /** From one register, different windows of at most four bytes leave different registers. */
  lemma {:induction false} WindowInjective(c: bv32, v: seq<byte>, w: seq<byte>)
    requires |v| == |w| <= 4
    ensures Run(c, v) == Run(c, w) <==> v == w
  {
    hide Shift, ShiftN, Feed, At, Add, Run, Word, BigEndian;
    if Run(c, v) == Run(c, w) {
      var pad: seq<byte> := seq(4 - |v|, _ => 0);
      RunConcat(c, v, pad);
      RunConcat(c, w, pad);
      FourBytes(c, v + pad);
      FourBytes(c, w + pad);
      var x, y := Word(v + pad), Word(w + pad);
      ShiftNInjective(Add(c, x), Add(c, y), 32);
      AddComm(c, x);
      AddComm(c, y);
      AddCancel(x, y, c);
      WordReadBack(v + pad);
      WordReadBack(w + pad);
      assert v == (v + pad)[..|v|] && w == (w + pad)[..|v|];
    }
  }

  /** A message followed by four bytes checks to zero exactly when they are its big-endian CRC. */
  lemma {:induction false} SelfCheck(m: seq<byte>, w: seq<byte>)
    requires |w| == 4
    ensures Crc32(m + w) == 0 <==> w == BigEndian(Crc32(m))
  {
    hide Shift, ShiftN, Feed, At, Add, Run, Word, BigEndian;
    var c := Crc32(m);
    RunConcat(INIT, m, w);
    RunConcat(INIT, m, BigEndian(c));
    FourBytes(c, BigEndian(c));
    WordOfRegister(c);
    AddSelf(c, c);
    ShiftNZero(32);
    WindowInjective(c, w, BigEndian(c));
  }

  /** Every corruption confined to four consecutive bytes changes the CRC. */
  lemma {:induction false} BurstDetected(m: seq<byte>, n: seq<byte>, i: nat)
    requires |m| == |n|
    requires forall k :: 0 <= k < |m| && !(i <= k < i + 4) ==> m[k] == n[k]
    ensures Crc32(m) == Crc32(n) <==> m == n
  {
    hide Run;
    var lo := if i < |m| then i else |m|;
    var hi := if i + 4 < |m| then i + 4 else |m|;
    assert m[..lo] == n[..lo] && m[hi..] == n[hi..];
    assert m == m[..lo] + (m[lo..hi] + m[hi..]) && n == n[..lo] + (n[lo..hi] + n[hi..]);
    var c := Crc32(m[..lo]);
    RunConcat(INIT, m[..lo], m[lo..hi] + m[hi..]);
    RunConcat(INIT, n[..lo], n[lo..hi] + n[hi..]);
    RunConcat(c, m[lo..hi], m[hi..]);
    RunConcat(c, n[lo..hi], n[hi..]);
    RunInjective(Run(c, m[lo..hi]), Run(c, n[lo..hi]), m[hi..]);
    WindowInjective(c, m[lo..hi], n[lo..hi]);
  }

  // ---- the check value ---------------------------------------------------

  const DIGITS: seq<byte> := [0x31, 0x32, 0x33, 0x34, 0x35, 0x36, 0x37, 0x38, 0x39]

  lemma {:induction false} FeedNext(c: bv32, data: seq<byte>, k: nat, next: bv32)
    requires k < |data| && Feed(c, data[k]) == next
    ensures Run(c, data[k..]) == Run(next, data[k + 1..])
  {
    assert data[k..][1..] == data[k + 1..];
  }

  lemma {:induction false} FirstDigits()
    ensures Run(0xFFFF_FFFF, DIGITS[0..]) == Run(0xD952_F164, DIGITS[3..])
  {
    hide Run;
    var d := DIGITS;
    FeedNext(0xFFFF_FFFF, d, 0, 0x9EFB_CF93) by { assert Feed(0xFFFF_FFFF, 0x31) == 0x9EFB_CF93; }
    FeedNext(0x9EFB_CF93, d, 1, 0x3FEC_5E6A) by { assert Feed(0x9EFB_CF93, 0x32) == 0x3FEC_5E6A; }
    FeedNext(0x3FEC_5E6A, d, 2, 0xD952_F164) by { assert Feed(0x3FEC_5E6A, 0x33) == 0xD952_F164; }
  }

  lemma {:induction false} NextDigits()
    ensures Run(0xD952_F164, DIGITS[3..]) == Run(0xD8F0_6C8F, DIGITS[6..])
  {
    hide Run;
    var d := DIGITS;
    FeedNext(0xD952_F164, d, 3, 0xA695_C4AA) by { assert Feed(0xD952_F164, 0x34) == 0xA695_C4AA; }
    FeedNext(0xA695_C4AA, d, 4, 0xBD9A_B747) by { assert Feed(0xA695_C4AA, 0x35) == 0xBD9A_B747; }
    FeedNext(0xBD9A_B747, d, 5, 0xD8F0_6C8F) by { assert Feed(0xBD9A_B747, 0x36) == 0xD8F0_6C8F; }
  }

  lemma {:induction false} LastDigits()
    ensures Run(0xD8F0_6C8F, DIGITS[6..]) == Run(0x0376_E6E7, DIGITS[9..])
  {
    hide Run;
    var d := DIGITS;
    FeedNext(0xD8F0_6C8F, d, 6, 0x0D8A_14C4) by { assert Feed(0xD8F0_6C8F, 0x37) == 0x0D8A_14C4; }
    FeedNext(0x0D8A_14C4, d, 7, 0x49E3_C2FB) by { assert Feed(0x0D8A_14C4, 0x38) == 0x49E3_C2FB; }
    FeedNext(0x49E3_C2FB, d, 8, 0x0376_E6E7) by { assert Feed(0x49E3_C2FB, 0x39) == 0x0376_E6E7; }
  }

  /** The check value of CRC-32/MPEG-2, the checksum of the digits 1 to 9: the polynomial, the start and the order of
      the bits are the right ones. */
  lemma {:induction false} CheckValue()
    ensures Crc32(DIGITS) == 0x0376_E6E7
  {
    FirstDigits();
    NextDigits();
    LastDigits();
    assert DIGITS[0..] == DIGITS && DIGITS[9..] == [];
  }
}
