/** The CRC of internal/hdhomerun/packet.go: CRC-32 as in IEEE 802.3, least significant bit first. Its register is the
    mirror image of the one that MPEG-2 uses, so what is proved in Crc holds for it too. */
module EthernetCrc {
  import opened Bytes
  import opened Crc

  const REFLECTED: bv32 := 0xEDB8_8320

  /** One bit out at the low end. */
  function Clock(c: bv32): bv32 {
    if c & 1 != 0 then (c >> 1) ^ REFLECTED else c >> 1
  }

  function ClockN(c: bv32, n: nat): bv32
    decreases n
  {
    if n == 0 then c else Clock(ClockN(c, n - 1))
  }

  function TakeIn(c: bv32, b: byte): bv32 {
    ClockN(c ^ (b as bv32), 8)
  }

  function Register(c: bv32, data: seq<byte>): bv32
    decreases |data|
  {
    if data == [] then c else Register(TakeIn(c, data[0]), data[1..])
  }

  /** crc32.Checksum with the IEEE table. */
  function Checksum(data: seq<byte>): bv32 {
    Register(0xFFFF_FFFF, data) ^ 0xFFFF_FFFF
  }

  // ---- the mirror --------------------------------------------------------

  /** The 32 bits in reverse order. */
  function Mirror(c: bv32): bv32 {
    (((c >> 0) & 1) << 31) | (((c >> 1) & 1) << 30) | (((c >> 2) & 1) << 29) | (((c >> 3) & 1) << 28)
    | (((c >> 4) & 1) << 27) | (((c >> 5) & 1) << 26) | (((c >> 6) & 1) << 25) | (((c >> 7) & 1) << 24)
    | (((c >> 8) & 1) << 23) | (((c >> 9) & 1) << 22) | (((c >> 10) & 1) << 21) | (((c >> 11) & 1) << 20)
    | (((c >> 12) & 1) << 19) | (((c >> 13) & 1) << 18) | (((c >> 14) & 1) << 17) | (((c >> 15) & 1) << 16)
    | (((c >> 16) & 1) << 15) | (((c >> 17) & 1) << 14) | (((c >> 18) & 1) << 13) | (((c >> 19) & 1) << 12)
    | (((c >> 20) & 1) << 11) | (((c >> 21) & 1) << 10) | (((c >> 22) & 1) << 9) | (((c >> 23) & 1) << 8)
    | (((c >> 24) & 1) << 7) | (((c >> 25) & 1) << 6) | (((c >> 26) & 1) << 5) | (((c >> 27) & 1) << 4)
    | (((c >> 28) & 1) << 3) | (((c >> 29) & 1) << 2) | (((c >> 30) & 1) << 1) | (((c >> 31) & 1) << 0)
  }

  function MirrorByte(b: byte): byte {
    (Mirror(b as bv32) >> 24) as byte
  }

  function MirrorAll(data: seq<byte>): (m: seq<byte>)
    ensures |m| == |data| && forall i :: 0 <= i < |m| ==> m[i] == MirrorByte(data[i])
  {
    seq(|data|, i requires 0 <= i < |data| => MirrorByte(data[i]))
  }

  lemma MirrorTwice(c: bv32)
    ensures Mirror(Mirror(c)) == c
  {
  }

  lemma MirrorByteTwice(b: byte)
    ensures MirrorByte(MirrorByte(b)) == b
  {
  }

  lemma MirrorDown(c: bv32)
    ensures Mirror(c >> 1) == Up(Mirror(c))
    ensures c & 1 != 0 <==> TopBit(Mirror(c))
  {
  }

  lemma MirrorXor(c: bv32, d: bv32)
    ensures Mirror(c ^ d) == Add(Mirror(c), Mirror(d))
  {
  }

  lemma MirrorConstants()
    ensures Mirror(REFLECTED) == POLY && Mirror(0xFFFF_FFFF) == INIT
  {
  }

  lemma {:induction false} MirrorClock(c: bv32)
    ensures Mirror(Clock(c)) == Shift(Mirror(c))
  {
    hide Mirror, Add, Up, TopBit;
    MirrorDown(c);
    MirrorXor(c >> 1, REFLECTED);
    MirrorConstants();
  }

  lemma MirrorIn(c: bv32, b: byte)
    ensures Mirror(c ^ (b as bv32)) == Add(Mirror(c), At(MirrorByte(b), 0))
  {
  }

  lemma {:induction false} MirrorClockN(c: bv32, n: nat)
    ensures Mirror(ClockN(c, n)) == ShiftN(Mirror(c), n)
    decreases n
  {
    hide Mirror, Clock, Shift;
    if n > 0 {
      MirrorClockN(c, n - 1);
      MirrorClock(ClockN(c, n - 1));
    }
  }

  lemma {:induction false} MirrorTakeIn(c: bv32, b: byte)
    ensures Mirror(TakeIn(c, b)) == Feed(Mirror(c), MirrorByte(b))
  {
    hide Mirror, Clock, Shift, Add, At, MirrorByte, ClockN, ShiftN;
    MirrorIn(c, b);
    MirrorClockN(c ^ (b as bv32), 8);
  }

  lemma {:induction false} MirrorRegister(c: bv32, data: seq<byte>)
    ensures Mirror(Register(c, data)) == Run(Mirror(c), MirrorAll(data))
    decreases |data|
  {
    hide Mirror, Feed, TakeIn, MirrorByte;
    if data != [] {
      MirrorTakeIn(c, data[0]);
      MirrorRegister(TakeIn(c, data[0]), data[1..]);
      assert MirrorAll(data)[1..] == MirrorAll(data[1..]);
    }
  }

  /** The Ethernet CRC of a message is the inverted mirror image of the MPEG-2 CRC of the mirrored message. */
  lemma {:induction false} ChecksumMirrors(data: seq<byte>)
    ensures Mirror(Checksum(data)) == Add(Crc32(MirrorAll(data)), INIT)
    ensures Checksum(data) == Mirror(Add(Crc32(MirrorAll(data)), INIT))
  {
    hide Mirror, Register, Run, MirrorAll, Add;
    MirrorRegister(0xFFFF_FFFF, data);
    MirrorXor(Register(0xFFFF_FFFF, data), 0xFFFF_FFFF);
    MirrorTwice(Checksum(data));
    MirrorConstants();
  }

  /** Two messages of the same length that differ only within four consecutive bytes have different checksums. */
  lemma {:induction false} ChecksumDetectsBurst(m: seq<byte>, n: seq<byte>, i: nat)
    requires |m| == |n|
    requires forall k :: 0 <= k < |m| && !(i <= k < i + 4) ==> m[k] == n[k]
    ensures Checksum(m) == Checksum(n) <==> m == n
  {
    hide Mirror, Checksum, Crc32, Add, MirrorByte;
    if Checksum(m) == Checksum(n) {
      ChecksumMirrors(m);
      ChecksumMirrors(n);
      AddCancel(Crc32(MirrorAll(m)), Crc32(MirrorAll(n)), INIT);
      BurstDetected(MirrorAll(m), MirrorAll(n), i);
      forall k | 0 <= k < |m|
        ensures m[k] == n[k]
      {
        assert MirrorAll(m)[k] == MirrorAll(n)[k];
        MirrorByteTwice(m[k]);
        MirrorByteTwice(n[k]);
      }
    }
  }

  // ---- the check value ---------------------------------------------------

  lemma {:induction false} FeedNext(c: bv32, data: seq<byte>, k: nat, next: bv32)
    requires k < |data| && TakeIn(c, data[k]) == next
    ensures Register(c, data[k..]) == Register(next, data[k + 1..])
  {
    assert data[k..][1..] == data[k + 1..];
  }

  lemma {:induction false} FirstDigits()
    ensures Register(0xFFFF_FFFF, DIGITS[0..]) == Register(0x77B7_9C2D, DIGITS[3..])
  {
    hide Register;
    var d := DIGITS;
    FeedNext(0xFFFF_FFFF, d, 0, 0x7C23_1048) by { assert TakeIn(0xFFFF_FFFF, 0x31) == 0x7C23_1048; }
    FeedNext(0x7C23_1048, d, 1, 0xB0AC_BB32) by { assert TakeIn(0x7C23_1048, 0x32) == 0xB0AC_BB32; }
    FeedNext(0xB0AC_BB32, d, 2, 0x77B7_9C2D) by { assert TakeIn(0xB0AC_BB32, 0x33) == 0x77B7_9C2D; }
  }

  lemma {:induction false} NextDigits()
    ensures Register(0x77B7_9C2D, DIGITS[3..]) == Register(0xF68D_2C9E, DIGITS[6..])
  {
    hide Register;
    var d := DIGITS;
    FeedNext(0x77B7_9C2D, d, 3, 0x641C_1F5C) by { assert TakeIn(0x77B7_9C2D, 0x34) == 0x641C_1F5C; }
    FeedNext(0x641C_1F5C, d, 4, 0x340A_C5E3) by { assert TakeIn(0x641C_1F5C, 0x35) == 0x340A_C5E3; }
    FeedNext(0x340A_C5E3, d, 5, 0xF68D_2C9E) by { assert TakeIn(0x340A_C5E3, 0x36) == 0xF68D_2C9E; }
  }

  lemma {:induction false} LastDigits()
    ensures Register(0xF68D_2C9E, DIGITS[6..]) == Register(0x340B_C6D9, DIGITS[9..])
  {
    hide Register;
    var d := DIGITS;
    FeedNext(0xF68D_2C9E, d, 6, 0xAFFC_9660) by { assert TakeIn(0xF68D_2C9E, 0x37) == 0xAFFC_9660; }
    FeedNext(0xAFFC_9660, d, 7, 0x651F_2550) by { assert TakeIn(0xAFFC_9660, 0x38) == 0x651F_2550; }
    FeedNext(0x651F_2550, d, 8, 0x340B_C6D9) by { assert TakeIn(0x651F_2550, 0x39) == 0x340B_C6D9; }
  }

  /** The check value of the CRC of IEEE 802.3. */
  lemma {:induction false} CheckValue()
    ensures Checksum(DIGITS) == 0xCBF4_3926
  {
    FirstDigits();
    NextDigits();
    LastDigits();
    assert DIGITS[0..] == DIGITS && DIGITS[9..] == [];
  }
}
