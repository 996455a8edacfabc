/** The LocalTalk frame check sequence: CRC-16/X-25, computed a byte at a time on a
    reflected register, and what it detects. */
module Fcs {
  type Octets = seq<bv8>

  const POLYNOMIAL: bv16 := 0x8408
  const INITIAL: bv16 := 0xffff
  const RESIDUE: bv16 := 0xf0b8

  function Xor(a: bv16, b: bv16): bv16 { a ^ b }

  function Half(c: bv16): bv16 { c >> 1 }

  /** What a one leaving the register feeds back. */
  function Feedback(c: bv16): bv16 { if c & 1 != 0 then POLYNOMIAL else 0 }

  function Shift(crc: bv16): bv16 { Xor(Half(crc), Feedback(crc)) }

  function Shifts(crc: bv16, n: nat): bv16 {
    if n == 0 then crc else Shift(Shifts(crc, n - 1))
  }

  /** The register after one more byte. */
  function Update(crc: bv16, byte: bv8): bv16 { Shifts(Xor(crc, byte as bv16), 8) }

  method UpdateLoop(register: bv16, byte: bv8) returns (crc: bv16)
    ensures crc == Update(register, byte)
  {
    crc := register ^ (byte as bv16);
    for i := 0 to 8
      invariant crc == Shifts(Xor(register, byte as bv16), i)
    {
      FeedbackIsOptional(crc);
      crc := if crc & 1 != 0 then (crc >> 1) ^ POLYNOMIAL else crc >> 1;
    }
  }

  lemma FeedbackIsOptional(crc: bv16)
    ensures Shift(crc) == if crc & 1 != 0 then (crc >> 1) ^ POLYNOMIAL else crc >> 1
  {
    hide Xor, Half;
    HalfMeaning(crc);
    XorMeaning(crc >> 1, POLYNOMIAL);
    XorSelf(crc >> 1);
  }

  lemma HalfMeaning(c: bv16)
    ensures Half(c) == c >> 1
  {
  }

  lemma XorMeaning(a: bv16, b: bv16)
    ensures Xor(a, b) == a ^ b
  {
  }

  lemma XorSelf(a: bv16)
    ensures Xor(a, a) == 0 && Xor(a, 0) == a && Xor(0, a) == a
  {
  }

  function Register(crc: bv16, frame: Octets): bv16 {
    if frame == [] then crc else Update(Register(crc, frame[..|frame| - 1]), frame[|frame| - 1])
  }

  method RegisterLoop(frame: Octets) returns (crc: bv16)
    ensures crc == Register(INITIAL, frame)
  {
    crc := INITIAL;
    for i := 0 to |frame|
      invariant crc == Register(INITIAL, frame[..i])
    {
      assert frame[..i + 1][..i] == frame[..i];
      crc := UpdateLoop(crc, frame[i]);
    }
    assert frame[..|frame|] == frame;
  }

  /** Low byte first. */
  function Check(frame: Octets): Octets {
    var crc := Register(INITIAL, frame);
    [(crc & 0xff) as bv8 ^ 0xff, (crc >> 8) as bv8 ^ 0xff]
  }

  /** Whether a frame with its check sequence at the end checks out. */
  predicate ResidueOk(frame: Octets) { Register(INITIAL, frame) == RESIDUE }

  // ------------------------------------------------------------- the register is linear

  lemma HalfIsLinear(a: bv16, b: bv16)
    ensures Half(Xor(a, b)) == Xor(Half(a), Half(b))
  {
  }

  lemma LowBit(a: bv16, b: bv16)
    ensures (a ^ b) & 1 == (a & 1) ^ (b & 1)
    ensures a & 1 == 0 || a & 1 == 1
  {
  }

  lemma FeedbackIsLinear(a: bv16, b: bv16)
    ensures Feedback(Xor(a, b)) == Xor(Feedback(a), Feedback(b))
  {
    LowBit(a, b);
    LowBit(b, a);
  }

  lemma XorCommutes(a: bv16, b: bv16)
    ensures Xor(a, b) == Xor(b, a)
  {
  }

  lemma XorAssociates(a: bv16, b: bv16, c: bv16)
    ensures Xor(Xor(a, b), c) == Xor(a, Xor(b, c))
  {
  }

  lemma Regroup(a: bv16, x: bv16, b: bv16, y: bv16)
    ensures Xor(Xor(a, x), Xor(b, y)) == Xor(Xor(a, b), Xor(x, y))
  {
    hide Xor;
    XorAssociates(a, x, Xor(b, y));
    XorAssociates(x, b, y);
    XorCommutes(x, b);
    XorAssociates(b, x, y);
    XorAssociates(a, b, Xor(x, y));
  }

  lemma ShiftIsLinear(a: bv16, b: bv16)
    ensures Shift(Xor(a, b)) == Xor(Shift(a), Shift(b))
  {
    hide Xor, Half, Feedback;
    HalfIsLinear(a, b);
    FeedbackIsLinear(a, b);
    Regroup(Half(a), Feedback(a), Half(b), Feedback(b));
  }

  lemma {:induction false} ShiftsAreLinear(a: bv16, b: bv16, n: nat)
    ensures Shifts(Xor(a, b), n) == Xor(Shifts(a, n), Shifts(b, n))
  {
    hide Xor, Shift;
    if n > 0 {
      ShiftsAreLinear(a, b, n - 1);
      ShiftIsLinear(Shifts(a, n - 1), Shifts(b, n - 1));
    }
  }

  lemma Widen(x: bv8, y: bv8)
    ensures Xor(x as bv16, y as bv16) == (x ^ y) as bv16
  {
  }

  /** How a difference in the register, and one in the byte, come out. */
  lemma UpdateIsLinear(a: bv16, b: bv16, x: bv8, y: bv8)
    ensures Xor(Update(a, x), Update(b, y)) == Update(Xor(a, b), x ^ y)
  {
    hide Xor, Shifts;
    ShiftsAreLinear(Xor(a, x as bv16), Xor(b, y as bv16), 8);
    Regroup(a, x as bv16, b, y as bv16);
    Widen(x, y);
  }

  /** The eight shifts of one byte, written out. */
  function Eight(c: bv16): bv16 { Shift(Shift(Shift(Shift(Shift(Shift(Shift(Shift(c)))))))) }

  lemma EightShifts(c: bv16)
    ensures Shifts(c, 8) == Eight(c)
  {
    hide Shift;
    assert Shifts(c, 1) == Shift(Shifts(c, 0));
    assert Shifts(c, 2) == Shift(Shifts(c, 1));
    assert Shifts(c, 3) == Shift(Shifts(c, 2));
    assert Shifts(c, 4) == Shift(Shifts(c, 3));
    assert Shifts(c, 5) == Shift(Shifts(c, 4));
    assert Shifts(c, 6) == Shift(Shifts(c, 5));
    assert Shifts(c, 7) == Shift(Shifts(c, 6));
  }

  lemma UpdateIsEight(c: bv16, x: bv8)
    ensures Update(c, x) == Eight(Xor(c, x as bv16))
  {
    hide Xor, Eight;
    EightShifts(Xor(c, x as bv16));
  }

  lemma EightOfNothing(d: bv16)
    ensures Eight(d) == 0 <==> d == 0
  {
  }

  lemma NoDifference(a: bv16, b: bv16)
    ensures Xor(a, b) == 0 <==> a == b
    ensures Xor(a, 0) == a
  {
    hide Xor;
    XorSelf(a);
    XorSelf(b);
    XorAssociates(a, b, b);
  }

  lemma SameByte(x: bv8)
    ensures x ^ x == 0 && (x ^ x) as bv16 == 0
  {
  }

  /** Equal bytes neither hide nor create a difference in the register. */
  lemma DifferenceSurvives(a: bv16, b: bv16, byte: bv8)
    ensures Update(a, byte) == Update(b, byte) <==> a == b
  {
    hide Xor, Update, Eight;
    UpdateIsLinear(a, b, byte, byte);
    SameByte(byte);
    UpdateIsEight(Xor(a, b), byte ^ byte);
    NoDifference(Xor(a, b), 0);
    EightOfNothing(Xor(a, b));
    NoDifference(a, b);
    NoDifference(Update(a, byte), Update(b, byte));
  }

  lemma {:induction false} RegisterConcat(crc: bv16, a: Octets, b: Octets)
    ensures Register(crc, a + b) == Register(Register(crc, a), b)
  {
    hide Update;
    if b == [] {
      assert a + b == a;
    } else {
      assert (a + b)[..|a + b| - 1] == a + b[..|b| - 1];
      RegisterConcat(crc, a, b[..|b| - 1]);
    }
  }

  lemma {:induction false} SameTail(a: bv16, b: bv16, tail: Octets)
    ensures Register(a, tail) == Register(b, tail) <==> a == b
  {
    hide Update;
    if tail != [] {
      var n := |tail| - 1;
      SameTail(a, b, tail[..n]);
      DifferenceSurvives(Register(a, tail[..n]), Register(b, tail[..n]), tail[n]);
    }
  }

  function Differences(f: Octets, g: Octets): Octets
    requires |f| == |g|
  {
    seq(|f|, i requires 0 <= i < |f| => f[i] ^ g[i])
  }

  lemma DifferencesMeaning(f: Octets, g: Octets)
    requires |f| == |g|
    ensures |Differences(f, g)| == |f|
    ensures forall i :: 0 <= i < |f| ==> (Differences(f, g)[i] == 0 <==> f[i] == g[i])
  {
    forall i | 0 <= i < |f| ensures Differences(f, g)[i] == 0 <==> f[i] == g[i] { SameBytes(f[i], g[i]); }
  }

  lemma DifferencesSnoc(f: Octets, g: Octets)
    requires |f| == |g| > 0
    ensures var n, d := |f| - 1, Differences(f, g);
            |d| == n + 1 && d[..n] == Differences(f[..n], g[..n]) && d[n] == f[n] ^ g[n]
  {
  }

  lemma {:induction false} DifferenceOfRegisters(a: bv16, b: bv16, f: Octets, g: Octets)
    requires |f| == |g|
    ensures Xor(Register(a, f), Register(b, g)) == Register(Xor(a, b), Differences(f, g))
  {
    hide Xor, Update, Differences;
    DifferencesMeaning(f, g);
    if f != [] {
      var n := |f| - 1;
      DifferenceOfRegisters(a, b, f[..n], g[..n]);
      UpdateIsLinear(Register(a, f[..n]), Register(b, g[..n]), f[n], g[n]);
      DifferencesSnoc(f, g);
    }
  }

  // ------------------------------------------------------------- the one right answer

  /** The register's own complement, low byte first, brings it to the residue. */
  lemma CheckLeavesResidue(c: bv16)
    ensures Eight(Xor(Eight(Xor(c, ((c & 0xff) as bv8 ^ 0xff) as bv16)), ((c >> 8) as bv8 ^ 0xff) as bv16)) == RESIDUE
  {
  }

  lemma TwoMore(c: bv16, x: Octets)
    requires |x| == 2
    ensures Register(c, x) == Update(Update(c, x[0]), x[1])
  {
    hide Update;
    assert x[..1][..0] == [] && x[..|x| - 1] == x[..1];
    assert Register(c, x[..1]) == Update(Register(c, x[..1][..0]), x[..1][0]);
  }

  lemma TwoBytesAreVisible(d0: bv8, d1: bv8)
    requires Eight(Xor(Eight(d0 as bv16), d1 as bv16)) == 0
    ensures d0 == 0 && d1 == 0
  {
  }

  /** From one register, different pairs of bytes leave different registers. */
  lemma PairsAreOneToOne(c: bv16, x: Octets, y: Octets)
    requires |x| == |y| == 2 && Register(c, x) == Register(c, y)
    ensures x == y
  {
    hide Xor, Update, Eight, Differences;
    DifferenceOfRegisters(c, c, x, y);
    NoDifference(c, c);
    NoDifference(Register(c, x), Register(c, y));
    var d := Differences(x, y);
    DifferencesMeaning(x, y);
    TwoMore(0, d);
    XorSelf(d[0] as bv16);
    UpdateIsEight(0, d[0]);
    UpdateIsEight(Update(0, d[0]), d[1]);
    TwoBytesAreVisible(d[0], d[1]);
  }

  lemma SameBytes(x: bv8, y: bv8)
    ensures x ^ y == 0 <==> x == y
  {
  }

  lemma CheckChecksOut(frame: Octets)
    ensures |Check(frame)| == 2 && Register(Register(INITIAL, frame), Check(frame)) == RESIDUE
  {
    hide Xor, Update, Eight;
    var c, y := Register(INITIAL, frame), Check(frame);
    TwoMore(c, y);
    UpdateIsEight(c, y[0]);
    UpdateIsEight(Update(c, y[0]), y[1]);
    CheckLeavesResidue(c);
  }

  /** A frame with two bytes at its end checks out exactly when they are its check
      sequence. */
  lemma OnlyTheCheckChecksOut(frame: Octets, x: Octets)
    requires |x| == 2
    ensures ResidueOk(frame + x) <==> x == Check(frame)
  {
    hide Update, Check, Register;
    var c := Register(INITIAL, frame);
    RegisterConcat(INITIAL, frame, x);
    CheckChecksOut(frame);
    if Register(c, x) == RESIDUE { PairsAreOneToOne(c, x, Check(frame)); }
  }

  // ------------------------------------------------------------- bursts

  /** The low `s` bits of a byte, for s from 0 to 7. */
  const LOW_MASKS: seq<bv8> := [0x00, 0x01, 0x03, 0x07, 0x0f, 0x1f, 0x3f, 0x7f]

  /** Differences in three bytes that a burst of sixteen bits could make, starting
      at bit `s` of the first; the low bit of a byte is first on the wire. */
  predicate Burst(e0: bv8, e2: bv8, s: nat) {
    s < 8 && e0 & LOW_MASKS[s] == 0 && e2 & !LOW_MASKS[s] == 0
  }

  lemma BurstFrom0(e0: bv8, e1: bv8, e2: bv8)
    requires e2 == 0
    requires Eight(Xor(Eight(e0 as bv16), e1 as bv16)) == e2 as bv16
    ensures e0 == 0 && e1 == 0 && e2 == 0
  {
  }

  lemma BurstFrom1(e0: bv8, e1: bv8, e2: bv8)
    requires e0 & 0x01 == 0 && e2 & 0xfe == 0
    requires Eight(Xor(Eight(e0 as bv16), e1 as bv16)) == e2 as bv16
    ensures e0 == 0 && e1 == 0 && e2 == 0
  {
  }

  lemma BurstFrom2(e0: bv8, e1: bv8, e2: bv8)
    requires e0 & 0x03 == 0 && e2 & 0xfc == 0
    requires Eight(Xor(Eight(e0 as bv16), e1 as bv16)) == e2 as bv16
    ensures e0 == 0 && e1 == 0 && e2 == 0
  {
  }

  lemma BurstFrom3(e0: bv8, e1: bv8, e2: bv8)
    requires e0 & 0x07 == 0 && e2 & 0xf8 == 0
    requires Eight(Xor(Eight(e0 as bv16), e1 as bv16)) == e2 as bv16
    ensures e0 == 0 && e1 == 0 && e2 == 0
  {
  }

  lemma BurstFrom4(e0: bv8, e1: bv8, e2: bv8)
    requires e0 & 0x0f == 0 && e2 & 0xf0 == 0
    requires Eight(Xor(Eight(e0 as bv16), e1 as bv16)) == e2 as bv16
    ensures e0 == 0 && e1 == 0 && e2 == 0
  {
  }

  lemma BurstFrom5(e0: bv8, e1: bv8, e2: bv8)
    requires e0 & 0x1f == 0 && e2 & 0xe0 == 0
    requires Eight(Xor(Eight(e0 as bv16), e1 as bv16)) == e2 as bv16
    ensures e0 == 0 && e1 == 0 && e2 == 0
  {
  }

  lemma BurstFrom6(e0: bv8, e1: bv8, e2: bv8)
    requires e0 & 0x3f == 0 && e2 & 0xc0 == 0
    requires Eight(Xor(Eight(e0 as bv16), e1 as bv16)) == e2 as bv16
    ensures e0 == 0 && e1 == 0 && e2 == 0
  {
  }

  lemma BurstFrom7(e0: bv8, e1: bv8, e2: bv8)
    requires e0 & 0x7f == 0 && e2 & 0x80 == 0
    requires Eight(Xor(Eight(e0 as bv16), e1 as bv16)) == e2 as bv16
    ensures e0 == 0 && e1 == 0 && e2 == 0
  {
  }

  lemma BurstIsVisible(e0: bv8, e1: bv8, e2: bv8, s: nat)
    requires Burst(e0, e2, s)
    requires Eight(Xor(Eight(e0 as bv16), e1 as bv16)) == e2 as bv16
    ensures e0 == 0 && e1 == 0 && e2 == 0
  {
    hide Eight, Xor;
    match s
    case 0 => BurstFrom0(e0, e1, e2);
    case 1 => BurstFrom1(e0, e1, e2);
    case 2 => BurstFrom2(e0, e1, e2);
    case 3 => BurstFrom3(e0, e1, e2);
    case 4 => BurstFrom4(e0, e1, e2);
    case 5 => BurstFrom5(e0, e1, e2);
    case 6 => BurstFrom6(e0, e1, e2);
    case _ => BurstFrom7(e0, e1, e2);
  }

  lemma ThreeMore(c: bv16, x: Octets)
    requires |x| == 3
    ensures Register(c, x) == Update(Update(Update(c, x[0]), x[1]), x[2])
  {
    hide Update;
    TwoMore(c, x[..2]);
  }

  lemma ThreeFromNothing(d: Octets)
    requires |d| == 3 && Register(0, d) == 0
    ensures Eight(Xor(Eight(d[0] as bv16), d[1] as bv16)) == d[2] as bv16
  {
    hide Xor, Update, Eight;
    ThreeMore(0, d);
    XorSelf(d[0] as bv16);
    UpdateIsEight(0, d[0]);
    UpdateIsEight(Update(0, d[0]), d[1]);
    UpdateIsEight(Update(Update(0, d[0]), d[1]), d[2]);
    EightOfNothing(Xor(Update(Update(0, d[0]), d[1]), d[2] as bv16));
    NoDifference(Update(Update(0, d[0]), d[1]), d[2] as bv16);
  }

  /** From one register, bytes that differ within sixteen bits leave different
      registers. */
  lemma BurstsAreOneToOne(c: bv16, x: Octets, y: Octets, s: nat)
    requires |x| == |y| == 3 && Register(c, x) == Register(c, y)
    requires Burst(Differences(x, y)[0], Differences(x, y)[2], s)
    ensures x == y
  {
    hide Xor, Register, Eight, Burst, Differences;
    DifferenceOfRegisters(c, c, x, y);
    NoDifference(c, c);
    NoDifference(Register(c, x), Register(c, y));
    var d := Differences(x, y);
    DifferencesMeaning(x, y);
    ThreeFromNothing(d);
    BurstIsVisible(d[0], d[1], d[2], s);
  }

  /** Two frames that agree outside three consecutive bytes, and differ there within
      sixteen consecutive bits, leave different registers. */
  lemma BurstsShow(head: Octets, f: Octets, g: Octets, tail: Octets, s: nat)
    requires |f| == |g| == 3 && f != g && Burst(Differences(f, g)[0], Differences(f, g)[2], s)
    ensures Register(INITIAL, head + f + tail) != Register(INITIAL, head + g + tail)
  {
    hide Update, Burst, Differences;
    var c := Register(INITIAL, head);
    RegisterConcat(INITIAL, head + f, tail);
    RegisterConcat(INITIAL, head + g, tail);
    RegisterConcat(INITIAL, head, f);
    RegisterConcat(INITIAL, head, g);
    SameTail(Register(c, f), Register(c, g), tail);
    if Register(c, f) == Register(c, g) { BurstsAreOneToOne(c, f, g, s); }
  }

  // ------------------------------------------------------------- bursts anywhere in a frame

  const BITS: seq<bv8> := [0x01, 0x02, 0x04, 0x08, 0x10, 0x20, 0x40, 0x80]

  /** Whether two bytes differ in bit `k`; bit 0 is first on the wire. */
  predicate DifferAt(x: bv8, y: bv8, k: nat)
    requires k < 8
  {
    (x ^ y) & BITS[k] != 0
  }

  /** Whether two frames differ in bit `j`, counted from the first on the wire. */
  predicate FlippedAt(f: Octets, g: Octets, j: nat)
    requires |f| == |g| && j < 8 * |f|
  {
    DifferAt(f[j / 8], g[j / 8], j % 8)
  }

  /** All damage lies within the sixteen bits from bit `p` on. */
  ghost predicate WithinSixteen(f: Octets, g: Octets, p: nat)
    requires |f| == |g|
  {
    forall j :: 0 <= j < 8 * |f| && FlippedAt(f, g, j) ==> p <= j < p + 16
  }

  lemma NoLowBits(e: bv8, s: nat)
    requires s < 8 && forall k :: 0 <= k < s ==> e & BITS[k] == 0
    ensures e & LOW_MASKS[s] == 0
  {
    if s > 0 {
      NoLowBits(e, s - 1);
      OneMoreLow(e, s - 1);
    }
  }

  lemma OneMoreLow(e: bv8, s: nat)
    requires s < 7 && e & LOW_MASKS[s] == 0 && e & BITS[s] == 0
    ensures e & LOW_MASKS[s + 1] == 0
  {
    match s
    case 0 =>
    case 1 =>
    case 2 =>
    case 3 =>
    case 4 =>
    case 5 =>
    case _ =>
  }

  lemma NoHighBits(e: bv8, s: nat)
    requires s < 8 && forall k :: s <= k < 8 ==> e & BITS[k] == 0
    ensures e & !LOW_MASKS[s] == 0
    decreases 8 - s
  {
    if s < 7 {
      NoHighBits(e, s + 1);
      OneMoreHigh(e, s);
    } else {
      assert e & BITS[7] == 0;
    }
  }

  lemma OneMoreHigh(e: bv8, s: nat)
    requires s < 7 && e & !LOW_MASKS[s + 1] == 0 && e & BITS[s] == 0
    ensures e & !LOW_MASKS[s] == 0
  {
    match s
    case 0 =>
    case 1 =>
    case 2 =>
    case 3 =>
    case 4 =>
    case 5 =>
    case _ =>
  }

  lemma NoBits(e: bv8)
    requires forall k :: 0 <= k < 8 ==> e & BITS[k] == 0
    ensures e == 0
  {
    NoHighBits(e, 0);
  }

  /** A byte none of whose bits is damaged is the same. */
  lemma ByteUnharmed(f: Octets, g: Octets, p: nat, i: nat)
    requires |f| == |g| && WithinSixteen(f, g, p) && i < |f|
    requires 8 * i + 8 <= p || p + 16 <= 8 * i
    ensures f[i] == g[i]
  {
    forall k | 0 <= k < 8 ensures (f[i] ^ g[i]) & BITS[k] == 0 {
      BitOf(i, k);
      assert !FlippedAt(f, g, 8 * i + k);
    }
    NoBits(f[i] ^ g[i]);
    SameBytes(f[i], g[i]);
  }

  lemma BitOf(i: nat, k: nat)
    requires k < 8
    ensures (8 * i + k) / 8 == i && (8 * i + k) % 8 == k
  {
  }

  /** The damage, as a burst in the three bytes from `i` on. */
  lemma DamageIsBurst(f: Octets, g: Octets, i: nat, s: nat)
    requires |f| == |g| && i + 3 <= |f| && s < 8 && WithinSixteen(f, g, 8 * i + s)
    ensures Burst(f[i] ^ g[i], f[i + 2] ^ g[i + 2], s)
  {
    forall k | 0 <= k < s ensures (f[i] ^ g[i]) & BITS[k] == 0 {
      BitOf(i, k);
      assert !FlippedAt(f, g, 8 * i + k);
    }
    forall k | s <= k < 8 ensures (f[i + 2] ^ g[i + 2]) & BITS[k] == 0 {
      BitOf(i + 2, k);
      assert !FlippedAt(f, g, 8 * (i + 2) + k);
    }
    NoLowBits(f[i] ^ g[i], s);
    NoHighBits(f[i + 2] ^ g[i + 2], s);
  }

  lemma InThree(f: Octets, i: nat)
    requires i + 3 <= |f|
    ensures f == f[..i] + f[i..i + 3] + f[i + 3..]
  {
  }

  lemma SameOutside(f: Octets, g: Octets, i: nat)
    requires |f| == |g| && i + 3 <= |f|
    requires forall k :: 0 <= k < |f| && !(i <= k < i + 3) ==> f[k] == g[k]
    ensures f[..i] == g[..i] && f[i + 3..] == g[i + 3..]
  {
  }

  lemma DamageShows(f: Octets, g: Octets, i: nat, s: nat)
    requires |f| == |g| && f != g && i + 3 <= |f| && s < 8 && WithinSixteen(f, g, 8 * i + s)
    ensures Register(INITIAL, f) != Register(INITIAL, g)
  {
    hide Burst, Differences, Register, WithinSixteen;
    forall k | 0 <= k < |f| && !(i <= k < i + 3) ensures f[k] == g[k] { ByteUnharmed(f, g, 8 * i + s, k); }
    SameOutside(f, g, i);
    InThree(f, i);
    InThree(g, i);
    DamageIsBurst(f, g, i, s);
    DifferencesAt(f[i..i + 3], g[i..i + 3]);
    BurstsShow(f[..i], f[i..i + 3], g[i..i + 3], f[i + 3..], s);
  }

  lemma DifferencesAt(f: Octets, g: Octets)
    requires |f| == |g|
    ensures |Differences(f, g)| == |f| && forall k :: 0 <= k < |f| ==> Differences(f, g)[k] == f[k] ^ g[k]
  {
  }

  /** Three bytes more, the same behind both frames, so that a burst may end anywhere. */
  lemma LongerFrames(f: Octets, g: Octets, p: nat, more: Octets)
    requires |f| == |g| && WithinSixteen(f, g, p)
    ensures WithinSixteen(f + more, g + more, p)
    ensures Register(INITIAL, f + more) == Register(INITIAL, g + more) <==> Register(INITIAL, f) == Register(INITIAL, g)
  {
    RegisterConcat(INITIAL, f, more);
    RegisterConcat(INITIAL, g, more);
    SameTail(Register(INITIAL, f), Register(INITIAL, g), more);
    hide Register;
    forall j | 0 <= j < 8 * |f + more| ensures FlippedAt(f + more, g + more, j) ==> p <= j < p + 16 {
      if j < 8 * |f| {
        assert FlippedAt(f + more, g + more, j) == FlippedAt(f, g, j);
      } else {
        Undamaged((f + more)[j / 8], j % 8);
      }
    }
  }

  lemma Undamaged(x: bv8, k: nat)
    requires k < 8
    ensures !DifferAt(x, x, k)
  {
    SameByte(x);
  }

  /** Damage within sixteen bits from `p` on starts within the frame. */
  lemma BurstTouches(f: Octets, g: Octets, p: nat)
    requires |f| == |g| && f != g && WithinSixteen(f, g, p)
    ensures p / 8 < |f|
  {
    hide WithinSixteen;
    var k :| 0 <= k < |f| && f[k] != g[k];
    if 8 * k + 8 <= p { ByteUnharmed(f, g, p, k); }
  }

  /** Any burst of up to sixteen bits is detected, at any bit of a frame up to its very
      end: two different frames of one length whose damage lies within sixteen
      consecutive bits cannot both check out. */
  lemma BurstsAreDetected(f: Octets, g: Octets, p: nat)
    requires |f| == |g| && f != g && WithinSixteen(f, g, p) && ResidueOk(f)
    ensures !ResidueOk(g)
  {
    hide WithinSixteen, Register;
    var more := [0, 0, 0];
    LongerFrames(f, g, p, more);
    BurstTouches(f, g, p);
    Appended(f, g, more);
    DamageShows(f + more, g + more, p / 8, p % 8);
  }

  lemma Appended(f: Octets, g: Octets, more: Octets)
    requires |f| == |g| && f != g
    ensures f + more != g + more
  {
    assert f == (f + more)[..|f|] && g == (g + more)[..|g|];
  }

  /** So damage to one byte, or to two adjacent bytes, is detected wherever it falls. */
  lemma DamagedBytesAreDetected(f: Octets, g: Octets, i: nat)
    requires |f| == |g| && f != g && ResidueOk(f)
    requires forall k :: 0 <= k < |f| && k != i && k != i + 1 ==> f[k] == g[k]
    ensures !ResidueOk(g)
  {
    hide Register;
    forall j | 0 <= j < 8 * |f| ensures FlippedAt(f, g, j) ==> 8 * i <= j < 8 * i + 16 {
      Undamaged(f[j / 8], j % 8);
    }
    BurstsAreDetected(f, g, 8 * i);
  }

  // ------------------------------------------------------------- parity

  /** The ones among the low `n` bits. */
  function Ones(c: bv16, n: nat): nat {
    if n == 0 then 0 else One(c) + Ones(Half(c), n - 1)
  }

  function One(c: bv16): nat { if c & 1 != 0 then 1 else 0 }

  lemma OneAdds(a: bv16, b: bv16)
    ensures (One(Xor(a, b)) - One(a) - One(b)) % 2 == 0
  {
    LowBit(a, b);
    LowBit(b, a);
  }

  lemma OnesStep(c: bv16, n: nat)
    requires n > 0
    ensures Ones(c, n) == One(c) + Ones(Half(c), n - 1)
  {
  }

  lemma {:induction false} OnesAdd(a: bv16, b: bv16, n: nat)
    ensures (Ones(Xor(a, b), n) - Ones(a, n) - Ones(b, n)) % 2 == 0
    decreases n
  {
    hide Xor, Half, One;
    if n > 0 {
      OneAdds(a, b);
      HalfIsLinear(a, b);
      OnesAdd(Half(a), Half(b), n - 1);
      OnesStep(a, n);
      OnesStep(b, n);
      OnesStep(Xor(a, b), n);
      EvenSum(One(Xor(a, b)) - One(a) - One(b),
              Ones(Half(Xor(a, b)), n - 1) - Ones(Half(a), n - 1) - Ones(Half(b), n - 1));
    }
  }

  lemma EvenSum(x: int, y: int)
    requires x % 2 == 0 && y % 2 == 0
    ensures (x + y) % 2 == 0
  {
  }

  /** Halved `n` times. */
  function Halved(c: bv16, n: nat): bv16 {
    if n == 0 then c else Halved(Half(c), n - 1)
  }

  lemma {:induction false} OnesAboveNothing(c: bv16, n: nat)
    requires Halved(c, n) == 0
    ensures Ones(c, n + 1) == Ones(c, n)
  {
    if n > 0 {
      OnesAboveNothing(Half(c), n - 1);
    } else {
      assert c & 1 == 0;
    }
  }

  lemma SixteenHalves(c: bv16)
    ensures Halved(c, 16) == 0
  {
    var c4 := Half(Half(Half(Half(c))));
    var c8 := Half(Half(Half(Half(c4))));
    var c12 := Half(Half(Half(Half(c8))));
    FourHalves(c, 12);
    FourHalves(c4, 8);
    FourHalves(c8, 4);
    FourHalves(c12, 0);
    NothingLeft(c);
  }

  lemma FourHalves(c: bv16, n: nat)
    ensures Halved(c, n + 4) == Halved(Half(Half(Half(Half(c)))), n)
  {
    hide Half;
    assert Halved(c, n + 4) == Halved(Half(c), n + 3);
    assert Halved(Half(c), n + 3) == Halved(Half(Half(c)), n + 2);
    assert Halved(Half(Half(c)), n + 2) == Halved(Half(Half(Half(c))), n + 1);
  }

  lemma NothingLeft(c: bv16)
    ensures var c4 := Half(Half(Half(Half(c))));
            var c8 := Half(Half(Half(Half(c4))));
            var c12 := Half(Half(Half(Half(c8))));
            Half(Half(Half(Half(c12)))) == 0
  {
  }

  predicate Even(c: bv16) { Ones(c, 16) % 2 == 0 }

  /** A shift keeps the parity of the register: the one that leaves comes back as
      the three of the polynomial. */
  lemma ShiftKeepsParity(c: bv16)
    ensures Even(Shift(c)) == Even(c)
  {
    hide Half, Xor, Feedback, One, Ones, Halved;
    OnesAdd(Half(c), Feedback(c), 16);
    SixteenHalves(c);
    HalvedStep(c, 15);
    OnesAboveNothing(Half(c), 15);
    OnesStep(c, 16);
    FeedbackOnes(c);
  }

  lemma HalvedStep(c: bv16, n: nat)
    ensures Halved(c, n + 1) == Halved(Half(c), n)
  {
  }

  lemma FeedbackOnes(c: bv16)
    ensures Ones(Feedback(c), 16) == 3 * One(c)
  {
    PolynomialOnes();
    NoOnes(16);
  }

  lemma {:induction false} NoOnes(n: nat)
    ensures Ones(0, n) == 0
  {
    if n > 0 {
      assert Half(0) == 0 && One(0) == 0;
      NoOnes(n - 1);
    }
  }

  lemma TwoOnes(c: bv16, n: nat)
    ensures Ones(c, n + 2) == One(c) + One(Half(c)) + Ones(Half(Half(c)), n)
  {
    hide Half, One;
    assert Ones(c, n + 2) == One(c) + Ones(Half(c), n + 1);
  }

  lemma PolynomialOnes()
    ensures Ones(POLYNOMIAL, 16) == 3
  {
    TwoOnes(0x8408, 14);
    TwoOnes(0x2102, 12);
    TwoOnes(0x0840, 10);
    TwoOnes(0x0210, 8);
    TwoOnes(0x0084, 6);
    TwoOnes(0x0021, 4);
    TwoOnes(0x0008, 2);
    TwoOnes(0x0002, 0);
    assert Half(Half(0x8408)) == 0x2102 && Half(Half(0x2102)) == 0x0840 && Half(Half(0x0840)) == 0x0210;
    assert Half(Half(0x0210)) == 0x0084 && Half(Half(0x0084)) == 0x0021 && Half(Half(0x0021)) == 0x0008;
    assert Half(Half(0x0008)) == 0x0002;
    assert One(0x8408) == 0 && One(Half(0x8408)) == 0 && One(0x2102) == 0 && One(Half(0x2102)) == 1;
    assert One(0x0840) == 0 && One(Half(0x0840)) == 0 && One(0x0210) == 0 && One(Half(0x0210)) == 0;
    assert One(0x0084) == 0 && One(Half(0x0084)) == 0 && One(0x0021) == 1 && One(Half(0x0021)) == 0;
    assert One(0x0008) == 0 && One(Half(0x0008)) == 0 && One(0x0002) == 0 && One(Half(0x0002)) == 1;
  }

  lemma {:induction false} ShiftsKeepParity(c: bv16, n: nat)
    ensures Even(Shifts(c, n)) == Even(c)
  {
    hide Shift, Even;
    if n > 0 {
      ShiftsKeepParity(c, n - 1);
      ShiftKeepsParity(Shifts(c, n - 1));
    }
  }

  function OnesOf(b: bv8): nat { Ones(b as bv16, 16) }

  function OnesIn(frame: Octets): nat {
    if frame == [] then 0 else OnesIn(frame[..|frame| - 1]) + OnesOf(frame[|frame| - 1])
  }

  lemma UpdateParity(c: bv16, b: bv8)
    ensures (Ones(Update(c, b), 16) - Ones(c, 16) - OnesOf(b)) % 2 == 0
  {
    hide Shifts, Ones, Xor;
    var u := Xor(c, b as bv16);
    OnesAdd(c, b as bv16, 16);
    ShiftsKeepParity(u, 8);
    EvenSum(Ones(Shifts(u, 8), 16) - Ones(u, 16), Ones(u, 16) - Ones(c, 16) - OnesOf(b));
  }

  lemma {:induction false} RegisterParity(crc: bv16, frame: Octets)
    ensures (Ones(Register(crc, frame), 16) - Ones(crc, 16) - OnesIn(frame)) % 2 == 0
  {
    hide Update, Ones, OnesOf;
    if frame != [] {
      var n := |frame| - 1;
      RegisterParity(crc, frame[..n]);
      var c := Register(crc, frame[..n]);
      UpdateParity(c, frame[n]);
      EvenSum(Ones(c, 16) - Ones(crc, 16) - OnesIn(frame[..n]),
              Ones(Update(c, frame[n]), 16) - Ones(c, 16) - OnesOf(frame[n]));
    }
  }

  /** Whether three counts of ones go together as those of a difference and its sides. */
  predicate Balanced(d: int, f: int, g: int) { (d - f - g) % 2 == 0 }

  lemma OnesOfBytes(x: bv8, y: bv8)
    ensures Balanced(OnesOf(x ^ y), OnesOf(x), OnesOf(y))
  {
    hide Ones, Xor;
    OnesAdd(x as bv16, y as bv16, 16);
    Widen(x, y);
  }

  lemma BalancedSum(d: int, e: int, f: int, h: int, g: int, k: int)
    requires Balanced(d, f, g) && Balanced(e, h, k)
    ensures Balanced(d + e, f + h, g + k)
  {
    EvenSum(d - f - g, e - h - k);
  }

  lemma OnesInSnoc(f: Octets)
    requires f != []
    ensures OnesIn(f) == OnesIn(f[..|f| - 1]) + OnesOf(f[|f| - 1])
  {
    hide OnesOf;
  }

  lemma NoOnesIn()
    ensures OnesIn([]) == 0 && Balanced(0, 0, 0)
  {
  }

  lemma {:induction false} OnesOfDifferences(f: Octets, g: Octets)
    requires |f| == |g|
    ensures Balanced(OnesIn(Differences(f, g)), OnesIn(f), OnesIn(g))
  {
    hide OnesOf, Differences, OnesIn, Balanced;
    DifferencesMeaning(f, g);
    if f == [] {
      NoOnesIn();
      assert Differences(f, g) == [];
    } else {
      var n, d := |f| - 1, Differences(f, g);
      OnesOfDifferences(f[..n], g[..n]);
      DifferencesSnoc(f, g);
      OnesOfBytes(f[n], g[n]);
      OnesInSnoc(f);
      OnesInSnoc(g);
      OnesInSnoc(d);
      BalancedSum(OnesIn(d[..n]), OnesOf(d[n]), OnesIn(f[..n]), OnesOf(f[n]), OnesIn(g[..n]), OnesOf(g[n]));
    }
  }

  /** Any odd number of flipped bits is detected, wherever they fall. */
  lemma OddFlipsAreDetected(f: Octets, g: Octets)
    requires |f| == |g| && OnesIn(Differences(f, g)) % 2 == 1
    requires ResidueOk(f)
    ensures !ResidueOk(g)
  {
    hide Ones, Register, Differences;
    RegisterParity(INITIAL, f);
    RegisterParity(INITIAL, g);
    OnesOfDifferences(f, g);
  }
}
