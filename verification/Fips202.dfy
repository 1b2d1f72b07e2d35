/** Keccak as FIPS 202 defines it, on bits: the five step mappings, the round constants from their shift register, and
    the sponge; and the proof that the lane-by-lane rounds of `KeccakF` are these. */
module Fips202 {
  import opened KeccakF

  /** A state array (section 3.1), by the steps that made it; a block is added to the first bits of the state. */
  datatype Array =
    | Blank
    | XorBlock(a: Array, block: seq<bool>)
    | ThetaOf(a: Array)
    | RhoOf(a: Array)
    | PiOf(a: Array)
    | ChiOf(a: Array)
    | IotaOf(a: Array, round: nat)

  /** The place of bit (x, y, z) in the state as a string (section 3.1.3). */
  function Index(x: nat, y: nat, z: bv6): nat { 64 * (5 * y + x) + z as nat }

  /** The bit at (x, y, z), with z counted modulo 64: sections 3.2.1 to 3.2.5. */
  function At(a: Array, x: nat, y: nat, z: bv6): bool
    decreases a, 1
  {
    match a
    case Blank => false
    case XorBlock(b, block) => At(b, x, y, z) != (Index(x, y, z) < |block| && block[Index(x, y, z)])
    case ThetaOf(b) => At(b, x, y, z) != (Column(b, (x + 4) % 5, z) != Column(b, (x + 1) % 5, z - 1))
    case RhoOf(b) => At(b, x, y, z - Offset(x, y))
    case PiOf(b) => At(b, (x + 3 * y) % 5, x, z)
    case ChiOf(b) => At(b, x, y, z) != (!At(b, (x + 1) % 5, y, z) && At(b, (x + 2) % 5, y, z))
    case IotaOf(b, i) => if x == 0 && y == 0 then At(b, x, y, z) != ConstantBit(i, z) else At(b, x, y, z)
  }

  function Column(a: Array, x: nat, z: bv6): bool
    decreases a, 2
  {
    (((At(a, x, 0, z) != At(a, x, 1, z)) != At(a, x, 2, z)) != At(a, x, 3, z)) != At(a, x, 4, z)
  }

  /** The place that rho visits at time `t`. */
  function Place(t: nat): (nat, nat) { if t == 0 then (1, 0) else var (x, y) := Place(t - 1); (y, (2 * x + 3 * y) % 5) }

  /** How far rho moves the bits of lane (x, y), looking from time `t` on. */
  function OffsetFrom(x: nat, y: nat, t: nat): nat
    decreases 24 - t
  {
    if t >= 24 then 0 else if Place(t) == (x, y) then (t + 1) * (t + 2) / 2 else OffsetFrom(x, y, t + 1)
  }

  function Modulo64(n: nat): bv6 { (n % 64) as bv6 }

  function Offset(x: nat, y: nat): bv6 { Modulo64(OffsetFrom(x, y, 0)) }

  /** The shift register of Algorithm 5; bit i of the register is R[i]. */
  function Register(t: nat): bv8 { if t == 0 then 1 else Clock(Register(t - 1)) }
  function Clock(r: bv8): bv8 { (r << 1) ^ (if r & 0x80 != 0 then 0x71 else 0) }
  function Rc(t: nat): bool { Register(t) & 1 == 1 }

  /** Bit `z` of the constant of round `i` (Algorithm 6): set only at the places 2^j - 1. */
  function ConstantBit(i: nat, z: bv6): bool
  {
    match z
    case 0 => Rc(7 * i) case 1 => Rc(7 * i + 1) case 3 => Rc(7 * i + 2) case 7 => Rc(7 * i + 3)
    case 15 => Rc(7 * i + 4) case 31 => Rc(7 * i + 5) case 63 => Rc(7 * i + 6) case _ => false
  }

  function RoundOf(a: Array, i: nat): Array { IotaOf(ChiOf(PiOf(RhoOf(ThetaOf(a)))), i) }

  function RoundsOf(a: Array, n: nat): Array { if n == 0 then a else RoundOf(RoundsOf(a, n - 1), n - 1) }

  // ---- the sponge of section 4 ----

  /** The state after absorbing blocks of `r` bits. */
  function Absorbed(p: seq<bool>, r: nat): Array
    requires r > 0
    decreases |p|
  {
    if |p| < r then Blank else RoundsOf(XorBlock(Absorbed(p[..|p| - r], r), p[|p| - r..]), 24)
  }

  /** `d` is KECCAK with rate `r` of the message bits `m`, cut to its length: pad10*1, absorb, and read the state. */
  ghost predicate IsDigest(r: nat, m: seq<bool>, d: seq<bool>) { exists k: nat :: k < r && Squeezed(r, Padded(m, k), d) }

  function Padded(m: seq<bool>, k: nat): seq<bool> { m + [true] + seq(k, _ => false) + [true] }

  ghost predicate Squeezed(r: nat, p: seq<bool>, d: seq<bool>)
  {
    && r > 0 && |p| % r == 0 && |d| <= r
    && forall x: nat, y: nat, z: bv6 | x < 5 && y < 5 && Index(x, y, z) < |d| ::
         d[Index(x, y, z)] == At(Absorbed(p, r), x, y, z)
  }

  // ---- bits of lanes ----

  function BitW(w: Word, z: bv6): bool { (w >> z) & 1 == 1 }
  function Bit(v: Lane, z: bv6): bool { BitW(v.w, z) }

  /** Lane (x, y). */
  function LaneAt(s: State, x: nat, y: nat): Lane
  {
    if x == 0 then (if y == 0 then s.a00 else if y == 1 then s.a01 else if y == 2 then s.a02 else if y == 3 then s.a03 else s.a04)
    else if x == 1 then (if y == 0 then s.a10 else if y == 1 then s.a11 else if y == 2 then s.a12 else if y == 3 then s.a13 else s.a14)
    else if x == 2 then (if y == 0 then s.a20 else if y == 1 then s.a21 else if y == 2 then s.a22 else if y == 3 then s.a23 else s.a24)
    else if x == 3 then (if y == 0 then s.a30 else if y == 1 then s.a31 else if y == 2 then s.a32 else if y == 3 then s.a33 else s.a34)
    else (if y == 0 then s.a40 else if y == 1 then s.a41 else if y == 2 then s.a42 else if y == 3 then s.a43 else s.a44)
  }

  function BitOf(s: State, x: nat, y: nat, z: bv6): bool { Bit(LaneAt(s, x, y), z) }

  /** The lanes hold the bits of the array. */
  ghost predicate Holds(s: State, a: Array) { forall x: nat, y: nat, z: bv6 | x < 5 && y < 5 :: At(a, x, y, z) == BitOf(s, x, y, z) }

  lemma HoldsBit(s: State, a: Array, x: nat, y: nat, z: bv6)
    requires Holds(s, a) && x < 5 && y < 5
    ensures At(a, x, y, z) == BitOf(s, x, y, z)
  {}

  lemma HoldsIf(s: State, a: Array)
    requires forall x: nat, y: nat, z: bv6 | x < 5 && y < 5 :: At(a, x, y, z) == BitOf(s, x, y, z)
    ensures Holds(s, a)
  {}

  lemma XorRaw(a: Word, b: Word, z: bv6)
    ensures (((a ^ b) >> z) & 1 == 1) == (((a >> z) & 1 == 1) != ((b >> z) & 1 == 1))
  {}

  lemma XorBitW(a: Word, b: Word, z: bv6)
    ensures BitW(AddW(a, b), z) == (BitW(a, z) != BitW(b, z))
  {
    hide AddW;
    AddIsW(a, b);
    XorRaw(a, b, z);
  }

  function AndNot(b: Word, c: Word): Word { !b & c }

  lemma NotBitW(b: Word, z: bv6)
    ensures BitW(!b, z) == !BitW(b, z)
  {}

  lemma AndBitW(b: Word, c: Word, z: bv6)
    ensures BitW(b & c, z) == (BitW(b, z) && BitW(c, z))
  {}

  lemma AndNotBit(b: Word, c: Word, z: bv6)
    ensures BitW(AndNot(b, c), z) == (!BitW(b, z) && BitW(c, z))
  {
    hide BitW;
    AndBitW(!b, c, z);
    NotBitW(b, z);
  }

  lemma ChiForm(a: Word, b: Word, c: Word)
    ensures ChiW(a, b, c) == AddW(a, AndNot(b, c))
  {
    hide AddW, ChiW;
    ChiAddW(a, b, c);
  }

  lemma AddBit(a: Lane, b: Lane, z: bv6)
    ensures Bit(Add(a, b), z) == (Bit(a, z) != Bit(b, z))
  {
    hide BitW, AddW;
    XorBitW(a.w, b.w, z);
  }

  lemma ChiBitW(a: Word, b: Word, c: Word, z: bv6)
    ensures BitW(ChiW(a, b, c), z) == (BitW(a, z) != (!BitW(b, z) && BitW(c, z)))
  {
    hide BitW, AddW, ChiW, AndNot;
    ChiForm(a, b, c);
    XorBitW(a, AndNot(b, c), z);
    AndNotBit(b, c, z);
  }

  lemma ChiBit(a: Lane, b: Lane, c: Lane, z: bv6)
    ensures Bit(ChiLane(a, b, c), z) == (Bit(a, z) != (!Bit(b, z) && Bit(c, z)))
  {
    hide BitW, ChiW;
    ChiBitW(a.w, b.w, c.w, z);
  }

  // ---- theta ----

  function ColumnLane(s: State, x: nat): Lane { Parity(LaneAt(s, x, 0), LaneAt(s, x, 1), LaneAt(s, x, 2), LaneAt(s, x, 3), LaneAt(s, x, 4)) }

  lemma ThetaLane(s: State, x: nat, y: nat)
    requires x < 5 && y < 5
    ensures LaneAt(KeccakF.Theta(s), x, y) == Add(LaneAt(s, x, y), Effect(ColumnLane(s, (x + 4) % 5), ColumnLane(s, (x + 1) % 5)))
  {
    hide Add, Effect, Parity;
  }

  lemma ParityBit(l0: Lane, l1: Lane, l2: Lane, l3: Lane, l4: Lane, z: bv6)
    ensures Bit(Parity(l0, l1, l2, l3, l4), z) == ((((Bit(l0, z) != Bit(l1, z)) != Bit(l2, z)) != Bit(l3, z)) != Bit(l4, z))
  {
    hide Bit, Add;
    AddBit(l0, l1, z);
    AddBit(Add(l0, l1), l2, z);
    AddBit(Add(Add(l0, l1), l2), l3, z);
    AddBit(Add(Add(Add(l0, l1), l2), l3), l4, z);
  }

  lemma ColumnBit(s: State, a: Array, x: nat, z: bv6)
    requires Holds(s, a) && x < 5
    ensures Column(a, x, z) == Bit(ColumnLane(s, x), z)
  {
    hide Bit, LaneAt, Parity, At;
    ParityBit(LaneAt(s, x, 0), LaneAt(s, x, 1), LaneAt(s, x, 2), LaneAt(s, x, 3), LaneAt(s, x, 4), z);
  }

  lemma EffectBit(l: Lane, c: Lane, d: Lane, z: bv6)
    ensures Bit(Add(l, Effect(c, d)), z) == (Bit(l, z) != (Bit(c, z) != Bit(d, z - 1)))
  {
    hide Bit, Add, Rol;
    AddBit(l, Effect(c, d), z);
    AddBit(c, Rol(d, 1), z);
    RolBit1(d, z);
  }

  lemma AtTheta(a: Array, x: nat, y: nat, z: bv6)
    ensures At(ThetaOf(a), x, y, z) == (At(a, x, y, z) != (Column(a, (x + 4) % 5, z) != Column(a, (x + 1) % 5, z - 1)))
  {
    hide Column;
  }

  lemma ThetaHolds(s: State, a: Array)
    requires Holds(s, a)
    ensures Holds(KeccakF.Theta(s), ThetaOf(a))
  {
    hide Holds, At, Bit, LaneAt, KeccakF.Theta, Add, Effect, ColumnLane, Column;
    forall x: nat, y: nat, z: bv6 | x < 5 && y < 5 ensures At(ThetaOf(a), x, y, z) == BitOf(KeccakF.Theta(s), x, y, z)
    {
      AtTheta(a, x, y, z);
      ThetaLane(s, x, y);
      EffectBit(LaneAt(s, x, y), ColumnLane(s, (x + 4) % 5), ColumnLane(s, (x + 1) % 5), z);
      HoldsBit(s, a, x, y, z);
      ColumnBit(s, a, (x + 4) % 5, z);
      ColumnBit(s, a, (x + 1) % 5, z - 1);
    }
    HoldsIf(KeccakF.Theta(s), ThetaOf(a));
  }

  // ---- rho ----

  /** When rho visits a place. */
  function Time(x: nat, y: nat): nat
  {
    match (x, y)
    case (0, 1) => 7
    case (0, 2) => 1
    case (0, 3) => 13
    case (0, 4) => 19
    case (1, 0) => 0
    case (1, 1) => 23
    case (1, 2) => 3
    case (1, 3) => 8
    case (1, 4) => 10
    case (2, 0) => 18
    case (2, 1) => 2
    case (2, 2) => 17
    case (2, 3) => 4
    case (2, 4) => 21
    case (3, 0) => 6
    case (3, 1) => 9
    case (3, 2) => 16
    case (3, 3) => 5
    case (3, 4) => 14
    case (4, 0) => 12
    case (4, 1) => 22
    case (4, 2) => 20
    case (4, 3) => 15
    case (4, 4) => 11
    case _ => 24
  }

  lemma Places()
    ensures Place(0) == (1, 0) && Place(1) == (0, 2) && Place(2) == (2, 1) && Place(3) == (1, 2) && Place(4) == (2, 3) && Place(5) == (3, 3)
    ensures Place(6) == (3, 0) && Place(7) == (0, 1) && Place(8) == (1, 3) && Place(9) == (3, 1) && Place(10) == (1, 4) && Place(11) == (4, 4)
    ensures Place(12) == (4, 0) && Place(13) == (0, 3) && Place(14) == (3, 4) && Place(15) == (4, 3) && Place(16) == (3, 2) && Place(17) == (2, 2)
    ensures Place(18) == (2, 0) && Place(19) == (0, 4) && Place(20) == (4, 2) && Place(21) == (2, 4) && Place(22) == (4, 1) && Place(23) == (1, 1)
  {}

  lemma PlaceTimes(t: nat)
    requires t < 24
    ensures var (x, y) := Place(t); x < 5 && y < 5 && (x, y) != (0, 0) && Time(x, y) == t
  {
    Places();
    hide Place;
  }

  lemma {:induction false} OffsetAfter(x: nat, y: nat, u: nat, t: nat)
    requires u <= t < 24 && Place(t) == (x, y)
    ensures OffsetFrom(x, y, u) == (t + 1) * (t + 2) / 2
    decreases t - u
  {
    hide Place, Time;
    PlaceTimes(u);
    PlaceTimes(t);
    if u < t { OffsetAfter(x, y, u + 1, t); }
  }

  lemma {:induction false} NeverPlaced(u: nat)
    requires u <= 24
    ensures OffsetFrom(0, 0, u) == 0
    decreases 24 - u
  {
    hide Place, Time;
    if u < 24 {
      PlaceTimes(u);
      NeverPlaced(u + 1);
    }
  }

  lemma PlaceAt(x: nat, y: nat)
    requires x < 5 && y < 5 && (x, y) != (0, 0)
    ensures Time(x, y) < 24 && Place(Time(x, y)) == (x, y)
  {
    Places();
    hide Place;
  }

  lemma Modulos0()
    ensures Modulo64(0) == 0 && Modulo64(1) == 1 && Modulo64(3) == 3
  {}

  lemma Modulos1()
    ensures Modulo64(6) == 6 && Modulo64(10) == 10 && Modulo64(15) == 15
  {}

  lemma Modulos2()
    ensures Modulo64(21) == 21 && Modulo64(28) == 28 && Modulo64(36) == 36
  {}

  lemma Modulos3()
    ensures Modulo64(45) == 45 && Modulo64(55) == 55 && Modulo64(66) == 2
  {}

  lemma Modulos4()
    ensures Modulo64(78) == 14 && Modulo64(91) == 27 && Modulo64(105) == 41
  {}

  lemma Modulos5()
    ensures Modulo64(120) == 56 && Modulo64(136) == 8 && Modulo64(153) == 25
  {}

  lemma Modulos6()
    ensures Modulo64(171) == 43 && Modulo64(190) == 62 && Modulo64(210) == 18
  {}

  lemma Modulos7()
    ensures Modulo64(231) == 39 && Modulo64(253) == 61 && Modulo64(276) == 20
  {}

  lemma Modulos8()
    ensures Modulo64(300) == 44
  {}

  function Triangle(x: nat, y: nat): nat
  {
    var t := Time(x, y);
    if t >= 24 then 0 else (t + 1) * (t + 2) / 2
  }

  lemma OffsetIs(x: nat, y: nat)
    requires x < 5 && y < 5
    ensures Offset(x, y) == Modulo64(Triangle(x, y))
  {
    hide Modulo64;
    if (x, y) == (0, 0) {
      NeverPlaced(0);
    } else {
      hide Place, OffsetFrom;
      PlaceAt(x, y);
      OffsetAfter(x, y, 0, Time(x, y));
    }
  }

  lemma Triangles()
    ensures Triangle(0, 0) == 0 && Triangle(0, 1) == 36 && Triangle(0, 2) == 3 && Triangle(0, 3) == 105 && Triangle(0, 4) == 210
    ensures Triangle(1, 0) == 1 && Triangle(1, 1) == 300 && Triangle(1, 2) == 10 && Triangle(1, 3) == 45 && Triangle(1, 4) == 66
    ensures Triangle(2, 0) == 190 && Triangle(2, 1) == 6 && Triangle(2, 2) == 171 && Triangle(2, 3) == 15 && Triangle(2, 4) == 253
    ensures Triangle(3, 0) == 28 && Triangle(3, 1) == 55 && Triangle(3, 2) == 153 && Triangle(3, 3) == 21 && Triangle(3, 4) == 120
    ensures Triangle(4, 0) == 91 && Triangle(4, 1) == 276 && Triangle(4, 2) == 231 && Triangle(4, 3) == 136 && Triangle(4, 4) == 78
  {}

  lemma OffsetTable(x: nat, y: nat)
    requires x < 5 && y < 5
    ensures Offset(x, y) == Turn(x, y)
  {
    hide Offset, Modulo64, Triangle;
    OffsetIs(x, y);
    Triangles();
    Modulos0();
    Modulos1();
    Modulos2();
    Modulos3();
    Modulos4();
    Modulos5();
    Modulos6();
    Modulos7();
    Modulos8();
  }

  /** The offsets in a table. */
  function Turn(x: nat, y: nat): bv6
  {
    if x == 0 then (if y == 0 then 0 else if y == 1 then 36 else if y == 2 then 3 else if y == 3 then 41 else 18)
    else if x == 1 then (if y == 0 then 1 else if y == 1 then 44 else if y == 2 then 10 else if y == 3 then 45 else 2)
    else if x == 2 then (if y == 0 then 62 else if y == 1 then 6 else if y == 2 then 43 else if y == 3 then 15 else 61)
    else if x == 3 then (if y == 0 then 28 else if y == 1 then 55 else if y == 2 then 25 else if y == 3 then 21 else 56)
    else (if y == 0 then 27 else if y == 1 then 20 else if y == 2 then 39 else if y == 3 then 8 else 14)
  }

  lemma RhoLane(s: State, x: nat, y: nat)
    requires x < 5 && y < 5
    ensures LaneAt(KeccakF.Rho(s), x, y) == Rol(LaneAt(s, x, y), Turn(x, y))
  {
    hide Rol;
  }

  lemma RolBit0W(w: Word, z: bv6)
    ensures BitW(RolW(w, 0), z) == BitW(w, z - 0)
  {}

  lemma RolBit1W(w: Word, z: bv6)
    ensures BitW(RolW(w, 1), z) == BitW(w, z - 1)
  {}

  lemma RolBit2W(w: Word, z: bv6)
    ensures BitW(RolW(w, 2), z) == BitW(w, z - 2)
  {}

  lemma RolBit3W(w: Word, z: bv6)
    ensures BitW(RolW(w, 3), z) == BitW(w, z - 3)
  {}

  lemma RolBit6W(w: Word, z: bv6)
    ensures BitW(RolW(w, 6), z) == BitW(w, z - 6)
  {}

  lemma RolBit8W(w: Word, z: bv6)
    ensures BitW(RolW(w, 8), z) == BitW(w, z - 8)
  {}

  lemma RolBit10W(w: Word, z: bv6)
    ensures BitW(RolW(w, 10), z) == BitW(w, z - 10)
  {}

  lemma RolBit14W(w: Word, z: bv6)
    ensures BitW(RolW(w, 14), z) == BitW(w, z - 14)
  {}

  lemma RolBit15W(w: Word, z: bv6)
    ensures BitW(RolW(w, 15), z) == BitW(w, z - 15)
  {}

  lemma RolBit18W(w: Word, z: bv6)
    ensures BitW(RolW(w, 18), z) == BitW(w, z - 18)
  {}

  lemma RolBit20W(w: Word, z: bv6)
    ensures BitW(RolW(w, 20), z) == BitW(w, z - 20)
  {}

  lemma RolBit21W(w: Word, z: bv6)
    ensures BitW(RolW(w, 21), z) == BitW(w, z - 21)
  {}

  lemma RolBit25W(w: Word, z: bv6)
    ensures BitW(RolW(w, 25), z) == BitW(w, z - 25)
  {}

  lemma RolBit27W(w: Word, z: bv6)
    ensures BitW(RolW(w, 27), z) == BitW(w, z - 27)
  {}

  lemma RolBit28W(w: Word, z: bv6)
    ensures BitW(RolW(w, 28), z) == BitW(w, z - 28)
  {}

  lemma RolBit36W(w: Word, z: bv6)
    ensures BitW(RolW(w, 36), z) == BitW(w, z - 36)
  {}

  lemma RolBit39W(w: Word, z: bv6)
    ensures BitW(RolW(w, 39), z) == BitW(w, z - 39)
  {}

  lemma RolBit41W(w: Word, z: bv6)
    ensures BitW(RolW(w, 41), z) == BitW(w, z - 41)
  {}

  lemma RolBit43W(w: Word, z: bv6)
    ensures BitW(RolW(w, 43), z) == BitW(w, z - 43)
  {}

  lemma RolBit44W(w: Word, z: bv6)
    ensures BitW(RolW(w, 44), z) == BitW(w, z - 44)
  {}

  lemma RolBit45W(w: Word, z: bv6)
    ensures BitW(RolW(w, 45), z) == BitW(w, z - 45)
  {}

  lemma RolBit55W(w: Word, z: bv6)
    ensures BitW(RolW(w, 55), z) == BitW(w, z - 55)
  {}

  lemma RolBit56W(w: Word, z: bv6)
    ensures BitW(RolW(w, 56), z) == BitW(w, z - 56)
  {}

  lemma RolBit61W(w: Word, z: bv6)
    ensures BitW(RolW(w, 61), z) == BitW(w, z - 61)
  {}

  lemma RolBit62W(w: Word, z: bv6)
    ensures BitW(RolW(w, 62), z) == BitW(w, z - 62)
  {}

  lemma RolBit1(v: Lane, z: bv6)
    ensures Bit(Rol(v, 1), z) == Bit(v, z - 1)
  {
    hide RolW, BitW;
    RolBit1W(v.w, z);
  }

  lemma TurnBit0(v: Lane, y: nat, z: bv6)
    requires y < 5
    ensures Bit(Rol(v, Turn(0, y)), z) == Bit(v, z - Turn(0, y))
  {
    hide RolW, BitW;
    if y == 0 { RolBit0W(v.w, z); }
    else if y == 1 { RolBit36W(v.w, z); }
    else if y == 2 { RolBit3W(v.w, z); }
    else if y == 3 { RolBit41W(v.w, z); }
    else { RolBit18W(v.w, z); }
  }

  lemma TurnBit1(v: Lane, y: nat, z: bv6)
    requires y < 5
    ensures Bit(Rol(v, Turn(1, y)), z) == Bit(v, z - Turn(1, y))
  {
    hide RolW, BitW;
    if y == 0 { RolBit1W(v.w, z); }
    else if y == 1 { RolBit44W(v.w, z); }
    else if y == 2 { RolBit10W(v.w, z); }
    else if y == 3 { RolBit45W(v.w, z); }
    else { RolBit2W(v.w, z); }
  }

  lemma TurnBit2(v: Lane, y: nat, z: bv6)
    requires y < 5
    ensures Bit(Rol(v, Turn(2, y)), z) == Bit(v, z - Turn(2, y))
  {
    hide RolW, BitW;
    if y == 0 { RolBit62W(v.w, z); }
    else if y == 1 { RolBit6W(v.w, z); }
    else if y == 2 { RolBit43W(v.w, z); }
    else if y == 3 { RolBit15W(v.w, z); }
    else { RolBit61W(v.w, z); }
  }

  lemma TurnBit3(v: Lane, y: nat, z: bv6)
    requires y < 5
    ensures Bit(Rol(v, Turn(3, y)), z) == Bit(v, z - Turn(3, y))
  {
    hide RolW, BitW;
    if y == 0 { RolBit28W(v.w, z); }
    else if y == 1 { RolBit55W(v.w, z); }
    else if y == 2 { RolBit25W(v.w, z); }
    else if y == 3 { RolBit21W(v.w, z); }
    else { RolBit56W(v.w, z); }
  }

  lemma TurnBit4(v: Lane, y: nat, z: bv6)
    requires y < 5
    ensures Bit(Rol(v, Turn(4, y)), z) == Bit(v, z - Turn(4, y))
  {
    hide RolW, BitW;
    if y == 0 { RolBit27W(v.w, z); }
    else if y == 1 { RolBit20W(v.w, z); }
    else if y == 2 { RolBit39W(v.w, z); }
    else if y == 3 { RolBit8W(v.w, z); }
    else { RolBit14W(v.w, z); }
  }

  lemma TurnBit(v: Lane, x: nat, y: nat, z: bv6)
    requires x < 5 && y < 5
    ensures Bit(Rol(v, Turn(x, y)), z) == Bit(v, z - Turn(x, y))
  {
    hide *;
    if x == 0 { TurnBit0(v, y, z); }
    else if x == 1 { TurnBit1(v, y, z); }
    else if x == 2 { TurnBit2(v, y, z); }
    else if x == 3 { TurnBit3(v, y, z); }
    else { TurnBit4(v, y, z); }
  }

  lemma AtRho(a: Array, x: nat, y: nat, z: bv6)
    ensures At(RhoOf(a), x, y, z) == At(a, x, y, z - Offset(x, y))
  {
    hide Offset;
  }

  lemma RhoHolds(s: State, a: Array)
    requires Holds(s, a)
    ensures Holds(KeccakF.Rho(s), RhoOf(a))
  {
    hide Holds, At, Bit, LaneAt, KeccakF.Rho, Rol, Turn, Offset;
    forall x: nat, y: nat, z: bv6 | x < 5 && y < 5 ensures At(RhoOf(a), x, y, z) == BitOf(KeccakF.Rho(s), x, y, z)
    {
      AtRho(a, x, y, z);
      RhoLane(s, x, y);
      OffsetTable(x, y);
      TurnBit(LaneAt(s, x, y), x, y, z);
      HoldsBit(s, a, x, y, z - Offset(x, y));
    }
    HoldsIf(KeccakF.Rho(s), RhoOf(a));
  }

  // ---- pi, chi and iota ----

  lemma PiLane(s: State, x: nat, y: nat)
    requires x < 5 && y < 5
    ensures LaneAt(KeccakF.Pi(s), x, y) == LaneAt(s, (x + 3 * y) % 5, x)
  {}

  lemma AtPi(a: Array, x: nat, y: nat, z: bv6)
    ensures At(PiOf(a), x, y, z) == At(a, (x + 3 * y) % 5, x, z)
  {}

  lemma PiHolds(s: State, a: Array)
    requires Holds(s, a)
    ensures Holds(KeccakF.Pi(s), PiOf(a))
  {
    hide Holds, At, Bit, LaneAt, KeccakF.Pi;
    forall x: nat, y: nat, z: bv6 | x < 5 && y < 5 ensures At(PiOf(a), x, y, z) == BitOf(KeccakF.Pi(s), x, y, z)
    {
      AtPi(a, x, y, z);
      PiLane(s, x, y);
      HoldsBit(s, a, (x + 3 * y) % 5, x, z);
    }
    HoldsIf(KeccakF.Pi(s), PiOf(a));
  }

  lemma ChiLaneAt(s: State, x: nat, y: nat)
    requires x < 5 && y < 5
    ensures LaneAt(KeccakF.Chi(s), x, y) == ChiLane(LaneAt(s, x, y), LaneAt(s, (x + 1) % 5, y), LaneAt(s, (x + 2) % 5, y))
  {
    hide ChiLane;
  }

  lemma AtChi(a: Array, x: nat, y: nat, z: bv6)
    ensures At(ChiOf(a), x, y, z) == (At(a, x, y, z) != (!At(a, (x + 1) % 5, y, z) && At(a, (x + 2) % 5, y, z)))
  {}

  lemma ChiHolds(s: State, a: Array)
    requires Holds(s, a)
    ensures Holds(KeccakF.Chi(s), ChiOf(a))
  {
    hide Holds, At, Bit, LaneAt, KeccakF.Chi, ChiLane;
    forall x: nat, y: nat, z: bv6 | x < 5 && y < 5 ensures At(ChiOf(a), x, y, z) == BitOf(KeccakF.Chi(s), x, y, z)
    {
      AtChi(a, x, y, z);
      ChiLaneAt(s, x, y);
      ChiBit(LaneAt(s, x, y), LaneAt(s, (x + 1) % 5, y), LaneAt(s, (x + 2) % 5, y), z);
      HoldsBit(s, a, x, y, z);
      HoldsBit(s, a, (x + 1) % 5, y, z);
      HoldsBit(s, a, (x + 2) % 5, y, z);
    }
    HoldsIf(KeccakF.Chi(s), ChiOf(a));
  }

  /** The register at the start of each round. */
  function Start(i: nat): bv8
  {
    match i
    case 0 => 0x01
    case 1 => 0x80
    case 2 => 0xD8
    case 3 => 0x1A
    case 4 => 0xDF
    case 5 => 0x09
    case 6 => 0x35
    case 7 => 0x4F
    case 8 => 0xCA
    case 9 => 0x70
    case 10 => 0x41
    case 11 => 0xEC
    case 12 => 0xD5
    case 13 => 0xCD
    case 14 => 0x63
    case 15 => 0xAB
    case 16 => 0xAA
    case 17 => 0x2A
    case 18 => 0xF2
    case 19 => 0xE8
    case 20 => 0x37
    case 21 => 0x3E
    case 22 => 0x0B
    case _ => 0x44
  }

  lemma SevenClocks(i: nat)
    requires i < 23
    ensures Clock(Clock(Clock(Clock(Clock(Clock(Clock(Start(i)))))))) == Start(i + 1)
  {}

  lemma {:induction false} StartIs(i: nat)
    requires i < 24
    ensures Register(7 * i) == Start(i)
  {
    hide Clock, Start;
    if i == 0 {
      assert Start(0) == 1 by { StartZero(); }
    } else {
      StartIs(i - 1);
      SevenClocks(i - 1);
      SevenLater(7 * (i - 1));
    }
  }

  lemma StartZero()
    ensures Start(0) == 1
  {}

  lemma SevenLater(t: nat)
    ensures Register(t + 1) == Clock(Register(t)) && Register(t + 2) == Clock(Register(t + 1)) && Register(t + 3) == Clock(Register(t + 2))
    ensures Register(t + 4) == Clock(Register(t + 3)) && Register(t + 5) == Clock(Register(t + 4))
    ensures Register(t + 6) == Clock(Register(t + 5)) && Register(t + 7) == Clock(Register(t + 6))
  {
    hide Clock;
  }

  /** What the constant of a round is made of, given the register at its start. */
  function Spread7(r: bv8, z: bv6): bool
  {
    var r1 := Clock(r);
    var r2 := Clock(r1);
    var r3 := Clock(r2);
    var r4 := Clock(r3);
    var r5 := Clock(r4);
    var r6 := Clock(r5);
    match z
    case 0 => r & 1 == 1 case 1 => r1 & 1 == 1 case 3 => r2 & 1 == 1 case 7 => r3 & 1 == 1
    case 15 => r4 & 1 == 1 case 31 => r5 & 1 == 1 case 63 => r6 & 1 == 1 case _ => false
  }

  lemma ConstantSpread(i: nat, z: bv6)
    requires i < 24
    ensures ConstantBit(i, z) == Spread7(Start(i), z)
  {
    hide Clock, Start, Register;
    StartIs(i);
    SevenLater(7 * i);
  }

  /** A round constant from the register at the start of its round. */
  function Spread(r: bv8): Word
  {
    var r1 := Clock(r);
    var r2 := Clock(r1);
    var r3 := Clock(r2);
    var r4 := Clock(r3);
    var r5 := Clock(r4);
    var r6 := Clock(r5);
    ((r & 1) as Word) | (((r1 & 1) as Word) << 1) | (((r2 & 1) as Word) << 3) | (((r3 & 1) as Word) << 7)
    | (((r4 & 1) as Word) << 15) | (((r5 & 1) as Word) << 31) | (((r6 & 1) as Word) << 63)
  }

  lemma SevenBits(a: bv8, b: bv8, c: bv8, d: bv8, e: bv8, f: bv8, g: bv8, z: bv6)
    ensures BitW(((a & 1) as Word) | (((b & 1) as Word) << 1) | (((c & 1) as Word) << 3) | (((d & 1) as Word) << 7)
                 | (((e & 1) as Word) << 15) | (((f & 1) as Word) << 31) | (((g & 1) as Word) << 63), z) ==
            match z
            case 0 => a & 1 == 1 case 1 => b & 1 == 1 case 3 => c & 1 == 1 case 7 => d & 1 == 1
            case 15 => e & 1 == 1 case 31 => f & 1 == 1 case 63 => g & 1 == 1 case _ => false
  {}

  lemma SpreadBit(r: bv8, z: bv6)
    ensures BitW(Spread(r), z) == Spread7(r, z)
  {
    hide Clock, BitW;
    var r1 := Clock(r);
    var r2 := Clock(r1);
    var r3 := Clock(r2);
    var r4 := Clock(r3);
    var r5 := Clock(r4);
    SevenBits(r, r1, r2, r3, r4, r5, Clock(r5), z);
  }

  lemma ConstantsSpread(i: nat)
    requires i < 24
    ensures RC(i).w == Spread(Start(i))
  {}

  lemma RCSpread(i: nat, z: bv6)
    requires i < 24
    ensures Bit(RC(i), z) == Spread7(Start(i), z)
  {
    hide BitW, RC, Spread, Start, Spread7;
    ConstantsSpread(i);
    SpreadBit(Start(i), z);
  }

  lemma IotaBit(s: State, k: Lane, x: nat, y: nat, z: bv6)
    ensures BitOf(KeccakF.Iota(s, k), x, y, z) == if x == 0 && y == 0 then BitOf(s, x, y, z) != Bit(k, z) else BitOf(s, x, y, z)
  {
    hide Bit, Add;
    if x == 0 && y == 0 { AddBit(s.a00, k, z); }
  }

  lemma AtIota(a: Array, i: nat, x: nat, y: nat, z: bv6)
    ensures At(IotaOf(a, i), x, y, z) == if x == 0 && y == 0 then At(a, x, y, z) != ConstantBit(i, z) else At(a, x, y, z)
  {
    hide ConstantBit;
  }

  lemma IotaHolds(s: State, a: Array, i: nat)
    requires Holds(s, a) && i < 24
    ensures Holds(KeccakF.Iota(s, RC(i)), IotaOf(a, i))
  {
    hide *;
    forall x: nat, y: nat, z: bv6 | x < 5 && y < 5 ensures At(IotaOf(a, i), x, y, z) == BitOf(KeccakF.Iota(s, RC(i)), x, y, z)
    {
      AtIota(a, i, x, y, z);
      IotaBit(s, RC(i), x, y, z);
      HoldsBit(s, a, x, y, z);
      ConstantSpread(i, z);
      RCSpread(i, z);
    }
    HoldsIf(KeccakF.Iota(s, RC(i)), IotaOf(a, i));
  }

  lemma RoundHolds(s: State, a: Array, i: nat)
    requires Holds(s, a) && i < 24
    ensures Holds(KeccakF.Round(s, RC(i)), RoundOf(a, i))
  {
    RoundParts(s, RC(i));
    hide Holds, KeccakF.Round, KeccakF.Theta, KeccakF.Rho, KeccakF.Pi, KeccakF.Chi, KeccakF.Iota, RC;
    ThetaHolds(s, a);
    var s1, a1 := KeccakF.Theta(s), ThetaOf(a);
    RhoHolds(s1, a1);
    var s2, a2 := KeccakF.Rho(s1), RhoOf(a1);
    PiHolds(s2, a2);
    var s3, a3 := KeccakF.Pi(s2), PiOf(a2);
    ChiHolds(s3, a3);
    IotaHolds(KeccakF.Chi(s3), ChiOf(a3), i);
  }

  lemma RoundParts(s: State, k: Lane)
    ensures KeccakF.Round(s, k) == KeccakF.Iota(KeccakF.Chi(KeccakF.Pi(KeccakF.Rho(KeccakF.Theta(s)))), k)
  {
    hide KeccakF.Theta, KeccakF.Rho, KeccakF.Pi, KeccakF.Chi, KeccakF.Iota;
  }

  /** The plain rounds on lanes are the rounds of the standard on bits. */
  lemma {:induction false} RoundsHold(s: State, a: Array, n: nat)
    requires Holds(s, a) && n <= 24
    ensures Holds(PlainRounds(s, n), RoundsOf(a, n))
  {
    hide Holds, KeccakF.Round, RoundOf, RC;
    if n > 0 {
      RoundsHold(s, a, n - 1);
      RoundHolds(PlainRounds(s, n - 1), RoundsOf(a, n - 1), n - 1);
    }
  }
}
