/** Keccak-f[1600] with the "lane complement" optimisation: six lanes are kept complemented and the step
    pi is done by renaming variables; both are proved to leave the meaning of every round alone. */
module KeccakF {
  /** A lane: a word of 64 bits. */
  datatype Lane = Lane(w: bv64)

  /** The 25 lanes; `axy` is lane (x, y). */
  datatype State = State(
    a00: Lane, a01: Lane, a02: Lane, a03: Lane, a04: Lane, a10: Lane, a11: Lane, a12: Lane, a13: Lane, a14: Lane,
    a20: Lane, a21: Lane, a22: Lane, a23: Lane, a24: Lane, a30: Lane, a31: Lane, a32: Lane, a33: Lane, a34: Lane,
    a40: Lane, a41: Lane, a42: Lane, a43: Lane, a44: Lane)

  type Word = bv64

  function RolW(v: Word, n: bv6): Word { (v << n) | (v >> (64 - (n as bv7))) }
  function NotW(v: Word): Word { !v }
  function AddW(a: Word, b: Word): Word { a ^ b }
  function ChiW(a: Word, b: Word, c: Word): Word { a ^ (!b & c) }
  function OrW(a: Word, b: Word, c: Word): Word { a ^ (b | c) }
  function AndW(a: Word, b: Word, c: Word): Word { a ^ (b & c) }

  function Rol(v: Lane, n: bv6): Lane { Lane(RolW(v.w, n)) }
  function Not(v: Lane): Lane { Lane(NotW(v.w)) }

  // ---- the round of sections 3.2.1 to 3.2.5 of FIPS 202, lane by lane ----

  function Parity(c0: Lane, c1: Lane, c2: Lane, c3: Lane, c4: Lane): Lane { Add(Add(Add(Add(c0, c1), c2), c3), c4) }
  function Effect(c: Lane, d: Lane): Lane { Add(c, Rol(d, 1)) }
  function Add(a: Lane, b: Lane): Lane { Lane(AddW(a.w, b.w)) }
  function ChiLane(a: Lane, b: Lane, c: Lane): Lane { Lane(ChiW(a.w, b.w, c.w)) }

  function Theta(s: State): State
  {
    var c0 := Parity(s.a00, s.a01, s.a02, s.a03, s.a04);
    var c1 := Parity(s.a10, s.a11, s.a12, s.a13, s.a14);
    var c2 := Parity(s.a20, s.a21, s.a22, s.a23, s.a24);
    var c3 := Parity(s.a30, s.a31, s.a32, s.a33, s.a34);
    var c4 := Parity(s.a40, s.a41, s.a42, s.a43, s.a44);
    var d0, d1, d2, d3, d4 := Effect(c4, c1), Effect(c0, c2), Effect(c1, c3), Effect(c2, c4), Effect(c3, c0);
    State(
      Add(s.a00, d0), Add(s.a01, d0), Add(s.a02, d0), Add(s.a03, d0), Add(s.a04, d0), Add(s.a10, d1),
      Add(s.a11, d1), Add(s.a12, d1), Add(s.a13, d1), Add(s.a14, d1), Add(s.a20, d2), Add(s.a21, d2),
      Add(s.a22, d2), Add(s.a23, d2), Add(s.a24, d2), Add(s.a30, d3), Add(s.a31, d3), Add(s.a32, d3),
      Add(s.a33, d3), Add(s.a34, d3), Add(s.a40, d4), Add(s.a41, d4), Add(s.a42, d4), Add(s.a43, d4), Add(s.a44, d4))
  }

  function Rho(s: State): State
  {
    State(
      Rol(s.a00, 0), Rol(s.a01, 36), Rol(s.a02, 3), Rol(s.a03, 41), Rol(s.a04, 18), Rol(s.a10, 1), Rol(s.a11, 44),
      Rol(s.a12, 10), Rol(s.a13, 45), Rol(s.a14, 2), Rol(s.a20, 62), Rol(s.a21, 6), Rol(s.a22, 43), Rol(s.a23, 15),
      Rol(s.a24, 61), Rol(s.a30, 28), Rol(s.a31, 55), Rol(s.a32, 25), Rol(s.a33, 21), Rol(s.a34, 56),
      Rol(s.a40, 27), Rol(s.a41, 20), Rol(s.a42, 39), Rol(s.a43, 8), Rol(s.a44, 14))
  }

  /** Lane (x, y) comes from lane (x + 3y, x). */
  function Pi(s: State): State
  {
    State(
      s.a00, s.a30, s.a10, s.a40, s.a20, s.a11, s.a41, s.a21, s.a01, s.a31, s.a22, s.a02, s.a32, s.a12, s.a42,
      s.a33, s.a13, s.a43, s.a23, s.a03, s.a44, s.a24, s.a04, s.a34, s.a14)
  }

  function Chi(s: State): State
  {
    State(
      ChiLane(s.a00, s.a10, s.a20), ChiLane(s.a01, s.a11, s.a21), ChiLane(s.a02, s.a12, s.a22),
      ChiLane(s.a03, s.a13, s.a23), ChiLane(s.a04, s.a14, s.a24), ChiLane(s.a10, s.a20, s.a30),
      ChiLane(s.a11, s.a21, s.a31), ChiLane(s.a12, s.a22, s.a32), ChiLane(s.a13, s.a23, s.a33),
      ChiLane(s.a14, s.a24, s.a34), ChiLane(s.a20, s.a30, s.a40), ChiLane(s.a21, s.a31, s.a41),
      ChiLane(s.a22, s.a32, s.a42), ChiLane(s.a23, s.a33, s.a43), ChiLane(s.a24, s.a34, s.a44),
      ChiLane(s.a30, s.a40, s.a00), ChiLane(s.a31, s.a41, s.a01), ChiLane(s.a32, s.a42, s.a02),
      ChiLane(s.a33, s.a43, s.a03), ChiLane(s.a34, s.a44, s.a04), ChiLane(s.a40, s.a00, s.a10),
      ChiLane(s.a41, s.a01, s.a11), ChiLane(s.a42, s.a02, s.a12), ChiLane(s.a43, s.a03, s.a13),
      ChiLane(s.a44, s.a04, s.a14))
  }

  function Iota(s: State, k: Lane): State { s.(a00 := Add(s.a00, k)) }

  function Round(s: State, k: Lane): State { Iota(Chi(Pi(Rho(Theta(s)))), k) }

  // ---- the macros ----

  function ThElt(c0: Lane, c1: Lane, c2: Lane, c3: Lane, c4: Lane, d0: Lane, d1: Lane, d2: Lane, d3: Lane, d4: Lane): Lane
  {
    Add(Add(Rol(Add(Add(Add(d0, d1), d4), Add(d2, d3)), 1), c4), Add(Add(c0, c1), Add(c2, c3)))
  }

  function ThetaMacro(b: State): State
  {
    var t0 := ThElt(b.a40, b.a41, b.a42, b.a43, b.a44, b.a10, b.a11, b.a12, b.a13, b.a14);
    var t1 := ThElt(b.a00, b.a01, b.a02, b.a03, b.a04, b.a20, b.a21, b.a22, b.a23, b.a24);
    var t2 := ThElt(b.a10, b.a11, b.a12, b.a13, b.a14, b.a30, b.a31, b.a32, b.a33, b.a34);
    var t3 := ThElt(b.a20, b.a21, b.a22, b.a23, b.a24, b.a40, b.a41, b.a42, b.a43, b.a44);
    var t4 := ThElt(b.a30, b.a31, b.a32, b.a33, b.a34, b.a00, b.a01, b.a02, b.a03, b.a04);
    State(
      Add(b.a00, t0), Add(b.a01, t0), Add(b.a02, t0), Add(b.a03, t0), Add(b.a04, t0), Add(b.a10, t1),
      Add(b.a11, t1), Add(b.a12, t1), Add(b.a13, t1), Add(b.a14, t1), Add(b.a20, t2), Add(b.a21, t2),
      Add(b.a22, t2), Add(b.a23, t2), Add(b.a24, t2), Add(b.a30, t3), Add(b.a31, t3), Add(b.a32, t3),
      Add(b.a33, t3), Add(b.a34, t3), Add(b.a40, t4), Add(b.a41, t4), Add(b.a42, t4), Add(b.a43, t4), Add(b.a44, t4))
  }

  function RhoMacro(b: State): State
  {
    State(
      b.a00, Rol(b.a01, 36), Rol(b.a02, 3), Rol(b.a03, 41), Rol(b.a04, 18), Rol(b.a10, 1), Rol(b.a11, 44),
      Rol(b.a12, 10), Rol(b.a13, 45), Rol(b.a14, 2), Rol(b.a20, 62), Rol(b.a21, 6), Rol(b.a22, 43), Rol(b.a23, 15),
      Rol(b.a24, 61), Rol(b.a30, 28), Rol(b.a31, 55), Rol(b.a32, 25), Rol(b.a33, 21), Rol(b.a34, 56),
      Rol(b.a40, 27), Rol(b.a41, 20), Rol(b.a42, 39), Rol(b.a43, 8), Rol(b.a44, 14))
  }

  function KhiXo(a: Lane, b: Lane, c: Lane): Lane { Lane(OrW(a.w, b.w, c.w)) }
  function KhiXa(a: Lane, b: Lane, c: Lane): Lane { Lane(AndW(a.w, b.w, c.w)) }

  function KhiMacro(b: State): State
  {
    var n0, n1, n2, n3, n4 := Not(b.a20), Not(b.a41), Not(b.a32), Not(b.a33), Not(b.a14);
    State(
      KhiXo(b.a00, b.a10, b.a20), KhiXo(b.a01, b.a11, b.a21), KhiXo(b.a02, b.a12, b.a22),
      KhiXa(b.a03, b.a13, b.a23), KhiXa(b.a04, n4, b.a24), KhiXo(b.a10, n0, b.a30), KhiXa(b.a11, b.a21, b.a31),
      KhiXa(b.a12, b.a22, b.a32), KhiXo(b.a13, b.a23, b.a33), KhiXo(n4, b.a24, b.a34), KhiXa(b.a20, b.a30, b.a40),
      KhiXo(b.a21, b.a31, n1), KhiXa(b.a22, n2, b.a42), KhiXo(b.a23, n3, b.a43), KhiXa(b.a24, b.a34, b.a44),
      KhiXo(b.a30, b.a40, b.a00), KhiXo(b.a31, b.a41, b.a01), KhiXo(n2, b.a42, b.a02), KhiXa(n3, b.a43, b.a03),
      KhiXo(b.a34, b.a44, b.a04), KhiXa(b.a40, b.a00, b.a10), KhiXa(b.a41, b.a01, b.a11),
      KhiXa(b.a42, b.a02, b.a12), KhiXo(b.a43, b.a03, b.a13), KhiXa(b.a44, b.a04, b.a14))
  }

  // ---- the renamings: which variable stands for which lane after so many rounds ----

  function P0(s: State): State
  {
    State(
      s.a00, s.a01, s.a02, s.a03, s.a04, s.a10, s.a11, s.a12, s.a13, s.a14, s.a20, s.a21, s.a22, s.a23, s.a24,
      s.a30, s.a31, s.a32, s.a33, s.a34, s.a40, s.a41, s.a42, s.a43, s.a44)
  }

  function P1(s: State): State
  {
    State(
      s.a00, s.a30, s.a10, s.a40, s.a20, s.a11, s.a41, s.a21, s.a01, s.a31, s.a22, s.a02, s.a32, s.a12, s.a42,
      s.a33, s.a13, s.a43, s.a23, s.a03, s.a44, s.a24, s.a04, s.a34, s.a14)
  }

  function P2(s: State): State
  {
    State(
      s.a00, s.a33, s.a11, s.a44, s.a22, s.a41, s.a24, s.a02, s.a30, s.a13, s.a32, s.a10, s.a43, s.a21, s.a04,
      s.a23, s.a01, s.a34, s.a12, s.a40, s.a14, s.a42, s.a20, s.a03, s.a31)
  }

  function P3(s: State): State
  {
    State(
      s.a00, s.a23, s.a41, s.a14, s.a32, s.a24, s.a42, s.a10, s.a33, s.a01, s.a43, s.a11, s.a34, s.a02, s.a20,
      s.a12, s.a30, s.a03, s.a21, s.a44, s.a31, s.a04, s.a22, s.a40, s.a13)
  }

  function P4(s: State): State
  {
    State(
      s.a00, s.a12, s.a24, s.a31, s.a43, s.a42, s.a04, s.a11, s.a23, s.a30, s.a34, s.a41, s.a03, s.a10, s.a22,
      s.a21, s.a33, s.a40, s.a02, s.a14, s.a13, s.a20, s.a32, s.a44, s.a01)
  }

  function P5(s: State): State
  {
    State(
      s.a00, s.a21, s.a42, s.a13, s.a34, s.a04, s.a20, s.a41, s.a12, s.a33, s.a03, s.a24, s.a40, s.a11, s.a32,
      s.a02, s.a23, s.a44, s.a10, s.a31, s.a01, s.a22, s.a43, s.a14, s.a30)
  }

  function P6(s: State): State
  {
    State(
      s.a00, s.a02, s.a04, s.a01, s.a03, s.a20, s.a22, s.a24, s.a21, s.a23, s.a40, s.a42, s.a44, s.a41, s.a43,
      s.a10, s.a12, s.a14, s.a11, s.a13, s.a30, s.a32, s.a34, s.a31, s.a33)
  }

  function P7(s: State): State
  {
    State(
      s.a00, s.a10, s.a20, s.a30, s.a40, s.a22, s.a32, s.a42, s.a02, s.a12, s.a44, s.a04, s.a14, s.a24, s.a34,
      s.a11, s.a21, s.a31, s.a41, s.a01, s.a33, s.a43, s.a03, s.a13, s.a23)
  }

  function P8(s: State): State
  {
    State(
      s.a00, s.a11, s.a22, s.a33, s.a44, s.a32, s.a43, s.a04, s.a10, s.a21, s.a14, s.a20, s.a31, s.a42, s.a03,
      s.a41, s.a02, s.a13, s.a24, s.a30, s.a23, s.a34, s.a40, s.a01, s.a12)
  }

  // ---- writing the lanes of a renamed state back to their variables ----

  function W0(l: State): State
  {
    State(
      l.a00, l.a01, l.a02, l.a03, l.a04, l.a10, l.a11, l.a12, l.a13, l.a14, l.a20, l.a21, l.a22, l.a23, l.a24,
      l.a30, l.a31, l.a32, l.a33, l.a34, l.a40, l.a41, l.a42, l.a43, l.a44)
  }

  function W1(l: State): State
  {
    State(
      l.a00, l.a13, l.a21, l.a34, l.a42, l.a02, l.a10, l.a23, l.a31, l.a44, l.a04, l.a12, l.a20, l.a33, l.a41,
      l.a01, l.a14, l.a22, l.a30, l.a43, l.a03, l.a11, l.a24, l.a32, l.a40)
  }

  function W2(l: State): State
  {
    State(
      l.a00, l.a31, l.a12, l.a43, l.a24, l.a21, l.a02, l.a33, l.a14, l.a40, l.a42, l.a23, l.a04, l.a30, l.a11,
      l.a13, l.a44, l.a20, l.a01, l.a32, l.a34, l.a10, l.a41, l.a22, l.a03)
  }

  function W3(l: State): State
  {
    State(
      l.a00, l.a14, l.a23, l.a32, l.a41, l.a12, l.a21, l.a30, l.a44, l.a03, l.a24, l.a33, l.a42, l.a01, l.a10,
      l.a31, l.a40, l.a04, l.a13, l.a22, l.a43, l.a02, l.a11, l.a20, l.a34)
  }

  function W4(l: State): State
  {
    State(
      l.a00, l.a44, l.a33, l.a22, l.a11, l.a23, l.a12, l.a01, l.a40, l.a34, l.a41, l.a30, l.a24, l.a13, l.a02,
      l.a14, l.a03, l.a42, l.a31, l.a20, l.a32, l.a21, l.a10, l.a04, l.a43)
  }

  function W5(l: State): State
  {
    State(
      l.a00, l.a40, l.a30, l.a20, l.a10, l.a33, l.a23, l.a13, l.a03, l.a43, l.a11, l.a01, l.a41, l.a31, l.a21,
      l.a44, l.a34, l.a24, l.a14, l.a04, l.a22, l.a12, l.a02, l.a42, l.a32)
  }

  function W6(l: State): State
  {
    State(
      l.a00, l.a03, l.a01, l.a04, l.a02, l.a30, l.a33, l.a31, l.a34, l.a32, l.a10, l.a13, l.a11, l.a14, l.a12,
      l.a40, l.a43, l.a41, l.a44, l.a42, l.a20, l.a23, l.a21, l.a24, l.a22)
  }

  function W7(l: State): State
  {
    State(
      l.a00, l.a34, l.a13, l.a42, l.a21, l.a01, l.a30, l.a14, l.a43, l.a22, l.a02, l.a31, l.a10, l.a44, l.a23,
      l.a03, l.a32, l.a11, l.a40, l.a24, l.a04, l.a33, l.a12, l.a41, l.a20)
  }

  function W8(l: State): State
  {
    State(
      l.a00, l.a43, l.a31, l.a24, l.a12, l.a13, l.a01, l.a44, l.a32, l.a20, l.a21, l.a14, l.a02, l.a40, l.a33,
      l.a34, l.a22, l.a10, l.a03, l.a41, l.a42, l.a30, l.a23, l.a11, l.a04)
  }

  // ---- complemented lanes ----

  /** Complemented between rounds. */
  function Between(s: State): State
  {
    State(
      s.a00, s.a01, s.a02, s.a03, Not(s.a04), Not(s.a10), s.a11, s.a12, s.a13, s.a14, Not(s.a20), s.a21,
      Not(s.a22), Not(s.a23), s.a24, s.a30, Not(s.a31), s.a32, s.a33, s.a34, s.a40, s.a41, s.a42, s.a43, s.a44)
  }

  /** Complemented after theta. */
  function Spread(s: State): State
  {
    State(
      Not(s.a00), Not(s.a01), Not(s.a02), Not(s.a03), s.a04, Not(s.a10), s.a11, s.a12, s.a13, s.a14, Not(s.a20),
      s.a21, Not(s.a22), Not(s.a23), s.a24, Not(s.a30), s.a31, Not(s.a32), Not(s.a33), Not(s.a34), s.a40, s.a41,
      s.a42, s.a43, s.a44)
  }

  /** Complemented before chi. */
  function Inner(s: State): State
  {
    State(
      Not(s.a00), Not(s.a01), Not(s.a02), s.a03, Not(s.a04), s.a10, s.a11, s.a12, Not(s.a13), s.a14, Not(s.a20),
      Not(s.a21), Not(s.a22), s.a23, s.a24, Not(s.a30), s.a31, s.a32, Not(s.a33), Not(s.a34), s.a40, s.a41, s.a42,
      Not(s.a43), s.a44)
  }

  // ---- identities of words ----

  lemma AddIsW(a: Word, b: Word)
    ensures AddW(a, b) == a ^ b
  {}

  lemma XoIsW(a: Word, b: Word, c: Word)
    ensures OrW(a, b, c) == a ^ (b | c)
  {}

  lemma ChiIsW(a: Word, b: Word, c: Word)
    ensures ChiW(a, b, c) == a ^ (!b & c)
  {}

  lemma XorAssocW(a: Word, b: Word, c: Word)
    ensures AddW(a ^ b, c) == AddW(a, b ^ c)
  {}

  lemma AddFlipRightW(a: Word, b: Word)
    ensures AddW(a, !b) == !AddW(a, b)
  {}

  lemma OrNot1W(a: Word, b: Word, c: Word)
    ensures (!a) ^ (b | !c) == a ^ (!b & c)
  {}

  lemma OrNot2W(a: Word, b: Word, c: Word)
    ensures a ^ (b | !c) == !(a ^ (!b & c))
  {}

  lemma NotNotW(a: Word)
    ensures NotW(NotW(a)) == a
  {}

  lemma RolZeroW(v: Word)
    ensures RolW(v, 0) == v
  {}

  lemma AddCommW(a: Word, b: Word)
    ensures AddW(a, b) == AddW(b, a)
  {}

  lemma AddAssocW(a: Word, b: Word, c: Word)
    ensures AddW(AddW(a, b), c) == AddW(a, AddW(b, c))
  {
    hide AddW;
    AddIsW(a, b);
    AddIsW(b, c);
    XorAssocW(a, b, c);
  }

  lemma AddNotW(a: Word, b: Word)
    ensures AddW(NotW(a), b) == NotW(AddW(a, b)) && AddW(a, NotW(b)) == NotW(AddW(a, b))
  {
    hide AddW;
    AddFlipW(a, b);
    AddFlipRightW(a, b);
  }

  lemma RolFlip1W(v: Word)
    ensures RolW(!v, 1) == !RolW(v, 1)
  {}

  lemma RolFlip36W(v: Word)
    ensures RolW(!v, 36) == !RolW(v, 36)
  {}

  lemma RolFlip3W(v: Word)
    ensures RolW(!v, 3) == !RolW(v, 3)
  {}

  lemma RolFlip41W(v: Word)
    ensures RolW(!v, 41) == !RolW(v, 41)
  {}

  lemma RolFlip62W(v: Word)
    ensures RolW(!v, 62) == !RolW(v, 62)
  {}

  lemma RolFlip43W(v: Word)
    ensures RolW(!v, 43) == !RolW(v, 43)
  {}

  lemma RolFlip15W(v: Word)
    ensures RolW(!v, 15) == !RolW(v, 15)
  {}

  lemma RolFlip28W(v: Word)
    ensures RolW(!v, 28) == !RolW(v, 28)
  {}

  lemma RolFlip25W(v: Word)
    ensures RolW(!v, 25) == !RolW(v, 25)
  {}

  lemma RolFlip21W(v: Word)
    ensures RolW(!v, 21) == !RolW(v, 21)
  {}

  lemma RolFlip56W(v: Word)
    ensures RolW(!v, 56) == !RolW(v, 56)
  {}

  lemma RolNot1W(v: Word)
    ensures RolW(NotW(v), 1) == NotW(RolW(v, 1))
  {
    hide RolW;
    RolFlip1W(v);
  }

  lemma RolNot3W(v: Word)
    ensures RolW(NotW(v), 3) == NotW(RolW(v, 3))
  {
    hide RolW;
    RolFlip3W(v);
  }

  lemma RolNot15W(v: Word)
    ensures RolW(NotW(v), 15) == NotW(RolW(v, 15))
  {
    hide RolW;
    RolFlip15W(v);
  }

  lemma RolNot21W(v: Word)
    ensures RolW(NotW(v), 21) == NotW(RolW(v, 21))
  {
    hide RolW;
    RolFlip21W(v);
  }

  lemma RolNot25W(v: Word)
    ensures RolW(NotW(v), 25) == NotW(RolW(v, 25))
  {
    hide RolW;
    RolFlip25W(v);
  }

  lemma RolNot28W(v: Word)
    ensures RolW(NotW(v), 28) == NotW(RolW(v, 28))
  {
    hide RolW;
    RolFlip28W(v);
  }

  lemma RolNot36W(v: Word)
    ensures RolW(NotW(v), 36) == NotW(RolW(v, 36))
  {
    hide RolW;
    RolFlip36W(v);
  }

  lemma RolNot41W(v: Word)
    ensures RolW(NotW(v), 41) == NotW(RolW(v, 41))
  {
    hide RolW;
    RolFlip41W(v);
  }

  lemma RolNot43W(v: Word)
    ensures RolW(NotW(v), 43) == NotW(RolW(v, 43))
  {
    hide RolW;
    RolFlip43W(v);
  }

  lemma RolNot56W(v: Word)
    ensures RolW(NotW(v), 56) == NotW(RolW(v, 56))
  {
    hide RolW;
    RolFlip56W(v);
  }

  lemma RolNot62W(v: Word)
    ensures RolW(NotW(v), 62) == NotW(RolW(v, 62))
  {
    hide RolW;
    RolFlip62W(v);
  }

  lemma Khi1W(a: Word, b: Word, c: Word)
    ensures OrW(NotW(a), b, NotW(c)) == ChiW(a, b, c)
  {
    hide OrW, ChiW;
    ChiIsW(a, b, c);
    XoIsW(!a, b, !c);
    OrNot1W(a, b, c);
  }

  lemma Khi2RawW(a: Word, b: Word, c: Word)
    ensures AndW(a, !b, c) == ChiW(a, b, c)
  {}

  lemma ChiAddW(a: Word, b: Word, c: Word)
    ensures ChiW(a, b, c) == AddW(a, !b & c)
  {}

  lemma Khi2W(a: Word, b: Word, c: Word)
    ensures AndW(a, NotW(b), c) == ChiW(a, b, c)
  {
    hide AndW, ChiW;
    Khi2RawW(a, b, c);
  }

  lemma Khi3RawW(a: Word, b: Word, c: Word)
    ensures AndW(!a, !b, c) == !ChiW(a, b, c)
  {
    hide AndW, ChiW, AddW;
    Khi2RawW(!a, b, c);
    ChiAddW(!a, b, c);
    ChiAddW(a, b, c);
    AddFlipW(a, !b & c);
  }

  lemma AddFlipW(a: Word, b: Word)
    ensures AddW(!a, b) == !AddW(a, b)
  {
    hide AddW;
    AddCommW(!a, b);
    AddFlipRightW(b, a);
    AddCommW(b, a);
  }

  lemma Khi3W(a: Word, b: Word, c: Word)
    ensures AndW(NotW(a), NotW(b), c) == NotW(ChiW(a, b, c))
  {
    hide AndW, ChiW;
    Khi3RawW(a, b, c);
  }

  lemma Khi4W(a: Word, b: Word, c: Word)
    ensures OrW(a, b, NotW(c)) == NotW(ChiW(a, b, c))
  {
    hide OrW, ChiW;
    ChiIsW(a, b, c);
    XoIsW(a, b, !c);
    OrNot2W(a, b, c);
  }

  // ---- identities of lanes ----

  lemma NotNot(a: Lane)
    ensures Not(Not(a)) == a
  {
    hide NotW;
    NotNotW(a.w);
  }

  lemma RolZero(v: Lane)
    ensures Rol(v, 0) == v
  {
    hide RolW;
    RolZeroW(v.w);
  }

  lemma AddComm(a: Lane, b: Lane)
    ensures Add(a, b) == Add(b, a)
  {
    hide AddW;
    AddCommW(a.w, b.w);
  }

  lemma AddAssoc(a: Lane, b: Lane, c: Lane)
    ensures Add(Add(a, b), c) == Add(a, Add(b, c))
  {
    hide AddW;
    AddAssocW(a.w, b.w, c.w);
  }

  lemma AddNot(a: Lane, b: Lane)
    ensures Add(Not(a), b) == Not(Add(a, b)) && Add(a, Not(b)) == Not(Add(a, b))
  {
    hide AddW, NotW;
    AddNotW(a.w, b.w);
  }

  lemma RolNot1(v: Lane)
    ensures Rol(Not(v), 1) == Not(Rol(v, 1))
  {
    hide RolW, NotW;
    RolNot1W(v.w);
  }

  lemma RolNot3(v: Lane)
    ensures Rol(Not(v), 3) == Not(Rol(v, 3))
  {
    hide RolW, NotW;
    RolNot3W(v.w);
  }

  lemma RolNot15(v: Lane)
    ensures Rol(Not(v), 15) == Not(Rol(v, 15))
  {
    hide RolW, NotW;
    RolNot15W(v.w);
  }

  lemma RolNot21(v: Lane)
    ensures Rol(Not(v), 21) == Not(Rol(v, 21))
  {
    hide RolW, NotW;
    RolNot21W(v.w);
  }

  lemma RolNot25(v: Lane)
    ensures Rol(Not(v), 25) == Not(Rol(v, 25))
  {
    hide RolW, NotW;
    RolNot25W(v.w);
  }

  lemma RolNot28(v: Lane)
    ensures Rol(Not(v), 28) == Not(Rol(v, 28))
  {
    hide RolW, NotW;
    RolNot28W(v.w);
  }

  lemma RolNot36(v: Lane)
    ensures Rol(Not(v), 36) == Not(Rol(v, 36))
  {
    hide RolW, NotW;
    RolNot36W(v.w);
  }

  lemma RolNot41(v: Lane)
    ensures Rol(Not(v), 41) == Not(Rol(v, 41))
  {
    hide RolW, NotW;
    RolNot41W(v.w);
  }

  lemma RolNot43(v: Lane)
    ensures Rol(Not(v), 43) == Not(Rol(v, 43))
  {
    hide RolW, NotW;
    RolNot43W(v.w);
  }

  lemma RolNot56(v: Lane)
    ensures Rol(Not(v), 56) == Not(Rol(v, 56))
  {
    hide RolW, NotW;
    RolNot56W(v.w);
  }

  lemma RolNot62(v: Lane)
    ensures Rol(Not(v), 62) == Not(Rol(v, 62))
  {
    hide RolW, NotW;
    RolNot62W(v.w);
  }

  lemma ComplementLaws()
    ensures forall a, b :: Add(Not(a), b) == Not(Add(a, b))
    ensures forall a, b :: Add(a, Not(b)) == Not(Add(a, b))
    ensures forall a :: Not(Not(a)) == a
    ensures forall v :: Rol(Not(v), 1) == Not(Rol(v, 1))
  {
    hide Add, Not, Rol;
    forall a: Lane, b: Lane ensures Add(Not(a), b) == Not(Add(a, b)) { AddNot(a, b); }
    forall a: Lane, b: Lane ensures Add(a, Not(b)) == Not(Add(a, b)) { AddNot(a, b); }
    forall v: Lane ensures Rol(Not(v), 1) == Not(Rol(v, 1)) { RolNot1(v); }
    forall v: Lane ensures Not(Not(v)) == v { NotNot(v); }
  }

  // The shapes in which the KHI macro meets complemented lanes.

  lemma KhiLane(a: Lane, b: Lane, c: Lane)
    ensures KhiXo(Not(a), b, Not(c)) == ChiLane(a, b, c) && KhiXa(a, Not(b), c) == ChiLane(a, b, c)
    ensures KhiXa(Not(a), Not(b), c) == Not(ChiLane(a, b, c)) && KhiXo(a, b, Not(c)) == Not(ChiLane(a, b, c))
    ensures Not(Not(a)) == a && Not(Not(b)) == b
  {
    hide OrW, AndW, ChiW, NotW;
    Khi1W(a.w, b.w, c.w);
    Khi2W(a.w, b.w, c.w);
    Khi3W(a.w, b.w, c.w);
    Khi4W(a.w, b.w, c.w);
    NotNot(a);
    NotNot(b);
  }

  /** The column parities, whichever way the exclusive-ors are grouped. */
  lemma ThEltIs(c0: Lane, c1: Lane, c2: Lane, c3: Lane, c4: Lane, d0: Lane, d1: Lane, d2: Lane, d3: Lane, d4: Lane)
    ensures ThElt(c0, c1, c2, c3, c4, d0, d1, d2, d3, d4) == Effect(Parity(c0, c1, c2, c3, c4), Parity(d0, d1, d2, d3, d4))
  {
    hide Add, Rol;
    var a, x := Add(d0, d1), Add(d2, d3);
    AddAssoc(a, d4, x);
    AddComm(d4, x);
    AddAssoc(a, x, d4);
    AddAssoc(a, d2, d3);
    var r := Rol(Add(Add(a, x), d4), 1);
    var b, y := Add(c0, c1), Add(Add(c0, c1), Add(c2, c3));
    AddAssoc(b, c2, c3);
    AddComm(Add(r, c4), y);
    AddComm(r, c4);
    AddAssoc(y, c4, r);
  }

  lemma ThetaForm(s: State)
    ensures ThetaMacro(s) == Theta(s)
  {
    hide Add, ThElt, Effect, Parity;
    ThEltIs(s.a40, s.a41, s.a42, s.a43, s.a44, s.a10, s.a11, s.a12, s.a13, s.a14);
    ThEltIs(s.a00, s.a01, s.a02, s.a03, s.a04, s.a20, s.a21, s.a22, s.a23, s.a24);
    ThEltIs(s.a10, s.a11, s.a12, s.a13, s.a14, s.a30, s.a31, s.a32, s.a33, s.a34);
    ThEltIs(s.a20, s.a21, s.a22, s.a23, s.a24, s.a40, s.a41, s.a42, s.a43, s.a44);
    ThEltIs(s.a30, s.a31, s.a32, s.a33, s.a34, s.a00, s.a01, s.a02, s.a03, s.a04);
  }

  lemma RhoForm(s: State)
    ensures RhoMacro(s) == Rho(s)
  {
    hide Rol;
    RolZero(s.a00);
  }

  // ---- how the complemented lanes travel through a round ----

  lemma ThetaComplement(s: State)
    ensures Theta(Between(s)) == Spread(Theta(s))
  {
    hide Add, Rol, Not;
    ComplementLaws();
  }

  lemma RhoComplement(s: State)
    ensures Rho(Spread(s)) == Spread(Rho(s))
  {
    hide Rol, Not;
    RolZero(s.a00);
    RolZero(Not(s.a00));
    RolNot36(s.a01);
    RolNot3(s.a02);
    RolNot41(s.a03);
    RolNot1(s.a10);
    RolNot62(s.a20);
    RolNot43(s.a22);
    RolNot15(s.a23);
    RolNot28(s.a30);
    RolNot25(s.a32);
    RolNot21(s.a33);
    RolNot56(s.a34);
  }

  lemma PiComplement(s: State)
    ensures Pi(Spread(s)) == Inner(Pi(s))
  {
    hide Not;
  }

  /** The modified chi takes the inner complements to those between rounds. */
  lemma ChiComplement(s: State)
    ensures KhiMacro(Inner(s)) == Between(Chi(s))
  {
    hide KhiXo, KhiXa, ChiLane, Not;
    KhiLane(s.a00, s.a10, s.a20);
    KhiLane(s.a01, s.a11, s.a21);
    KhiLane(s.a02, s.a12, s.a22);
    KhiLane(s.a03, s.a13, s.a23);
    KhiLane(s.a04, s.a14, s.a24);
    KhiLane(s.a10, s.a20, s.a30);
    KhiLane(s.a11, s.a21, s.a31);
    KhiLane(s.a12, s.a22, s.a32);
    KhiLane(s.a13, s.a23, s.a33);
    KhiLane(s.a14, s.a24, s.a34);
    KhiLane(s.a20, s.a30, s.a40);
    KhiLane(s.a21, s.a31, s.a41);
    KhiLane(s.a22, s.a32, s.a42);
    KhiLane(s.a23, s.a33, s.a43);
    KhiLane(s.a24, s.a34, s.a44);
    KhiLane(s.a30, s.a40, s.a00);
    KhiLane(s.a31, s.a41, s.a01);
    KhiLane(s.a32, s.a42, s.a02);
    KhiLane(s.a33, s.a43, s.a03);
    KhiLane(s.a34, s.a44, s.a04);
    KhiLane(s.a40, s.a00, s.a10);
    KhiLane(s.a41, s.a01, s.a11);
    KhiLane(s.a42, s.a02, s.a12);
    KhiLane(s.a43, s.a03, s.a13);
    KhiLane(s.a44, s.a04, s.a14);
  }

  lemma IotaComplement(s: State, k: Lane)
    ensures Iota(Between(s), k) == Between(Iota(s, k))
  {
    hide Not, Add;
  }

  /** One round of the macros on a complemented state is one plain round. */
  lemma MacroRound(s: State, k: Lane)
    ensures Iota(KhiMacro(Pi(RhoMacro(ThetaMacro(Between(s))))), k) == Between(Round(s, k))
  {
    hide ThetaMacro, RhoMacro, KhiMacro, Theta, Rho, Pi, Chi, Iota, Between, Spread, Inner;
    ThetaForm(Between(s));
    ThetaComplement(s);
    RhoForm(Spread(Theta(s)));
    RhoComplement(Theta(s));
    PiComplement(Rho(Theta(s)));
    ChiComplement(Pi(Rho(Theta(s))));
    IotaComplement(Chi(Pi(Rho(Theta(s)))), k);
  }

  // ---- renaming does pi ----

  /** The lanes seen through the next renaming are the old ones moved by pi, and a renamed state that is
      written back reads back unchanged. */

  lemma Link1(l: State, k: Lane)
    ensures P1(W0(l)) == Pi(l) && P1(W1(l)) == l && P1(Iota(W1(l), k)) == Iota(l, k)
  {}

  lemma Link2(l: State, k: Lane)
    ensures P2(W1(l)) == Pi(l) && P2(W2(l)) == l && P2(Iota(W2(l), k)) == Iota(l, k)
  {}

  lemma Link3(l: State, k: Lane)
    ensures P3(W2(l)) == Pi(l) && P3(W3(l)) == l && P3(Iota(W3(l), k)) == Iota(l, k)
  {}

  lemma Link4(l: State, k: Lane)
    ensures P4(W3(l)) == Pi(l) && P4(W4(l)) == l && P4(Iota(W4(l), k)) == Iota(l, k)
  {}

  lemma Link5(l: State, k: Lane)
    ensures P5(W4(l)) == Pi(l) && P5(W5(l)) == l && P5(Iota(W5(l), k)) == Iota(l, k)
  {}

  lemma Link6(l: State, k: Lane)
    ensures P6(W5(l)) == Pi(l) && P6(W6(l)) == l && P6(Iota(W6(l), k)) == Iota(l, k)
  {}

  lemma Link7(l: State, k: Lane)
    ensures P7(W6(l)) == Pi(l) && P7(W7(l)) == l && P7(Iota(W7(l), k)) == Iota(l, k)
  {}

  lemma Link8(l: State, k: Lane)
    ensures P8(W7(l)) == Pi(l) && P8(W8(l)) == l && P8(Iota(W8(l), k)) == Iota(l, k)
  {}

  function Elt0(s: State, k: Lane): State
  {
    var t := W0(RhoMacro(ThetaMacro(P0(s))));
    var u := W1(KhiMacro(P1(t)));
    Iota(u, k)
  }

  lemma Elt0Round(s: State, l: State, k: Lane)
    requires P0(s) == Between(l)
    ensures P1(Elt0(s, k)) == Between(Round(l, k))
  {
    hide ThetaMacro, RhoMacro, KhiMacro, Pi, Iota, Between, Round, P0, P1, W0, W1;
    Link1(RhoMacro(ThetaMacro(P0(s))), k);
    Link1(KhiMacro(Pi(RhoMacro(ThetaMacro(P0(s))))), k);
    MacroRound(l, k);
  }

  function Elt1(s: State, k: Lane): State
  {
    var t := W1(RhoMacro(ThetaMacro(P1(s))));
    var u := W2(KhiMacro(P2(t)));
    Iota(u, k)
  }

  lemma Elt1Round(s: State, l: State, k: Lane)
    requires P1(s) == Between(l)
    ensures P2(Elt1(s, k)) == Between(Round(l, k))
  {
    hide ThetaMacro, RhoMacro, KhiMacro, Pi, Iota, Between, Round, P1, P2, W1, W2;
    Link2(RhoMacro(ThetaMacro(P1(s))), k);
    Link2(KhiMacro(Pi(RhoMacro(ThetaMacro(P1(s))))), k);
    MacroRound(l, k);
  }

  function Elt2(s: State, k: Lane): State
  {
    var t := W2(RhoMacro(ThetaMacro(P2(s))));
    var u := W3(KhiMacro(P3(t)));
    Iota(u, k)
  }

  lemma Elt2Round(s: State, l: State, k: Lane)
    requires P2(s) == Between(l)
    ensures P3(Elt2(s, k)) == Between(Round(l, k))
  {
    hide ThetaMacro, RhoMacro, KhiMacro, Pi, Iota, Between, Round, P2, P3, W2, W3;
    Link3(RhoMacro(ThetaMacro(P2(s))), k);
    Link3(KhiMacro(Pi(RhoMacro(ThetaMacro(P2(s))))), k);
    MacroRound(l, k);
  }

  function Elt3(s: State, k: Lane): State
  {
    var t := W3(RhoMacro(ThetaMacro(P3(s))));
    var u := W4(KhiMacro(P4(t)));
    Iota(u, k)
  }

  lemma Elt3Round(s: State, l: State, k: Lane)
    requires P3(s) == Between(l)
    ensures P4(Elt3(s, k)) == Between(Round(l, k))
  {
    hide ThetaMacro, RhoMacro, KhiMacro, Pi, Iota, Between, Round, P3, P4, W3, W4;
    Link4(RhoMacro(ThetaMacro(P3(s))), k);
    Link4(KhiMacro(Pi(RhoMacro(ThetaMacro(P3(s))))), k);
    MacroRound(l, k);
  }

  function Elt4(s: State, k: Lane): State
  {
    var t := W4(RhoMacro(ThetaMacro(P4(s))));
    var u := W5(KhiMacro(P5(t)));
    Iota(u, k)
  }

  lemma Elt4Round(s: State, l: State, k: Lane)
    requires P4(s) == Between(l)
    ensures P5(Elt4(s, k)) == Between(Round(l, k))
  {
    hide ThetaMacro, RhoMacro, KhiMacro, Pi, Iota, Between, Round, P4, P5, W4, W5;
    Link5(RhoMacro(ThetaMacro(P4(s))), k);
    Link5(KhiMacro(Pi(RhoMacro(ThetaMacro(P4(s))))), k);
    MacroRound(l, k);
  }

  function Elt5(s: State, k: Lane): State
  {
    var t := W5(RhoMacro(ThetaMacro(P5(s))));
    var u := W6(KhiMacro(P6(t)));
    Iota(u, k)
  }

  lemma Elt5Round(s: State, l: State, k: Lane)
    requires P5(s) == Between(l)
    ensures P6(Elt5(s, k)) == Between(Round(l, k))
  {
    hide ThetaMacro, RhoMacro, KhiMacro, Pi, Iota, Between, Round, P5, P6, W5, W6;
    Link6(RhoMacro(ThetaMacro(P5(s))), k);
    Link6(KhiMacro(Pi(RhoMacro(ThetaMacro(P5(s))))), k);
    MacroRound(l, k);
  }

  function Elt6(s: State, k: Lane): State
  {
    var t := W6(RhoMacro(ThetaMacro(P6(s))));
    var u := W7(KhiMacro(P7(t)));
    Iota(u, k)
  }

  lemma Elt6Round(s: State, l: State, k: Lane)
    requires P6(s) == Between(l)
    ensures P7(Elt6(s, k)) == Between(Round(l, k))
  {
    hide ThetaMacro, RhoMacro, KhiMacro, Pi, Iota, Between, Round, P6, P7, W6, W7;
    Link7(RhoMacro(ThetaMacro(P6(s))), k);
    Link7(KhiMacro(Pi(RhoMacro(ThetaMacro(P6(s))))), k);
    MacroRound(l, k);
  }

  function Elt7(s: State, k: Lane): State
  {
    var t := W7(RhoMacro(ThetaMacro(P7(s))));
    var u := W8(KhiMacro(P8(t)));
    Iota(u, k)
  }

  lemma Elt7Round(s: State, l: State, k: Lane)
    requires P7(s) == Between(l)
    ensures P8(Elt7(s, k)) == Between(Round(l, k))
  {
    hide ThetaMacro, RhoMacro, KhiMacro, Pi, Iota, Between, Round, P7, P8, W7, W8;
    Link8(RhoMacro(ThetaMacro(P7(s))), k);
    Link8(KhiMacro(Pi(RhoMacro(ThetaMacro(P7(s))))), k);
    MacroRound(l, k);
  }

  // ---- moving the variables back, and the whole permutation ----

  /** The moves of `P8_TO_P0`, in order, through one temporary. */
  method P8ToP0(s: State) returns (r: State)
    ensures r == P8(s)
  {
    r := s;
    var t := r.a01; r := r.(a01 := r.a11); r := r.(a11 := r.a43); r := r.(a43 := t);
    t := r.a02; r := r.(a02 := r.a22); r := r.(a22 := r.a31); r := r.(a31 := t);
    t := r.a03; r := r.(a03 := r.a33); r := r.(a33 := r.a24); r := r.(a24 := t);
    t := r.a04; r := r.(a04 := r.a44); r := r.(a44 := r.a12); r := r.(a12 := t);
    t := r.a10; r := r.(a10 := r.a32); r := r.(a32 := r.a13); r := r.(a13 := t);
    t := r.a14; r := r.(a14 := r.a21); r := r.(a21 := r.a20); r := r.(a20 := t);
    t := r.a23; r := r.(a23 := r.a42); r := r.(a42 := r.a40); r := r.(a40 := t);
    t := r.a30; r := r.(a30 := r.a41); r := r.(a41 := r.a34); r := r.(a34 := t);
  }

  function RC(j: nat): Lane
  {
    match j
    case 0 => Lane(0x0000000000000001)
    case 1 => Lane(0x0000000000008082)
    case 2 => Lane(0x800000000000808A)
    case 3 => Lane(0x8000000080008000)
    case 4 => Lane(0x000000000000808B)
    case 5 => Lane(0x0000000080000001)
    case 6 => Lane(0x8000000080008081)
    case 7 => Lane(0x8000000000008009)
    case 8 => Lane(0x000000000000008A)
    case 9 => Lane(0x0000000000000088)
    case 10 => Lane(0x0000000080008009)
    case 11 => Lane(0x000000008000000A)
    case 12 => Lane(0x000000008000808B)
    case 13 => Lane(0x800000000000008B)
    case 14 => Lane(0x8000000000008089)
    case 15 => Lane(0x8000000000008003)
    case 16 => Lane(0x8000000000008002)
    case 17 => Lane(0x8000000000000080)
    case 18 => Lane(0x000000000000800A)
    case 19 => Lane(0x800000008000000A)
    case 20 => Lane(0x8000000080008081)
    case 21 => Lane(0x8000000000008080)
    case 22 => Lane(0x0000000080000001)
    case _ => Lane(0x8000000080008008)
  }

  /** The first `n` rounds of the plain permutation. */
  function PlainRounds(s: State, n: nat): State
    requires n <= 24
  {
    if n == 0 then s else Round(PlainRounds(s, n - 1), RC(n - 1))
  }

  /** Eight rounds of the unrolled loop, before the variables are moved back. */
  function Eight(s: State, k0: Lane, k1: Lane, k2: Lane, k3: Lane, k4: Lane, k5: Lane, k6: Lane, k7: Lane): State
  {
    Elt7(Elt6(Elt5(Elt4(Elt3(Elt2(Elt1(Elt0(s, k0), k1), k2), k3), k4), k5), k6), k7)
  }

  lemma EightRounds(l: State, k0: Lane, k1: Lane, k2: Lane, k3: Lane, k4: Lane, k5: Lane, k6: Lane, k7: Lane)
    ensures P8(Eight(Between(l), k0, k1, k2, k3, k4, k5, k6, k7)) ==
            Between(Round(Round(Round(Round(Round(Round(Round(Round(l, k0), k1), k2), k3), k4), k5), k6), k7))
  {
    P0Is(Between(l));
    hide Elt0, Elt1, Elt2, Elt3, Elt4, Elt5, Elt6, Elt7, P0, P1, P2, P3, P4, P5, P6, P7, P8, Between, Round;
    var s1, l1 := Elt0(Between(l), k0), Round(l, k0);
    Elt0Round(Between(l), l, k0);
    var s2, l2 := Elt1(s1, k1), Round(l1, k1);
    Elt1Round(s1, l1, k1);
    var s3, l3 := Elt2(s2, k2), Round(l2, k2);
    Elt2Round(s2, l2, k2);
    var s4, l4 := Elt3(s3, k3), Round(l3, k3);
    Elt3Round(s3, l3, k3);
    var s5, l5 := Elt4(s4, k4), Round(l4, k4);
    Elt4Round(s4, l4, k4);
    var s6, l6 := Elt5(s5, k5), Round(l5, k5);
    Elt5Round(s5, l5, k5);
    var s7, l7 := Elt6(s6, k6), Round(l6, k6);
    Elt6Round(s6, l6, k6);
    Elt7Round(s7, l7, k7);
  }

  lemma EightMore(l: State, j: nat)
    requires j + 8 <= 24
    ensures PlainRounds(l, j + 8) ==
            Round(Round(Round(Round(Round(Round(Round(Round(PlainRounds(l, j), RC(j)), RC(j + 1)), RC(j + 2)), RC(j + 3)),
              RC(j + 4)), RC(j + 5)), RC(j + 6)), RC(j + 7))
  {
    hide Round, RC, PlainRounds;
    NextRound(l, j);
    NextRound(l, j + 1);
    NextRound(l, j + 2);
    NextRound(l, j + 3);
    NextRound(l, j + 4);
    NextRound(l, j + 5);
    NextRound(l, j + 6);
    NextRound(l, j + 7);
  }

  lemma P0Is(s: State)
    ensures P0(s) == s
  {}

  lemma NextRound(l: State, j: nat)
    requires j < 24
    ensures PlainRounds(l, j + 1) == Round(PlainRounds(l, j), RC(j))
  {
    hide Round, RC;
  }

  lemma BetweenTwice(s: State)
    ensures Between(Between(s)) == s
  {
    hide Not;
    ComplementLaws();
  }

  /** The permutation as compiled, three times eight rounds, on any state: with the six lanes complemented
      before and after, it is 24 plain rounds. */
  method Permute(a: State) returns (s: State)
    ensures s == Between(PlainRounds(Between(a), 24))
  {
    hide Between, PlainRounds, Round, RC, P8, Eight;
    BetweenTwice(a);
    NoRounds(Between(a));
    s := a;
    var j := 0;
    while j < 24
      invariant (j == 0 || j == 8 || j == 16 || j == 24) && s == Between(PlainRounds(Between(a), j))
    {
      EightMore(Between(a), j);
      EightRounds(PlainRounds(Between(a), j), RC(j), RC(j + 1), RC(j + 2), RC(j + 3), RC(j + 4), RC(j + 5), RC(j + 6), RC(j + 7));
      s := Eight(s, RC(j), RC(j + 1), RC(j + 2), RC(j + 3), RC(j + 4), RC(j + 5), RC(j + 6), RC(j + 7));
      s := P8ToP0(s);
      j := j + 8;
    }
  }

  lemma NoRounds(s: State)
    ensures PlainRounds(s, 0) == s
  {}
}
