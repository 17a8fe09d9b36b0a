/** The CRC-32 of IEEE 802.3, bit by bit, least significant bit first. */
module Crc32 {
  import opened Bytes

  const POLYNOMIAL: bv32 := 0xEDB8_8320
  const ALL_ONES: bv32 := 0xFFFF_FFFF

  function Bits(c: bv32, n: nat): bv32
    decreases n
  {
    if n == 0 then c else Bits(if c & 1 == 1 then (c >> 1) ^ POLYNOMIAL else c >> 1, n - 1)
  }

  /** Eight bits at the low end of a register, the highest first. */
  function Pack(h: bool, g: bool, f: bool, e: bool, d: bool, c: bool, b: bool, a: bool): bv32 {
    var high: bv32 := (if h then 128 else 0) | (if g then 64 else 0) | (if f then 32 else 0) | (if e then 16 else 0);
    high | (if d then 8 else 0) | (if c then 4 else 0) | (if b then 2 else 0) | (if a then 1 else 0)
  }

  predicate Odd(n: nat) {
    n % 2 == 1
  }

  function Half(n: nat): nat {
    n / 2
  }

  function Halved(n: nat, k: nat): nat {
    if k == 0 then n else Half(Halved(n, k - 1))
  }

  /** Bit k of a number. */
  predicate Bit(n: nat, k: nat) {
    Odd(Halved(n, k))
  }

  /** A byte as a register. */
  function Widen(b: byte): bv32 {
    Pack(Bit(b, 7), Bit(b, 6), Bit(b, 5), Bit(b, 4), Bit(b, 3), Bit(b, 2), Bit(b, 1), Bit(b, 0))
  }

  /** The register with eight bits of data mixed in and divided out. */
  function Mix(c: bv32, data: bv32): bv32 {
    Bits(c ^ data, 8)
  }

  /** The register after one more byte. */
  function Next(c: bv32, b: byte): bv32 {
    Mix(c, Widen(b))
  }

  function Fold<R>(next: (R, byte) -> R, c: R, data: seq<byte>): R
    decreases |data|
  {
    if data == [] then c else Fold(next, next(c, data[0]), data[1..])
  }

  /** The register after more bytes. */
  function Update(c: bv32, data: seq<byte>): bv32 {
    Fold(Next, c, data)
  }

  function Checksum(data: seq<byte>): bv32 {
    Update(ALL_ONES, data) ^ ALL_ONES
  }

  lemma {:induction false} FoldInPieces<R>(next: (R, byte) -> R, c: R, a: seq<byte>, b: seq<byte>)
    ensures Fold(next, c, a + b) == Fold(next, Fold(next, c, a), b)
    decreases |a|
  {
    if a == [] {
      assert a + b == b;
    } else {
      assert (a + b)[0] == a[0] && (a + b)[1..] == a[1..] + b;
      FoldInPieces(next, next(c, a[0]), a[1..], b);
    }
  }

  /** Feeding data in pieces is feeding it at once. */
  lemma UpdateInPieces(c: bv32, a: seq<byte>, b: seq<byte>)
    ensures Update(c, a + b) == Update(Update(c, a), b)
  {
    FoldInPieces(Next, c, a, b);
  }

  // ---- What it detects --------------------------------------------------------------------

  /** One bit of the division. */
  function Shift(c: bv32): bv32 {
    if c & 1 == 1 then (c >> 1) ^ POLYNOMIAL else c >> 1
  }

  lemma ShiftIsInjective(c: bv32, d: bv32)
    requires Shift(c) == Shift(d)
    ensures c == d
  {
  }

  lemma {:induction false} BitsIsInjective(c: bv32, d: bv32, n: nat)
    requires Bits(c, n) == Bits(d, n)
    ensures c == d
    decreases n
  {
    if n > 0 {
      BitsIsInjective(Shift(c), Shift(d), n - 1);
      ShiftIsInjective(c, d);
    }
  }

  lemma XorIsInjective(c: bv32, x: bv32, y: bv32)
    requires c ^ x == c ^ y
    ensures x == y
  {
  }

  lemma PackIsInjective(h: bool, g: bool, f: bool, e: bool, d: bool, c: bool, b: bool, a: bool,
                        h': bool, g': bool, f': bool, e': bool, d': bool, c': bool, b': bool, a': bool)
    requires Pack(h, g, f, e, d, c, b, a) == Pack(h', g', f', e', d', c', b', a')
    ensures h == h' && g == g' && f == f' && e == e' && d == d' && c == c' && b == b' && a == a'
  {
  }

  lemma {:induction false} HalvedIsSmall(x: nat, k: nat)
    ensures x < Power2(k) ==> Halved(x, k) == 0
    ensures Halved(x, k) <= x
    decreases k
  {
    if k > 0 {
      HalvedFirst(x, k);
      HalvedIsSmall(Half(x), k - 1);
    }
  }

  function Power2(k: nat): nat {
    if k == 0 then 1 else 2 * Power2(k - 1)
  }

  lemma {:induction false} HalvedFirst(x: nat, k: nat)
    requires k > 0
    ensures Halved(x, k) == Halved(Half(x), k - 1)
    decreases k
  {
    if k > 1 {
      HalvedFirst(x, k - 1);
    }
  }

  /** A number of k bits is determined by them. */
  lemma {:induction false} SameBits(x: nat, y: nat, k: nat, n: nat)
    requires k <= n && x < Power2(n) && y < Power2(n)
    requires forall j :: k <= j < n ==> Bit(x, j) == Bit(y, j)
    ensures Halved(x, k) == Halved(y, k)
    decreases n - k
  {
    if k == n {
      HalvedIsSmall(x, n);
      HalvedIsSmall(y, n);
    } else {
      SameBits(x, y, k + 1, n);
      assert Bit(x, k) == Bit(y, k);
    }
  }

  predicate AllBits(x: nat, y: nat) {
    && Bit(x, 7) == Bit(y, 7) && Bit(x, 6) == Bit(y, 6) && Bit(x, 5) == Bit(y, 5) && Bit(x, 4) == Bit(y, 4)
    && Bit(x, 3) == Bit(y, 3) && Bit(x, 2) == Bit(y, 2) && Bit(x, 1) == Bit(y, 1) && Bit(x, 0) == Bit(y, 0)
  }

  lemma BitOf(x: nat, y: nat, j: nat)
    requires AllBits(x, y) && j < 8
    ensures Bit(x, j) == Bit(y, j)
  {
    assert j == 0 || j == 1 || j == 2 || j == 3 || j == 4 || j == 5 || j == 6 || j == 7;
  }

  lemma ByteFromBits(x: byte, y: byte)
    requires AllBits(x, y)
    ensures x == y
  {
    EightBits();
    forall j | 0 <= j < 8
      ensures Bit(x, j) == Bit(y, j)
    {
      BitOf(x, y, j);
    }
    SameBits(x, y, 0, 8);
  }

  lemma WidenKeepsBits(x: byte, y: byte)
    requires Widen(x) == Widen(y)
    ensures AllBits(x, y)
  {
    PackIsInjective(Bit(x, 7), Bit(x, 6), Bit(x, 5), Bit(x, 4), Bit(x, 3), Bit(x, 2), Bit(x, 1), Bit(x, 0),
                    Bit(y, 7), Bit(y, 6), Bit(y, 5), Bit(y, 4), Bit(y, 3), Bit(y, 2), Bit(y, 1), Bit(y, 0));
  }

  lemma WidenIsInjective()
    ensures forall x: byte, y: byte :: Widen(x) == Widen(y) ==> x == y
  {
    forall x: byte, y: byte | Widen(x) == Widen(y)
      ensures x == y
    {
      WidenKeepsBits(x, y);
      ByteFromBits(x, y);
    }
  }

  lemma EightBits()
    ensures Power2(8) == 256
  {
    assert Power2(4) == 16;
  }

  lemma XorCommutes(c: bv32, d: bv32, x: bv32)
    requires c ^ x == d ^ x
    ensures c == d
  {
  }

  /** A step loses nothing: neither of the register */
  lemma MixKeepsRegister(c: bv32, d: bv32, u: bv32, n: nat)
    requires Bits(c ^ u, n) == Bits(d ^ u, n)
    ensures c == d
  {
    BitsIsInjective(c ^ u, d ^ u, n);
    XorCommutes(c, d, u);
  }

  /** nor of the data. */
  lemma MixKeepsData(c: bv32, u: bv32, v: bv32, n: nat)
    requires Bits(c ^ u, n) == Bits(c ^ v, n)
    ensures u == v
  {
    BitsIsInjective(c ^ u, c ^ v, n);
    XorIsInjective(c, u, v);
  }

  lemma MixIsInjective()
    ensures forall c, u, v :: Mix(c, u) == Mix(c, v) ==> u == v
  {
    forall c, u, v | Mix(c, u) == Mix(c, v)
      ensures u == v
    {
      MixKeepsData(c, u, v, 8);
    }
  }

  lemma Same<R>(mix: (R, R) -> R, c: R, u: R, v: R)
    requires forall p, q, r :: mix(p, q) == mix(p, r) ==> q == r
    requires mix(c, u) == mix(c, v)
    ensures u == v
  {
  }

  lemma Composes<R>(mix: (R, R) -> R, widen: byte -> R, c: R, x: byte, y: byte)
    requires forall p, q, r :: mix(p, q) == mix(p, r) ==> q == r
    requires forall a, b :: widen(a) == widen(b) ==> a == b
    requires mix(c, widen(x)) == mix(c, widen(y))
    ensures x == y
  {
    Same(mix, c, widen(x), widen(y));
  }

  lemma NextKeepsRegister(c: bv32, d: bv32, x: byte)
    requires Next(c, x) == Next(d, x)
    ensures c == d
  {
    MixKeepsRegister(c, d, Widen(x), 8);
  }

  lemma NextKeepsByte(c: bv32, x: byte, y: byte)
    requires Next(c, x) == Next(c, y)
    ensures x == y
  {
    WidenIsInjective();
    MixIsInjective();
    Composes(Mix, Widen, c, x, y);
  }

  lemma {:induction false} FoldIsInjective<R>(next: (R, byte) -> R, c: R, d: R, data: seq<byte>)
    requires forall p, q, b :: next(p, b) == next(q, b) ==> p == q
    requires Fold(next, c, data) == Fold(next, d, data)
    ensures c == d
    decreases |data|
  {
    if data != [] {
      FoldIsInjective(next, next(c, data[0]), next(d, data[0]), data[1..]);
    }
  }

  lemma UpdateIsInjective(c: bv32, d: bv32, data: seq<byte>)
    requires Update(c, data) == Update(d, data)
    ensures c == d
  {
    forall p, q, b | Next(p, b) == Next(q, b)
      ensures p == q
    {
      NextKeepsRegister(p, q, b);
    }
    FoldIsInjective(Next, c, d, data);
  }

  /** A single changed byte, wherever it is, changes the checksum. */
  lemma ChangedByteIsDetected(a: seq<byte>, x: byte, y: byte, b: seq<byte>)
    requires Checksum(a + [x] + b) == Checksum(a + [y] + b)
    ensures x == y
  {
    XorCommutes(Update(ALL_ONES, a + [x] + b), Update(ALL_ONES, a + [y] + b), ALL_ONES);
    UpdateInPieces(ALL_ONES, a + [x], b);
    UpdateInPieces(ALL_ONES, a + [y], b);
    UpdateIsInjective(Update(ALL_ONES, a + [x]), Update(ALL_ONES, a + [y]), b);
    UpdateInPieces(ALL_ONES, a, [x]);
    UpdateInPieces(ALL_ONES, a, [y]);
    OneByte(Update(ALL_ONES, a), x);
    OneByte(Update(ALL_ONES, a), y);
    NextKeepsByte(Update(ALL_ONES, a), x, y);
  }

  lemma OneByte(c: bv32, x: byte)
    ensures Update(c, [x]) == Next(c, x)
  {
    FoldOne(Next, c, x);
  }

  lemma FoldOne<R>(next: (R, byte) -> R, c: R, x: byte)
    ensures Fold(next, c, [x]) == next(c, x)
  {
    assert [x][1..] == [];
    assert Fold(next, next(c, x), []) == next(c, x);
  }

  // ---- A check value -------------------------------------------------------------------------

  lemma FourBits(c: bv32, n: nat)
    ensures Bits(c, n + 4) == Bits(Shift(Shift(Shift(Shift(c)))), n)
  {
    assert Bits(c, n + 4) == Bits(Shift(c), n + 3);
    assert Bits(Shift(c), n + 3) == Bits(Shift(Shift(c)), n + 2);
    assert Bits(Shift(Shift(c)), n + 2) == Bits(Shift(Shift(Shift(c))), n + 1);
  }

  /** The checksum of a single zero byte. */
  lemma ZeroByteChecksum()
    ensures Checksum([0]) == 0xD202_EF8D
  {
    var c: bv32 := 0xFFFF_FFFF;
    OneByte(c, 0);
    assert Widen(0) == 0;
    FourBits(c, 4);
    assert Shift(Shift(Shift(Shift(c)))) == 0xB242_0DE3;
    FourBits(0xB242_0DE3, 0);
    assert Shift(Shift(Shift(Shift(0xB242_0DE3)))) == 0x2DFD_1072;
  }
}
