/**
 * The checksum of `Serial`, computed bit by bit, against the table-driven CRC-32 of section 8 of
 * RFC 1952, of which it is the bitwise complement.
 */
module Crc32 {

  // ---- Iterated steps ----

  function Iter<T>(f: T -> T, k: nat, x: T): T
    decreases k
  {
    if k == 0 then x else Iter(f, k - 1, f(x))
  }

  lemma {:induction false} IterAdd<T>(f: T -> T, j: nat, k: nat, x: T)
    ensures Iter(f, j + k, x) == Iter(f, k, Iter(f, j, x))
    decreases j
  {
    if j != 0 {
      IterAdd(f, j - 1, k, f(x));
    }
  }

  ghost predicate Linear<T(!new)>(f: T -> T, plus: (T, T) -> T) {
    forall x, y :: f(plus(x, y)) == plus(f(x), f(y))
  }

  lemma {:induction false} IterLinear<T(!new)>(f: T -> T, plus: (T, T) -> T, k: nat, x: T, y: T)
    requires Linear(f, plus)
    ensures Iter(f, k, plus(x, y)) == plus(Iter(f, k, x), Iter(f, k, y))
    decreases k
  {
    if k != 0 {
      IterLinear(f, plus, k - 1, f(x), f(y));
    }
  }

  lemma {:induction false} IterInjective<T(!new)>(f: T -> T, g: T -> T, k: nat, x: T, y: T)
    requires forall z :: g(f(z)) == z
    requires Iter(f, k, x) == Iter(f, k, y)
    ensures x == y
    decreases k
  {
    if k != 0 {
      IterInjective(f, g, k - 1, f(x), f(y));
      assert g(f(x)) == g(f(y));
    }
  }

  function Fold<S, T>(f: (S, T) -> S, start: S, items: seq<T>): S
    decreases |items|
  {
    if items == [] then start else Fold(f, f(start, items[0]), items[1..])
  }

  lemma {:induction false} FoldConcat<S, T>(f: (S, T) -> S, start: S, a: seq<T>, b: seq<T>)
    ensures Fold(f, start, a + b) == Fold(f, Fold(f, start, a), b)
    decreases |a|
  {
    if a == [] {
      assert a + b == b;
    } else {
      assert (a + b)[1..] == a[1..] + b;
      FoldConcat(f, f(start, a[0]), a[1..], b);
    }
  }

  lemma {:induction false} FoldSame<S(!new), T(!new)>(f: (S, T) -> S, g: (S, T) -> S, start: S, items: seq<T>)
    requires forall x, y :: f(x, y) == g(x, y)
    ensures Fold(f, start, items) == Fold(g, start, items)
    decreases |items|
  {
    if items != [] {
      FoldSame(f, g, f(start, items[0]), items[1..]);
    }
  }

  lemma {:induction false} FoldInjective<S(!new), T(!new)>(f: (S, T) -> S, x: S, y: S, items: seq<T>)
    requires forall u, v, b :: f(u, b) == f(v, b) ==> u == v
    requires Fold(f, x, items) == Fold(f, y, items)
    ensures x == y
    decreases |items|
  {
    if items != [] {
      FoldInjective(f, f(x, items[0]), f(y, items[0]), items[1..]);
    }
  }

  predicate AllEven<T>(half: T -> T, odd: T -> bool, k: nat, x: T)
    decreases k
  {
    k == 0 || (!odd(x) && AllEven(half, odd, k - 1, half(x)))
  }

  /** A step that halves even words shifts out the bits of a word as long as they are zero. */
  lemma {:induction false} IterEven<T(!new)>(f: T -> T, half: T -> T, odd: T -> bool, k: nat, x: T)
    requires forall z :: !odd(z) ==> f(z) == half(z)
    requires AllEven(half, odd, k, x)
    ensures Iter(f, k, x) == Iter(half, k, x)
    decreases k
  {
    if k != 0 {
      IterEven(f, half, odd, k - 1, half(x));
    }
  }

  lemma IterEight<T>(f: T -> T, x: T)
    ensures Iter(f, 8, x) == f(f(f(f(f(f(f(f(x))))))))
  {
    IterAdd(f, 4, 4, x);
    IterAdd(f, 2, 2, x);
    IterAdd(f, 2, 2, Iter(f, 4, x));
  }

  // ---- Words ----

  /** The constant in `Serial::crc32`. */
  const POLYNOMIAL: bv32 := 0xEDB88320

  /**
   * The generator of the CRC-32 of ISO 3309, with exponents 0, 1, 2, 4, 5, 7, 8, 10, 11, 12, 16, 22,
   * 23, 26 and 32: the term of exponent e is bit 31 - e, and that of 32 is the bit shifted out.
   */
  const GENERATOR: bv32 :=
    (1 << 31) ^ (1 << 30) ^ (1 << 29) ^ (1 << 27) ^ (1 << 26) ^ (1 << 24) ^ (1 << 23)
    ^ (1 << 21) ^ (1 << 20) ^ (1 << 19) ^ (1 << 15) ^ (1 << 9) ^ (1 << 8) ^ (1 << 5)

  /** The code has the standard's generator. */
  lemma PolynomialIsGenerator()
    ensures POLYNOMIAL == GENERATOR
  {
  }

  function Xor(x: bv32, y: bv32): bv32 {
    x ^ y
  }

  function Half(c: bv32): bv32 {
    c >> 1
  }

  predicate Odd(c: bv32) {
    c & 1 == 1
  }

  predicate Top(c: bv32) {
    c & 0x80000000 != 0
  }

  lemma Associates(p: bv32, x: bv32, y: bv32, xy: bv32, px: bv32)
    requires xy == x ^ y && px == p ^ x
    ensures p ^ xy == px ^ y
  {
  }

  lemma Exchanges(p: bv32, x: bv32, y: bv32, xy: bv32, py: bv32)
    requires xy == x ^ y && py == p ^ y
    ensures p ^ xy == x ^ py
  {
  }

  lemma Cancels(p: bv32, x: bv32, y: bv32, px: bv32, py: bv32)
    requires px == p ^ x && py == p ^ y
    ensures x ^ y == px ^ py
  {
  }

  lemma XorAssociates(p: bv32, x: bv32, y: bv32)
    ensures Xor(p, Xor(x, y)) == Xor(Xor(p, x), y)
  {
    Associates(p, x, y, Xor(x, y), Xor(p, x));
  }

  lemma XorExchanges(p: bv32, x: bv32, y: bv32)
    ensures Xor(p, Xor(x, y)) == Xor(x, Xor(p, y))
  {
    Exchanges(p, x, y, Xor(x, y), Xor(p, y));
  }

  lemma XorCancels(p: bv32, x: bv32, y: bv32)
    ensures Xor(x, y) == Xor(Xor(p, x), Xor(p, y))
  {
    Cancels(p, x, y, Xor(p, x), Xor(p, y));
  }

  lemma XorUndone(x: bv32, y: bv32)
    ensures Xor(Xor(x, y), y) == x
  {
  }

  lemma OddXor(x: bv32, y: bv32)
    ensures Odd(Xor(x, y)) <==> (Odd(x) != Odd(y))
  {
  }

  lemma HalfXor(x: bv32, y: bv32)
    ensures Half(Xor(x, y)) == Xor(Half(x), Half(y))
  {
  }

  // ---- Section 8 of RFC 1952 ----

  /** One turn of the loop of `make_crc_table`. */
  function TableBit(c: bv32): bv32 {
    if Odd(c) then Xor(GENERATOR, Half(c)) else Half(c)
  }

  /** `crc_table[n]`. */
  function Table(n: bv32): bv32 {
    Iter(TableBit, 8, n)
  }

  /** One turn of the loop of `update_crc`. */
  function TableStep(c: bv32, b: bv8): bv32 {
    Xor(Table(Xor(c, b as bv32) & 0xff), c >> 8)
  }

  /** `crc(buf)`: both complements are those of `update_crc`. */
  function RfcCrc(buf: seq<bv8>): bv32 {
    Fold(TableStep, 0 ^ 0xffffffff, buf) ^ 0xffffffff
  }

  /** Entry 0x80 of the table is the generator; as the table is linear, the others are its shifted sums. */
  lemma TableOfGenerator()
    ensures Table(0x80) == 0xEDB88320 && Table(0) == 0
  {
    IterEight(TableBit, 0x80);
    IterEight(TableBit, 0);
    SevenHalves(0x80);
  }

  lemma SevenHalves(x: bv32)
    requires x == 0x80
    ensures TableBit(TableBit(TableBit(TableBit(TableBit(TableBit(TableBit(x))))))) == 1
    ensures TableBit(1) == 0xEDB88320
  {
  }

  // ---- Bit by bit ----

  /** One turn of the inner loop of `Serial::crc32`. */
  function BitStep(c: bv32): bv32 {
    (c >> 1) ^ (POLYNOMIAL & (0 - (c & 1)))
  }

  /** One turn of its outer loop. */
  function ByteStep(c: bv32, b: bv8): bv32 {
    Iter(BitStep, 8, Xor(c, b as bv32))
  }

  function Update(c: bv32, buf: seq<bv8>): bv32 {
    Fold(ByteStep, c, buf)
  }

  lemma Mask(c: bv32)
    ensures 0 - (c & 1) == if c & 1 == 1 then 0xffffffff else 0
  {
  }

  lemma MaskRules(c: bv32, p: bv32)
    ensures c ^ (p & 0) == c && c ^ (p & 0xffffffff) == p ^ c
  {
  }

  /** The mask does what the table's condition does. */
  lemma BitStepIsTableBit(c: bv32)
    ensures BitStep(c) == TableBit(c)
  {
    Mask(c);
    MaskRules(c >> 1, POLYNOMIAL);
    PolynomialIsGenerator();
  }

  lemma LinearByCases<T>(plus: (T, T) -> T, p: T, x: T, y: T, i: bool, j: bool)
    requires plus(p, plus(x, y)) == plus(plus(p, x), y)
    requires plus(p, plus(x, y)) == plus(x, plus(p, y))
    requires plus(x, y) == plus(plus(p, x), plus(p, y))
    ensures (if i != j then plus(p, plus(x, y)) else plus(x, y)) ==
            plus(if i then plus(p, x) else x, if j then plus(p, y) else y)
  {
  }

  lemma TableBitLinear(x: bv32, y: bv32)
    ensures TableBit(Xor(x, y)) == Xor(TableBit(x), TableBit(y))
  {
    OddXor(x, y);
    HalfXor(x, y);
    XorAssociates(GENERATOR, Half(x), Half(y));
    XorExchanges(GENERATOR, Half(x), Half(y));
    XorCancels(GENERATOR, Half(x), Half(y));
    LinearByCases(Xor, GENERATOR, Half(x), Half(y), Odd(x), Odd(y));
  }

  lemma BitStepLinear()
    ensures Linear(BitStep, Xor)
  {
    forall x, y
      ensures BitStep(Xor(x, y)) == Xor(BitStep(x), BitStep(y))
    {
      BitStepIsTableBit(x);
      BitStepIsTableBit(y);
      BitStepIsTableBit(Xor(x, y));
      TableBitLinear(x, y);
    }
  }

  lemma EvenIsHalved()
    ensures forall c :: !Odd(c) ==> BitStep(c) == Half(c)
  {
    forall c | !Odd(c)
      ensures BitStep(c) == Half(c)
    {
      BitStepIsTableBit(c);
    }
  }

  // ---- The table-driven form ----
  //
  // Eight bit steps are `k` steps with `k == 8` here: with the literal in its place the solver
  // unfolds `Iter` wherever it occurs, also in lemmas that only put others together.

  function High(x: bv32): bv32 {
    x & 0xffffff00
  }

  lemma HighIsEven(x: bv32, k: nat)
    requires k == 8
    ensures AllEven(Half, Odd, k, High(x))
  {
    assert AllEven(Half, Odd, 8, High(x));
  }

  lemma LowAndHigh(x: bv32)
    ensures Xor(x & 0xff, High(x)) == x
  {
  }

  lemma EightHalves(x: bv32)
    ensures Half(Half(Half(Half(Half(Half(Half(Half(x)))))))) == x >> 8
  {
  }

  lemma ByteIsLow(c: bv32, b: bv8)
    ensures High(Xor(c, b as bv32)) >> 8 == c >> 8
  {
  }

  lemma BitsAreTableBits(k: nat, c: bv32)
    ensures Iter(BitStep, k, c) == Iter(TableBit, k, c)
    decreases k
  {
    if k != 0 {
      BitStepIsTableBit(c);
      BitsAreTableBits(k - 1, BitStep(c));
    }
  }

  lemma HalvesAreShift(x: bv32, k: nat)
    requires k == 8
    ensures Iter(Half, k, x) == x >> 8
  {
    IterEight(Half, x);
    EightHalves(x);
  }

  lemma EvenComesDown(x: bv32, k: nat)
    requires AllEven(Half, Odd, k, x)
    ensures Iter(BitStep, k, x) == Iter(Half, k, x)
  {
    EvenIsHalved();
    IterEven(BitStep, Half, Odd, k, x);
  }

  /** A zero low byte is shifted out by eight bit steps. */
  lemma ZeroByteIsShifted(x: bv32, k: nat)
    requires k == 8 && AllEven(Half, Odd, k, x)
    ensures Iter(BitStep, k, x) == x >> 8
  {
    EvenComesDown(x, k);
    HalvesAreShift(x, k);
  }

  /** Eight bit steps work on the low byte as on a table index, and shift down the rest. */
  lemma SplitSteps(x: bv32, low: bv32, high: bv32, k: nat)
    requires k == 8 && Xor(low, high) == x && AllEven(Half, Odd, k, high)
    ensures Iter(BitStep, k, x) == Xor(Iter(TableBit, k, low), high >> 8)
  {
    BitStepLinear();
    IterLinear(BitStep, Xor, k, low, high);
    ZeroByteIsShifted(high, k);
    BitsAreTableBits(k, low);
  }

  lemma StepsOnByte(x: bv32, low: bv32, high: bv32, k: nat)
    requires k == 8 && low == x & 0xff && high == High(x)
    ensures Iter(BitStep, k, x) == Xor(Iter(TableBit, k, low), high >> 8)
  {
    LowAndHigh(x);
    HighIsEven(x, k);
    SplitSteps(x, low, high, k);
  }

  lemma ByteStepIsTableStep(c: bv32, b: bv8)
    ensures ByteStep(c, b) == TableStep(c, b)
  {
    var x := Xor(c, b as bv32);
    StepsOnByte(x, x & 0xff, High(x), 8);
    ByteIsLow(c, b);
  }

  lemma ComplementTwice(c: bv32)
    ensures !(c ^ 0xffffffff) == c
  {
  }

  /** `Serial::crc32` leaves out the final complement of the RFC. */
  lemma UpdateIsRfcComplement(buf: seq<bv8>)
    ensures Update(0xFFFFFFFF, buf) == !RfcCrc(buf)
  {
    forall c, b
      ensures ByteStep(c, b) == TableStep(c, b)
    {
      ByteStepIsTableStep(c, b);
    }
    FoldSame(ByteStep, TableStep, 0xFFFFFFFF, buf);
    ComplementTwice(Fold(TableStep, 0xFFFFFFFF, buf));
  }

  /** The inner loop of `Serial::crc32`. */
  method ByteLoop(start: bv32) returns (crc: bv32)
    ensures crc == Iter(BitStep, 8, start)
  {
    crc := start;
    var j := 7;
    while j >= 0
      invariant -1 <= j <= 7
      invariant Iter(BitStep, j + 1, crc) == Iter(BitStep, 8, start)
    {
      ghost var before := crc;
      var msk := 0 - (crc & 1);
      crc := (crc >> 1) ^ (POLYNOMIAL & msk);
      assert crc == BitStep(before);
      j := j - 1;
    }
  }

  method TakeByte(start: bv32, byte: bv8) returns (crc: bv32)
    ensures crc == ByteStep(start, byte)
  {
    var b := byte as bv32;
    crc := ByteLoop(start ^ b);
  }

  /** `Serial::crc32`. */
  method Crc32(buf: array<bv8>, len: nat) returns (crc: bv32)
    requires len <= buf.Length
    ensures crc == !RfcCrc(buf[..len])
  {
    var i := 0;
    crc := 0xFFFFFFFF;
    while i < len
      invariant 0 <= i <= len
      invariant crc == Update(0xFFFFFFFF, buf[..i])
    {
      UpdateConcat(0xFFFFFFFF, buf[..i], [buf[i]]);
      assert buf[..i] + [buf[i]] == buf[..i + 1];
      UpdateOne(crc, buf[i]);
      crc := TakeByte(crc, buf[i]);
      i := i + 1;
    }
    UpdateIsRfcComplement(buf[..len]);
  }

  lemma UpdateConcat(c: bv32, a: seq<bv8>, b: seq<bv8>)
    ensures Update(c, a + b) == Update(Update(c, a), b)
  {
    FoldConcat(ByteStep, c, a, b);
  }

  lemma UpdateOne(c: bv32, b: bv8)
    ensures Update(c, [b]) == ByteStep(c, b)
  {
    assert [b][1..] == [];
    assert Fold(ByteStep, ByteStep(c, b), []) == ByteStep(c, b);
  }

  // ---- Nothing is lost ----

  /** The bit step backwards: the polynomial's top bit tells whether it was added. */
  function Unstep(c: bv32): bv32 {
    if Top(c) then Double(Xor(c, POLYNOMIAL)) | 1 else Double(c)
  }

  function Double(c: bv32): bv32 {
    c << 1
  }

  lemma HalfHasNoTop(c: bv32)
    ensures !Top(Half(c))
  {
  }

  lemma PolynomialHasTop(c: bv32)
    ensures Top(Xor(POLYNOMIAL, c)) <==> !Top(c)
  {
  }

  lemma XorPolynomialTwice(c: bv32)
    ensures Xor(Xor(POLYNOMIAL, c), POLYNOMIAL) == c
  {
  }

  lemma DoubleHalf(c: bv32)
    ensures if Odd(c) then Double(Half(c)) | 1 == c else Double(Half(c)) == c
  {
  }

  lemma HalfDouble(c: bv32)
    requires !Top(c)
    ensures Half(Double(c)) == c
  {
  }

  lemma HalfDoubleOdd(c: bv32)
    requires !Top(c)
    ensures Half(Double(c) | 1) == c
  {
  }

  lemma DoubleIsEven(c: bv32)
    ensures !Odd(Double(c))
  {
  }

  lemma DoubleAndOneIsOdd(c: bv32)
    ensures Odd(Double(c) | 1)
  {
  }

  lemma XorCommutes(x: bv32, y: bv32)
    ensures Xor(x, y) == Xor(y, x)
  {
  }

  lemma UnstepUndoes(c: bv32)
    ensures Unstep(TableBit(c)) == c
  {
    HalfHasNoTop(c);
    PolynomialHasTop(Half(c));
    XorPolynomialTwice(Half(c));
    DoubleHalf(c);
  }

  lemma UnstepIsUndone(c: bv32)
    ensures TableBit(Unstep(c)) == c
  {
    var d := Xor(c, POLYNOMIAL);
    XorCommutes(c, POLYNOMIAL);
    PolynomialHasTop(c);
    if Top(c) {
      HalfDoubleOdd(d);
      DoubleAndOneIsOdd(d);
      XorUndone(c, POLYNOMIAL);
      XorCommutes(d, POLYNOMIAL);
    } else {
      HalfDouble(c);
      DoubleIsEven(c);
    }
  }

  /** The bit step is a bijection on 32-bit words. */
  lemma BitStepIsBijective(c: bv32)
    ensures Unstep(BitStep(c)) == c && BitStep(Unstep(c)) == c
  {
    BitStepIsTableBit(c);
    BitStepIsTableBit(Unstep(c));
    UnstepUndoes(c);
    UnstepIsUndone(c);
  }

  lemma BitStepsInjective(x: bv32, y: bv32, k: nat)
    requires Iter(BitStep, k, x) == Iter(BitStep, k, y)
    ensures x == y
  {
    forall c
      ensures Unstep(BitStep(c)) == c
    {
      BitStepIsBijective(c);
    }
    IterInjective(BitStep, Unstep, k, x, y);
  }

  lemma ByteStepInjective(c: bv32, d: bv32, b: bv8)
    requires ByteStep(c, b) == ByteStep(d, b)
    ensures c == d
  {
    BitStepsInjective(Xor(c, b as bv32), Xor(d, b as bv32), 8);
    XorUndone(c, b as bv32);
    XorUndone(d, b as bv32);
  }

  /** Different registers stay different over the same bytes. */
  lemma UpdateInjective(c: bv32, d: bv32, buf: seq<bv8>)
    requires Update(c, buf) == Update(d, buf)
    ensures c == d
  {
    forall u, v, b | ByteStep(u, b) == ByteStep(v, b)
      ensures u == v
    {
      ByteStepInjective(u, v, b);
    }
    FoldInjective(ByteStep, c, d, buf);
  }

  // ---- Four bytes are one word ----

  function Up8(b: bv8): bv32 {
    (b as bv32) << 8
  }

  function Up16(b: bv8): bv32 {
    (b as bv32) << 16
  }

  function Up24(b: bv8): bv32 {
    (b as bv32) << 24
  }

  /** The word of four bytes, least significant first. */
  function Word(b0: bv8, b1: bv8, b2: bv8, b3: bv8): bv32 {
    Xor(Xor(Xor(b0 as bv32, Up8(b1)), Up16(b2)), Up24(b3))
  }

  lemma Up8IsEven(b: bv8)
    ensures AllEven(Half, Odd, 8, Up8(b))
  {
  }

  lemma Up16IsEven(b: bv8)
    ensures AllEven(Half, Odd, 8, Up16(b))
  {
  }

  lemma Up24IsEven(b: bv8)
    ensures AllEven(Half, Odd, 8, Up24(b))
  {
  }

  lemma Up8Down(b: bv8)
    ensures Up8(b) >> 8 == b as bv32
  {
  }

  lemma Up16Down(b: bv8)
    ensures Up16(b) >> 8 == Up8(b)
  {
  }

  lemma Up24Down(b: bv8)
    ensures Up24(b) >> 8 == Up16(b)
  {
  }

  /** A byte further up in the register comes down unchanged. */
  lemma Up8ComesDown(b: bv8, k: nat)
    requires k == 8
    ensures Iter(BitStep, k, Up8(b)) == b as bv32
  {
    Up8IsEven(b);
    Up8Down(b);
    ZeroByteIsShifted(Up8(b), k);
  }

  lemma Up16ComesDown(b: bv8, k: nat)
    requires k == 8
    ensures Iter(BitStep, k + k, Up16(b)) == b as bv32
  {
    Up16IsEven(b);
    Up16Down(b);
    ZeroByteIsShifted(Up16(b), k);
    Up8ComesDown(b, k);
    IterAdd(BitStep, k, k, Up16(b));
  }

  lemma Up24ComesDown(b: bv8, k: nat)
    requires k == 8
    ensures Iter(BitStep, k + (k + k), Up24(b)) == b as bv32
  {
    Up24IsEven(b);
    Up24Down(b);
    ZeroByteIsShifted(Up24(b), k);
    Up16ComesDown(b, k);
    IterAdd(BitStep, k, k + k, Up24(b));
  }

  /** A byte taken after `j` bits might have been in the register before them, as `high`. */
  lemma TakeEarlier(c: bv32, high: bv32, b: bv8, j: nat, k: nat)
    requires k == 8 && Iter(BitStep, j, high) == b as bv32
    ensures ByteStep(Iter(BitStep, j, c), b) == Iter(BitStep, j + k, Xor(c, high))
  {
    BitStepLinear();
    IterLinear(BitStep, Xor, j, c, high);
    IterAdd(BitStep, j, k, Xor(c, high));
  }

  lemma FoldFour<S, T>(f: (S, T) -> S, s: S, a: T, b: T, c: T, d: T)
    ensures Fold(f, s, [a, b, c, d]) == f(f(f(f(s, a), b), c), d)
  {
    assert [a, b, c, d][1..] == [b, c, d] && [b, c, d][1..] == [c, d] && [c, d][1..] == [d] && [d][1..] == [];
    assert Fold(f, f(s, a), [b, c, d]) == Fold(f, f(f(s, a), b), [c, d]);
    assert Fold(f, f(f(f(s, a), b), c), [d]) == Fold(f, f(f(f(f(s, a), b), c), d), []);
  }

  lemma PlusFour<T(!new)>(plus: (T, T) -> T, c: T, w0: T, w1: T, w2: T, w3: T)
    requires forall x, y, z :: plus(x, plus(y, z)) == plus(plus(x, y), z)
    ensures plus(plus(plus(plus(c, w0), w1), w2), w3) == plus(c, plus(plus(plus(w0, w1), w2), w3))
  {
  }

  lemma XorFour(c: bv32, w0: bv32, w1: bv32, w2: bv32, w3: bv32)
    ensures Xor(Xor(Xor(Xor(c, w0), w1), w2), w3) == Xor(c, Xor(Xor(Xor(w0, w1), w2), w3))
  {
    forall x, y, z
      ensures Xor(x, Xor(y, z)) == Xor(Xor(x, y), z)
    {
      XorAssociates(x, y, z);
    }
    PlusFour(Xor, c, w0, w1, w2, w3);
  }

  lemma SecondByte(c: bv32, b: bv8, k: nat)
    requires k == 8
    ensures ByteStep(Iter(BitStep, k, c), b) == Iter(BitStep, k + k, Xor(c, Up8(b)))
  {
    Up8ComesDown(b, k);
    TakeEarlier(c, Up8(b), b, k, k);
  }

  lemma ThirdByte(c: bv32, b: bv8, k: nat)
    requires k == 8
    ensures ByteStep(Iter(BitStep, k + k, c), b) == Iter(BitStep, k + k + k, Xor(c, Up16(b)))
  {
    Up16ComesDown(b, k);
    TakeEarlier(c, Up16(b), b, k + k, k);
  }

  lemma FourthByte(c: bv32, b: bv8, k: nat)
    requires k == 8
    ensures ByteStep(Iter(BitStep, k + k + k, c), b) == Iter(BitStep, k + k + k + k, Xor(c, Up24(b)))
  {
    Up24ComesDown(b, k);
    TakeEarlier(c, Up24(b), b, k + k + k, k);
  }

  lemma FourByteSteps(c: bv32, b0: bv8, b1: bv8, b2: bv8, b3: bv8, k: nat, c0: bv32, c1: bv32, c2: bv32)
    requires k == 8 && c0 == Xor(c, b0 as bv32) && c1 == Xor(c0, Up8(b1)) && c2 == Xor(c1, Up16(b2))
    ensures ByteStep(ByteStep(ByteStep(ByteStep(c, b0), b1), b2), b3) == Iter(BitStep, k + k + k + k, Xor(c2, Up24(b3)))
  {
    SecondByte(c0, b1, k);
    ThirdByte(c1, b2, k);
    FourthByte(c2, b3, k);
  }

  /** Four bytes act on the register as one word, taken before 32 bit steps. */
  lemma FourBytesAreAWord(c: bv32, b0: bv8, b1: bv8, b2: bv8, b3: bv8, k: nat)
    requires k == 8
    ensures Update(c, [b0, b1, b2, b3]) == Iter(BitStep, k + k + k + k, Xor(c, Word(b0, b1, b2, b3)))
  {
    var c0 := Xor(c, b0 as bv32);
    var c1 := Xor(c0, Up8(b1));
    FoldFour(ByteStep, c, b0, b1, b2, b3);
    FourByteSteps(c, b0, b1, b2, b3, k, c0, c1, Xor(c1, Up16(b2)));
    XorFour(c, b0 as bv32, Up8(b1), Up16(b2), Up24(b3));
  }

  lemma WordByte0(b0: bv8, b1: bv8, b2: bv8, b3: bv8)
    ensures (Word(b0, b1, b2, b3) & 0xff) as bv8 == b0
  {
  }

  lemma WordByte1(b0: bv8, b1: bv8, b2: bv8, b3: bv8)
    ensures ((Word(b0, b1, b2, b3) >> 8) & 0xff) as bv8 == b1
  {
  }

  lemma WordByte2(b0: bv8, b1: bv8, b2: bv8, b3: bv8)
    ensures ((Word(b0, b1, b2, b3) >> 16) & 0xff) as bv8 == b2
  {
  }

  lemma WordByte3(b0: bv8, b1: bv8, b2: bv8, b3: bv8)
    ensures ((Word(b0, b1, b2, b3) >> 24) & 0xff) as bv8 == b3
  {
  }

  lemma WordInjective(b0: bv8, b1: bv8, b2: bv8, b3: bv8, d0: bv8, d1: bv8, d2: bv8, d3: bv8)
    requires Word(b0, b1, b2, b3) == Word(d0, d1, d2, d3)
    ensures b0 == d0 && b1 == d1 && b2 == d2 && b3 == d3
  {
    WordByte0(b0, b1, b2, b3);
    WordByte0(d0, d1, d2, d3);
    WordByte1(b0, b1, b2, b3);
    WordByte1(d0, d1, d2, d3);
    WordByte2(b0, b1, b2, b3);
    WordByte2(d0, d1, d2, d3);
    WordByte3(b0, b1, b2, b3);
    WordByte3(d0, d1, d2, d3);
  }

  lemma SameWord(c: bv32, a: bv32, b: bv32)
    requires Xor(c, a) == Xor(c, b)
    ensures a == b
  {
    XorCommutes(c, a);
    XorCommutes(c, b);
    XorUndone(a, c);
    XorUndone(b, c);
  }

  lemma WindowMatters(c: bv32, a: seq<bv8>, b: seq<bv8>)
    requires |a| == |b| == 4 && Update(c, a) == Update(c, b)
    ensures a == b
  {
    var k := 8;
    var wa, wb := Word(a[0], a[1], a[2], a[3]), Word(b[0], b[1], b[2], b[3]);
    assert a == [a[0], a[1], a[2], a[3]] && b == [b[0], b[1], b[2], b[3]];
    FourBytesAreAWord(c, a[0], a[1], a[2], a[3], k);
    FourBytesAreAWord(c, b[0], b[1], b[2], b[3], k);
    BitStepsInjective(Xor(c, wa), Xor(c, wb), k + k + k + k);
    SameWord(c, wa, wb);
    WordInjective(a[0], a[1], a[2], a[3], b[0], b[1], b[2], b[3]);
  }

  lemma SplitUpdate(c: bv32, s: seq<bv8>, k: nat)
    requires k + 4 <= |s|
    ensures Update(c, s) == Update(Update(Update(c, s[..k]), s[k..k + 4]), s[k + 4..])
  {
    assert s == s[..k] + s[k..k + 4] + s[k + 4..];
    UpdateConcat(c, s[..k] + s[k..k + 4], s[k + 4..]);
    UpdateConcat(c, s[..k], s[k..k + 4]);
  }

  lemma SameChecksumSameBuffer(c: bv32, a: seq<bv8>, b: seq<bv8>, k: nat)
    requires |a| == |b| && k + 4 <= |a| && Update(c, a) == Update(c, b)
    requires a[..k] == b[..k] && a[k + 4..] == b[k + 4..]
    ensures a == b
  {
    SplitUpdate(c, a, k);
    SplitUpdate(c, b, k);
    var d := Update(c, a[..k]);
    UpdateInjective(Update(d, a[k..k + 4]), Update(d, b[k..k + 4]), a[k + 4..]);
    WindowMatters(d, a[k..k + 4], b[k..k + 4]);
    assert a == a[..k] + a[k..k + 4] + a[k + 4..] && b == b[..k] + b[k..k + 4] + b[k + 4..];
  }

  lemma BurstChangesUpdate(c: bv32, a: seq<bv8>, b: seq<bv8>, k: nat, pad: seq<bv8>)
    requires |a| == |b| && k <= |a| && |pad| == 4 && Update(c, a) == Update(c, b)
    requires forall i :: 0 <= i < |a| && !(k <= i < k + 4) ==> a[i] == b[i]
    ensures a == b
  {
    UpdateConcat(c, a, pad);
    UpdateConcat(c, b, pad);
    SameChecksumSameBuffer(c, a + pad, b + pad, k);
    PrefixOf(a, b, pad);
  }

  /** Buffers of equal length that differ only within four consecutive bytes have different checksums. */
  lemma BurstIsDetected(a: seq<bv8>, b: seq<bv8>, k: nat)
    requires |a| == |b| && k <= |a| && a != b
    requires forall i :: 0 <= i < |a| && !(k <= i < k + 4) ==> a[i] == b[i]
    ensures RfcCrc(a) != RfcCrc(b)
  {
    if RfcCrc(a) == RfcCrc(b) {
      UpdateIsRfcComplement(a);
      UpdateIsRfcComplement(b);
      BurstChangesUpdate(0xFFFFFFFF, a, b, k, [0, 0, 0, 0]);
    }
  }

  lemma PrefixOf(a: seq<bv8>, b: seq<bv8>, pad: seq<bv8>)
    requires |a| == |b| && a + pad == b + pad
    ensures a == b
  {
    assert a == (a + pad)[..|a|];
  }

  function LittleEndian(w: bv32): seq<bv8> {
    [(w & 0xff) as bv8, ((w >> 8) & 0xff) as bv8, ((w >> 16) & 0xff) as bv8, ((w >> 24) & 0xff) as bv8]
  }

  lemma LittleEndianWord(w: bv32)
    ensures Word((w & 0xff) as bv8, ((w >> 8) & 0xff) as bv8, ((w >> 16) & 0xff) as bv8, ((w >> 24) & 0xff) as bv8) == w
  {
  }

  lemma XorSelf(w: bv32)
    ensures Xor(w, w) == 0
  {
  }

  lemma ZeroStep()
    ensures BitStep(0) == 0
  {
  }

  lemma {:induction false} ZeroStaysZero(k: nat)
    ensures Iter(BitStep, k, 0) == 0
    decreases k
  {
    if k != 0 {
      ZeroStep();
      ZeroStaysZero(k - 1);
    }
  }

  /** A buffer followed by its checksum, as `Serial::crc32` gives it, has the checksum zero. */
  lemma AppendedChecksumGivesZero(buf: seq<bv8>)
    ensures !RfcCrc(buf + LittleEndian(!RfcCrc(buf))) == 0
  {
    var k := 8;
    var c := Update(0xFFFFFFFF, buf);
    var w := LittleEndian(c);
    UpdateIsRfcComplement(buf);
    UpdateIsRfcComplement(buf + w);
    UpdateConcat(0xFFFFFFFF, buf, w);
    FourBytesAreAWord(c, w[0], w[1], w[2], w[3], k);
    LittleEndianWord(c);
    XorSelf(c);
    ZeroStaysZero(k + k + k + k);
  }
}
