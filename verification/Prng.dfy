/** The simulation's 32-bit xor-shift generator. Its right shift is the sign-extending one, which is what makes
    a step two-to-one. */
module Prng {
  /** The one nonzero state that steps to zero. */
  const FATAL: bv32 := 0xFC00_1FFF

  /** A number's low 32 bits, as `| 0` takes them. */
  function Low32(seed: int): bv32 { (seed % 0x1_0000_0000) as bv32 }

  /** A seed whose low 32 bits are zero is replaced by one. */
  function SeededState(seed: int): bv32 { if Low32(seed) == 0 then 1 else Low32(seed) }

  /** The bits that a signed shift right by 17 fills in: copies of the sign. */
  function SignFill(s: bv32): bv32 { if s & 0x8000_0000 != 0 then 0xFFFF_8000 else 0 }

  function SignedShiftRight17(s: bv32): bv32 { (s >> 17) | SignFill(s) }

  function Xor(a: bv32, b: bv32): bv32 { a ^ b }

  /** The three assignments of a step: exclusive or with the state shifted left by 13, right by 17, left by 5. */
  function First(s: bv32): bv32 { s ^ (s << 13) }

  function Second(s: bv32): bv32 { Xor(s, SignedShiftRight17(s)) }

  function Third(s: bv32): bv32 { s ^ (s << 5) }

  function Step(s: bv32): bv32 { Third(Second(First(s))) }

  function Steps(s: bv32, n: nat): bv32 { if n == 0 then s else Step(Steps(s, n - 1)) }

  /** The unit-interval value of an unsigned 32-bit state. */
  function UnitOf(n: int): real { n as real / 4294967296.0 }

  function IntOf(n: int, min: int, max: int): int { (UnitOf(n) * (max - min + 1) as real).Floor + min }

  function Unsigned(s: bv32): int { s as int }

  class Prng {
    var state: bv32

    constructor (seed: int)
      ensures state == SeededState(seed)
    {
      hide Low32;
      state := if Low32(seed) == 0 then 1 else Low32(seed);
    }

    method Next() returns (r: real)
      modifies this
      ensures state == Step(old(state)) && r == UnitOf(Unsigned(state))
      ensures 0.0 <= r < 1.0
    {
      hide First, Second, Third, Unsigned;
      state := First(state);
      state := Second(state);
      state := Third(state);
      UnsignedRange(state);
      UnitInterval(Unsigned(state));
      r := UnitOf(Unsigned(state));
    }

    method NextInt(min: int, max: int) returns (r: int)
      modifies this
      ensures state == Step(old(state)) && r == IntOf(Unsigned(state), min, max)
      ensures min <= max ==> min <= r <= max
    {
      hide Step, Unsigned;
      var u := Next();
      r := (u * (max - min + 1) as real).Floor + min;
      UnsignedRange(state);
      if min <= max {
        IntInRange(Unsigned(state), min, max);
      }
    }

    method NextBool(p: real) returns (r: bool)
      modifies this
      ensures state == Step(old(state)) && (r <==> UnitOf(Unsigned(state)) < p)
    {
      hide Step, Unsigned;
      var u := Next();
      r := u < p;
    }
  }

  /** A seed counts by its remainder modulo two to the 32, and one stands in for a remainder of zero: every word is
      seeded by its own number and by those that differ from it by a multiple. */
  lemma SeedsExactly(word: bv32, wraps: int)
    ensures SeededState(Unsigned(word) + wraps * 4_294_967_296) == if word == 0 then 1 else word
  {
    var seed := Unsigned(word) + wraps * 0x1_0000_0000;
    UnsignedRange(word);
    RemainderOfWraps(Unsigned(word), wraps);
    NumberOfWord(word);
    hide Unsigned;
  }

  lemma RemainderOfWraps(n: int, wraps: int)
    requires 0 <= n < 0x1_0000_0000
    ensures (n + wraps * 0x1_0000_0000) % 0x1_0000_0000 == n
  {
  }

  lemma NumberOfWord(word: bv32)
    requires 0 <= Unsigned(word) < 0x1_0000_0000
    ensures Unsigned(word) as bv32 == word
  {
  }

  // ---------------------------------------------------------------------------------------------
  // Outputs

  lemma UnsignedRange(s: bv32)
    ensures 0 <= Unsigned(s) < 0x1_0000_0000
    ensures Unsigned(s) == 0 <==> s == 0
  {
  }

  lemma UnitInterval(n: int)
    requires 0 <= n < 0x1_0000_0000
    ensures 0.0 <= UnitOf(n) < 1.0
  {
  }

  /** The integer drawn always lies between its bounds, both included. */
  lemma IntInRange(n: int, min: int, max: int)
    requires 0 <= n < 0x1_0000_0000 && min <= max
    ensures min <= IntOf(n, min, max) <= max
  {
    UnitInterval(n);
    hide UnitOf;
    ScaledUnit(UnitOf(n), (max - min + 1) as real);
  }

  lemma ScaledUnit(u: real, span: real)
    requires 0.0 <= u < 1.0 && 1.0 <= span
    ensures 0.0 <= u * span < span
  {
  }

  /** Which integer a state draws, exactly: the states are cut into equal stretches, one per value. */
  lemma IntBucket(n: int, min: int, max: int, k: int)
    ensures IntOf(n, min, max) == min + k
      <==> k * 0x1_0000_0000 <= n * (max - min + 1) < (k + 1) * 0x1_0000_0000
  {
    var span := max - min + 1;
    ScaledUnitOf(n, span);
    FloorBucket(n * span, k);
  }

  /** With no more values than states, every value between the bounds is drawn by some state. */
  lemma EveryValueIsDrawn(min: int, max: int, value: int) returns (n: int)
    requires min <= value <= max < min + 0x1_0000_0000
    ensures 0 <= n < 0x1_0000_0000 && IntOf(n, min, max) == value
  {
    var span, k := max - min + 1, value - min;
    n := CeilingOf(k, span);
    IntBucket(n, min, max, k);
  }

  /** The first state at or after the start of stretch k. */
  lemma CeilingOf(k: int, span: int) returns (n: int)
    requires 0 <= k < span <= 0x1_0000_0000
    ensures 0 <= n < 0x1_0000_0000
    ensures k * 0x1_0000_0000 <= n * span < (k + 1) * 0x1_0000_0000
  {
    var total := k * 0x1_0000_0000 + span - 1;
    n := total / span;
    assert total == n * span + total % span;
    assert n >= 0x1_0000_0000 ==> n * span >= 0x1_0000_0000 * span;
  }

  lemma ScaledUnitOf(n: int, span: int)
    ensures UnitOf(n) * span as real == (n * span) as real / 4294967296.0
  {
    assert (n * span) as real == n as real * span as real;
  }

  lemma FloorBucket(n: int, k: int)
    ensures (n as real / 4294967296.0).Floor == k <==> k * 0x1_0000_0000 <= n < (k + 1) * 0x1_0000_0000
  {
    var x := n as real / 4294967296.0;
    assert x * 4294967296.0 == n as real;
  }

  // ---------------------------------------------------------------------------------------------
  // Structure of a step

  predicate IsXor(z: bv32, x: bv32, y: bv32) { z == x ^ y }

  lemma StagesOfXor(a: bv32, b: bv32)
    ensures IsXor((a ^ b) ^ ((a ^ b) << 13), a ^ (a << 13), b ^ (b << 13))
    ensures IsXor((a ^ b) ^ ((a ^ b) << 5), a ^ (a << 5), b ^ (b << 5))
  {
  }

  lemma FirstOfXor(a: bv32, b: bv32)
    ensures IsXor(First(a ^ b), First(a), First(b))
  {
    hide IsXor;
    StagesOfXor(a, b);
  }

  lemma ThirdOfXor(a: bv32, b: bv32)
    ensures IsXor(Third(a ^ b), Third(a), Third(b))
  {
    hide IsXor;
    StagesOfXor(a, b);
  }

  /** The signed shift written with its fill as one more exclusive or. */
  predicate IsShifted(r: bv32, s: bv32, fill: bv32) { r == (s >> 17) ^ fill }

  predicate IsFill(fill: bv32) { fill == 0xFFFF_8000 || fill == 0 }

  lemma FillIsExclusive(s: bv32, fill: bv32)
    requires IsFill(fill)
    ensures IsShifted((s >> 17) | fill, s, fill)
  {
  }

  lemma FillCases(s: bv32)
    ensures IsFill(SignFill(s))
  {
  }

  lemma SignedShiftIsShifted(s: bv32)
    ensures IsShifted(SignedShiftRight17(s), s, SignFill(s))
  {
    hide IsShifted, IsFill, SignFill;
    FillCases(s);
    FillIsExclusive(s, SignFill(s));
  }

  lemma FillOfXor(a: bv32, b: bv32)
    ensures SignFill(a ^ b) == SignFill(a) ^ SignFill(b)
  {
  }

  lemma ShiftedOfXor(a: bv32, b: bv32, f: bv32, g: bv32)
    ensures IsXor(((a ^ b) >> 17) ^ (f ^ g), (a >> 17) ^ f, (b >> 17) ^ g)
  {
  }

  lemma ShiftedSum(a: bv32, b: bv32, f: bv32, g: bv32, x: bv32, y: bv32, z: bv32)
    requires IsShifted(x, a, f) && IsShifted(y, b, g) && IsShifted(z, a ^ b, f ^ g)
    ensures IsXor(z, x, y)
  {
    hide IsXor;
    ShiftedOfXor(a, b, f, g);
  }

  lemma SignedShiftOfXor(a: bv32, b: bv32)
    ensures IsXor(SignedShiftRight17(a ^ b), SignedShiftRight17(a), SignedShiftRight17(b))
  {
    hide IsXor, IsShifted, SignFill, SignedShiftRight17;
    SignedShiftIsShifted(a);
    SignedShiftIsShifted(b);
    FillOfXor(a, b);
    SignedShiftIsShifted(a ^ b);
    ShiftedSum(a, b, SignFill(a), SignFill(b), SignedShiftRight17(a), SignedShiftRight17(b), SignedShiftRight17(a ^ b));
  }

  lemma XorOfSums(a: bv32, b: bv32, x: bv32, y: bv32, z: bv32)
    requires IsXor(z, x, y)
    ensures IsXor(Xor(a ^ b, z), Xor(a, x), Xor(b, y))
  {
  }

  lemma SecondOfXor(a: bv32, b: bv32)
    ensures IsXor(Second(a ^ b), Second(a), Second(b))
  {
    hide IsXor, Xor, SignedShiftRight17;
    SignedShiftOfXor(a, b);
    XorOfSums(a, b, SignedShiftRight17(a), SignedShiftRight17(b), SignedShiftRight17(a ^ b));
  }

  lemma FirstOfSum(z: bv32, x: bv32, y: bv32)
    requires IsXor(z, x, y)
    ensures IsXor(First(z), First(x), First(y))
  {
    hide First;
    FirstOfXor(x, y);
  }

  lemma SecondOfSum(z: bv32, x: bv32, y: bv32)
    requires IsXor(z, x, y)
    ensures IsXor(Second(z), Second(x), Second(y))
  {
    hide Second;
    SecondOfXor(x, y);
  }

  lemma ThirdOfSum(z: bv32, x: bv32, y: bv32)
    requires IsXor(z, x, y)
    ensures IsXor(Third(z), Third(x), Third(y))
  {
    hide Third;
    ThirdOfXor(x, y);
  }

  lemma StepOfSum(z: bv32, x: bv32, y: bv32)
    requires IsXor(z, x, y)
    ensures IsXor(Step(z), Step(x), Step(y))
  {
    hide First, Second, Third, IsXor;
    FirstOfSum(z, x, y);
    SecondOfSum(First(z), First(x), First(y));
    ThirdOfSum(Second(First(z)), Second(First(x)), Second(First(y)));
  }

  /** A step is linear over exclusive or. */
  lemma StepIsLinear(a: bv32, b: bv32)
    ensures Step(a ^ b) == Step(a) ^ Step(b)
  {
    hide Step;
    StepOfSum(a ^ b, a, b);
  }

  lemma FirstPreimages(s: bv32)
    ensures First(s) == 0 <==> s == 0
    ensures First(s) == 0xFFFF_FFFF <==> s == FATAL
  {
  }

  lemma SecondKernel(s: bv32)
    ensures Second(s) == 0 <==> s == 0 || s == 0xFFFF_FFFF
  {
  }

  lemma ThirdKernel(s: bv32)
    ensures Third(s) == 0 <==> s == 0
  {
  }

  lemma ZeroIsReachedFrom(s: bv32)
    ensures Step(s) == 0 <==> s == 0 || s == FATAL
  {
    hide First, Second, Third;
    ThirdKernel(Second(First(s)));
    SecondKernel(First(s));
    FirstPreimages(s);
  }

  lemma XorZero(a: bv32, b: bv32)
    ensures a ^ b == 0 <==> a == b
  {
  }

  /** A step maps two states together exactly when they are equal or differ by the fatal pattern. */
  lemma StepIsTwoToOne(a: bv32, b: bv32)
    ensures Step(a) == Step(b) <==> a == b || a ^ b == FATAL
  {
    hide Step;
    StepIsLinear(a, b);
    ZeroIsReachedFrom(a ^ b);
    XorZero(Step(a), Step(b));
    XorZero(a, b);
  }

  /** The sign extension always clears the top bit, so half of all states are never produced. */
  lemma SecondClearsTopBit(s: bv32)
    ensures Second(s) & 0x8000_0000 == 0
  {
  }

  lemma FatalNeedsTopBit(s: bv32)
    requires Third(s) == FATAL
    ensures s & 0x8000_0000 != 0
  {
  }

  /** No step ever produces the fatal state: it can only be seeded. */
  lemma FatalIsNeverReached(s: bv32)
    ensures Step(s) != FATAL
  {
    hide First, Second, Third;
    SecondClearsTopBit(First(s));
    if Third(Second(First(s))) == FATAL {
      FatalNeedsTopBit(Second(First(s)));
    }
  }

  /** After at least one step the generator is stuck at zero exactly when it started there or on the fatal state. */
  lemma {:induction false} StuckExactly(s: bv32, n: nat)
    requires n > 0
    ensures Steps(s, n) == 0 <==> s == 0 || s == FATAL
  {
    hide Step;
    ZeroIsReachedFrom(Steps(s, n - 1));
    if n > 1 {
      StuckExactly(s, n - 1);
      FatalIsNeverReached(Steps(s, n - 2));
    }
  }

  /** Over all seeds there is one way to kill the generator: a seed whose low 32 bits are the fatal pattern draws
      zero for ever, and no other seed ever draws zero. */
  lemma OneDeadSeed(seed: int, n: nat)
    requires n > 0
    ensures UnitOf(Unsigned(Steps(SeededState(seed), n))) == 0.0 <==> Low32(seed) == FATAL
  {
    hide Step, Steps, Low32, Unsigned;
    var s := Steps(SeededState(seed), n);
    StuckExactly(SeededState(seed), n);
    UnsignedRange(s);
  }
}
