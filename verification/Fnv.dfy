/**
 The 32-bit FNV-1 hash that routes files to writer queues. A 32-bit word is a natural
 number below 2^32 and every operation that can overflow is reduced modulo 2^32.
 */
module Fnv {
  import opened Machine

  const FNV_32_PRIME: nat := 0x0100_0193

  /** The inverse of the prime modulo 2^32. */
  const PRIME_INVERSE: nat := 0x359c_449b

  type Word = w: nat | w < 0x1_0000_0000
  type Octet = o: nat | o < 0x100

  function Pow2(n: nat): nat { if n == 0 then 1 else 2 * Pow2(n - 1) }

  /** Bitwise exclusive or of the low `n` bits. */
  function Xor(a: nat, b: nat, n: nat): (r: nat)
    ensures r < Pow2(n)
  {
    if n == 0 then 0 else 2 * Xor(a / 2, b / 2, n - 1) + (a + b) % 2
  }

  lemma {:induction false} LowBit(a: nat, b: nat, y: nat)
    ensures var x := 2 * y + (a + b) % 2; x / 2 == y && (x + b) % 2 == a % 2
  {
  }

  lemma {:induction false} XorInverts(a: nat, b: nat, n: nat)
    requires a < Pow2(n)
    ensures Xor(Xor(a, b, n), b, n) == a
  {
    if n > 0 {
      var y := Xor(a / 2, b / 2, n - 1);
      LowBit(a, b, y);
      HalfFits(a, n);
      XorInverts(a / 2, b / 2, n - 1);
      calc {
        Xor(Xor(a, b, n), b, n);
        2 * Xor(y, b / 2, n - 1) + a % 2;
        2 * (a / 2) + a % 2;
        a;
      }
    }
  }

  function Bit(x: nat, i: nat): bool { if i == 0 then x % 2 == 1 else Bit(x / 2, i - 1) }

  lemma {:induction false} Parity(a: nat, b: nat)
    ensures (a + b) % 2 == 1 <==> (a % 2 == 1) != (b % 2 == 1)
  {
  }

  lemma {:induction false} Halves(y: nat, bit: nat)
    requires bit < 2
    ensures (2 * y + bit) / 2 == y && (2 * y + bit) % 2 == bit
  {
  }

  /** A bit of the result is set where exactly one of the operands has it set. */
  lemma {:induction false} XorBits(a: nat, b: nat, n: nat, i: nat)
    ensures Bit(Xor(a, b, n), i) <==> i < n && (Bit(a, i) != Bit(b, i))
  {
    if n == 0 {
      NoBits(i);
    } else {
      var rest, bit := Xor(a / 2, b / 2, n - 1), (a + b) % 2;
      Halves(rest, bit);
      if i == 0 { Parity(a, b); } else { XorBits(a / 2, b / 2, n - 1, i - 1); }
    }
  }

  lemma {:induction false} NoBits(i: nat)
    ensures !Bit(0, i)
  {
    if i > 0 { NoBits(i - 1); }
  }

  lemma {:induction false} HalfFits(a: nat, n: nat)
    requires n > 0 && a < Pow2(n)
    ensures a / 2 < Pow2(n - 1)
  {
  }

  lemma {:induction false} WordSize()
    ensures Pow2(32) == TWO_32
  {
    assert Pow2(8) == 0x100;
    assert Pow2(16) == 0x1_0000;
    assert Pow2(24) == 0x100_0000;
  }

  function Xor32(a: Word, b: Word): Word {
    WordSize();
    Xor(a, b, 32)
  }

  /** One octet by the definition of FNV-1: multiply by the prime modulo 2^32, then xor the octet in. */
  function Step(h: Word, octet: Octet): Word {
    Xor32(Times(h, FNV_32_PRIME), octet)
  }

  /** FNV-1 in numbers: nothing hashes to the start state, and one octet multiplies by 16777619, then flips bits. */
  lemma {:induction false} FnvInNumbers(hval: Word, octet: Octet, i: nat)
    ensures Fnv1(hval, []) == hval
    ensures Bit(Fnv1(hval, [octet]), i) <==> i < 32 && (Bit(hval * 16777619 % 4294967296, i) != Bit(octet, i))
  {
    assert [octet][..0] == [];
    XorBits(Times(hval, FNV_32_PRIME), octet, 32, i);
  }

  function Fnv1(hval: Word, octets: seq<Octet>): Word {
    if octets == [] then hval else Step(Fnv1(hval, octets[..|octets| - 1]), octets[|octets| - 1])
  }

  lemma {:induction false} WrappedSum(x: nat, y: nat)
    ensures (x % TWO_32 + y % TWO_32) % TWO_32 == (x + y) % TWO_32
  {
  }

  function Add32(a: Word, b: Word): Word { (a + b) % TWO_32 }

  function Times(h: Word, factor: nat): Word { (h * factor) % TWO_32 }

  lemma {:induction false} AddTimes(h: Word, a: nat, b: nat)
    ensures Add32(Times(h, a), Times(h, b)) == Times(h, a + b)
  {
    assert h * (a + b) == h * a + h * b;
    WrappedSum(h * a, h * b);
  }

  function ShiftLeft(h: Word, bits: nat): Word { Times(h, Pow2(bits)) }

  /** The multiplication as the code performs it: shifts by 1, 4, 7, 8 and 24, every addition wrapping. */
  function ShiftAndAdd(h: Word): Word {
    var shifted := Add32(ShiftLeft(h, 1), ShiftLeft(h, 4));
    var shifted := Add32(shifted, ShiftLeft(h, 7));
    var shifted := Add32(shifted, ShiftLeft(h, 8));
    var shifted := Add32(shifted, ShiftLeft(h, 24));
    Add32(h, shifted)
  }

  lemma {:induction false} Powers()
    ensures Pow2(1) == 0x2 && Pow2(4) == 0x10 && Pow2(7) == 0x80 && Pow2(8) == 0x100 && Pow2(24) == 0x100_0000
  {
    assert Pow2(16) == 0x1_0000;
  }

  /** One more shifted copy. */
  lemma {:induction false} AddShift(h: Word, sum: Word, factor: nat, bits: nat)
    requires sum == Times(h, factor)
    ensures Add32(sum, ShiftLeft(h, bits)) == Times(h, factor + Pow2(bits))
  {
    AddTimes(h, factor, Pow2(bits));
  }

  /** Shifting and adding is multiplying by the FNV prime. */
  lemma {:induction false} ShiftAndAddMultiplies(h: Word)
    ensures ShiftAndAdd(h) == Times(h, FNV_32_PRIME)
  {
    Powers();
    AddShift(h, ShiftLeft(h, 1), 0x2, 4);
    var shifted := Add32(ShiftLeft(h, 1), ShiftLeft(h, 4));
    AddShift(h, shifted, 0x12, 7);
    shifted := Add32(shifted, ShiftLeft(h, 7));
    AddShift(h, shifted, 0x92, 8);
    shifted := Add32(shifted, ShiftLeft(h, 8));
    AddShift(h, shifted, 0x192, 24);
    Once(h);
    AddTimes(h, 1, 0x100_0192);
  }

  lemma {:induction false} Once(h: Word)
    ensures Times(h, 1) == h
  {
  }

  method FnvBuf(buf: seq<Octet>, hval: Word) returns (r: Word)
    ensures r == Fnv1(hval, buf)
  {
    r := hval;
    var i := 0;
    while i < |buf|
      invariant 0 <= i <= |buf|
      invariant r == Fnv1(hval, buf[..i])
    {
      assert buf[..i + 1][..i] == buf[..i];
      ShiftAndAddMultiplies(r);
      r := ShiftAndAdd(r);
      r := Xor32(r, buf[i]);
      i := i + 1;
    }
    assert buf[..i] == buf;
  }

  /** Reads on until the terminating NUL, which must be there. */
  method FnvStr(memory: seq<Octet>, hval: Word) returns (r: Word)
    requires 0 in memory
    ensures r == Fnv1(hval, CString(memory, 0))
  {
    r := hval;
    var i := 0;
    while memory[i] != 0
      invariant 0 <= i < |memory| && 0 in memory[i..]
      invariant forall j :: 0 <= j < i ==> memory[j] != 0
      invariant r == Fnv1(hval, memory[..i])
      decreases |memory| - i
    {
      assert memory[..i + 1][..i] == memory[..i];
      assert memory[i..] == [memory[i]] + memory[i + 1..];
      ShiftAndAddMultiplies(r);
      r := ShiftAndAdd(r);
      r := Xor32(r, memory[i]);
      i := i + 1;
    }
    CStringIsPrefix(memory, 0, i);
  }

  /** On NUL-free data followed by a terminator the string form hashes what the buffer form hashes. */
  lemma {:induction false} StringAgreesWithBuffer(data: seq<Octet>, rest: seq<Octet>, hval: Word)
    requires 0 !in data
    ensures Fnv1(hval, CString(data + [0] + rest, 0)) == Fnv1(hval, data)
  {
    var memory := data + [0] + rest;
    CStringIsPrefix(memory, 0, |data|);
    assert memory[..|data|] == data;
  }

  /** Hashing a concatenation continues from the hash of the first part. */
  lemma {:induction false} Incremental(hval: Word, a: seq<Octet>, b: seq<Octet>)
    ensures Fnv1(hval, a + b) == Fnv1(Fnv1(hval, a), b)
  {
    if b == [] {
      assert a + b == a;
    } else {
      assert (a + b)[..|a + b| - 1] == a + b[..|b| - 1];
      Incremental(hval, a, b[..|b| - 1]);
    }
  }

  /** The state before an octet, from the state after it. */
  function Unstep(h: Word, octet: Octet): Word {
    Times(Xor32(h, octet), PRIME_INVERSE)
  }

  /** Multiplying by a pair of inverses modulo 2^32, the intermediate product wrapping. */
  lemma {:induction false} InversePair(h: Word, p: nat, q: nat, k: nat)
    requires p * q == 1 + TWO_32 * k
    ensures Times(Times(h, p), q) == h
  {
    var carry := h * p / TWO_32;
    calc {
      ((h * p) % TWO_32) * q;
      (h * p - TWO_32 * carry) * q;
      h * (p * q) - TWO_32 * (carry * q);
      h + TWO_32 * (h * k - carry * q);
    }
    WholeTurns(h, h * k - carry * q);
  }

  lemma {:induction false} MultiplyInverts(h: Word)
    ensures Times(Times(h, FNV_32_PRIME), PRIME_INVERSE) == h
    ensures Times(Times(h, PRIME_INVERSE), FNV_32_PRIME) == h
  {
    InversePair(h, FNV_32_PRIME, PRIME_INVERSE, 0x359c99);
    InversePair(h, PRIME_INVERSE, FNV_32_PRIME, 0x359c99);
  }

  /** Each octet permutes the 32-bit states. */
  lemma {:induction false} StepIsBijection(h: Word, octet: Octet)
    ensures Unstep(Step(h, octet), octet) == h
    ensures Step(Unstep(h, octet), octet) == h
  {
    WordSize();
    XorInverts(Times(h, FNV_32_PRIME), octet, 32);
    XorInverts(h, octet, 32);
    MultiplyInverts(h);
    MultiplyInverts(Xor32(h, octet));
  }

  /** The hash of a fixed text is injective in the state it starts from. */
  lemma {:induction false} InjectiveInState(g: Word, h: Word, s: seq<Octet>)
    ensures Fnv1(g, s) == Fnv1(h, s) <==> g == h
  {
    if s != [] {
      var init, last := s[..|s| - 1], s[|s| - 1];
      InjectiveInState(g, h, init);
      StepIsBijection(Fnv1(g, init), last);
      StepIsBijection(Fnv1(h, init), last);
    }
  }

  /** Two texts with a common tail collide exactly when their heads do. */
  lemma {:induction false} CommonSuffix(hval: Word, a: seq<Octet>, b: seq<Octet>, tail: seq<Octet>)
    ensures Fnv1(hval, a + tail) == Fnv1(hval, b + tail) <==> Fnv1(hval, a) == Fnv1(hval, b)
  {
    Incremental(hval, a, tail);
    Incremental(hval, b, tail);
    InjectiveInState(Fnv1(hval, a), Fnv1(hval, b), tail);
  }
}
