/** FNV-1a, 64 bits (draft-eastlake-fnv, section 2), as internal/cluster/locker.go uses it to turn a
    lock key into a PostgreSQL advisory lock identifier. */
module Fnv {
  type Word = w: int | 0 <= w < 0x1_0000_0000_0000_0000
  type Octet = b: int | 0 <= b < 256

  const OFFSET_BASIS: Word := 14695981039346656037
  const PRIME := 1099511628211
  const WORD := 0x1_0000_0000_0000_0000
  // PRIME * INVERSE == 1 + WRAPS * WORD
  const INVERSE := 14886173955864302971
  const WRAPS := 887285111055

  /** Exclusive or of the low `bits` bits, from the last bit up. */
  function Xor(a: nat, b: nat, bits: nat): nat {
    if bits == 0 then 0 else (if a % 2 == b % 2 then 0 else 1) + 2 * Xor(a / 2, b / 2, bits - 1)
  }

  function Pow2(bits: nat): nat {
    if bits == 0 then 1 else 2 * Pow2(bits - 1)
  }

  lemma {:induction false} XorBound(a: nat, b: nat, bits: nat)
    ensures Xor(a, b, bits) < Pow2(bits)
  {
    if bits != 0 {
      XorBound(a / 2, b / 2, bits - 1);
    }
  }

  function XorOctet(a: Octet, b: Octet): Octet {
    XorBound(a, b, 8);
    assert Pow2(8) == 256;
    Xor(a, b, 8)
  }

  // An octet only reaches the low eight bits of the word.
  function XorLow(h: Word, b: Octet): Word {
    h - h % 256 + XorOctet(h % 256, b)
  }

  function Times(h: Word): Word {
    (h * PRIME) % WORD
  }

  function Step(h: Word, b: Octet): Word {
    Times(XorLow(h, b))
  }

  function Fold(h: Word, key: seq<Octet>): Word
    decreases |key|
  {
    if key == [] then h else Fold(Step(h, key[0]), key[1..])
  }

  // int64(uint64): two's complement.
  function AsInt64(w: Word): int {
    if w < WORD / 2 then w else w - WORD
  }

  function LockNumber(key: seq<Octet>): int {
    AsInt64(Fold(OFFSET_BASIS, key))
  }

  lemma OneFold(h: Word, b: Octet)
    ensures Fold(h, [b]) == Step(h, b)
  {
    assert [b][1..] == [];
    assert Fold(Step(h, b), []) == Step(h, b);
  }

  // 0x25 and 0x61 differ in the bits of 0x44.
  lemma LowOctetOfBasisAndA()
    ensures XorOctet(0x25, 0x61) == 0x44
  {
    assert Xor(0, 1, 2) == 1;
    assert Xor(2, 6, 4) == 4;
    assert Xor(9, 24, 6) == 17;
  }

  // One step worked out: x is the low octet after the exclusive or, and the product loses that many
  // multiples of 2^64.
  lemma StepIs(h: Word, b: Octet, x: Octet, turns: nat, next: Word)
    requires XorOctet(h % 256, b) == x && (h - h % 256 + x) * PRIME == turns * WORD + next
    ensures Step(h, b) == next
  {
    ModOfSum(next, turns);
  }

  lemma FirstStepOnA(basis: Word, a: Octet, low: Octet, x: Octet)
    requires basis == 0xcbf2_9ce4_8422_2325 && low == basis % 256 && XorOctet(low, a) == x && x == 0x44
    ensures Step(basis, a) == 0xaf63_dc4c_8601_ec8c
  {
    assert low == 0x25;
    var mixed := basis - low + x;
    assert mixed == 0xcbf2_9ce4_8422_2344;
    assert mixed * PRIME == 875948729822 * WORD + 0xaf63_dc4c_8601_ec8c;
    StepIs(basis, a, x, 875948729822, 0xaf63_dc4c_8601_ec8c);
  }

  lemma LowOctet(low: Octet, a: Octet)
    requires low == 0x25 && a == 0x61
    ensures XorOctet(low, a) == 0x44
  {
    LowOctetOfBasisAndA();
  }

  /** The published 64-bit FNV-1a values of the empty string and of "a". */
  lemma PublishedVectors(basis: Word, a: Octet)
    requires basis == OFFSET_BASIS && a == 0x61
    ensures Fold(basis, []) == 0xcbf2_9ce4_8422_2325
    ensures Fold(basis, [a]) == 0xaf63_dc4c_8601_ec8c
  {
    LowOctet(basis % 256, a);
    FirstStepOnA(basis, a, basis % 256, 0x44);
    OneFold(basis, a);
  }

  lemma {:induction false} FoldConcat(h: Word, a: seq<Octet>, b: seq<Octet>)
    ensures Fold(h, a + b) == Fold(Fold(h, a), b)
    decreases |a|
  {
    if a == [] {
      assert a + b == b;
    } else {
      FoldConcat(Step(h, a[0]), a[1..], b);
      assert (a + b)[1..] == a[1..] + b;
    }
  }

  /** The hash is computed octet by octet; every node gets the same number for the same key. */
  method KeyToInt64(key: seq<Octet>) returns (id: int)
    ensures id == LockNumber(key)
    ensures -0x8000_0000_0000_0000 <= id < 0x8000_0000_0000_0000
    ensures var w := Fold(OFFSET_BASIS, key); id == w || id == w - 0x1_0000_0000_0000_0000
  {
    var h := OFFSET_BASIS;
    for i := 0 to |key|
      invariant h == Fold(OFFSET_BASIS, key[..i])
    {
      FoldConcat(OFFSET_BASIS, key[..i], [key[i]]);
      assert key[..i + 1] == key[..i] + [key[i]];
      h := Times(XorLow(h, key[i]));
    }
    assert key[..|key|] == key;
    id := if h < WORD / 2 then h else h - WORD;
  }

  // ── Each step is a bijection ──────────────────────────────────────────────────

  lemma Unfold(a: nat, x: nat, b: nat, y: nat, bits: nat)
    requires x < 2 && y < 2 && bits > 0
    ensures Xor(2 * a + x, 2 * b + y, bits) == (if x == y then 0 else 1) + 2 * Xor(a, b, bits - 1)
  {
    assert (2 * a + x) / 2 == a && (2 * a + x) % 2 == x;
    assert (2 * b + y) / 2 == b && (2 * b + y) % 2 == y;
  }

  lemma BitCancels(a: nat, x: nat, b: nat, y: nat, bits: nat)
    requires x < 2 && y < 2 && bits > 0
    requires Xor(Xor(a, b, bits - 1), b, bits - 1) == a && Xor(Xor(a, b, bits - 1), a, bits - 1) == b
    ensures var v := Xor(2 * a + x, 2 * b + y, bits);
            Xor(v, 2 * b + y, bits) == 2 * a + x && Xor(v, 2 * a + x, bits) == 2 * b + y
  {
    var c, z := Xor(a, b, bits - 1), if x == y then 0 else 1;
    Unfold(a, x, b, y, bits);
    Unfold(c, z, b, y, bits);
    Unfold(c, z, a, x, bits);
  }

  lemma {:induction false} XorCancels(a: nat, b: nat, bits: nat)
    requires a < Pow2(bits) && b < Pow2(bits)
    ensures Xor(Xor(a, b, bits), b, bits) == a && Xor(Xor(a, b, bits), a, bits) == b
  {
    if bits != 0 {
      XorCancels(a / 2, b / 2, bits - 1);
      BitCancels(a / 2, a % 2, b / 2, b % 2, bits);
      assert a == 2 * (a / 2) + a % 2 && b == 2 * (b / 2) + b % 2;
    }
  }

  lemma XorOctetCancels(a: Octet, b: Octet)
    ensures XorOctet(XorOctet(a, b), b) == a
    ensures XorOctet(XorOctet(a, b), a) == b
  {
    assert Pow2(8) == 256;
    XorCancels(a, b, 8);
  }

  lemma PartsOf(h: Word, x: Octet)
    ensures (h - h % 256 + x) % 256 == x
    ensures (h - h % 256 + x) / 256 == h / 256
  {
    assert h - h % 256 + x == 256 * (h / 256) + x;
  }

  lemma XorLowInjective(h1: Word, b1: Octet, h2: Word, b2: Octet)
    requires XorLow(h1, b1) == XorLow(h2, b2)
    ensures b1 == b2 ==> h1 == h2
    ensures h1 == h2 ==> b1 == b2
  {
    PartsOf(h1, XorOctet(h1 % 256, b1));
    PartsOf(h2, XorOctet(h2 % 256, b2));
    XorOctetCancels(h1 % 256, b1);
    XorOctetCancels(h2 % 256, b2);
  }

  // The prime is odd, so it has an inverse modulo the word size.
  lemma TimesInverse(h: Word)
    ensures (Times(h) * INVERSE) % WORD == h
  {
    var q := (h * PRIME) / WORD;
    assert h * PRIME == q * WORD + Times(h);
    assert PRIME * INVERSE == 1 + WRAPS * WORD;
    assert Times(h) * INVERSE == h + (h * WRAPS - q * INVERSE) * WORD;
    ModOfSum(h, h * WRAPS - q * INVERSE);
  }

  lemma ModOfSum(h: Word, k: int)
    ensures (h + k * WORD) % WORD == h
  {
  }

  /** From the new state, the octet gives back the old state and the old state the octet. */
  lemma StepInjective(h1: Word, b1: Octet, h2: Word, b2: Octet)
    requires Step(h1, b1) == Step(h2, b2)
    ensures b1 == b2 ==> h1 == h2
    ensures h1 == h2 ==> b1 == b2
  {
    TimesInverse(XorLow(h1, b1));
    TimesInverse(XorLow(h2, b2));
    XorLowInjective(h1, b1, h2, b2);
  }

  /** Equal suffixes never bring two different hash states back together. */
  lemma {:induction false} FoldInjective(h1: Word, h2: Word, key: seq<Octet>)
    requires Fold(h1, key) == Fold(h2, key)
    ensures h1 == h2
    decreases |key|
  {
    if key != [] {
      FoldInjective(Step(h1, key[0]), Step(h2, key[0]), key[1..]);
      StepInjective(h1, key[0], h2, key[0]);
    }
  }

  lemma AsInt64Injective(x: Word, y: Word)
    requires AsInt64(x) == AsInt64(y)
    ensures x == y
  {
  }

  /** Two keys of the same length that differ in exactly one octet have different lock numbers. */
  lemma OneOctetSeparates(k1: seq<Octet>, k2: seq<Octet>, i: nat)
    requires |k1| == |k2| && i < |k1| && k1[i] != k2[i]
    requires forall j | 0 <= j < |k1| && j != i :: k1[j] == k2[j]
    ensures LockNumber(k1) != LockNumber(k2)
  {
    var prefix, suffix := k1[..i], k1[i + 1..];
    assert k1 == prefix + ([k1[i]] + suffix) && k2 == prefix + ([k2[i]] + suffix);
    var h := Fold(OFFSET_BASIS, prefix);
    FoldConcat(OFFSET_BASIS, prefix, [k1[i]] + suffix);
    FoldConcat(OFFSET_BASIS, prefix, [k2[i]] + suffix);
    assert ([k1[i]] + suffix)[1..] == suffix && ([k2[i]] + suffix)[1..] == suffix;
    if LockNumber(k1) == LockNumber(k2) {
      AsInt64Injective(Fold(OFFSET_BASIS, k1), Fold(OFFSET_BASIS, k2));
      FoldInjective(Step(h, k1[i]), Step(h, k2[i]), suffix);
      StepInjective(h, k1[i], h, k2[i]);
    }
  }
}
