/** CalculateBinaryHash: the 64-bit FNV-1a hash of section 2 of draft-eastlake-fnv. */
module BinaryHash {
  import opened Values
  import opened Bits

  const OFFSET: nat := 14695981039346656037
  const PRIME: nat := 1099511628211

  /** The multiplicative inverse of PRIME modulo 2^64, and the quotient of their product by 2^64. */
  const PRIME_INVERSE: nat := 14886173955864302971
  const PRIME_QUOTIENT: nat := 887285111055

  /** `hash ^= byte; hash *= kPrime` on an unsigned 64-bit integer. */
  function Step(hash: nat, byte: Byte): nat {
    (Xor(hash, byte) * PRIME) % TWO64
  }

  /** The hash reached from `seed` after reading every byte of `data`. */
  function HashFrom(seed: nat, data: seq<Byte>): nat {
    if data == [] then seed
    else Step(HashFrom(seed, data[..|data| - 1]), data[|data| - 1])
  }

  function Hash(data: seq<Byte>): nat {
    HashFrom(OFFSET, data)
  }

  method CalculateBinaryHash(data: seq<Byte>) returns (hash: nat)
    ensures hash == Hash(data)
    ensures hash < TWO64
  {
    hash := OFFSET;
    for i := 0 to |data|
      invariant hash == HashFrom(OFFSET, data[..i])
      invariant hash < TWO64
    {
      assert data[..i + 1][..i] == data[..i];
      hash := Xor(hash, data[i]);
      hash := (hash * PRIME) % TWO64;
    }
    assert data[..|data|] == data;
  }

  /** Multiplying by an odd prime loses nothing modulo 2^64. */
  lemma TimesPrimeInjective(a: nat, b: nat)
    requires a < TWO64 && b < TWO64
    requires (a * PRIME) % TWO64 == (b * PRIME) % TWO64
    ensures a == b
  {
    assert PRIME * PRIME_INVERSE == 1 + PRIME_QUOTIENT * TWO64;
    var i := (a * PRIME) / TWO64;
    var j := (b * PRIME) / TWO64;
    assert (a - b) * PRIME == (i - j) * TWO64;
    assert a - b == TWO64 * ((i - j) * PRIME_INVERSE - PRIME_QUOTIENT * (a - b));
  }

  /** One step is injective in the running hash, and in the byte. */
  lemma StepInjective(g: nat, h: nat, x: Byte, y: Byte)
    requires g < TWO64 && h < TWO64
    ensures Step(g, x) == Step(h, x) <==> g == h
    ensures Step(g, x) == Step(g, y) <==> x == y
  {
    Pow2At64();
    XorBound(g, x, 64);
    XorBound(h, x, 64);
    XorBound(g, y, 64);
    if Step(g, x) == Step(h, x) {
      TimesPrimeInjective(Xor(g, x), Xor(h, x));
      XorInjective(g, h, x);
    }
    if Step(g, x) == Step(g, y) {
      TimesPrimeInjective(Xor(g, x), Xor(g, y));
      XorInjective(x, y, g);
    }
  }

  lemma {:induction false} HashFromBound(seed: nat, data: seq<Byte>)
    requires seed < TWO64
    ensures HashFrom(seed, data) < TWO64
  {
  }

  lemma {:induction false} HashFromAppend(seed: nat, left: seq<Byte>, right: seq<Byte>)
    ensures HashFrom(seed, left + right) == HashFrom(HashFrom(seed, left), right)
  {
    if right == [] {
      assert left + right == left;
    } else {
      var n := |right| - 1;
      HashFromAppend(seed, left, right[..n]);
      assert (left + right)[..|left + right| - 1] == left + right[..n];
    }
  }

  /** Reading the same bytes keeps distinct running hashes distinct. */
  lemma {:induction false} SuffixInjective(g: nat, h: nat, suffix: seq<Byte>)
    requires g < TWO64 && h < TWO64
    ensures HashFrom(g, suffix) == HashFrom(h, suffix) <==> g == h
  {
    if suffix != [] {
      var rest := suffix[..|suffix| - 1];
      SuffixInjective(g, h, rest);
      HashFromBound(g, rest);
      HashFromBound(h, rest);
      StepInjective(HashFrom(g, rest), HashFrom(h, rest), suffix[|suffix| - 1], 0);
    }
  }

  /** Main result: two buffers of equal length that differ in exactly one byte never collide. */
  lemma OneByteChangesHash(a: seq<Byte>, b: seq<Byte>, k: nat)
    requires |a| == |b| && k < |a|
    requires a[k] != b[k]
    requires forall i :: 0 <= i < |a| && i != k ==> a[i] == b[i]
    ensures Hash(a) != Hash(b)
  {
    var prefix, suffix := a[..k], a[k + 1..];
    assert a == prefix + ([a[k]] + suffix);
    assert b == prefix + ([b[k]] + suffix);
    var g := HashFrom(OFFSET, prefix);
    HashFromBound(OFFSET, prefix);
    HashFromAppend(OFFSET, prefix, [a[k]] + suffix);
    HashFromAppend(OFFSET, prefix, [b[k]] + suffix);
    HashFromAppend(g, [a[k]], suffix);
    HashFromAppend(g, [b[k]], suffix);
    assert HashFrom(g, [a[k]]) == Step(g, a[k]);
    assert HashFrom(g, [b[k]]) == Step(g, b[k]);
    StepInjective(g, g, a[k], b[k]);
    SuffixInjective(Step(g, a[k]), Step(g, b[k]), suffix);
  }

  /** A common ending neither makes nor hides a collision. */
  lemma CommonSuffixIrrelevant(a: seq<Byte>, b: seq<Byte>, suffix: seq<Byte>)
    ensures Hash(a + suffix) == Hash(b + suffix) <==> Hash(a) == Hash(b)
  {
    HashFromAppend(OFFSET, a, suffix);
    HashFromAppend(OFFSET, b, suffix);
    HashFromBound(OFFSET, a);
    HashFromBound(OFFSET, b);
    SuffixInjective(Hash(a), Hash(b), suffix);
  }

  // Published test vectors.

  lemma {:induction false} XorWithZero(a: nat)
    ensures Xor(a, 0) == a
  {
    if a != 0 {
      XorWithZero(a / 2);
    }
  }

  /** The low seven bits of the offset against those of the letter a. */
  lemma OffsetWithLetter()
    ensures Xor(OFFSET, 0x61) == 0xcbf29ce484222344
  {
    XorWithZero(OFFSET / 128);
    assert Xor(OFFSET / 64, 1) == 2 * (OFFSET / 128) + 1;
    assert Xor(OFFSET / 32, 3) == 2 * Xor(OFFSET / 64, 1) + 0;
    assert Xor(OFFSET / 16, 6) == 2 * Xor(OFFSET / 32, 3) + 0;
  }

  lemma HashFromOne(seed: nat, byte: Byte)
    ensures HashFrom(seed, [byte]) == Step(seed, byte)
  {
    assert [byte][..0] == [];
  }

  lemma ProductForLetter()
    ensures (0xcbf29ce484222344 * PRIME) % TWO64 == 0xaf63dc4c8601ec8c
  {
    assert 0xcbf29ce484222344 * PRIME == 875948729822 * TWO64 + 0xaf63dc4c8601ec8c;
  }

  /** The hashes of no bytes and of the letter a are those that the draft lists for FNV-1a. */
  lemma ListedHashes()
    ensures Hash([]) == 0xcbf29ce484222325
    ensures Hash([0x61]) == 0xaf63dc4c8601ec8c
  {
    HashFromOne(OFFSET, 0x61);
    OffsetWithLetter();
    ProductForLetter();
  }
}
