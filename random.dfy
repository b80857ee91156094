/** Deterministic pseudo-random helpers used to place and colour scene
    objects: a mulberry32-style mixer and the 32-bit FNV-1a string hash.
    All of their arithmetic wraps modulo 2^32, so both are stated on `bv32`. */
module Random {

  /** 2^32, the modulus of every step below. */
  const Two32: int := 0x1_0000_0000

  /** A UTF-16 code unit: what `String.prototype.charCodeAt` returns. */
  type CodeUnit = bv16

  /** `Math.imul`: the low 32 bits of the product. */
  function Imul(a: bv32, b: bv32): bv32 {
    a * b
  }

  // ---------------------------------------------------------------------
  // randomFromSeed
  // ---------------------------------------------------------------------

  /** The constant added to the seed before mixing. */
  const MulberryIncrement: bv32 := 0x6d2b79f5

  /** The word the mixer starts from: `seed + 0x6d2b79f5` as the bitwise
      operators read it (ToInt32/ToUint32 keep it modulo 2^32), which is the
      seed's residue modulo 2^32 plus the constant, wrapping. */
  function SeedWord(seed: int): bv32 {
    ((seed % Two32) as bv32) + MulberryIncrement
  }

  /** The two reassignments of `t` before the return: `Math.imul` is a
      wrapping 32-bit product, `>>>` a logical shift, and `t + Math.imul(…)`
      is read back modulo 2^32 by the enclosing `^`. */
  function Scramble(t: bv32): bv32 {
    var t1 := Imul(t ^ (t >> 15), t | 1);
    t1 ^ (t1 + Imul(t1 ^ (t1 >> 7), t1 | 61))
  }

  /** Undoes `x ^ (x >>> 14)`: the second shift cancels what the first
      one's own shifted bits brought in. */
  function UnshiftXor14(y: bv32): bv32 {
    y ^ (y >> 14) ^ (y >> 28)
  }

  /** `x ^ (x >>> 14)`: a xor-shift, which loses nothing. */
  function XorShift14(x: bv32): (y: bv32)
    ensures UnshiftXor14(y) == x
  {
    x ^ (x >> 14)
  }

  /** The returned expression, `(t ^ (t >>> 14)) >>> 0`, after the
      reassignments: the scrambled word can be recovered from the output. */
  function Mix(t: bv32): (m: bv32)
    ensures UnshiftXor14(m) == Scramble(t)
  {
    XorShift14(Scramble(t))
  }

  /** The integer numerator of randomFromSeed: the result is this over 2^32. */
  function RandomNumerator(seed: int): (n: nat)
    ensures n < Two32
  {
    Mix(SeedWord(seed)) as int
  }

  /** randomFromSeed. The final division of a 32-bit unsigned value by 2^32
      is exact in double precision, so the value is the rational n / 2^32. */
  function RandomFromSeed(seed: int): (r: real)
    ensures 0.0 <= r < 1.0
    ensures r * Two32 as real == RandomNumerator(seed) as real
  {
    RandomNumerator(seed) as real / Two32 as real
  }

  /** Seeds congruent modulo 2^32 give the same value: the seed enters
      only through the wrapped word it produces. */
  lemma RandomDependsOnlyOnSeedModulo(a: int, b: int)
    requires a % Two32 == b % Two32
    ensures SeedWord(a) == SeedWord(b)
    ensures RandomFromSeed(a) == RandomFromSeed(b)
  {
  }

  /** The well-known first output of mulberry32 for seed 0. */
  lemma RandomOfZero()
    ensures RandomNumerator(0) == 0x4434b462
  {
  }

  // ---------------------------------------------------------------------
  // hashStringToSeed
  // ---------------------------------------------------------------------

  /** FNV-1a 32-bit offset basis (section 2 of the FNV draft). */
  const FnvOffsetBasis: bv32 := 0x811c9dc5

  /** FNV-1a 32-bit prime (section 2 of the FNV draft). */
  const FnvPrime: bv32 := 0x0100_0193

  /** One round: xor the code unit into the low bits, then multiply by the
      prime keeping the low 32 bits (`Math.imul`). */
  function FnvStep(h: bv32, c: CodeUnit): bv32 {
    Imul(h ^ (c as bv32), FnvPrime)
  }

  /** The hash of a string of code units: the rounds applied left to right
      from the offset basis, written as "the hash of all but the last unit,
      then one more round". */
  function Fnv1a(units: seq<CodeUnit>): bv32 {
    if units == [] then FnvOffsetBasis
    else FnvStep(Fnv1a(units[..|units| - 1]), units[|units| - 1])
  }

  /** Continuing the rounds from an arbitrary state `h` over `units`. */
  function FnvFrom(h: bv32, units: seq<CodeUnit>): bv32
    decreases |units|
  {
    if units == [] then h else FnvFrom(FnvStep(h, units[0]), units[1..])
  }

  /** hashStringToSeed: the loop over `charCodeAt`, then `>>> 0`. */
  method HashStringToSeed(value: seq<CodeUnit>) returns (seed: nat)
    ensures seed < Two32
    ensures seed == Fnv1a(value) as int
  {
    var hash := FnvOffsetBasis;
    assert value[..0] == [];
    for i := 0 to |value|
      invariant hash == Fnv1a(value[..i])
    {
      HashAppend(value[..i], value[i]);
      assert value[..i] + [value[i]] == value[..i + 1];
      hash := FnvStep(hash, value[i]);
    }
    assert value[..|value|] == value;
    seed := hash as int;
  }

  /** The empty string hashes to the offset basis. */
  lemma HashOfEmpty()
    ensures Fnv1a([]) == FnvOffsetBasis
    ensures Fnv1a([]) as int == 0x811c9dc5
  {
  }

  /** Appending one code unit performs exactly one more round. */
  lemma {:induction false} HashAppend(s: seq<CodeUnit>, c: CodeUnit)
    ensures Fnv1a(s + [c]) == FnvStep(Fnv1a(s), c)
  {
    assert (s + [c])[..|s|] == s;
  }

  /** The hash is a left fold: hashing `s + t` is hashing `s` and then
      continuing the rounds over `t`. */
  lemma {:induction false} HashConcat(s: seq<CodeUnit>, t: seq<CodeUnit>)
    ensures Fnv1a(s + t) == FnvFrom(Fnv1a(s), t)
    decreases |t|
  {
    if t == [] {
      assert s + t == s;
    } else {
      assert s + t == (s + [t[0]]) + t[1..];
      HashConcat(s + [t[0]], t[1..]);
      HashAppend(s, t[0]);
    }
  }

  /** FNV-1a over octets exactly as section 2 of the FNV draft states it:
      for each octet in turn, xor it into the hash, then multiply by the prime. */
  function Fnv1aOctets(h: bv32, octets: seq<bv8>): bv32
    decreases |octets|
  {
    if octets == [] then h
    else Fnv1aOctets(OctetStep(h, octets[0]), octets[1..])
  }

  /** One octet round of the draft. */
  function OctetStep(h: bv32, octet: bv8): bv32 {
    Imul(h ^ (octet as bv32), FnvPrime)
  }

  /** An octet round is the round on the code unit with that value. */
  lemma OctetRound(h: bv32, octet: bv8)
    ensures OctetStep(h, octet) == FnvStep(h, octet as bv16)
  {
  }

  /** The string whose code units are the given octets, one unit each: every
      string whose code units are all below 256 is of this form. */
  function OctetString(octets: seq<bv8>): (units: seq<CodeUnit>)
    ensures |units| == |octets|
    ensures forall i :: 0 <= i < |octets| ==> units[i] < 256 && units[i] == octets[i] as bv16
  {
    if octets == [] then [] else [octets[0] as bv16] + OctetString(octets[1..])
  }

  /** On such strings the per-unit rounds are the octet rounds. */
  lemma {:induction false} FnvFromIsOctetFnv(h: bv32, octets: seq<bv8>)
    ensures FnvFrom(h, OctetString(octets)) == Fnv1aOctets(h, octets)
    decreases |octets|
  {
    if octets != [] {
      var units := OctetString(octets);
      assert units[0] == octets[0] as bv16 && units[1..] == OctetString(octets[1..]);
      OctetRound(h, octets[0]);
      FnvFromIsOctetFnv(FnvStep(h, units[0]), octets[1..]);
    }
  }

  /** For strings whose code units are all below 256 (such as dotted IPv4
      addresses), the hash equals octet-wise 32-bit FNV-1a. */
  lemma HashIsOctetFnv1a(octets: seq<bv8>)
    ensures Fnv1a(OctetString(octets)) == Fnv1aOctets(FnvOffsetBasis, octets)
  {
    var units := OctetString(octets);
    HashConcat([], units);
    assert [] + units == units;
    FnvFromIsOctetFnv(FnvOffsetBasis, octets);
  }

  /** Test vectors of the FNV draft: FNV-1a 32 of "a" and of "foobar". */
  lemma HashTestVectors()
    ensures Fnv1a([97]) == 0xe40c292c
    ensures Fnv1aOctets(FnvOffsetBasis, [102, 111, 111, 98, 97, 114]) == 0xbf9cf968
  {
    assert [97 as CodeUnit][..0] == [];
    var foobar: seq<bv8> := [102, 111, 111, 98, 97, 114];
    assert foobar[1..][1..][1..][1..][1..][1..] == [];
  }
}
