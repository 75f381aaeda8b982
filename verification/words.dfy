/** Machine words of the contract: bytes, 256-bit unsigned integers with the
    wrapping arithmetic of their `+`, `-` and `*` operators, 20-byte
    addresses, 32-byte keys, and storage mappings that read zero for a key
    never written. */
module Words {

  type byte = x: int | 0 <= x < 256

  const U256_MODULUS: int := 0x1_0000000000000000_0000000000000000_0000000000000000_0000000000000000
  const U64_MODULUS: int := 0x1_0000000000000000

  type U256 = x: int | 0 <= x < U256_MODULUS

  function WrappingAdd(a: U256, b: U256): (r: U256)
    ensures a + b < U256_MODULUS ==> r == a + b
    ensures a + b >= U256_MODULUS ==> r == a + b - U256_MODULUS
  {
    (a + b) % U256_MODULUS
  }

  /** Two wrapping additions whose addends fit in a word are one. */
  lemma WrappingAddTwice(a: U256, b: U256, c: U256)
    requires b + c < U256_MODULUS
    ensures WrappingAdd(WrappingAdd(a, b), c) == WrappingAdd(a, b + c)
  {
  }

  function WrappingSub(a: U256, b: U256): (r: U256)
    ensures b <= a ==> r == a - b
    ensures a < b ==> r == a - b + U256_MODULUS
  {
    (a - b) % U256_MODULUS
  }

  function WrappingMul(a: U256, b: U256): (r: U256)
    ensures a * b < U256_MODULUS ==> r == a * b
  {
    var p: int := a * b;
    assert 0 <= p by {
      NonNegativeProduct(a, b);
    }
    p % U256_MODULUS
  }

  lemma NonNegativeProduct(a: nat, b: nat)
    ensures 0 <= a * b
  {
  }

  /** `as_limbs()[0]`: the low 64 bits. */
  function LowLimb(x: U256): (r: nat)
    ensures r < U64_MODULUS
    ensures x < U64_MODULUS ==> r == x
  {
    x % U64_MODULUS
  }

  function Zeros(n: nat): (z: seq<byte>)
    ensures |z| == n && forall i :: 0 <= i < n ==> z[i] == 0
  {
    seq(n, _ => 0)
  }

  type Address = a: seq<byte> | |a| == 20 witness Zeros(20)

  type Bytes32 = b: seq<byte> | |b| == 32 witness Zeros(32)

  const ZERO_ADDRESS: Address := Zeros(20)

  /** A storage mapping read: the stored value, or the zero value. */
  function Get<K, V>(m: map<K, V>, k: K, zero: V): V {
    if k in m then m[k] else zero
  }

  /** `u32::from_be_bytes`. */
  function BigEndian32(b: seq<byte>): (r: nat)
    requires |b| == 4
    ensures r < 0x1_0000_0000
  {
    ((b[0] as int * 256 + b[1] as int) * 256 + b[2] as int) * 256 + b[3] as int
  }
}
