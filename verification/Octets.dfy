/** Bytes as bit vectors. */
module Octets {
  type Octet = bv8

  lemma OctetIsByte(n: nat)
    requires n < 256
    ensures (n as Octet) as int == n
  {
  }
}
