/** Bytes as integers and as bit vectors. */
module ByteBits {

  lemma IntegerBack(n: nat)
    requires n < 0x100
    ensures (n as bv8) as int == n
  {}
}
