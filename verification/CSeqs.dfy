/** Sequence numbers of SIP requests: unsigned 32-bit integers that wrap around. */
module CSeqs {

  const CSEQ_MODULUS: nat := 0x1_0000_0000

  type CSeq = n: int | 0 <= n < CSEQ_MODULUS
}
