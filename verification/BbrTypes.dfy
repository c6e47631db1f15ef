/** Messages of the BBR transport and the arithmetic of its byte sequence numbers. */
module BbrTypes {
  import opened Basics

  /** What travels between source and sink.
      `Header` is a data packet whose payload a switch has trimmed away.
      `orig` names the data packet whose arrival made the sink create an acknowledgement. */
  datatype Msg =
    | Data(seqno: nat)
    | Header(seqno: nat)
    | Ack(seqno: nat, ackno: nat, orig: nat)
    | Nack(seqno: nat, ackno: nat)

  /** `n` is a whole number of packets of `mss` bytes. */
  predicate Aligned(mss: nat, n: nat)
    requires mss > 0
  {
    n == 0 || (n >= mss && Aligned(mss, n - mss))
  }

  /** `s` is the first byte of some packet: 1, 1 + mss, 1 + 2 mss, ... */
  predicate IsSeq(mss: nat, s: int)
    requires mss > 0
  {
    s >= 1 && Aligned(mss, s - 1)
  }

  lemma {:induction false} AlignedGap(mss: nat, a: nat, b: nat)
    requires mss > 0 && Aligned(mss, a) && Aligned(mss, b) && a < b
    ensures a + mss <= b
  {
    if a == 0 {
    } else {
      AlignedGap(mss, a - mss, b - mss);
    }
  }

  lemma SeqGap(mss: nat, s: nat, t: nat)
    requires mss > 0 && IsSeq(mss, s) && IsSeq(mss, t) && s < t
    ensures s + mss <= t
  {
    AlignedGap(mss, s - 1, t - 1);
  }
}
