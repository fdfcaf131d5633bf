/** RTP packets as the audio consumer queues them, with the 16-bit and 32-bit counter
    arithmetic of RFC 3550 written out. Times are nanoseconds. */
module Rtp {
  type Word16 = n: int | 0 <= n < 0x1_0000
  type Word32 = n: int | 0 <= n < 0x1_0000_0000
  type Byte = n: int | 0 <= n < 0x100

  const MAX_PAYLOAD := 8192
  const MAX_TIMESTAMP_JITTER_SAMPLES := 800
  const MAX_PACKET_ARRIVAL_JITTER := 250_000_000
  const LATE_TAIL := 64

  /** `serial` is not in the program: it numbers packets in the order they are stamped with
      the producer epoch, so that "stamped before" can be stated. */
  datatype Packet = Packet(seqNo: Word16, ts: Word32, ssrc: Word32, epoch: nat,
                           payload: seq<Byte>, received: int, serial: nat)

  // uint16 and uint32 values reinterpreted as two's complement
  function AsInt16(n: Word16): int { if n < 0x8000 then n else n - 0x1_0000 }

  function AsInt32(n: Word32): int { if n < 0x8000_0000 then n else n - 0x1_0000_0000 }

  function Delta(prev: Packet, p: Packet): int { AsInt16((p.seqNo - prev.seqNo) % 0x1_0000) }

  function StampError(prev: Packet, p: Packet): int {
    AsInt32((p.ts - (prev.ts + |prev.payload|)) % 0x1_0000_0000)
  }

  function ArrivalBudget(prev: Packet, p: Packet): int {
    var longer := if |prev.payload| < |p.payload| then |p.payload| else |prev.payload|;
    longer * 1_000_000_000 / 8000 + MAX_PACKET_ARRIVAL_JITTER
  }

  /** A duplicate of the newest accepted packet, or one that is at most 64 behind it. */
  predicate Late(prev: Packet, p: Packet) {
    p.ssrc == prev.ssrc && (Delta(prev, p) == 0 || -LATE_TAIL <= Delta(prev, p) < 0)
  }

  /** `p` may be joined to `prev` without a discontinuity. */
  predicate Follows(prev: Packet, p: Packet) {
    && p.ssrc == prev.ssrc
    && p.seqNo == (prev.seqNo + 1) % 0x1_0000
    && -MAX_TIMESTAMP_JITTER_SAMPLES <= StampError(prev, p) <= MAX_TIMESTAMP_JITTER_SAMPLES
    && p.received - prev.received <= ArrivalBudget(prev, p)
  }

  // ---------------------------------------------------------------- the same, on the wire

  /** The stamp of `p` is `e` samples off the one that the audio of `prev` asks for. */
  ghost predicate OffBy(prev: Packet, p: Packet, e: int) {
    p.ts == (prev.ts + |prev.payload| + e) % 0x1_0000_0000
  }

  /** The next number of the same source, a stamp at most 800 samples off, and an arrival at most
      the longer packet's playing time (125 microseconds a sample) and 250 ms later. */
  ghost predicate Continues(prev: Packet, p: Packet) {
    && p.ssrc == prev.ssrc
    && p.seqNo == (prev.seqNo + 1) % 0x1_0000
    && (exists e :: -800 <= e <= 800 && OffBy(prev, p, e))
    && (|| p.received - prev.received <= 125_000 * |prev.payload| + 250_000_000
        || p.received - prev.received <= 125_000 * |p.payload| + 250_000_000)
  }

  /** From the same source and 0 to 64 numbers back, counting modulo 2^16. */
  ghost predicate Behind(prev: Packet, p: Packet) {
    p.ssrc == prev.ssrc && (prev.seqNo - p.seqNo) % 0x1_0000 <= 64
  }

  /** The offset that the wrapped difference, read as a signed number, stands for. */
  lemma StampErrorIs(prev: Packet, p: Packet, e: int)
    requires -0x8000_0000 <= e < 0x8000_0000
    ensures OffBy(prev, p, e) <==> StampError(prev, p) == e
  {
    var due := prev.ts + |prev.payload|;
    var d := (p.ts - due) % 0x1_0000_0000;
    Congruent(p.ts, due + d);
    Congruent(p.ts, due + e);
    Residues(due, d, e);
  }

  lemma Congruent(x: Word32, y: int)
    ensures x == y % 0x1_0000_0000 <==> (x - y) % 0x1_0000_0000 == 0
  {
    var k := y / 0x1_0000_0000;
    assert y == 0x1_0000_0000 * k + y % 0x1_0000_0000;
  }

  lemma Residues(due: int, d: Word32, e: int)
    requires -0x8000_0000 <= e < 0x8000_0000
    ensures (due + d) % 0x1_0000_0000 == (due + e) % 0x1_0000_0000 <==> AsInt32(d) == e
  {
    var f := AsInt32(d);
    assert (due + f) % 0x1_0000_0000 == (due + d) % 0x1_0000_0000;
    var a, b := (due + f) / 0x1_0000_0000, (due + e) / 0x1_0000_0000;
    assert due + f == 0x1_0000_0000 * a + (due + f) % 0x1_0000_0000;
    assert due + e == 0x1_0000_0000 * b + (due + e) % 0x1_0000_0000;
  }

  /** What Follows computes, from the numbers on the wire. */
  lemma FollowsIff(prev: Packet, p: Packet)
    ensures Follows(prev, p) <==> Continues(prev, p)
  {
    var e := StampError(prev, p);
    StampErrorIs(prev, p, e);
    forall x | -800 <= x <= 800 && OffBy(prev, p, x)
      ensures x == e
    {
      StampErrorIs(prev, p, x);
    }
  }

  lemma LateIff(prev: Packet, p: Packet)
    ensures Late(prev, p) <==> Behind(prev, p)
  {
    var d, b := (p.seqNo - prev.seqNo) % 0x1_0000, (prev.seqNo - p.seqNo) % 0x1_0000;
    assert d + b == 0 || d + b == 0x1_0000;
  }

  /** A packet that follows another is never mistaken for a late one. */
  lemma FollowsIsNotLate(prev: Packet, p: Packet)
    requires Follows(prev, p)
    ensures !Late(prev, p)
  {
    assert (p.seqNo - prev.seqNo) % 0x1_0000 == 1;
  }
}
