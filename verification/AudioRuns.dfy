/** Uninterrupted stretches of audio and the windows cut from them. This is the reference the
    streaming worker is compared with: whole packet lists, slices of their concatenation. */
module AudioRuns {
  import opened Optional
  import opened Rtp

  /** A G.711 expansion table: one sample for each byte value. */
  type Law = t: seq<int> | |t| == 0x100 witness seq(0x100, _ => 0)

  /** The bounds that NewConsumer accepts, and the table of the track's codec. */
  datatype Config = Config(size: nat, hop: nat, packetCap: nat, windowCap: nat, law: Law)

  ghost predicate ValidConfig(cfg: Config) {
    1 <= cfg.hop <= cfg.size && 1 <= cfg.packetCap && 1 <= cfg.windowCap
  }

  datatype Window = Window(pcm: seq<int>, rtpStart: Word32, epoch: nat, generation: nat, receivedAt: int)

  /** `packets` accepted between two discontinuities and every window built from them. */
  datatype Run = Run(packets: seq<Packet>, windows: seq<Window>)

  // G.711 yields one sample per payload byte
  function Decode(law: Law, payload: seq<Byte>): (samples: seq<int>)
    ensures |samples| == |payload|
  {
    if payload == [] then []
    else Decode(law, payload[..|payload| - 1]) + [law[payload[|payload| - 1]]]
  }

  function Audio(law: Law, ps: seq<Packet>): seq<int> {
    if ps == [] then [] else Audio(law, ps[..|ps| - 1]) + Decode(law, ps[|ps| - 1].payload)
  }

  // ---------------------------------------------------------------- samples and bytes

  /** The payload bytes of the packets, end to end. */
  ghost function Bytes(ps: seq<Packet>): seq<Byte> {
    if ps == [] then [] else Bytes(ps[..|ps| - 1]) + ps[|ps| - 1].payload
  }

  lemma {:induction false} DecodeAt(law: Law, payload: seq<Byte>, i: nat)
    requires i < |payload|
    ensures Decode(law, payload)[i] == law[payload[i]]
  {
    var n := |payload| - 1;
    if i < n {
      DecodeAt(law, payload[..n], i);
    }
  }

  /** Sample i of the audio is the expansion of byte i of the payloads. */
  lemma {:induction false} AudioAt(law: Law, ps: seq<Packet>, i: nat)
    ensures |Audio(law, ps)| == |Bytes(ps)|
    ensures i < |Bytes(ps)| ==> Audio(law, ps)[i] == law[Bytes(ps)[i]]
  {
    if ps != [] {
      var init, last := ps[..|ps| - 1], ps[|ps| - 1].payload;
      AudioAt(law, init, i);
      if |Bytes(init)| <= i < |Bytes(ps)| {
        DecodeAt(law, last, i - |Bytes(init)|);
      }
    }
  }

  /** The same bytes give the same audio, however they were cut into packets. */
  lemma SameBytesSameAudio(law: Law, ps: seq<Packet>, qs: seq<Packet>)
    requires Bytes(ps) == Bytes(qs)
    ensures Audio(law, ps) == Audio(law, qs)
  {
    AudioAt(law, ps, 0);
    AudioAt(law, qs, 0);
    forall i | 0 <= i < |Audio(law, ps)|
      ensures Audio(law, ps)[i] == Audio(law, qs)[i]
    {
      AudioAt(law, ps, i);
      AudioAt(law, qs, i);
    }
  }

  lemma AudioAppend(law: Law, ps: seq<Packet>, p: Packet)
    ensures Audio(law, ps + [p]) == Audio(law, ps) + Decode(law, p.payload)
  {
    assert (ps + [p])[..|ps|] == ps;
  }

  lemma {:induction false} AudioConcat(law: Law, ps: seq<Packet>, qs: seq<Packet>)
    ensures Audio(law, ps + qs) == Audio(law, ps) + Audio(law, qs)
  {
    if qs == [] {
      assert ps + qs == ps;
    } else {
      var n := |qs| - 1;
      AudioConcat(law, ps, qs[..n]);
      AudioLonger(law, ps, qs[..n], qs[n]);
      assert qs == qs[..n] + [qs[n]];
    }
  }

  lemma AudioLonger(law: Law, ps: seq<Packet>, qs: seq<Packet>, q: Packet)
    requires Audio(law, ps + qs) == Audio(law, ps) + Audio(law, qs)
    ensures Audio(law, ps + (qs + [q])) == Audio(law, ps) + Audio(law, qs + [q])
  {
    AudioAppend(law, qs, q);
    AudioAppend(law, ps + qs, q);
    assert ps + (qs + [q]) == ps + qs + [q];
    Regroup(Audio(law, ps), Audio(law, qs), Decode(law, q.payload));
  }

  lemma Regroup(a: seq<int>, b: seq<int>, c: seq<int>)
    ensures a + b + c == a + (b + c)
  {
  }

  /** What may be joined: one source, one producer epoch, every packet following the last. */
  ghost predicate Continuous(ps: seq<Packet>) { ContinuousTo(ps, |ps|) }

  ghost predicate ContinuousTo(ps: seq<Packet>, n: nat)
    requires n <= |ps|
  {
    n <= 1 || (ContinuousTo(ps, n - 1) && Joins(ps[n - 2], ps[n - 1]))
  }

  ghost predicate Joins(prev: Packet, p: Packet) { Follows(prev, p) && p.epoch == prev.epoch }

  lemma {:induction false} ContinuousStays(ps: seq<Packet>, p: Packet, n: nat)
    requires n <= |ps| && ContinuousTo(ps, n)
    ensures ContinuousTo(ps + [p], n)
  {
    if n > 1 {
      ContinuousStays(ps, p, n - 1);
    }
  }

  lemma ContinuousAppend(ps: seq<Packet>, p: Packet)
    requires Continuous(ps) && (ps == [] || Joins(ps[|ps| - 1], p))
    ensures Continuous(ps + [p])
  {
    ContinuousStays(ps, p, |ps|);
  }

  lemma {:induction false} ContinuousUpTo(ps: seq<Packet>, n: nat, i: nat)
    requires n <= |ps| && ContinuousTo(ps, n) && i < n
    ensures ps[i].ssrc == ps[0].ssrc && ps[i].epoch == ps[0].epoch
    ensures i > 0 ==> Follows(ps[i - 1], ps[i])
  {
    if 0 < i {
      ContinuousUpTo(ps, n - 1, if i < n - 1 then i else i - 1);
    }
  }

  lemma ContinuousAt(ps: seq<Packet>, i: nat)
    requires Continuous(ps) && i < |ps|
    ensures ps[i].ssrc == ps[0].ssrc && ps[i].epoch == ps[0].epoch
    ensures i > 0 ==> Follows(ps[i - 1], ps[i])
  {
    ContinuousUpTo(ps, |ps|, i);
  }

  /** `k` hops, in samples: k * hop, built up so that proofs about the buffer stay linear. */
  ghost function Hops(cfg: Config, k: nat): nat {
    if k == 0 then 0 else Hops(cfg, k - 1) + cfg.hop
  }

  lemma {:induction false} HopsIsProduct(cfg: Config, k: nat)
    ensures Hops(cfg, k) == k * cfg.hop
  {
    if k > 0 {
      HopsIsProduct(cfg, k - 1);
      assert k * cfg.hop == (k - 1) * cfg.hop + cfg.hop;
    }
  }

  /** The timestamp `k` hops after `ts`, wrapping at 2^32. */
  ghost function StampAt(cfg: Config, ts: Word32, k: nat): Word32 {
    if k == 0 then ts else (StampAt(cfg, ts, k - 1) + cfg.hop) % 0x1_0000_0000
  }

  lemma {:induction false} StampIsSum(cfg: Config, ts: Word32, k: nat)
    ensures StampAt(cfg, ts, k) == (ts + Hops(cfg, k)) % 0x1_0000_0000
  {
    if k > 0 {
      StampIsSum(cfg, ts, k - 1);
      WrapAdd(ts + Hops(cfg, k - 1), cfg.hop);
    }
  }

  lemma WrapAdd(a: nat, b: nat)
    ensures (a % 0x1_0000_0000 + b) % 0x1_0000_0000 == (a + b) % 0x1_0000_0000
  {
  }

  /** Window `k` is the k-th hop of the concatenated audio, stamped from the first packet and
      carrying the arrival time of the packet that completed it. */
  ghost predicate IsSlice(cfg: Config, ps: seq<Packet>, k: nat, w: Window)
    requires ps != []
  {
    && Hops(cfg, k) + cfg.size <= |Audio(cfg.law, ps)|
    && w.pcm == Audio(cfg.law, ps)[Hops(cfg, k)..Hops(cfg, k) + cfg.size]
    && w.rtpStart == StampAt(cfg, ps[0].ts, k)
    && exists j :: 0 <= j < |ps| && CompletedBy(cfg, ps, k, j) && w.receivedAt == ps[j].received
  }

  ghost predicate CompletedBy(cfg: Config, ps: seq<Packet>, k: nat, j: nat)
    requires j < |ps|
  {
    |Audio(cfg.law, ps[..j])| < Hops(cfg, k) + cfg.size <= |Audio(cfg.law, ps[..j + 1])|
  }

  ghost predicate RunOk(cfg: Config, r: Run, epoch: nat) {
    && r.packets != []
    && forall k :: 0 <= k < |r.windows| ==>
         IsSlice(cfg, r.packets, k, r.windows[k]) && r.windows[k].epoch == epoch
  }

  /** The number of windows that `n` samples yield. */
  function WindowCount(cfg: Config, n: nat): nat
    requires cfg.hop >= 1
  {
    if n < cfg.size then 0 else (n - cfg.size) / cfg.hop + 1
  }

  lemma CountFromBounds(cfg: Config, n: nat, c: nat)
    requires ValidConfig(cfg)
    requires n < Hops(cfg, c) + cfg.size
    requires c > 0 ==> Hops(cfg, c - 1) + cfg.size <= n
    ensures c == WindowCount(cfg, n)
  {
    if c > 0 {
      HopsIsProduct(cfg, c - 1);
      DivMod(c - 1, cfg.hop, n - cfg.size - Hops(cfg, c - 1));
    }
  }

  lemma DivMod(q: nat, h: nat, d: nat)
    requires d < h
    ensures (q * h + d) / h == q
  {
    var n := q * h + d;
    var k := n / h;
    assert n == k * h + n % h;
    ProductGap(k, q, h);
    ProductGap(q, k, h);
  }

  lemma {:induction false} ProductGap(a: nat, b: nat, h: nat)
    ensures a < b ==> a * h + h <= b * h
  {
    if a + 1 < b {
      ProductGap(a, b - 1, h);
      assert (b - 1) * h + h == b * h;
    }
  }

  lemma CompletedStays(cfg: Config, ps: seq<Packet>, p: Packet, k: nat, j: nat)
    requires j < |ps| && CompletedBy(cfg, ps, k, j)
    ensures CompletedBy(cfg, ps + [p], k, j)
  {
    assert (ps + [p])[..j] == ps[..j] && (ps + [p])[..j + 1] == ps[..j + 1];
  }

  /** Appending a packet to a run leaves every window already cut where it was. */
  lemma SliceStable(cfg: Config, ps: seq<Packet>, p: Packet, k: nat, w: Window)
    requires ps != [] && IsSlice(cfg, ps, k, w)
    ensures IsSlice(cfg, ps + [p], k, w)
  {
    AudioAppend(cfg.law, ps, p);
    SliceOfPrefix(Audio(cfg.law, ps), Decode(cfg.law, p.payload), Hops(cfg, k), Hops(cfg, k) + cfg.size);
    var j :| 0 <= j < |ps| && CompletedBy(cfg, ps, k, j) && w.receivedAt == ps[j].received;
    CompletedStays(cfg, ps, p, k, j);
    assert (ps + [p])[j] == ps[j] && (ps + [p])[0] == ps[0];
  }

  lemma SliceOfPrefix(a: seq<int>, b: seq<int>, lo: nat, hi: nat)
    requires lo <= hi <= |a|
    ensures (a + b)[lo..hi] == a[lo..hi]
  {
  }

  /** `pcm` is the audio of `ps` with `k` hops shifted out, and `start` its first timestamp. */
  ghost predicate Tail(cfg: Config, ps: seq<Packet>, k: nat, pcm: seq<int>, start: Word32)
    requires ps != []
  {
    && Hops(cfg, k) <= |Audio(cfg.law, ps)|
    && pcm == Audio(cfg.law, ps)[Hops(cfg, k)..]
    && start == StampAt(cfg, ps[0].ts, k)
  }

  lemma TailFirst(cfg: Config, p: Packet)
    ensures Tail(cfg, [p], 0, Decode(cfg.law, p.payload), p.ts)
  {
    AudioAppend(cfg.law, [], p);
    assert [] + [p] == [p];
  }

  lemma TailAppend(cfg: Config, ps: seq<Packet>, k: nat, pcm: seq<int>, start: Word32, p: Packet)
    requires ps != [] && Tail(cfg, ps, k, pcm, start)
    ensures Tail(cfg, ps + [p], k, pcm + Decode(cfg.law, p.payload), start)
  {
    AudioAppend(cfg.law, ps, p);
  }

  lemma TailShift(cfg: Config, ps: seq<Packet>, k: nat, pcm: seq<int>, start: Word32)
    requires ps != [] && Tail(cfg, ps, k, pcm, start) && cfg.hop <= |pcm|
    ensures Tail(cfg, ps, k + 1, pcm[cfg.hop..], (start + cfg.hop) % 0x1_0000_0000)
  {
    var audio := Audio(cfg.law, ps);
    assert Hops(cfg, k + 1) == Hops(cfg, k) + cfg.hop;
    assert audio[Hops(cfg, k)..][cfg.hop..] == audio[Hops(cfg, k) + cfg.hop..];
  }

  /** The head of the buffer is the next window, completed by the packet just appended. */
  lemma TailSlice(cfg: Config, ps: seq<Packet>, k: nat, pcm: seq<int>, w: Window)
    requires ps != [] && Tail(cfg, ps, k, pcm, w.rtpStart) && cfg.size <= |pcm|
    requires |Audio(cfg.law, ps[..|ps| - 1])| < Hops(cfg, k) + cfg.size
    requires w.pcm == pcm[..cfg.size] && w.receivedAt == ps[|ps| - 1].received
    ensures IsSlice(cfg, ps, k, w)
  {
    assert ps[..|ps|] == ps;
    assert CompletedBy(cfg, ps, k, |ps| - 1);
  }

  /** Sequence numbers along a continuous run count down from the newest, modulo 2^16. */
  lemma {:induction false} SequenceNumbers(ps: seq<Packet>, j: nat)
    requires Continuous(ps) && j < |ps|
    ensures (ps[|ps| - 1].seqNo - j) % 0x1_0000 == ps[|ps| - 1 - j].seqNo
  {
    if j > 0 {
      SequenceNumbers(ps, j - 1);
      ContinuousAt(ps, |ps| - j);
      OneBack(ps[|ps| - 1].seqNo - j, ps[|ps| - 1 - j].seqNo, ps[|ps| - j].seqNo);
    }
  }

  lemma OneBack(x: int, a: Word16, b: Word16)
    requires (x + 1) % 0x1_0000 == b == (a + 1) % 0x1_0000
    ensures x % 0x1_0000 == a
  {
  }

  lemma Difference(x: Word16, y: Word16, j: nat)
    requires (x - j) % 0x1_0000 == y
    ensures AsInt16((y - x) % 0x1_0000) == 0 || -LATE_TAIL <= AsInt16((y - x) % 0x1_0000) < 0 <==>
              j % 0x1_0000 <= 64
  {
    var k := j % 0x1_0000;
    assert j == 0x1_0000 * (j / 0x1_0000) + k;
    assert (x - k) % 0x1_0000 == y;
    assert y == x - k || y == x - k + 0x1_0000;
  }

  /** A re-delivered packet of the run is dropped as late exactly when the wrapped distance to
      the newest one is at most 64. */
  lemma RedeliveryIsLateIff(ps: seq<Packet>, j: nat, q: Packet)
    requires Continuous(ps) && j < |ps|
    requires q.seqNo == ps[|ps| - 1 - j].seqNo && q.ssrc == ps[|ps| - 1 - j].ssrc
    ensures Late(ps[|ps| - 1], q) <==> j % 0x1_0000 <= 64
  {
    SequenceNumbers(ps, j);
    ContinuousAt(ps, |ps| - 1);
    ContinuousAt(ps, |ps| - 1 - j);
    Difference(ps[|ps| - 1].seqNo, q.seqNo, j);
  }
}
