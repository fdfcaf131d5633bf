/** What the audio consumer guarantees in every state of every interleaving of its producers,
    its worker and its reader. `actions` is any schedule. */
module ConsumerTheorems {
  import opened Optional
  import opened Rtp
  import opened AudioRuns
  import opened ConsumerSystem
  import opened ConsumerData
  import opened ConsumerProtocol
  import opened ConsumerChannel
  import opened ConsumerRuns

  /** Once a disconnect, rejection or drop has made both increments, every window of a run with
      audio stamped before it (sent, buffered, read, or still in the worker's hand) carries a
      generation that is no longer current, whether it holds that audio or not. */
  lemma StaleWindowsInvalidated(cfg: Config, actions: seq<Action>, i: nat, r: nat, k: nat, j: nat)
    requires ValidConfig(cfg)
    requires var s := Exec(cfg, actions);
             && i < |s.clock.events| && s.clock.events[i].completed.Some?
             && r < |s.core.runs| && k < |s.core.runs[r].windows| && j < |s.core.runs[r].packets|
             && s.core.runs[r].packets[j].serial < s.clock.events[i].boundary
    ensures var s := Exec(cfg, actions);
            s.core.runs[r].windows[k].generation < s.clock.generation
  {
    ProtocolAlways(cfg, actions);
    var s := Exec(cfg, actions);
    var run := s.core.runs[r];
    assert Known(s.clock, run.packets[j]);
    ContinuousAt(run.packets, j);
    assert RunDated(s.clock, r + 1 >= s.core.epoch, run);
    assert Dated(s.clock, r + 1 >= s.core.epoch, run.packets[0].epoch, run.windows[k].generation);
  }

  /** What the reader's test of a window's generation against the current one establishes: every
      completed event lies before all the audio of its run, and the worker has not reset since. */
  lemma CurrentGenerationIsClean(cfg: Config, actions: seq<Action>, w: Window) returns (r: nat, k: nat)
    requires ValidConfig(cfg)
    requires var s := Exec(cfg, actions);
             (w in s.chan.read || w in s.chan.buffered) && w.generation == s.clock.generation
    ensures var s := Exec(cfg, actions);
            && r < |s.core.runs| && k < |s.core.runs[r].windows| && s.core.runs[r].windows[k] == w
            && w.epoch >= s.core.epoch
            && forall i, j :: 0 <= i < |s.clock.events| && s.clock.events[i].completed.Some?
                 && 0 <= j < |s.core.runs[r].packets|
                 ==> s.clock.events[i].boundary <= s.core.runs[r].packets[j].serial
  {
    ProtocolAlways(cfg, actions);
    DeliveryAlways(cfg, actions);
    var s := Exec(cfg, actions);
    Accounts(cfg, s);
    assert w in multiset(s.chan.read) || w in multiset(s.chan.buffered);
    assert w in multiset(Generated(s.core.runs));
    r, k := GeneratedFrom(s.core.runs, w);
    assert RunOk(cfg, s.core.runs[r], r + 1);
    assert RunDated(s.clock, r + 1 >= s.core.epoch, s.core.runs[r]);
    assert Dated(s.clock, r + 1 >= s.core.epoch, s.core.runs[r].packets[0].epoch, w.generation);
    forall i, j | 0 <= i < |s.clock.events| && s.clock.events[i].completed.Some? && 0 <= j < |s.core.runs[r].packets|
      ensures s.clock.events[i].boundary <= s.core.runs[r].packets[j].serial
    {
      if s.core.runs[r].packets[j].serial < s.clock.events[i].boundary {
        StaleWindowsInvalidated(cfg, actions, i, r, k, j);
      }
    }
  }

  lemma SamplesOf(cfg: Config, ps: seq<Packet>, k: nat, w: Window)
    requires ps != [] && IsSlice(cfg, ps, k, w)
    ensures |Bytes(ps)| == |Audio(cfg.law, ps)| && |w.pcm| == cfg.size
    ensures forall i :: 0 <= i < cfg.size ==> w.pcm[i] == cfg.law[Bytes(ps)[Hops(cfg, k) + i]]
  {
    AudioAt(cfg.law, ps, 0);
    forall i | 0 <= i < cfg.size
      ensures w.pcm[i] == cfg.law[Bytes(ps)[Hops(cfg, k) + i]]
    {
      AudioAt(cfg.law, ps, Hops(cfg, k) + i);
    }
  }

  /** Neighbours in a run, in every reachable state: the next sequence number of the same source
      and producer epoch, a stamp at most 800 samples off the one the audio asks for, and an
      arrival no later than 250 ms after the longer packet's playing time. */
  lemma NeighboursFit(cfg: Config, actions: seq<Action>, r: nat, j: nat) returns (e: int)
    requires ValidConfig(cfg)
    requires r < |Exec(cfg, actions).core.runs| && j + 1 < |Exec(cfg, actions).core.runs[r].packets|
    ensures var p, q := Exec(cfg, actions).core.runs[r].packets[j], Exec(cfg, actions).core.runs[r].packets[j + 1];
            && q.ssrc == p.ssrc && q.epoch == p.epoch
            && q.seqNo == (p.seqNo + 1) % 0x1_0000
            && -800 <= e <= 800 && q.ts == (p.ts + |p.payload| + e) % 0x1_0000_0000
            && q.received - p.received <=
                 (if |p.payload| < |q.payload| then |q.payload| else |p.payload|) * 125_000 + 250_000_000
  {
    ProtocolAlways(cfg, actions);
    var ps := Exec(cfg, actions).core.runs[r].packets;
    ContinuousAt(ps, j);
    ContinuousAt(ps, j + 1);
    FollowsIff(ps[j], ps[j + 1]);
    e :| -800 <= e <= 800 && OffBy(ps[j], ps[j + 1], e);
  }

  /** What becomes of a packet of the current epoch, with `p` the newest of the run: ignored when it
      is 0 to 64 numbers back, joined when it continues the run, and otherwise the cause of a reset. */
  lemma ClassifiedBy(cfg: Config, s: State, p: Packet, q: Packet)
    requires s.core.pc == Got(q) && q.epoch == s.clock.epoch == s.core.queueEpoch
    requires s.core.prev == Some(p) && s.core.runs != []
    ensures var s', n := Step(cfg, s, Work), |s.core.runs| - 1;
            if Behind(p, q) then s' == s.(core := s.core.(pc := Idle))
            else if Continues(p, q) then
              && s'.core.pc == LoadGeneration(q) && s'.core.prev == Some(q)
              && s'.core.pcm == s.core.pcm + Decode(cfg.law, q.payload)
              && s'.core.runs == s.core.runs[n := Run(s.core.runs[n].packets + [q], s.core.runs[n].windows)]
            else s' == s.(core := s.core.(pc := Resetting(q, false)))
  {
    LateIff(p, q);
    FollowsIff(p, q);
  }

  /** Window k of a run is samples [k*hop, k*hop + size) of the concatenated decoded payloads,
      stamped (first timestamp + k*hop) mod 2^32; the packets behind it may be joined. */
  lemma WindowsAreSlices(cfg: Config, actions: seq<Action>, r: nat, k: nat)
    requires ValidConfig(cfg)
    requires r < |Exec(cfg, actions).core.runs| && k < |Exec(cfg, actions).core.runs[r].windows|
    ensures var ps := Exec(cfg, actions).core.runs[r].packets;
            var w := Exec(cfg, actions).core.runs[r].windows[k];
            var audio := Audio(cfg.law, ps);
            && ps != []
            && (forall j :: 0 <= j < |ps| ==> ps[j].ssrc == ps[0].ssrc && ps[j].epoch == ps[0].epoch)
            && (forall i, j :: 0 <= i && j == i + 1 < |ps| ==> Follows(ps[i], ps[j]))
            && 0 <= k * cfg.hop && k * cfg.hop + cfg.size <= |audio|
            && w.pcm == audio[k * cfg.hop..k * cfg.hop + cfg.size]
            && |Bytes(ps)| == |audio| && |w.pcm| == cfg.size
            && (forall i :: 0 <= i < cfg.size ==> w.pcm[i] == cfg.law[Bytes(ps)[k * cfg.hop + i]])
            && w.rtpStart == (ps[0].ts + k * cfg.hop) % 0x1_0000_0000
            && w.epoch == r + 1
            && exists j :: 0 <= j < |ps| && CompletedBy(cfg, ps, k, j) && w.receivedAt == ps[j].received
  {
    ProtocolAlways(cfg, actions);
    var s := Exec(cfg, actions);
    var run := s.core.runs[r];
    assert RunOk(cfg, run, r + 1);
    assert IsSlice(cfg, run.packets, k, run.windows[k]);
    HopsIsProduct(cfg, k);
    StampIsSum(cfg, run.packets[0].ts, k);
    SamplesOf(cfg, run.packets, k, run.windows[k]);
    forall j | 0 <= j < |run.packets|
      ensures run.packets[j].ssrc == run.packets[0].ssrc && run.packets[j].epoch == run.packets[0].epoch
      ensures j > 0 ==> Follows(run.packets[j - 1], run.packets[j])
    {
      ContinuousAt(run.packets, j);
    }
    forall i, j | 0 <= i && j == i + 1 < |run.packets|
      ensures Follows(run.packets[i], run.packets[j])
    {
      ContinuousAt(run.packets, j);
    }
  }

  /** At prefix `n` of the schedule the worker stood between two packets of run `r`, had accepted
      all the packets the run has now, and held too little audio for another window. */
  ghost predicate CompletedAt(cfg: Config, actions: seq<Action>, r: nat, n: nat)
    requires n <= |actions|
  {
    var left, now := Exec(cfg, actions[..n]).core, Exec(cfg, actions).core;
    && Between(left, r) && r < |now.runs|
    && left.runs[r].packets == now.runs[r].packets && |left.pcm| < cfg.size
  }

  ghost predicate Completed(cfg: Config, actions: seq<Action>, r: nat) {
    exists n: nat :: n <= |actions| && CompletedAt(cfg, actions, r, n)
  }

  /** No run in any state has more windows than its audio yields. */
  lemma WindowCountAtMost(cfg: Config, actions: seq<Action>, r: nat)
    requires ValidConfig(cfg) && r < |Exec(cfg, actions).core.runs|
    ensures var run := Exec(cfg, actions).core.runs[r];
            |run.windows| <= WindowCount(cfg, |Audio(cfg.law, run.packets)|)
  {
    DataAlways(cfg, actions);
    CountAtMost(cfg, Exec(cfg, actions).core.runs[r], r + 1);
  }

  /** A count that was exact stays exact while the run gets no more packets. */
  lemma CountStaysExact(cfg: Config, actions: seq<Action>, later: seq<Action>, r: nat)
    requires ValidConfig(cfg) && r < |Exec(cfg, actions).core.runs| && CountExact(cfg, Exec(cfg, actions).core.runs[r])
    requires r < |Exec(cfg, actions + later).core.runs|
    requires Exec(cfg, actions + later).core.runs[r].packets == Exec(cfg, actions).core.runs[r].packets
    ensures CountExact(cfg, Exec(cfg, actions + later).core.runs[r])
  {
    ExecFromConcat(cfg, Init(), actions, later);
    RunsGrow(cfg, Exec(cfg, actions), later);
    assert Grown(Exec(cfg, actions).core.runs[r], Exec(cfg, actions + later).core.runs[r]);
    WindowCountAtMost(cfg, actions + later, r);
  }

  /** While the worker is between two packets of a run, its buffer tells whether the run has all
      its windows. */
  lemma BetweenCountIff(cfg: Config, actions: seq<Action>, r: nat)
    requires ValidConfig(cfg) && Between(Exec(cfg, actions).core, r)
    ensures CountExact(cfg, Exec(cfg, actions).core.runs[r]) <==> |Exec(cfg, actions).core.pcm| < cfg.size
  {
    DataAlways(cfg, actions);
    BufferTells(cfg, Exec(cfg, actions).core, r);
  }

  lemma CompletedIsExact(cfg: Config, actions: seq<Action>, r: nat)
    requires ValidConfig(cfg) && Completed(cfg, actions, r)
    ensures r < |Exec(cfg, actions).core.runs| && CountExact(cfg, Exec(cfg, actions).core.runs[r])
  {
    var n: nat :| n <= |actions| && CompletedAt(cfg, actions, r, n);
    BetweenCountIff(cfg, actions[..n], r);
    assert actions == actions[..n] + actions[n..];
    CountStaysExact(cfg, actions[..n], actions[n..], r);
  }

  /** Exactly when a run has all the windows its audio yields, none below `size` samples and
      (samples - size) / hop + 1 from there on: when the worker once stood behind its last packet
      with less than a window left over. This is for every run but the one being windowed now, and
      whatever the producers have done since. */
  lemma WindowCountExactIff(cfg: Config, actions: seq<Action>, r: nat)
    requires ValidConfig(cfg) && r < |Exec(cfg, actions).core.runs|
    requires r + 1 == |Exec(cfg, actions).core.runs| ==> !Windowing(Exec(cfg, actions).core.pc)
    ensures var run := Exec(cfg, actions).core.runs[r];
            |run.windows| == WindowCount(cfg, |Audio(cfg.law, run.packets)|) <==> Completed(cfg, actions, r)
  {
    var now := Exec(cfg, actions).core;
    if Completed(cfg, actions, r) {
      CompletedIsExact(cfg, actions, r);
    } else if CountExact(cfg, now.runs[r]) {
      var n := |actions|;
      if Finished(now, r) {
        n := LeftBetween(cfg, actions, r);
      } else {
        assert actions[..n] == actions;
      }
      BetweenCountIff(cfg, actions[..n], r);
      assert CompletedAt(cfg, actions, r, n);
    }
  }

  /** The worker is done with run `r` for now and the producer epoch has not moved past it. */
  ghost predicate Unbroken(s: State, r: nat) {
    && r < |s.core.runs| && (r < |s.core.runs| - 1 || !Windowing(s.core.pc))
    && s.core.runs[r].packets != [] && s.core.runs[r].packets[0].epoch == s.clock.epoch
  }

  /** A run that the producers have not cut short is complete, and stays so whatever they do later
      as long as it gets no more packets. */
  lemma WindowCountExact(cfg: Config, actions: seq<Action>, later: seq<Action>, r: nat)
    requires ValidConfig(cfg) && Unbroken(Exec(cfg, actions), r)
    requires r < |Exec(cfg, actions + later).core.runs|
    requires Exec(cfg, actions + later).core.runs[r].packets == Exec(cfg, actions).core.runs[r].packets
    ensures var run := Exec(cfg, actions + later).core.runs[r];
            |run.windows| == WindowCount(cfg, |Audio(cfg.law, run.packets)|)
  {
    DataAlways(cfg, actions);
    var s := Exec(cfg, actions);
    assert RunOk(cfg, s.core.runs[r], r + 1) && Served(cfg, s.clock.epoch, s.core.runs[r]);
    CountExactIff(cfg, s.core.runs[r], r + 1);
    CountStaysExact(cfg, actions, later, r);
  }

  lemma UnbrokenIsCompleted(cfg: Config, actions: seq<Action>, r: nat)
    requires ValidConfig(cfg) && Unbroken(Exec(cfg, actions), r)
    ensures Completed(cfg, actions, r)
  {
    assert actions + [] == actions;
    WindowCountExact(cfg, actions, [], r);
    WindowCountExactIff(cfg, actions, r);
  }

  /** Two runs over the same audio and first timestamp, in any two executions and however the
      audio was cut into packets, agree window by window, and in number if both were completed. */
  lemma SameAudioSameWindows(cfg: Config, a1: seq<Action>, r1: nat, a2: seq<Action>, r2: nat)
    requires ValidConfig(cfg)
    requires r1 < |Exec(cfg, a1).core.runs| && r2 < |Exec(cfg, a2).core.runs|
    requires var x, y := Exec(cfg, a1).core.runs[r1], Exec(cfg, a2).core.runs[r2];
             && x.packets != [] && y.packets != [] && x.packets[0].ts == y.packets[0].ts
             && Audio(cfg.law, x.packets) == Audio(cfg.law, y.packets)
    ensures var x, y := Exec(cfg, a1).core.runs[r1].windows, Exec(cfg, a2).core.runs[r2].windows;
            forall k :: 0 <= k < |x| && k < |y| ==> x[k].pcm == y[k].pcm && x[k].rtpStart == y[k].rtpStart
    ensures Completed(cfg, a1, r1) && Completed(cfg, a2, r2) ==>
              |Exec(cfg, a1).core.runs[r1].windows| == |Exec(cfg, a2).core.runs[r2].windows|
  {
    DataAlways(cfg, a1);
    DataAlways(cfg, a2);
    var x, y := Exec(cfg, a1).core.runs[r1], Exec(cfg, a2).core.runs[r2];
    assert RunOk(cfg, x, r1 + 1) && RunOk(cfg, y, r2 + 1);
    forall k | 0 <= k < |x.windows| && k < |y.windows|
      ensures x.windows[k].pcm == y.windows[k].pcm && x.windows[k].rtpStart == y.windows[k].rtpStart
    {
      assert IsSlice(cfg, x.packets, k, x.windows[k]) && IsSlice(cfg, y.packets, k, y.windows[k]);
    }
    if Completed(cfg, a1, r1) && Completed(cfg, a2, r2) {
      CompletedIsExact(cfg, a1, r1);
      CompletedIsExact(cfg, a2, r2);
    }
  }

  /** The same payload bytes behind the same first timestamp, in any two executions and however they
      were cut into packets, give the same windows, and as many if both runs were completed. */
  lemma PacketBoundariesAreInvisible(cfg: Config, a1: seq<Action>, r1: nat, a2: seq<Action>, r2: nat)
    requires ValidConfig(cfg)
    requires r1 < |Exec(cfg, a1).core.runs| && r2 < |Exec(cfg, a2).core.runs|
    requires var x, y := Exec(cfg, a1).core.runs[r1], Exec(cfg, a2).core.runs[r2];
             && x.packets != [] && y.packets != [] && x.packets[0].ts == y.packets[0].ts
             && Bytes(x.packets) == Bytes(y.packets)
    ensures var x, y := Exec(cfg, a1).core.runs[r1].windows, Exec(cfg, a2).core.runs[r2].windows;
            forall k :: 0 <= k < |x| && k < |y| ==> x[k].pcm == y[k].pcm && x[k].rtpStart == y[k].rtpStart
    ensures Completed(cfg, a1, r1) && Completed(cfg, a2, r2) ==>
              |Exec(cfg, a1).core.runs[r1].windows| == |Exec(cfg, a2).core.runs[r2].windows|
  {
    SameBytesSameAudio(cfg.law, Exec(cfg, a1).core.runs[r1].packets, Exec(cfg, a2).core.runs[r2].packets);
    SameAudioSameWindows(cfg, a1, r1, a2, r2);
  }

  /** Looking at a late or duplicate packet changes nothing but the program counter. */
  lemma LateLeavesNoTrace(cfg: Config, s: State, q: Packet)
    requires s.core.pc == Got(q) && s.core.prev.Some? && Late(s.core.prev.value, q)
    requires q.epoch == s.core.queueEpoch
    ensures Step(cfg, s, Work) == s.(core := s.core.(pc := Idle))
  {
  }

  /** The same state with the worker holding `q` instead of waiting. */
  ghost function Holding(s: State, q: Packet): State { s.(core := s.core.(pc := Got(q))) }

  /** No step of a producer or the reader depends on what the worker is looking at. */
  lemma HoldingCommutes(cfg: Config, s: State, q: Packet, a: Action)
    requires s.core.pc.Idle? && !a.Work? && !a.Stop?
    ensures Step(cfg, Holding(s, q), a) == Holding(Step(cfg, s, a), q)
    ensures Step(cfg, s, a).core == s.core
  {
  }

  lemma {:induction false} HoldingThroughout(cfg: Config, s: State, q: Packet, mid: seq<Action>)
    requires s.core.pc.Idle? && Work !in mid && Stop !in mid
    ensures ExecFrom(cfg, Holding(s, q), mid) == Holding(ExecFrom(cfg, s, mid), q)
    ensures ExecFrom(cfg, s, mid).core == s.core
  {
    if mid != [] {
      var n := |mid| - 1;
      HoldingThroughout(cfg, s, q, mid[..n]);
      HoldingCommutes(cfg, ExecFrom(cfg, s, mid[..n]), q, mid[n]);
    }
  }

  /** Taking a late packet and looking at it, with any steps of the producers and the reader in
      between, amounts to deleting it from the head of the queue: every continuation goes as it
      would have gone without it. */
  lemma LatePacketNeverMattered(cfg: Config, s: State, mid: seq<Action>, rest: seq<Action>)
    requires s.core.pc.Idle? && s.packets != [] && s.core.prev.Some? && Late(s.core.prev.value, s.packets[0])
    requires s.packets[0].epoch == s.core.queueEpoch
    requires Work !in mid && Stop !in mid
    ensures ExecFrom(cfg, s, [Work] + mid + [Work] + rest) == ExecFrom(cfg, s.(packets := s.packets[1..]), mid + rest)
  {
    var q, without := s.packets[0], s.(packets := s.packets[1..]);
    var later := ExecFrom(cfg, without, mid);
    HoldingThroughout(cfg, without, q, mid);
    LateLeavesNoTrace(cfg, Holding(later, q), q);
    ExecOne(cfg, s, Work);
    ExecOne(cfg, Holding(later, q), Work);
    ExecFromConcat(cfg, s, [Work], mid);
    ExecFromConcat(cfg, s, [Work] + mid, [Work]);
    ExecFromConcat(cfg, s, [Work] + mid + [Work], rest);
    ExecFromConcat(cfg, without, mid, rest);
  }

  /** Re-delivering the packet `j` places behind the newest of the current run is ignored exactly
      when j mod 2^16 is at most 64; anything further back counts as a counter restart. */
  lemma RedeliveryIgnoredIff(cfg: Config, actions: seq<Action>, j: nat, q: Packet)
    requires ValidConfig(cfg)
    requires var s := Exec(cfg, actions);
             && s.core.pc == Got(q) && s.core.prev.Some? && s.core.runs != []
             && q.epoch == s.core.queueEpoch == s.clock.epoch
             && j < |Last(s.core).packets|
             && q.seqNo == Last(s.core).packets[|Last(s.core).packets| - 1 - j].seqNo
             && q.ssrc == Last(s.core).packets[|Last(s.core).packets| - 1 - j].ssrc
    ensures var s := Exec(cfg, actions);
            Step(cfg, s, Work) == s.(core := s.core.(pc := Idle)) <==> j % 0x1_0000 <= 64
  {
    ProtocolAlways(cfg, actions);
    var s := Exec(cfg, actions);
    RedeliveryIsLateIff(Last(s.core).packets, j, q);
    if Late(s.core.prev.value, q) {
      LateLeavesNoTrace(cfg, s, q);
    } else {
      assert !Step(cfg, s, Work).core.pc.Idle?;
    }
  }

  /** Between packets the buffer can hold a whole window only when the producer epoch has moved
      on; the next packet accepted then resets, so the leftover reaches no window. */
  lemma LeftoverIsNeverCut(cfg: Config, actions: seq<Action>)
    requires ValidConfig(cfg)
    requires var s := Exec(cfg, actions);
             (s.core.pc.Idle? || s.core.pc.Got?) && |s.core.pcm| >= cfg.size
    ensures var s := Exec(cfg, actions);
            && s.core.queueEpoch < s.clock.epoch
            && (s.core.pc.Got? ==>
                  var c' := Step(cfg, s, Work).core;
                  c' == s.core.(pc := Idle) || c' == s.core.(pc := Resetting(s.core.pc.p, true)))
  {
    DataAlways(cfg, actions);
    var s := Exec(cfg, actions);
    var n := |s.core.runs| - 1;
    QueueEpochKnown(cfg, s);
    assert Buffered(cfg, s.core);
    assert Served(cfg, s.clock.epoch, s.core.runs[n]);
  }

  /** Once a packet has been accepted the local epoch counts the discontinuities. */
  lemma EpochCountsDiscontinuities(cfg: Config, actions: seq<Action>)
    requires ValidConfig(cfg)
    ensures var c := Exec(cfg, actions).core;
            c.epoch == if c.runs == [] then 0 else 1 + c.discontinuities
  {
    DataAlways(cfg, actions);
  }

  /** No window is lost or invented: what was cut is what was read, what is buffered, what was
      counted as dropped, and at most one window in the worker's hand. */
  lemma WindowsConserved(cfg: Config, actions: seq<Action>)
    requires ValidConfig(cfg)
    ensures var s := Exec(cfg, actions);
            && multiset(Generated(s.core.runs)) ==
                 multiset(s.chan.read) + multiset(s.chan.buffered) + multiset(s.chan.discarded) +
                multiset(InHand(s.core.pc))
            && |Generated(s.core.runs)| ==
                 |s.chan.read| + |s.chan.buffered| + s.chan.dropped + |InHand(s.core.pc)|
  {
    DeliveryAlways(cfg, actions);
    var s := Exec(cfg, actions);
    Accounts(cfg, s);
  }

  /** The reader never sees an epoch go back, and outside a drain the channel holds windows of
      the current epoch only. */
  lemma ReaderEpochsNeverGoBack(cfg: Config, actions: seq<Action>)
    requires ValidConfig(cfg)
    ensures var s := Exec(cfg, actions);
            && Ordered(s.chan.read + s.chan.buffered)
            && |s.chan.buffered| <= cfg.windowCap
            && (!Clearing(s.core.pc) ==> AllOf(s.chan.buffered, s.core.epoch))
  {
    DeliveryAlways(cfg, actions);
  }

  /** `t` is past the test of `closed` with a packet that it has not queued yet. */
  ghost predicate Bringing(s: State, t: nat) {
    t in s.producers && (s.producers[t].Admitted? || s.producers[t].Stamped?)
  }

  lemma ClosedNext(cfg: Config, s: State, a: Action, t: nat)
    requires s.closed
    ensures Step(cfg, s, a).closed && (Bringing(Step(cfg, s, a), t) ==> Bringing(s, t))
  {
  }

  /** Once the consumer is closed it stays closed, and only calls that were under way then can still
      queue a packet. */
  lemma {:induction false} ClosedAdmitsNobody(cfg: Config, s: State, later: seq<Action>, t: nat)
    requires s.closed
    ensures ExecFrom(cfg, s, later).closed
    ensures Bringing(ExecFrom(cfg, s, later), t) ==> Bringing(s, t)
  {
    if later != [] {
      var n := |later| - 1;
      ClosedAdmitsNobody(cfg, s, later[..n], t);
      ClosedNext(cfg, ExecFrom(cfg, s, later[..n]), later[n], t);
    }
  }

  lemma StopsOnce(cfg: Config, s: State, a: Action)
    requires s.core.pc.Stopped? ==> s.closed
    ensures Step(cfg, s, a).core.pc.Stopped? ==> Step(cfg, s, a).closed
  {
    if a.Work? {
      WorkNeverStops(cfg, s);
    }
  }

  lemma WorkNeverStops(cfg: Config, s: State)
    ensures WorkStep(cfg, s).core.pc.Stopped? ==> s.core.pc.Stopped?
    ensures WorkStep(cfg, s).closed == s.closed
  {
  }

  /** The worker ends only after the consumer has been closed. */
  lemma {:induction false} StoppedOnlyWhenClosed(cfg: Config, actions: seq<Action>)
    ensures Exec(cfg, actions).core.pc.Stopped? ==> Exec(cfg, actions).closed
  {
    if actions != [] {
      StoppedOnlyWhenClosed(cfg, actions[..|actions| - 1]);
      StopsOnce(cfg, Exec(cfg, actions[..|actions| - 1]), actions[|actions| - 1]);
    }
  }
}
