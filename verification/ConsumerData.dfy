/** What the worker cuts: in every reachable state of every interleaving the windows of a run
    are exactly the hops of its concatenated audio. */
module ConsumerData {
  import opened Optional
  import opened Rtp
  import opened AudioRuns
  import opened ConsumerSystem

  // ---------------------------------------------------------------- runs and the worker's buffer

  ghost predicate Windowing(pc: Pc) {
    pc.LoadGeneration? || pc.CheckEpoch? || pc.Sending? || pc.CountDropped?
  }

  ghost predicate Clearing(pc: Pc) { pc.Draining? || pc.CountDrained? }

  ghost function Last(c: Core): Run
    requires c.runs != []
  {
    c.runs[|c.runs| - 1]
  }

  /** Hops already taken off the buffer: a window being sent is cut but not yet shifted out. */
  ghost function Cut(c: Core): nat
    requires c.runs != []
  {
    var k := |Last(c).windows|;
    if (c.pc.Sending? || c.pc.CountDropped?) && k > 0 then k - 1 else k
  }

  /** No window is owed for the run, unless the producer epoch has moved past it. */
  ghost predicate Served(cfg: Config, epoch: nat, r: Run)
    requires r.packets != []
  {
    || |Audio(cfg.law, r.packets)| < Hops(cfg, |r.windows|) + cfg.size
    || r.packets[0].epoch < epoch
  }

  ghost predicate RunsOk(cfg: Config, runs: seq<Run>) {
    forall r :: 0 <= r < |runs| ==> RunOk(cfg, runs[r], r + 1)
  }

  ghost predicate AllServed(cfg: Config, epoch: nat, runs: seq<Run>, n: nat)
    requires n <= |runs| && RunsOk(cfg, runs)
  {
    forall r :: 0 <= r < n ==> Served(cfg, epoch, runs[r])
  }

  /** The run being windowed right now is the only one that may still owe windows. */
  ghost function Settled(c: Core): nat {
    if Windowing(c.pc) && c.runs != [] then |c.runs| - 1 else |c.runs|
  }

  /** The buffer is the unshifted tail of the audio of the current run. */
  ghost predicate Buffered(cfg: Config, c: Core)
    requires c.runs != []
  {
    var ps := Last(c).packets;
    && ps != []
    && c.prev == Some(ps[|ps| - 1])
    && c.queueEpoch == ps[0].epoch
    && c.epoch == |c.runs|
    && Tail(cfg, ps, Cut(c), c.pcm, c.start)
    && (Windowing(c.pc) ==>
          && c.pc.p == ps[|ps| - 1]
          && |Audio(cfg.law, ps[..|ps| - 1])| < Hops(cfg, Cut(c)) + cfg.size)
    && (c.pc.Sending? || c.pc.CountDropped? ==> |Last(c).windows| > 0 && |c.pcm| >= cfg.size)
  }

  /** Between the start and the first accepted packet there is no run; during a drain the last
      one is over and the next not begun; otherwise the buffer belongs to the last one. */
  ghost predicate Aligned(cfg: Config, c: Core) {
    && (if c.prev.Some? then c.runs != [] && !Clearing(c.pc) && Buffered(cfg, c)
        else if Clearing(c.pc) then c.pcm == [] && c.runs != [] && c.epoch == |c.runs| + 1
        else c.pcm == [] && c.epoch == 0 && c.queueEpoch == 0 && c.runs == [] && !Windowing(c.pc) && !c.pc.Resetting?)
    && ((c.pc.Resetting? || Clearing(c.pc)) && !c.pc.bump ==> c.pc.p.epoch == c.queueEpoch)
    && (c.queueEpoch == 0 <==> c.runs == [])
    && c.epoch == (if c.runs == [] then 0 else 1 + c.discontinuities)
    && (c.runs == [] ==> c.discontinuities == 0)
  }

  ghost predicate CoreOk(cfg: Config, epoch: nat, c: Core) {
    && RunsOk(cfg, c.runs)
    && Aligned(cfg, c)
    && AllServed(cfg, epoch, c.runs, Settled(c))
  }

  lemma FirstBuffer(cfg: Config, c: Core, p: Packet)
    requires ValidConfig(cfg)
    requires c.prev.None? && c.pcm == [] && c.epoch == |c.runs| + 1 == 1 + c.discontinuities
    requires c.queueEpoch == p.epoch >= 1
    ensures Aligned(cfg, CoreAppend(cfg, c, p))
  {
    var c', samples := CoreAppend(cfg, c, p), Decode(cfg.law, p.payload);
    TailFirst(cfg, p);
    assert [p][..0] == [] && [] + samples == samples;
    assert Last(c') == Run([p], []) && Cut(c') == 0 && c'.pcm == samples;
    assert Buffered(cfg, c');
  }

  /** A fresh run: the buffer is the first packet's audio. */
  lemma AppendFirst(cfg: Config, epoch: nat, c: Core, p: Packet)
    requires ValidConfig(cfg) && RunsOk(cfg, c.runs) && AllServed(cfg, epoch, c.runs, |c.runs|)
    requires c.prev.None? && c.pcm == [] && c.epoch == |c.runs| + 1 == 1 + c.discontinuities
    requires c.queueEpoch == p.epoch >= 1
    ensures CoreOk(cfg, epoch, CoreAppend(cfg, c, p))
  {
    FirstBuffer(cfg, c, p);
    FirstRun(cfg, epoch, c.runs, p);
  }

  lemma FirstRun(cfg: Config, epoch: nat, runs: seq<Run>, p: Packet)
    requires RunsOk(cfg, runs) && AllServed(cfg, epoch, runs, |runs|)
    ensures RunsOk(cfg, runs + [Run([p], [])]) && AllServed(cfg, epoch, runs + [Run([p], [])], |runs|)
  {
  }

  lemma ExtendRun(cfg: Config, run: Run, p: Packet, e: nat)
    requires RunOk(cfg, run, e)
    ensures RunOk(cfg, Run(run.packets + [p], run.windows), e)
  {
    var ps := run.packets + [p];
    forall k | 0 <= k < |run.windows|
      ensures IsSlice(cfg, ps, k, run.windows[k])
    {
      SliceStable(cfg, run.packets, p, k, run.windows[k]);
    }
  }

  lemma ReplaceLast(cfg: Config, epoch: nat, runs: seq<Run>, run: Run)
    requires runs != [] && RunsOk(cfg, runs) && AllServed(cfg, epoch, runs, |runs| - 1) && RunOk(cfg, run, |runs|)
    ensures RunsOk(cfg, runs[|runs| - 1 := run]) && AllServed(cfg, epoch, runs[|runs| - 1 := run], |runs| - 1)
  {
  }

  lemma ExtendRuns(cfg: Config, epoch: nat, c: Core, p: Packet)
    requires c.prev.Some? && c.runs != [] && RunsOk(cfg, c.runs) && AllServed(cfg, epoch, c.runs, |c.runs| - 1)
    ensures RunsOk(cfg, CoreAppend(cfg, c, p).runs)
    ensures AllServed(cfg, epoch, CoreAppend(cfg, c, p).runs, |c.runs| - 1)
  {
    var n := |c.runs| - 1;
    ExtendRun(cfg, c.runs[n], p, n + 1);
    ReplaceLast(cfg, epoch, c.runs, Run(c.runs[n].packets + [p], c.runs[n].windows));
  }

  /** A packet that follows extends the audio of the run without disturbing its windows. */
  lemma AppendNext(cfg: Config, epoch: nat, c: Core, p: Packet)
    requires CoreOk(cfg, epoch, c) && c.pc.Got? && c.prev.Some? && c.queueEpoch == epoch
    ensures CoreOk(cfg, epoch, CoreAppend(cfg, c, p))
  {
    ExtendRuns(cfg, epoch, c, p);
    assert Served(cfg, epoch, c.runs[|c.runs| - 1]);
    ExtendBuffer(cfg, c, p);
  }

  lemma ExtendBuffer(cfg: Config, c: Core, p: Packet)
    requires Aligned(cfg, c) && c.prev.Some? && c.pc.Got?
    requires |Audio(cfg.law, Last(c).packets)| < Hops(cfg, |Last(c).windows|) + cfg.size
    ensures Aligned(cfg, CoreAppend(cfg, c, p))
  {
    var ps := Last(c).packets;
    TailAppend(cfg, ps, Cut(c), c.pcm, c.start, p);
    assert (ps + [p])[..|ps|] == ps;
    assert Cut(CoreAppend(cfg, c, p)) == Cut(c);
    assert Buffered(cfg, CoreAppend(cfg, c, p));
  }

  lemma ResetOk(cfg: Config, epoch: nat, c: Core)
    requires CoreOk(cfg, epoch, c) && c.pc.Resetting?
    ensures CoreOk(cfg, epoch, CoreReset(c, c.pc.p, c.pc.bump))
  {
  }

  /** Leaving the drain: the reset is complete and the packet opens a new run. */
  lemma ResumeOk(cfg: Config, epoch: nat, c: Core)
    requires ValidConfig(cfg) && CoreOk(cfg, epoch, c) && c.pc.Draining? && 1 <= c.pc.p.epoch
    ensures CoreOk(cfg, epoch, CoreResume(cfg, c, c.pc.p, c.pc.bump))
  {
    AppendFirst(cfg, epoch, c.(queueEpoch := c.pc.p.epoch), c.pc.p);
    if !c.pc.bump {
      assert c.(queueEpoch := c.pc.p.epoch) == c;
    }
  }

  lemma AddWindow(cfg: Config, run: Run, e: nat, w: Window)
    requires RunOk(cfg, run, e) && w.epoch == e && IsSlice(cfg, run.packets, |run.windows|, w)
    ensures RunOk(cfg, Run(run.packets, run.windows + [w]), e)
  {
  }

  /** Leaving the loop: too little audio is left, or the producers have moved on. */
  lemma LeaveOk(cfg: Config, epoch: nat, c: Core)
    requires CoreOk(cfg, epoch, c) && c.pc.CheckEpoch? && c.queueEpoch <= epoch
    requires |c.pcm| < cfg.size || c.queueEpoch != epoch
    ensures CoreOk(cfg, epoch, c.(pc := Idle))
  {
    var n := |c.runs| - 1;
    assert RunOk(cfg, c.runs[n], n + 1);
    assert Served(cfg, epoch, c.runs[n]);
  }

  lemma CutBuffer(cfg: Config, c: Core, c': Core, w: Window)
    requires Aligned(cfg, c) && c.pc.CheckEpoch? && cfg.size <= |c.pcm|
    requires c'.pc.Sending? && c'.pc.p == c.pc.p && |c'.runs| == |c.runs|
    requires Last(c') == Run(Last(c).packets, Last(c).windows + [w])
    requires c' == c.(runs := c'.runs, pc := c'.pc)
    ensures Aligned(cfg, c')
  {
    assert Cut(c') == Cut(c);
  }

  /** The buffer of the loop's next turn, whatever its new contents and timestamp are made of. */
  lemma ShiftAligned(cfg: Config, c: Core, pcm: seq<int>, start: Word32)
    requires Aligned(cfg, c) && (c.pc.Sending? || c.pc.CountDropped?)
    requires c.runs != [] && Last(c).packets != [] && Tail(cfg, Last(c).packets, Cut(c) + 1, pcm, start)
    ensures Aligned(cfg, c.(pcm := pcm, start := start, pc := CheckEpoch(c.pc.p, c.pc.generation)))
  {
    var c' := c.(pcm := pcm, start := start, pc := CheckEpoch(c.pc.p, c.pc.generation));
    assert Hops(cfg, Cut(c) + 1) >= Hops(cfg, Cut(c)) && Cut(c') == Cut(c) + 1;
    assert Buffered(cfg, c');
  }

  lemma ShiftBuffer(cfg: Config, c: Core)
    requires ValidConfig(cfg) && Aligned(cfg, c) && (c.pc.Sending? || c.pc.CountDropped?)
    ensures Aligned(cfg, CoreShift(cfg, c, c.pc.p, c.pc.generation))
  {
    var c' := CoreShift(cfg, c, c.pc.p, c.pc.generation);
    assert cfg.hop <= |c.pcm|;
    TailShift(cfg, Last(c).packets, Cut(c), c.pcm, c.start);
    ShiftAligned(cfg, c, c'.pcm, c'.start);
  }

  lemma CutRuns(cfg: Config, epoch: nat, runs: seq<Run>, w: Window)
    requires runs != [] && RunsOk(cfg, runs) && AllServed(cfg, epoch, runs, |runs| - 1) && w.epoch == |runs|
    requires IsSlice(cfg, runs[|runs| - 1].packets, |runs[|runs| - 1].windows|, w)
    ensures var last := runs[|runs| - 1];
            var runs' := runs[|runs| - 1 := Run(last.packets, last.windows + [w])];
            RunsOk(cfg, runs') && AllServed(cfg, epoch, runs', |runs| - 1)
  {
    var last := runs[|runs| - 1];
    AddWindow(cfg, last, |runs|, w);
    ReplaceLast(cfg, epoch, runs, Run(last.packets, last.windows + [w]));
  }

  lemma HeadIsSlice(cfg: Config, c: Core, w: Window)
    requires Aligned(cfg, c) && c.pc.CheckEpoch? && cfg.size <= |c.pcm|
    requires w == Window(c.pcm[..cfg.size], c.start, c.epoch, c.pc.generation, c.pc.p.received)
    ensures c.runs != [] && Last(c).packets != [] && c.epoch == |c.runs|
    ensures IsSlice(cfg, Last(c).packets, |Last(c).windows|, w)
  {
    TailSlice(cfg, Last(c).packets, Cut(c), c.pcm, w);
  }

  /** What the check leaves when it cuts. */
  lemma CheckCuts(cfg: Config, epoch: nat, c: Core)
    requires c.pc.CheckEpoch? && cfg.size <= |c.pcm| && c.queueEpoch == epoch && c.runs != []
    ensures var w := Window(c.pcm[..cfg.size], c.start, c.epoch, c.pc.generation, c.pc.p.received);
            CoreCheck(cfg, epoch, c, c.pc.p, c.pc.generation) ==
              c.(runs := c.runs[|c.runs| - 1 := Run(Last(c).packets, Last(c).windows + [w])],
                 pc := Sending(c.pc.p, c.pc.generation, w))
  {
  }

  /** Cutting the next window off the head of the buffer. */
  lemma CutOk(cfg: Config, epoch: nat, c: Core)
    requires CoreOk(cfg, epoch, c) && c.pc.CheckEpoch? && cfg.size <= |c.pcm| && c.queueEpoch == epoch
    ensures CoreOk(cfg, epoch, CoreCheck(cfg, epoch, c, c.pc.p, c.pc.generation))
  {
    var w := Window(c.pcm[..cfg.size], c.start, c.epoch, c.pc.generation, c.pc.p.received);
    var c' := CoreCheck(cfg, epoch, c, c.pc.p, c.pc.generation);
    HeadIsSlice(cfg, c, w);
    CheckCuts(cfg, epoch, c);
    CutRuns(cfg, epoch, c.runs, w);
    CutBuffer(cfg, c, c', w);
    CutServed(cfg, epoch, c, c');
  }

  lemma CutServed(cfg: Config, epoch: nat, c: Core, c': Core)
    requires c.runs != [] && |c'.runs| == |c.runs| && c'.pc.Sending?
    requires RunsOk(cfg, c'.runs) && Aligned(cfg, c') && AllServed(cfg, epoch, c'.runs, |c.runs| - 1)
    ensures CoreOk(cfg, epoch, c')
  {
  }

  /** Shifting one hop off the buffer after the window went out or was dropped. */
  lemma ShiftOk(cfg: Config, epoch: nat, c: Core)
    requires ValidConfig(cfg) && CoreOk(cfg, epoch, c) && (c.pc.Sending? || c.pc.CountDropped?)
    ensures CoreOk(cfg, epoch, CoreShift(cfg, c, c.pc.p, c.pc.generation))
  {
    ShiftBuffer(cfg, c);
  }

  /** The program counter moves and nothing else does. */
  lemma MoveOk(cfg: Config, epoch: nat, c: Core, pc: Pc)
    requires CoreOk(cfg, epoch, c)
    requires
      || (c.pc.Idle? && (pc.Stopped? || pc.Got?))
      || (c.pc.CountDrained? && pc == Draining(c.pc.p, c.pc.bump))
      || (c.pc.Draining? && pc.CountDrained? && pc.p == c.pc.p && pc.bump == c.pc.bump)
      || (c.pc.LoadGeneration? && pc.CheckEpoch? && pc.p == c.pc.p)
      || (c.pc.Sending? && pc.CountDropped? && pc.p == c.pc.p)
      || (c.pc.Got? && pc.Idle?)
      || (c.pc.Got? && c.prev.Some? && pc.Resetting? && (pc.bump || pc.p.epoch == c.queueEpoch))
    ensures CoreOk(cfg, epoch, c.(pc := pc))
  {
    if c.prev.Some? {
      assert Buffered(cfg, c.(pc := pc));
    }
  }

  lemma GotOk(cfg: Config, epoch: nat, c: Core, p: Packet)
    requires ValidConfig(cfg) && CoreOk(cfg, epoch, c) && c.pc == Got(p) && 1 <= p.epoch
    ensures CoreOk(cfg, epoch, CoreGot(cfg, epoch, c, p))
  {
    if p.epoch != epoch {
      MoveOk(cfg, epoch, c, Idle);
    } else if c.queueEpoch == 0 {
      AppendFirst(cfg, epoch, c.(epoch := 1, queueEpoch := p.epoch), p);
    } else if p.epoch != c.queueEpoch {
      MoveOk(cfg, epoch, c, Resetting(p, true));
    } else if Late(c.prev.value, p) {
      MoveOk(cfg, epoch, c, Idle);
    } else if !Follows(c.prev.value, p) {
      MoveOk(cfg, epoch, c, Resetting(p, false));
    } else {
      AppendNext(cfg, epoch, c, p);
    }
  }

  /** The producer epoch only grows, which never takes a guarantee away. */
  lemma EpochGrows(cfg: Config, epoch: nat, epoch': nat, c: Core)
    requires CoreOk(cfg, epoch, c) && epoch <= epoch'
    ensures CoreOk(cfg, epoch', c)
  {
  }

  // ---------------------------------------------------------------- stamps and events

  /** `p` was stamped with an epoch in force, and before every event it precedes. */
  ghost predicate Known(c: Clock, p: Packet) {
    && 1 <= p.epoch <= c.epoch
    && p.serial < c.stamps
    && forall i :: 0 <= i < |c.events| ==> p.serial < c.events[i].boundary ==> p.epoch < c.events[i].epochAfter
  }

  ghost predicate PcKnown(c: Clock, pc: Pc) {
    pc.Idle? || pc.Stopped? || Known(c, pc.p)
  }

  ghost predicate ClockOk(c: Clock) {
    && 1 <= c.epoch
    && forall i :: 0 <= i < |c.events| ==>
         && c.events[i].boundary <= c.stamps
         && c.events[i].epochAfter <= c.epoch
         && (c.events[i].completed.Some? ==> c.events[i].completed.value <= c.generation)
  }

  ghost predicate RunsKnown(c: Clock, runs: seq<Run>) {
    forall r, i :: 0 <= r < |runs| && 0 <= i < |runs[r].packets| ==> Known(c, runs[r].packets[i])
  }

  ghost predicate QueueKnown(c: Clock, ps: seq<Packet>) {
    forall i :: 0 <= i < |ps| ==> Known(c, ps[i])
  }

  ghost predicate ProducersKnown(c: Clock, producers: map<nat, Producer>) {
    forall t :: t in producers && producers[t].Stamped? ==> Known(c, producers[t].p)
  }

  ghost predicate Stamps(s: State) {
    && ClockOk(s.clock) && PcKnown(s.clock, s.core.pc) && QueueKnown(s.clock, s.packets)
    && ProducersKnown(s.clock, s.producers) && RunsKnown(s.clock, s.core.runs)
  }

  /** What `c'` adds to `c` never turns a known packet into an unknown one. */
  ghost predicate Extends(c: Clock, c': Clock) {
    && c.epoch <= c'.epoch && c.stamps <= c'.stamps && |c.events| <= |c'.events|
    && (forall i :: 0 <= i < |c.events| ==>
          c'.events[i].boundary == c.events[i].boundary && c'.events[i].epochAfter == c.events[i].epochAfter)
    && (forall i :: |c.events| <= i < |c'.events| ==> c.epoch < c'.events[i].epochAfter)
  }

  lemma KnownExtends(c: Clock, c': Clock, s: State)
    requires Extends(c, c') && s.clock == c && Stamps(s)
    ensures PcKnown(c', s.core.pc) && QueueKnown(c', s.packets)
    ensures ProducersKnown(c', s.producers) && RunsKnown(c', s.core.runs)
  {
    forall p | Known(c, p)
      ensures Known(c', p)
    {
    }
  }

  lemma ClockStep(cfg: Config, s: State, a: Action)
    requires Stamps(s)
    ensures ClockOk(Step(cfg, s, a).clock) && Extends(s.clock, Step(cfg, s, a).clock)
  {
  }

  lemma StampsOthers(cfg: Config, s: State, a: Action)
    requires Stamps(s) && !a.Work?
    ensures Stamps(Step(cfg, s, a))
  {
    ClockStep(cfg, s, a);
    KnownExtends(s.clock, Step(cfg, s, a).clock, s);
  }

  lemma AppendKnown(clock: Clock, cfg: Config, c: Core, p: Packet)
    requires RunsKnown(clock, c.runs) && Known(clock, p)
    ensures RunsKnown(clock, CoreAppend(cfg, c, p).runs)
  {
    var runs := CoreAppend(cfg, c, p).runs;
    forall r, i | 0 <= r < |runs| && 0 <= i < |runs[r].packets|
      ensures Known(clock, runs[r].packets[i])
    {
      if r < |c.runs| && i < |c.runs[r].packets| {
        assert runs[r].packets[i] == c.runs[r].packets[i];
      } else {
        assert runs[r].packets[i] == p;
      }
    }
  }

  lemma StampsGot(cfg: Config, s: State)
    requires Stamps(s) && s.core.pc.Got?
    ensures Stamps(WorkStep(cfg, s))
  {
    var c, p := s.core, s.core.pc.p;
    AppendKnown(s.clock, cfg, c, p);
    AppendKnown(s.clock, cfg, c.(epoch := 1, queueEpoch := p.epoch), p);
  }

  lemma StampsDraining(cfg: Config, s: State)
    requires Stamps(s) && s.core.pc.Draining?
    ensures Stamps(WorkStep(cfg, s))
  {
    var c, p := s.core, s.core.pc.p;
    AppendKnown(s.clock, cfg, c, p);
    AppendKnown(s.clock, cfg, c.(queueEpoch := p.epoch), p);
  }

  lemma StampsCheck(cfg: Config, s: State)
    requires Stamps(s) && s.core.pc.CheckEpoch?
    ensures Stamps(WorkStep(cfg, s))
  {
    var runs, runs' := s.core.runs, WorkStep(cfg, s).core.runs;
    forall r | 0 <= r < |runs|
      ensures runs'[r].packets == runs[r].packets
    {
    }
  }

  lemma StampsWork(cfg: Config, s: State)
    requires Stamps(s)
    ensures Stamps(WorkStep(cfg, s))
  {
    match s.core.pc
    case Got(_) => StampsGot(cfg, s);
    case Draining(_, _) => StampsDraining(cfg, s);
    case CheckEpoch(_, _) => StampsCheck(cfg, s);
    case Resetting(_, _) => KnownExtends(s.clock, WorkStep(cfg, s).clock, s);
    case _ =>
  }

  // ---------------------------------------------------------------- every reachable state

  ghost predicate Data(cfg: Config, s: State) {
    Stamps(s) && CoreOk(cfg, s.clock.epoch, s.core)
  }

  lemma QueueEpochKnown(cfg: Config, s: State)
    requires Data(cfg, s)
    ensures s.core.prev.Some? ==> 1 <= s.core.queueEpoch <= s.clock.epoch
  {
    if s.core.prev.Some? {
      var n := |s.core.runs| - 1;
      assert Known(s.clock, s.core.runs[n].packets[0]);
    }
  }

  lemma CoreWork(cfg: Config, s: State)
    requires ValidConfig(cfg) && Data(cfg, s)
    ensures CoreOk(cfg, s.clock.epoch, WorkStep(cfg, s).core)
  {
    QueueEpochKnown(cfg, s);
    var e, c := s.clock.epoch, s.core;
    match c.pc
    case Idle => if s.packets != [] { MoveOk(cfg, e, c, Got(s.packets[0])); }
    case Stopped =>
    case Got(p) => GotOk(cfg, e, c, p);
    case Resetting(_, _) => ResetOk(cfg, e, c);
    case Draining(p, bump) =>
      if s.chan.buffered == [] {
        ResumeOk(cfg, e, c);
      } else {
        MoveOk(cfg, e, c, CountDrained(p, bump, s.chan.buffered[0]));
      }
    case CountDrained(p, bump, _) => MoveOk(cfg, e, c, Draining(p, bump));
    case LoadGeneration(p) => MoveOk(cfg, e, c, CheckEpoch(p, s.clock.generation));
    case CheckEpoch(_, _) =>
      if cfg.size <= |c.pcm| && c.queueEpoch == e {
        CutOk(cfg, e, c);
      } else {
        LeaveOk(cfg, e, c);
      }
    case Sending(p, g, w) =>
      if |s.chan.buffered| < cfg.windowCap {
        ShiftOk(cfg, e, c);
      } else {
        MoveOk(cfg, e, c, CountDropped(p, g, w));
      }
    case CountDropped(_, _, _) => ShiftOk(cfg, e, c);
  }

  lemma OthersKeepCore(cfg: Config, s: State, a: Action)
    requires !a.Work?
    ensures s.clock.epoch <= Step(cfg, s, a).clock.epoch
    ensures || Step(cfg, s, a).core == s.core
            || (s.core.pc.Idle? && Step(cfg, s, a).core == s.core.(pc := Stopped))
  {
  }

  lemma DataFrame(cfg: Config, s: State, s': State)
    requires Data(cfg, s) && Stamps(s') && s.clock.epoch <= s'.clock.epoch
    requires s'.core == s.core || (s.core.pc.Idle? && s'.core == s.core.(pc := Stopped))
    ensures Data(cfg, s')
  {
    var e := s.clock.epoch;
    if s'.core != s.core {
      MoveOk(cfg, e, s.core, Stopped);
    }
    EpochGrows(cfg, e, s'.clock.epoch, s'.core);
  }

  lemma WorkKeepsEpoch(cfg: Config, s: State)
    ensures WorkStep(cfg, s).clock.epoch == s.clock.epoch
  {
  }

  lemma DataWork(cfg: Config, s: State)
    requires ValidConfig(cfg) && Data(cfg, s)
    ensures Data(cfg, WorkStep(cfg, s))
  {
    StampsWork(cfg, s);
    CoreWork(cfg, s);
    WorkKeepsEpoch(cfg, s);
  }

  lemma DataStep(cfg: Config, s: State, a: Action)
    requires ValidConfig(cfg) && Data(cfg, s)
    ensures Data(cfg, Step(cfg, s, a))
  {
    if a.Work? {
      DataWork(cfg, s);
    } else {
      StampsOthers(cfg, s, a);
      OthersKeepCore(cfg, s, a);
      DataFrame(cfg, s, Step(cfg, s, a));
    }
  }

  /** Data holds throughout every run of the system. */
  lemma {:induction false} DataAlways(cfg: Config, actions: seq<Action>)
    requires ValidConfig(cfg)
    ensures Data(cfg, Exec(cfg, actions))
  {
    if actions != [] {
      DataAlways(cfg, actions[..|actions| - 1]);
      DataStep(cfg, Exec(cfg, actions[..|actions| - 1]), actions[|actions| - 1]);
    }
  }
}
