/** The consumer in the program's own form: shared fields, the worker's loop with its reset and
    its window loop, and the producer calls. Between any two atomic operations every other
    goroutine may run (`Interfere`). Each method is shown to produce a schedule of the
    interleaved system, so what is proved of the system holds of the program. */
module AudioConsumer {
  import opened Optional
  import opened Rtp
  import opened AudioRuns
  import opened ConsumerSystem
  import opened ConsumerData

  /** Whose turn it is; everybody else may interfere. */
  datatype Thread = TheWorker | AProducer(t: nat)

  /** Whether `a` is a step of some goroutine other than `me`. */
  predicate Foreign(me: Thread, a: Action) {
    match a
    case Enter(t) => me != AProducer(t)
    case Stamp(t, _, _, _, _, _) => me != AProducer(t)
    case Reject(t) => me != AProducer(t)
    case Disconnect(t) => me != AProducer(t)
    case Enqueue(t) => me != AProducer(t)
    case AddEpoch(t) => me != AProducer(t)
    case AddGeneration(t) => me != AProducer(t)
    case Work => me != TheWorker
    case Stop => me != TheWorker
    case Close => true
    case Receive => true
  }

  /** What the worker can rely on of its channel while others run: they only read from it. */
  ghost predicate Drained(ch: Channel, ch': Channel) {
    |ch'.buffered| <= |ch.buffered| && ch'.discarded == ch.discarded && ch'.dropped == ch.dropped
  }

  /** The steps that goroutine `t` itself took. */
  ghost function Own(actions: seq<Action>, t: nat): seq<Action> {
    if actions == [] then []
    else
      var n := |actions| - 1;
      if Foreign(AProducer(t), actions[n]) then Own(actions[..n], t) else Own(actions[..n], t) + [actions[n]]
  }

  lemma OwnAppend(actions: seq<Action>, a: Action, t: nat)
    ensures Own(actions + [a], t) == if Foreign(AProducer(t), a) then Own(actions, t) else Own(actions, t) + [a]
  {
    assert (actions + [a])[..|actions|] == actions;
  }

  lemma ForeignStep(cfg: Config, s: State, me: Thread, a: Action)
    requires Foreign(me, a)
    ensures var s' := Step(cfg, s, a);
            && (me.TheWorker? ==> s'.core == s.core && Drained(s.chan, s'.chan))
            && (me.AProducer? ==> (me.t in s'.producers <==> me.t in s.producers) &&
                                  (me.t in s'.producers ==> s'.producers[me.t] == s.producers[me.t]))
            && |s'.clock.events| >= |s.clock.events| && s'.clock.stamps >= s.clock.stamps
            && forall i :: 0 <= i < |s.clock.events| ==> s'.clock.events[i].boundary == s.clock.events[i].boundary
  {
  }

  /** How goroutine `t` deals with a packet: a stamp and a send, or a rejection. */
  function PacketSteps(t: nat, ours: bool, seqNo: Word16, ts: Word32, ssrc: Word32, payload: seq<Byte>,
      received: int): seq<Action> {
    if !ours || payload == [] || |payload| > 8192 then [Reject(t)]
    else [Stamp(t, seqNo, ts, ssrc, payload, received), Enqueue(t)]
  }

  /** What it does about a packet that was not queued. */
  function BreakSteps(t: nat, queued: bool): seq<Action> { if queued then [] else [AddEpoch(t), AddGeneration(t)] }

  lemma StepsRegroup(a: seq<Action>, b: seq<Action>, c: seq<Action>, d: seq<Action>)
    ensures a + b + c + d == a + (b + c + d)
  {
  }

  /** The worker's variables after taking up the producer epoch of `p`. */
  function Adopted(c: Core, p: Packet): Core {
    if c.queueEpoch == p.epoch then c
    else if c.queueEpoch == 0 then c.(epoch := 1, queueEpoch := p.epoch)
    else CoreReset(c, p, true).(queueEpoch := p.epoch)
  }

  /** The worker's variables after ignoring `p`, or joining it to a run old or new. */
  function Accepted(cfg: Config, c: Core, p: Packet): Core {
    if c.prev.Some? && Late(c.prev.value, p) then c.(pc := Idle)
    else if c.prev.Some? && !Follows(c.prev.value, p) then CoreAppend(cfg, CoreReset(c, p, false), p)
    else CoreAppend(cfg, c, p)
  }

  lemma ShiftIgnoresPc(cfg: Config, c: Core, pc: Pc, p: Packet, g: nat)
    ensures CoreShift(cfg, c.(pc := pc), p, g) == CoreShift(cfg, c, p, g)
  {
  }

  /** Cutting windows leaves the run's place in the stream alone. */
  ghost predicate SameRun(c: Core, c': Core) {
    c'.prev == c.prev && c'.epoch == c.epoch && c'.queueEpoch == c.queueEpoch && c'.discontinuities == c.discontinuities
  }

  class Consumer {
    const cfg: Config
    var clock: Clock
    var closed: bool
    var packets: seq<Packet>
    var producers: map<nat, Producer>
    var chan: Channel
    // the worker's variables
    var pcm: seq<int>
    var prev: Option<Packet>
    var epoch: nat
    var queueEpoch: nat
    var start: Word32
    var discontinuities: nat
    var pc: Pc
    var runs: seq<Run>
    ghost var schedule: seq<Action>

    function Core(): Core
      reads this
    {
      ConsumerSystem.Core(pcm, prev, epoch, queueEpoch, start, discontinuities, pc, runs)
    }

    function Snapshot(): State
      reads this
    {
      State(clock, closed, packets, producers, chan, Core())
    }

    ghost predicate Valid()
      reads this
    {
      ValidConfig(cfg) && Snapshot() == Exec(cfg, schedule)
    }

    constructor (cfg: Config)
      requires ValidConfig(cfg)
      ensures Valid() && this.cfg == cfg && pc == Idle && producers == map[] && schedule == []
    {
      this.cfg := cfg;
      clock, closed, packets, producers, chan := Clock(1, 1, 0, []), false, [], map[], Channel([], [], [], 0);
      pcm, prev, epoch, queueEpoch, start, discontinuities, pc, runs := [], None, 0, 0, 0, 0, Idle, [];
      schedule := [];
    }

    /** Records that the fields have just made step `a`. */
    ghost method Tick(a: Action)
      requires ValidConfig(cfg) && Snapshot() == Step(cfg, Exec(cfg, schedule), a)
      modifies this`schedule
      ensures Valid() && schedule == old(schedule) + [a]
    {
      ExecAppend(cfg, schedule, a);
      schedule := schedule + [a];
    }

    /** The same for a step of producer `t`. */
    ghost method TickOwn(t: nat, a: Action)
      requires ValidConfig(cfg) && Snapshot() == Step(cfg, Exec(cfg, schedule), a) && !Foreign(AProducer(t), a)
      modifies this`schedule
      ensures Valid() && schedule == old(schedule) + [a] && Own(schedule, t) == Own(old(schedule), t) + [a]
    {
      OwnAppend(schedule, a, t);
      Tick(a);
    }

    /** Any number of steps of the other goroutines. */
    method Interfere(me: Thread)
      requires Valid()
      modifies this
      ensures Valid() && old(schedule) <= schedule
      ensures me.TheWorker? ==> Core() == old(Core()) && Drained(old(chan), chan)
      ensures me.AProducer? ==>
                && (me.t in producers <==> old(me.t in producers))
                && (me.t in producers ==> producers[me.t] == old(producers[me.t]))
                && Own(schedule, me.t) == Own(old(schedule), me.t)
      ensures |clock.events| >= old(|clock.events|) && clock.stamps >= old(clock.stamps)
      ensures forall i :: 0 <= i < old(|clock.events|) ==> clock.events[i].boundary == old(clock.events[i].boundary)
    {
      var steps: seq<Action> := *;
      for i := 0 to |steps|
        invariant Valid() && old(schedule) <= schedule
        invariant me.TheWorker? ==> Core() == old(Core()) && Drained(old(chan), chan)
        invariant me.AProducer? ==>
                    && (me.t in producers <==> old(me.t in producers))
                    && (me.t in producers ==> producers[me.t] == old(producers[me.t]))
                    && Own(schedule, me.t) == Own(old(schedule), me.t)
        invariant |clock.events| >= old(|clock.events|) && clock.stamps >= old(clock.stamps)
        invariant forall i :: 0 <= i < old(|clock.events|) ==> clock.events[i].boundary == old(clock.events[i].boundary)
      {
        if Foreign(me, steps[i]) {
          ForeignStep(cfg, Snapshot(), me, steps[i]);
          if me.AProducer? {
            OwnAppend(schedule, steps[i], me.t);
          }
          Perform(steps[i]);
        }
      }
    }

    method Perform(a: Action)
      requires Valid()
      modifies this
      ensures Valid() && schedule == old(schedule) + [a] && Snapshot() == Step(cfg, old(Snapshot()), a)
    {
      var s := Step(cfg, Snapshot(), a);
      Become(s);
      Tick(a);
    }

    method Become(s: State)
      modifies this
      ensures Snapshot() == s && schedule == old(schedule)
    {
      clock, closed, packets, producers, chan := s.clock, s.closed, s.packets, s.producers, s.chan;
      BecomeCore(s.core);
    }

    method BecomeCore(c: Core)
      modifies this`pcm, this`prev, this`epoch, this`queueEpoch, this`start, this`discontinuities, this`pc, this`runs
      ensures Core() == c
    {
      pcm, prev, epoch, queueEpoch := c.pcm, c.prev, c.epoch, c.queueEpoch;
      start, discontinuities, pc, runs := c.start, c.discontinuities, c.pc, c.runs;
    }

    /** OnDisconnect, called by goroutine `t`: these three steps of its own, whatever others do in
        between. When it returns, its event is complete and lies after every packet stamped before
        the call. */
    method OnDisconnect(t: nat) returns (e: nat)
      requires Valid() && t !in producers
      modifies this
      ensures Valid() && t !in producers && old(schedule) <= schedule
      ensures Own(schedule, t) == Own(old(schedule), t) + [Disconnect(t), AddEpoch(t), AddGeneration(t)]
      ensures CompletedAfter(e, old(clock.stamps))
    {
      producers := producers[t := Breaking];
      TickOwn(t, Disconnect(t));
      e := Break(t);
    }

    /** Event `e` is complete and lies after the first `stamps` packets. */
    ghost predicate CompletedAfter(e: nat, stamps: nat)
      reads this`clock
    {
      e < |clock.events| && clock.events[e].completed.Some? && stamps <= clock.events[e].boundary
    }

    /** The two increments, in this order. */
    method Break(t: nat) returns (e: nat)
      requires Valid() && t in producers && producers[t].Breaking?
      modifies this
      ensures Valid() && t !in producers && old(schedule) <= schedule
      ensures Own(schedule, t) == Own(old(schedule), t) + [AddEpoch(t), AddGeneration(t)]
      ensures CompletedAfter(e, old(clock.stamps))
    {
      Interfere(AProducer(t));
      e := BumpEpoch(t);
      Interfere(AProducer(t));
      BumpGeneration(t, e);
    }

    method BumpEpoch(t: nat) returns (e: nat)
      requires Valid() && t in producers && producers[t].Breaking?
      modifies this`clock, this`producers, this`schedule
      ensures Valid() && t in producers && producers[t] == Broken(e) && schedule == old(schedule) + [AddEpoch(t)]
      ensures Own(schedule, t) == Own(old(schedule), t) + [AddEpoch(t)]
      ensures clock == TickEpoch(old(clock)) && e == old(|clock.events|)
    {
      e := |clock.events|;
      clock := TickEpoch(clock);
      producers := producers[t := Broken(e)];
      TickOwn(t, AddEpoch(t));
    }

    method BumpGeneration(t: nat, e: nat)
      requires Valid() && t in producers && producers[t] == Broken(e) && e < |clock.events|
      modifies this`clock, this`producers, this`schedule
      ensures Valid() && t !in producers && schedule == old(schedule) + [AddGeneration(t)]
      ensures Own(schedule, t) == Own(old(schedule), t) + [AddGeneration(t)]
      ensures clock == Complete(old(clock), e)
    {
      clock := Complete(clock, e);
      producers := producers - {t};
      TickOwn(t, AddGeneration(t));
    }

    /** OnAudioRTP, called by goroutine `t`; `ours` says that there is a packet and that it has the
        track's payload type. It takes exactly these steps of its own, whatever others do in
        between: none when closed; a rejection with both increments; a stamp and a send; or a
        stamp, a failed send and both increments. */
    method OnAudioRTP(t: nat, ours: bool, seqNo: Word16, ts: Word32, ssrc: Word32, payload: seq<Byte>, received: int)
      returns (queued: bool, e: Option<nat>)
      requires Valid() && t !in producers
      modifies this
      ensures Valid() && t !in producers && old(schedule) <= schedule
      ensures old(closed) ==> Own(schedule, t) == Own(old(schedule), t)
      ensures !old(closed) ==>
                Own(schedule, t) ==
                  Own(old(schedule), t) +
                    ([Enter(t)] + PacketSteps(t, ours, seqNo, ts, ssrc, payload, received) + BreakSteps(t, queued))
      ensures queued ==> ours && 1 <= |payload| <= 8192 && !old(closed)
      ensures queued ==> Newest(seqNo, ts, ssrc, payload, received, old(clock.stamps))
      ensures e.Some? <==> !queued && !old(closed)
      ensures e.Some? ==> CompletedAfter(e.value, old(clock.stamps))
    {
      queued, e := false, None;
      if closed {
        return;
      }
      ghost var before := Own(schedule, t);
      Admit(t);
      Interfere(AProducer(t));
      queued := Submit(t, ours, seqNo, ts, ssrc, payload, received);
      if !queued {
        var event := Break(t);
        e := Some(event);
      }
      StepsRegroup(before, [Enter(t)], PacketSteps(t, ours, seqNo, ts, ssrc, payload, received), BreakSteps(t, queued));
    }

    /** The rejection, or the stamp and the send of a packet of acceptable size. */
    method Submit(t: nat, ours: bool, seqNo: Word16, ts: Word32, ssrc: Word32, payload: seq<Byte>, received: int)
      returns (queued: bool)
      requires Valid() && t in producers && producers[t].Admitted?
      modifies this
      ensures Valid() && old(schedule) <= schedule && old(clock.stamps) <= clock.stamps
      ensures Own(schedule, t) == Own(old(schedule), t) + PacketSteps(t, ours, seqNo, ts, ssrc, payload, received)
      ensures if queued then t !in producers else t in producers && producers[t].Breaking?
      ensures queued ==> ours && 1 <= |payload| <= 8192
      ensures queued ==> Newest(seqNo, ts, ssrc, payload, received, old(clock.stamps))
    {
      if !ours || |payload| == 0 || |payload| > MAX_PAYLOAD {
        Refuse(t);
        queued := false;
      } else {
        queued := StampAndSend(t, seqNo, ts, ssrc, payload, received);
      }
    }

    /** The stamp and the send of a packet of acceptable size. */
    method StampAndSend(t: nat, seqNo: Word16, ts: Word32, ssrc: Word32, payload: seq<Byte>, received: int)
      returns (queued: bool)
      requires Valid() && t in producers && producers[t].Admitted? && 1 <= |payload| <= MAX_PAYLOAD
      modifies this
      ensures Valid() && old(schedule) <= schedule && old(clock.stamps) <= clock.stamps
      ensures Own(schedule, t) == Own(old(schedule), t) + [Stamp(t, seqNo, ts, ssrc, payload, received), Enqueue(t)]
      ensures if queued then t !in producers else t in producers && producers[t].Breaking?
      ensures queued ==> Newest(seqNo, ts, ssrc, payload, received, old(clock.stamps))
    {
      var p := StampPacket(t, seqNo, ts, ssrc, payload, received);
      Interfere(AProducer(t));
      queued := TryEnqueue(t, p);
    }

    /** The newest packet in the queue is this one, stamped after the first `stamps`. */
    ghost predicate Newest(seqNo: Word16, ts: Word32, ssrc: Word32, payload: seq<Byte>, received: int, stamps: nat)
      reads this`packets
    {
      && packets != []
      && var p := packets[|packets| - 1];
         p == Packet(seqNo, ts, ssrc, p.epoch, payload, received, p.serial) && stamps <= p.serial
    }

    method Admit(t: nat)
      requires Valid() && t !in producers && !closed
      modifies this`producers, this`schedule
      ensures Valid() && t in producers && producers[t].Admitted? && schedule == old(schedule) + [Enter(t)]
      ensures Own(schedule, t) == Own(old(schedule), t) + [Enter(t)]
    {
      producers := producers[t := Admitted];
      TickOwn(t, Enter(t));
    }

    method Refuse(t: nat)
      requires Valid() && t in producers && producers[t].Admitted?
      modifies this`producers, this`schedule
      ensures Valid() && t in producers && producers[t].Breaking? && schedule == old(schedule) + [Reject(t)] &&
                clock == old(clock)
      ensures Own(schedule, t) == Own(old(schedule), t) + [Reject(t)]
    {
      producers := producers[t := Breaking];
      TickOwn(t, Reject(t));
    }

    method StampPacket(t: nat, seqNo: Word16, ts: Word32, ssrc: Word32, payload: seq<Byte>, received: int)
      returns (p: Packet)
      requires Valid() && t in producers && producers[t].Admitted? && 1 <= |payload| <= MAX_PAYLOAD
      modifies this`producers, this`clock, this`schedule
      ensures Valid() && t in producers && producers[t] == Stamped(p)
      ensures p == Packet(seqNo, ts, ssrc, old(clock.epoch), payload, received, old(clock.stamps))
      ensures clock == old(clock).(stamps := old(clock.stamps) + 1)
      ensures schedule == old(schedule) + [Stamp(t, seqNo, ts, ssrc, payload, received)]
      ensures Own(schedule, t) == Own(old(schedule), t) + [Stamp(t, seqNo, ts, ssrc, payload, received)]
    {
      p := Packet(seqNo, ts, ssrc, clock.epoch, payload, received, clock.stamps);
      producers := producers[t := Stamped(p)];
      clock := clock.(stamps := clock.stamps + 1);
      TickOwn(t, Stamp(t, seqNo, ts, ssrc, payload, received));
    }

    /** The non-blocking send of the stamped packet. */
    method TryEnqueue(t: nat, p: Packet) returns (queued: bool)
      requires Valid() && t in producers && producers[t] == Stamped(p)
      modifies this`packets, this`producers, this`schedule
      ensures Valid() && schedule == old(schedule) + [Enqueue(t)]
      ensures Own(schedule, t) == Own(old(schedule), t) + [Enqueue(t)]
      ensures if queued then t !in producers else t in producers && producers[t].Breaking?
      ensures queued <==> old(|packets|) < cfg.packetCap
      ensures packets == if queued then old(packets) + [p] else old(packets)
    {
      queued := |packets| < cfg.packetCap;
      if queued {
        packets := packets + [p];
        producers := producers - {t};
      } else {
        producers := producers[t := Breaking];
      }
      TickOwn(t, Enqueue(t));
    }

    /** First part of the worker's reset: invalidate what the reader may hold, forget the run. */
    method Invalidate(p: Packet, bump: bool)
      requires Valid() && pc == Resetting(p, bump)
      modifies this`clock, this`pcm, this`prev, this`epoch, this`discontinuities, this`pc, this`schedule
      ensures Valid() && old(schedule) <= schedule
      ensures Core() == CoreReset(old(Core()), p, bump)
    {
      clock := clock.(generation := clock.generation + 1);
      Forget(p, bump);
      Tick(Work);
    }

    method Forget(p: Packet, bump: bool)
      modifies this`pcm, this`prev, this`epoch, this`discontinuities, this`pc
      ensures Core() == CoreReset(old(Core()), p, bump)
    {
      pcm, prev, epoch, discontinuities := [], None, epoch + 1, discontinuities + 1;
      pc := Draining(p, bump);
    }

    method TakeBack(p: Packet, bump: bool) returns (w: Window)
      requires Valid() && pc == Draining(p, bump) && chan.buffered != []
      modifies this`chan, this`pc, this`schedule
      ensures Valid() && old(schedule) <= schedule
      ensures Core() == old(Core()).(pc := CountDrained(p, bump, w))
      ensures chan == old(chan).(buffered := chan.buffered) && [w] + chan.buffered == old(chan.buffered)
    {
      w := chan.buffered[0];
      chan := chan.(buffered := chan.buffered[1..]);
      pc := CountDrained(p, bump, w);
      Tick(Work);
    }

    method CountBack(p: Packet, bump: bool, w: Window)
      requires Valid() && pc == CountDrained(p, bump, w)
      modifies this`chan, this`pc, this`schedule
      ensures Valid() && old(schedule) <= schedule
      ensures Core() == old(Core()).(pc := Draining(p, bump)) && chan == Discard(old(chan), w)
    {
      chan := Discard(chan, w);
      pc := Draining(p, bump);
      Tick(Work);
    }

    /** One turn of the drain: take a buffered window, then count it. */
    method DrainOne(p: Packet, bump: bool)
      requires Valid() && pc == Draining(p, bump) && chan.buffered != []
      modifies this
      ensures Valid() && old(schedule) <= schedule
      ensures Core() == old(Core()) && |chan.buffered| < old(|chan.buffered|)
      ensures chan.discarded == old(chan.discarded) + [old(chan.buffered[0])] && chan.dropped == old(chan.dropped) + 1
    {
      var w := TakeBack(p, bump);
      Interfere(TheWorker);
      CountBack(p, bump, w);
    }

    /** The worker's reset: invalidate, clear, and drain the channel until it is seen empty. */
    method Reset(p: Packet, bump: bool)
      requires Valid() && pc == Resetting(p, bump)
      modifies this
      ensures Valid() && old(schedule) <= schedule && chan.buffered == []
      ensures Core() == CoreReset(old(Core()), p, bump)
    {
      Interfere(TheWorker);
      Invalidate(p, bump);
      Interfere(TheWorker);
      while chan.buffered != []
        invariant Valid() && old(schedule) <= schedule
        invariant Core() == CoreReset(old(Core()), p, bump)
        decreases |chan.buffered|
      {
        DrainOne(p, bump);
        Interfere(TheWorker);
      }
    }

    method AppendPacket(p: Packet)
      modifies this`pcm, this`prev, this`start, this`pc, this`runs
      ensures Core() == CoreAppend(cfg, old(Core()), p)
    {
      if prev.None? {
        start := p.ts;
      }
      runs := if prev.None? || runs == [] then runs + [Run([p], [])]
              else runs[|runs| - 1 := Run(runs[|runs| - 1].packets + [p], runs[|runs| - 1].windows)];
      pcm := pcm + Decode(cfg.law, p.payload);
      prev := Some(p);
      pc := LoadGeneration(p);
    }

    /** Cuts the next window off the buffer, the epoch having just been seen unmoved. */
    method CutWindow(p: Packet, g: nat) returns (w: Window)
      requires Valid() && pc == CheckEpoch(p, g) && cfg.size <= |pcm| && queueEpoch == clock.epoch
      modifies this`runs, this`pc, this`schedule
      ensures Valid() && old(schedule) <= schedule && pc == Sending(p, g, w)
      ensures w == Window(pcm[..cfg.size], start, epoch, g, p.received)
      ensures pcm == old(pcm) && start == old(start) && SameRun(old(Core()), Core())
    {
      assert runs != [] by {
        DataAlways(cfg, schedule);
      }
      w := Window(pcm[..cfg.size], start, epoch, g, p.received);
      runs := runs[|runs| - 1 := Run(runs[|runs| - 1].packets, runs[|runs| - 1].windows + [w])];
      pc := Sending(p, g, w);
      Tick(Work);
    }

    /** The non-blocking send: the window is buffered if there is room and counted as dropped if
        not. The hop is shifted out either way. */
    method SendWindow(p: Packet, g: nat, w: Window)
      requires Valid() && pc == Sending(p, g, w) && cfg.hop <= |pcm|
      modifies this
      ensures Valid() && old(schedule) <= schedule
      ensures Core() == CoreShift(cfg, old(Core()), p, g) && pcm == old(pcm)[cfg.hop..]
      ensures if old(|chan.buffered|) < cfg.windowCap then chan == old(chan).(buffered := old(chan.buffered) + [w])
              else chan.discarded == old(chan.discarded) + [w] && chan.dropped == old(chan.dropped) + 1
    {
      if |chan.buffered| < cfg.windowCap {
        BufferWindow(p, g, w);
      } else {
        LoseWindow(p, g, w);
      }
    }

    /** A full channel: the window is counted as dropped, in a step of its own. */
    method LoseWindow(p: Packet, g: nat, w: Window)
      requires Valid() && pc == Sending(p, g, w) && cfg.hop <= |pcm| && |chan.buffered| >= cfg.windowCap
      modifies this
      ensures Valid() && old(schedule) <= schedule
      ensures Core() == CoreShift(cfg, old(Core()), p, g)
      ensures chan.discarded == old(chan.discarded) + [w] && chan.dropped == old(chan.dropped) + 1
    {
      GiveUp(p, g, w);
      Interfere(TheWorker);
      DropWindow(p, g, w);
    }

    method BufferWindow(p: Packet, g: nat, w: Window)
      requires Valid() && pc == Sending(p, g, w) && cfg.hop <= |pcm| && |chan.buffered| < cfg.windowCap
      modifies this`chan, this`pcm, this`start, this`pc, this`schedule
      ensures Valid() && old(schedule) <= schedule && chan == old(chan).(buffered := old(chan.buffered) + [w])
      ensures Core() == CoreShift(cfg, old(Core()), p, g)
    {
      chan := chan.(buffered := chan.buffered + [w]);
      Advance(p, g);
      Tick(Work);
    }

    method GiveUp(p: Packet, g: nat, w: Window)
      requires Valid() && pc == Sending(p, g, w) && |chan.buffered| >= cfg.windowCap
      modifies this`pc, this`schedule
      ensures Valid() && old(schedule) <= schedule && Core() == old(Core()).(pc := CountDropped(p, g, w))
    {
      pc := CountDropped(p, g, w);
      Tick(Work);
    }

    method DropWindow(p: Packet, g: nat, w: Window)
      requires Valid() && pc == CountDropped(p, g, w) && cfg.hop <= |pcm|
      modifies this`chan, this`pcm, this`start, this`pc, this`schedule
      ensures Valid() && old(schedule) <= schedule && chan == Discard(old(chan), w)
      ensures Core() == CoreShift(cfg, old(Core()).(pc := Sending(p, g, w)), p, g)
    {
      ShiftIgnoresPc(cfg, Core(), Sending(p, g, w), p, g);
      CountAndShift(p, g, w);
      Tick(Work);
    }

    method CountAndShift(p: Packet, g: nat, w: Window)
      requires cfg.hop <= |pcm|
      modifies this`chan, this`pcm, this`start, this`pc
      ensures chan == Discard(old(chan), w) && Core() == CoreShift(cfg, old(Core()), p, g)
    {
      chan := Discard(chan, w);
      Advance(p, g);
    }

    /** Drops one hop from the front of the buffer. */
    method Advance(p: Packet, g: nat)
      requires cfg.hop <= |pcm|
      modifies this`pcm, this`start, this`pc
      ensures Core() == CoreShift(cfg, old(Core()), p, g)
    {
      pcm := pcm[cfg.hop..];
      start := (start + cfg.hop) % 0x1_0000_0000;
      pc := CheckEpoch(p, g);
    }

    method LoadGenerationNow(p: Packet) returns (g: nat)
      requires Valid() && pc == LoadGeneration(p)
      modifies this`pc, this`schedule
      ensures Valid() && old(schedule) <= schedule && g == clock.generation
      ensures Core() == old(Core()).(pc := CheckEpoch(p, g))
    {
      g := clock.generation;
      pc := CheckEpoch(p, g);
      Tick(Work);
    }

    /** One turn of the window loop. */
    method CutOne(p: Packet, g: nat)
      requires Valid() && pc == CheckEpoch(p, g) && cfg.size <= |pcm| && queueEpoch == clock.epoch
      modifies this
      ensures Valid() && old(schedule) <= schedule && pc == CheckEpoch(p, g) && pcm == old(pcm)[cfg.hop..]
      ensures SameRun(old(Core()), Core())
    {
      var w := CutWindow(p, g);
      Interfere(TheWorker);
      SendWindow(p, g, w);
      Interfere(TheWorker);
    }

    /** The window loop after a packet has been appended. */
    method CutWindows(p: Packet)
      requires Valid() && pc == LoadGeneration(p)
      modifies this
      ensures Valid() && old(schedule) <= schedule && pc == Idle
      ensures (|pcm| < cfg.size || queueEpoch != clock.epoch) && SameRun(old(Core()), Core())
    {
      Interfere(TheWorker);
      var g := LoadGenerationNow(p);
      Interfere(TheWorker);
      while |pcm| >= cfg.size
        invariant Valid() && old(schedule) <= schedule && pc == CheckEpoch(p, g) && SameRun(old(Core()), Core())
        decreases |pcm|
      {
        if queueEpoch != clock.epoch {
          break;
        }
        CutOne(p, g);
      }
      Leave();
    }

    /** Back to waiting for a packet. */
    method Leave()
      requires Valid() && Step(cfg, Snapshot(), Work) == Snapshot().(core := Core().(pc := Idle))
      modifies this`pc, this`schedule
      ensures Valid() && schedule == old(schedule) + [Work] && pc == Idle
    {
      pc := Idle;
      Tick(Work);
    }

    /** The step in progress will end where classifying `p` against the fields ends. */
    ghost predicate Deciding(p: Packet)
      reads this
    {
      && ValidConfig(cfg)
      && Step(cfg, Exec(cfg, schedule), Work) == Snapshot().(core := CoreClassify(cfg, Core(), p))
    }

    /** Takes up a new producer epoch, with a reset unless it is the first one. */
    method Adopt(p: Packet)
      requires Valid() && pc == Got(p) && p.epoch == clock.epoch
      modifies this
      ensures Deciding(p) && old(schedule) <= schedule && queueEpoch == p.epoch
      ensures Core() == Adopted(old(Core()), p)
    {
      if p.epoch != queueEpoch {
        if queueEpoch != 0 {
          Renew(p);
        } else {
          epoch := 1;
        }
        queueEpoch := p.epoch;
      }
    }

    /** The reset that comes with a new producer epoch. */
    method Renew(p: Packet)
      requires Valid() && pc == Got(p) && p.epoch == clock.epoch && queueEpoch != 0 && p.epoch != queueEpoch
      modifies this
      ensures Valid() && old(schedule) <= schedule && chan.buffered == []
      ensures Core() == CoreReset(old(Core()), p, true)
    {
      BeginReset(p, true);
      Reset(p, true);
    }

    /** Enters the reset in the current step. */
    method BeginReset(p: Packet, bump: bool)
      requires ValidConfig(cfg)
      requires Step(cfg, Exec(cfg, schedule), Work) == Snapshot().(core := Core().(pc := Resetting(p, bump)))
      modifies this`pc, this`schedule
      ensures Valid() && old(schedule) <= schedule && Core() == old(Core()).(pc := Resetting(p, bump))
    {
      pc := Resetting(p, bump);
      Tick(Work);
    }

    /** Leaves the packet alone in the current step. */
    method Ignore(p: Packet)
      requires Deciding(p) && prev.Some? && Late(prev.value, p)
      modifies this`pc, this`schedule
      ensures Valid() && old(schedule) <= schedule && Core() == old(Core()).(pc := Idle)
    {
      pc := Idle;
      Tick(Work);
    }

    /** Joins the packet to the run in the current step. */
    method Join(p: Packet)
      requires ValidConfig(cfg)
      requires Step(cfg, Exec(cfg, schedule), Work) == Snapshot().(core := CoreAppend(cfg, Core(), p))
      modifies this`pcm, this`prev, this`start, this`pc, this`runs, this`schedule
      ensures Valid() && old(schedule) <= schedule && Core() == CoreAppend(cfg, old(Core()), p)
    {
      AppendPacket(p);
      Tick(Work);
    }

    /** Ignores a late packet; resets on a gap; joins the packet to the run. */
    method Accept(p: Packet)
      requires Deciding(p)
      modifies this
      ensures Valid() && old(schedule) <= schedule
      ensures Core() == Accepted(cfg, old(Core()), p)
    {
      if prev.Some? && Late(prev.value, p) {
        Ignore(p);
        return;
      }
      if prev.Some? && !Follows(prev.value, p) {
        BeginReset(p, false);
        Reset(p, false);
      }
      Join(p);
    }

    method TakePacket() returns (p: Packet)
      requires Valid() && pc == Idle && packets != []
      modifies this`packets, this`pc, this`schedule
      ensures Valid() && schedule == old(schedule) + [Work] && [p] + packets == old(packets)
      ensures Core() == old(Core()).(pc := Got(p))
    {
      p := packets[0];
      packets := packets[1..];
      pc := Got(p);
      Tick(Work);
    }

    /** One turn of the worker: takes the head of the queue and deals with it completely. Either
        its epoch was no longer current and nothing changes, or it is adopted, classified and
        accepted, and whatever windows it completes are cut. */
    method HandleNext()
      requires Valid() && pc == Idle && packets != []
      modifies this
      ensures Valid() && pc == Idle && old(schedule) + [Work] <= schedule
      ensures var p := old(packets[0]);
              var c := Accepted(cfg, Adopted(old(Core()).(pc := Got(p)), p), p);
              || Core() == old(Core())
              || (if c.pc.Idle? then Core() == c
                  else SameRun(c, Core()) && (|pcm| < cfg.size || queueEpoch != clock.epoch))
    {
      var p := TakePacket();
      Interfere(TheWorker);
      if p.epoch != clock.epoch {
        Leave();
        return;
      }
      HandleCurrent(p);
    }

    /** Adopts and accepts a packet of the current epoch, and cuts what it completes. */
    method HandleCurrent(p: Packet)
      requires Valid() && pc == Got(p) && p.epoch == clock.epoch
      modifies this
      ensures Valid() && pc == Idle && old(schedule) <= schedule
      ensures var c := Accepted(cfg, Adopted(old(Core()), p), p);
              if c.pc.Idle? then Core() == c
              else SameRun(c, Core()) && (|pcm| < cfg.size || queueEpoch != clock.epoch)
    {
      Adopt(p);
      Accept(p);
      if pc != Idle {
        CutWindows(p);
      }
    }
  }
}
