/** The audio consumer as an interleaved system. Every action is one atomic operation of one
    goroutine (an atomic load or add, a channel send or receive) together with the
    thread-local work that follows it. An action that is not enabled leaves the state alone,
    so a run of the system is any sequence of actions whatever. */
module ConsumerSystem {
  import opened Optional
  import opened Rtp
  import opened AudioRuns

  /** One disconnect, rejection or overload: packets with a serial below `boundary` were stamped
      before its epoch increment; `completed` is the generation after its second increment. */
  datatype Event = Event(boundary: nat, epochAfter: nat, completed: Option<nat>)

  /** The two atomics, with the history that orders stamps and events. */
  datatype Clock = Clock(epoch: nat, generation: nat, stamps: nat, events: seq<Event>)

  /** A goroutine inside OnAudioRTP or OnDisconnect; one that is in neither has no entry.
      `Admitted` has seen the consumer open, `Breaking` is about to add to the epoch, `Broken`
      about to add to the generation. */
  datatype Producer = Admitted | Stamped(p: Packet) | Breaking | Broken(event: nat)

  /** The window channel, with everything that ever left it. */
  datatype Channel = Channel(buffered: seq<Window>, read: seq<Window>, discarded: seq<Window>, dropped: nat)

  /** Where the worker stands; `bump` is set for a reset caused by a new producer epoch. */
  datatype Pc =
    | Idle
    | Stopped
    | Got(p: Packet)
    | Resetting(p: Packet, bump: bool)
    | Draining(p: Packet, bump: bool)
    | CountDrained(p: Packet, bump: bool, w: Window)
    | LoadGeneration(p: Packet)
    | CheckEpoch(p: Packet, generation: nat)
    | Sending(p: Packet, generation: nat, w: Window)
    | CountDropped(p: Packet, generation: nat, w: Window)

  /** The worker's local variables, its program counter and the runs it has built so far.
      `prev` is None while havePrev is false. */
  datatype Core = Core(pcm: seq<int>, prev: Option<Packet>, epoch: nat, queueEpoch: nat, start: Word32,
                       discontinuities: nat, pc: Pc, runs: seq<Run>)

  datatype State = State(clock: Clock, closed: bool, packets: seq<Packet>, producers: map<nat, Producer>,
                         chan: Channel, core: Core)

  datatype Action =
    | Enter(t: nat)
    | Stamp(t: nat, seqNo: Word16, ts: Word32, ssrc: Word32, payload: seq<Byte>, received: int)
    | Reject(t: nat)
    | Disconnect(t: nat)
    | Enqueue(t: nat)
    | AddEpoch(t: nat)
    | AddGeneration(t: nat)
    | Close
    | Stop
    | Receive
    | Work

  function Init(): State {
    State(Clock(1, 1, 0, []), false, [], map[], Channel([], [], [], 0), Core([], None, 0, 0, 0, 0, Idle, []))
  }

  function Step(cfg: Config, s: State, a: Action): State {
    match a
    case Enter(t) =>
      if s.closed || t in s.producers then s else s.(producers := s.producers[t := Admitted])
    case Stamp(t, seqNo, ts, ssrc, payload, received) =>
      if t !in s.producers || !s.producers[t].Admitted? || payload == [] || |payload| > MAX_PAYLOAD then s else
        var p := Packet(seqNo, ts, ssrc, s.clock.epoch, payload, received, s.clock.stamps);
        s.(producers := s.producers[t := Stamped(p)], clock := s.clock.(stamps := s.clock.stamps + 1))
    case Reject(t) =>
      if t !in s.producers || !s.producers[t].Admitted? then s else s.(producers := s.producers[t := Breaking])
    case Disconnect(t) =>
      if t in s.producers then s else s.(producers := s.producers[t := Breaking])
    case Enqueue(t) =>
      if t !in s.producers || !s.producers[t].Stamped? then s
      else if |s.packets| < cfg.packetCap then
        s.(packets := s.packets + [s.producers[t].p], producers := s.producers - {t})
      else s.(producers := s.producers[t := Breaking])
    case AddEpoch(t) =>
      if t !in s.producers || !s.producers[t].Breaking? then s
      else s.(clock := TickEpoch(s.clock), producers := s.producers[t := Broken(|s.clock.events|)])
    case AddGeneration(t) =>
      if t !in s.producers || !s.producers[t].Broken? || s.producers[t].event >= |s.clock.events| then s
      else s.(clock := Complete(s.clock, s.producers[t].event), producers := s.producers - {t})
    case Close => s.(closed := true)
    case Stop => if s.closed && s.core.pc.Idle? then s.(core := s.core.(pc := Stopped)) else s
    case Receive => s.(chan := Take(s.chan))
    case Work => WorkStep(cfg, s)
  }

  function TickEpoch(c: Clock): Clock {
    c.(epoch := c.epoch + 1, events := c.events + [Event(c.stamps, c.epoch + 1, None)])
  }

  function Complete(c: Clock, i: nat): Clock
    requires i < |c.events|
  {
    c.(generation := c.generation + 1,
       events := c.events[i := c.events[i].(completed := Some(c.generation + 1))])
  }

  function Take(ch: Channel): Channel {
    if ch.buffered == [] then ch
    else ch.(read := ch.read + [ch.buffered[0]], buffered := ch.buffered[1..])
  }

  function Discard(ch: Channel, w: Window): Channel {
    ch.(discarded := ch.discarded + [w], dropped := ch.dropped + 1)
  }

  function WorkStep(cfg: Config, s: State): State {
    var c := s.core;
    match c.pc
    case Idle =>
      if s.packets == [] then s else s.(core := c.(pc := Got(s.packets[0])), packets := s.packets[1..])
    case Stopped => s
    case Got(p) => s.(core := CoreGot(cfg, s.clock.epoch, c, p))
    case Resetting(p, bump) =>
      s.(clock := s.clock.(generation := s.clock.generation + 1), core := CoreReset(c, p, bump))
    case Draining(p, bump) =>
      if s.chan.buffered != [] then
        s.(chan := s.chan.(buffered := s.chan.buffered[1..]),
           core := c.(pc := CountDrained(p, bump, s.chan.buffered[0])))
      else s.(core := CoreResume(cfg, c, p, bump))
    case CountDrained(p, bump, w) => s.(chan := Discard(s.chan, w), core := c.(pc := Draining(p, bump)))
    case LoadGeneration(p) => s.(core := c.(pc := CheckEpoch(p, s.clock.generation)))
    case CheckEpoch(p, g) => s.(core := CoreCheck(cfg, s.clock.epoch, c, p, g))
    case Sending(p, g, w) =>
      if |s.chan.buffered| < cfg.windowCap then
        s.(chan := s.chan.(buffered := s.chan.buffered + [w]), core := CoreShift(cfg, c, p, g))
      else s.(core := c.(pc := CountDropped(p, g, w)))
    case CountDropped(p, g, w) => s.(chan := Discard(s.chan, w), core := CoreShift(cfg, c, p, g))
  }

  /** Discard what was queued before the newest epoch; start a new queue epoch otherwise. */
  function CoreGot(cfg: Config, epoch: nat, c: Core, p: Packet): Core {
    if p.epoch != epoch then c.(pc := Idle)
    else if p.epoch != c.queueEpoch then
      if c.queueEpoch != 0 then c.(pc := Resetting(p, true))
      else CoreClassify(cfg, c.(epoch := 1, queueEpoch := p.epoch), p)
    else CoreClassify(cfg, c, p)
  }

  function CoreClassify(cfg: Config, c: Core, p: Packet): Core {
    if c.prev.Some? && Late(c.prev.value, p) then c.(pc := Idle)
    else if c.prev.Some? && !Follows(c.prev.value, p) then c.(pc := Resetting(p, false))
    else CoreAppend(cfg, c, p)
  }

  function CoreReset(c: Core, p: Packet, bump: bool): Core {
    c.(pcm := [], prev := None, epoch := c.epoch + 1, discontinuities := c.discontinuities + 1,
       pc := Draining(p, bump))
  }

  /** The reset returned with the channel empty. */
  function CoreResume(cfg: Config, c: Core, p: Packet, bump: bool): Core {
    if bump then CoreClassify(cfg, c.(queueEpoch := p.epoch), p) else CoreAppend(cfg, c, p)
  }

  function CoreAppend(cfg: Config, c: Core, p: Packet): Core {
    c.(pcm := c.pcm + Decode(cfg.law, p.payload), prev := Some(p),
       start := if c.prev.None? then p.ts else c.start,
       runs := if c.prev.None? || c.runs == [] then c.runs + [Run([p], [])]
               else var n := |c.runs| - 1;
                    c.runs[n := Run(c.runs[n].packets + [p], c.runs[n].windows)],
       pc := LoadGeneration(p))
  }

  /** One turn of the window loop up to the send: leave it, or cut the next window. */
  function CoreCheck(cfg: Config, epoch: nat, c: Core, p: Packet, g: nat): Core {
    if |c.pcm| < cfg.size || c.queueEpoch != epoch || c.runs == [] then c.(pc := Idle)
    else
      var w := Window(c.pcm[..cfg.size], c.start, c.epoch, g, p.received);
      var n := |c.runs| - 1;
      c.(runs := c.runs[n := Run(c.runs[n].packets, c.runs[n].windows + [w])], pc := Sending(p, g, w))
  }

  function CoreShift(cfg: Config, c: Core, p: Packet, g: nat): Core {
    c.(pcm := if |c.pcm| < cfg.hop then [] else c.pcm[cfg.hop..], start := (c.start + cfg.hop) % 0x1_0000_0000,
       pc := CheckEpoch(p, g))
  }

  function Exec(cfg: Config, actions: seq<Action>): State {
    ExecFrom(cfg, Init(), actions)
  }

  function ExecFrom(cfg: Config, s: State, actions: seq<Action>): State {
    if actions == [] then s
    else Step(cfg, ExecFrom(cfg, s, actions[..|actions| - 1]), actions[|actions| - 1])
  }

  lemma ExecAppend(cfg: Config, actions: seq<Action>, a: Action)
    ensures Exec(cfg, actions + [a]) == Step(cfg, Exec(cfg, actions), a)
  {
    assert (actions + [a])[..|actions|] == actions;
  }

  lemma ExecOne(cfg: Config, s: State, a: Action)
    ensures ExecFrom(cfg, s, [a]) == Step(cfg, s, a)
  {
    assert [a][..0] == [];
  }

  lemma {:induction false} ExecFromConcat(cfg: Config, s: State, a: seq<Action>, b: seq<Action>)
    ensures ExecFrom(cfg, s, a + b) == ExecFrom(cfg, ExecFrom(cfg, s, a), b)
  {
    if b == [] {
      assert a + b == a;
    } else {
      var n := |b| - 1;
      assert (a + b)[..|a + b| - 1] == a + b[..n];
      ExecFromConcat(cfg, s, a, b[..n]);
    }
  }
}
