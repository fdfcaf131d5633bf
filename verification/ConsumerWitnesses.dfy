/** Schedules that show what the conditions on the audio consumer's guarantees are about: a run cut
    short before its last window, and a re-delivered packet at any distance behind the newest. */
module ConsumerWitnesses {
  import opened Optional
  import opened Rtp
  import opened AudioRuns
  import opened ConsumerSystem
  import opened ConsumerData
  import opened ConsumerRuns
  import opened ConsumerTheorems

  /** Packet number `i` of a camera that numbers, stamps and sends without a flaw, one sample at a
      time. */
  function Flawless(i: nat): Packet { Packet(i % 0x1_0000, i % 0x1_0000_0000, 0, 1, [0], 0, i) }

  function Flow(m: nat): (ps: seq<Packet>)
    ensures |ps| == m
  {
    if m == 0 then [] else Flow(m - 1) + [Flawless(m - 1)]
  }

  lemma {:induction false} FlowStart(m: nat)
    requires m >= 1
    ensures Flow(m)[0] == Flawless(0)
  {
    if m > 1 {
      FlowStart(m - 1);
    }
  }

  lemma WrapSeq(i: nat)
    ensures (i % 0x1_0000 + 1) % 0x1_0000 == (i + 1) % 0x1_0000
  {
  }

  lemma NoDrift(x: nat)
    requires 1 <= x <= 0x1_0000_0000
    ensures (x % 0x1_0000_0000 - x) % 0x1_0000_0000 == 0
  {
    if x < 0x1_0000_0000 {
      assert x % 0x1_0000_0000 == x;
    }
  }

  lemma FlawlessFollows(i: nat)
    ensures Follows(Flawless(i), Flawless(i + 1))
  {
    WrapSeq(i);
    WrapAdd(i, 1);
    NoDrift(i % 0x1_0000_0000 + 1);
    assert StampError(Flawless(i), Flawless(i + 1)) == 0;
  }

  // ---------------------------------------------------------------- stepping through a schedule

  lemma Then(cfg: Config, actions: seq<Action>, a: Action, s: State, s': State)
    requires Exec(cfg, actions) == s && Step(cfg, s, a) == s'
    ensures Exec(cfg, actions + [a]) == s'
  {
    ExecAppend(cfg, actions, a);
  }

  /** A state in which nothing is under way. */
  ghost predicate Calm(cfg: Config, s: State) {
    && ValidConfig(cfg) && !s.closed && s.packets == [] && s.producers == map[] && s.core.pc.Idle?
  }

  function Numbered(s: State, seqNo: Word16, ts: Word32): Packet {
    Packet(seqNo, ts, 0, s.clock.epoch, [0], 0, s.clock.stamps)
  }

  /** A producer enters and stamps a packet. */
  lemma StampOne(cfg: Config, actions: seq<Action>, seqNo: Word16, ts: Word32) returns (actions': seq<Action>)
    requires Calm(cfg, Exec(cfg, actions))
    ensures var s := Exec(cfg, actions);
            Exec(cfg, actions') ==
              s.(clock := s.clock.(stamps := s.clock.stamps + 1),
                 producers := map[0 := Stamped(Numbered(s, seqNo, ts))])
  {
    var s := Exec(cfg, actions);
    var s1 := s.(producers := map[0 := Admitted]);
    Then(cfg, actions, Enter(0), s, s1);
    var p := Numbered(s, seqNo, ts);
    var s2 := s.(clock := s.clock.(stamps := s.clock.stamps + 1), producers := map[0 := Stamped(p)]);
    assert s1.producers[0 := Stamped(p)] == s2.producers;
    actions' := actions + [Enter(0)];
    Then(cfg, actions', Stamp(0, seqNo, ts, 0, [0], 0), s1, s2);
    actions' := actions' + [Stamp(0, seqNo, ts, 0, [0], 0)];
  }

  /** It sends the packet, and the worker takes it. */
  lemma HandOver(cfg: Config, actions: seq<Action>, p: Packet) returns (actions': seq<Action>)
    requires var s := Exec(cfg, actions);
             ValidConfig(cfg) && s.packets == [] && s.producers == map[0 := Stamped(p)] && s.core.pc.Idle?
    ensures var s := Exec(cfg, actions);
            Exec(cfg, actions') == s.(producers := map[], core := s.core.(pc := Got(p)))
  {
    var s := Exec(cfg, actions);
    var s1 := s.(packets := [p], producers := map[]);
    assert s.packets + [p] == [p] && s.producers - {0} == map[];
    Then(cfg, actions, Enqueue(0), s, s1);
    actions' := actions + [Enqueue(0)];
    assert [p][1..] == s.packets;
    Then(cfg, actions', Work, s1, s.(producers := map[], core := s.core.(pc := Got(p))));
    actions' := actions' + [Work];
  }

  /** A producer delivers a packet and the worker takes it. */
  lemma Deliver(cfg: Config, actions: seq<Action>, seqNo: Word16, ts: Word32) returns (actions': seq<Action>)
    requires Calm(cfg, Exec(cfg, actions))
    ensures var s := Exec(cfg, actions);
            Exec(cfg, actions') ==
              s.(clock := s.clock.(stamps := s.clock.stamps + 1), core := s.core.(pc := Got(Numbered(s, seqNo, ts))))
  {
    actions' := StampOne(cfg, actions, seqNo, ts);
    actions' := HandOver(cfg, actions', Numbered(Exec(cfg, actions), seqNo, ts));
  }

  // ---------------------------------------------------------------- a run of any length

  /** The state after the first `m` packets of the flow, none of which completes a window. */
  function Flowing(cfg: Config, m: nat): State
    requires m >= 1
  {
    State(Clock(1, 1, m, []), false, [], map[], Channel([], [], [], 0),
          Core(Audio(cfg.law, Flow(m)), Some(Flawless(m - 1)), 1, 1, 0, 0, Idle, [Run(Flow(m), [])]))
  }

  lemma FlowAudio(cfg: Config, m: nat)
    ensures Audio(cfg.law, Flow(m + 1)) == Audio(cfg.law, Flow(m)) + Decode(cfg.law, [0])
    ensures |Audio(cfg.law, Flow(m + 1))| == |Audio(cfg.law, Flow(m))| + 1
  {
    AudioAppend(cfg.law, Flow(m), Flawless(m));
    assert |Decode(cfg.law, [0])| == 1;
  }

  lemma {:induction false} FlowLength(cfg: Config, m: nat)
    ensures |Audio(cfg.law, Flow(m))| == m
  {
    if m > 0 {
      FlowLength(cfg, m - 1);
      FlowAudio(cfg, m - 1);
    }
  }

  /** The worker joins the packet it holds, finds no window to cut, and waits again. */
  lemma NothingToCut(cfg: Config, actions: seq<Action>, c: Core) returns (actions': seq<Action>)
    requires var s := Exec(cfg, actions);
             Step(cfg, s, Work) == s.(core := c) && c.pc.LoadGeneration? && |c.pcm| < cfg.size
    ensures Exec(cfg, actions') == Exec(cfg, actions).(core := c.(pc := Idle))
  {
    var s := Exec(cfg, actions);
    var s1 := s.(core := c);
    var s2 := s.(core := c.(pc := CheckEpoch(c.pc.p, s.clock.generation)));
    Then(cfg, actions, Work, s, s1);
    actions' := actions + [Work];
    Then(cfg, actions', Work, s1, s2);
    actions' := actions' + [Work];
    Then(cfg, actions', Work, s2, s.(core := c.(pc := Idle)));
    actions' := actions' + [Work];
  }

  lemma FirstJoins(cfg: Config, s: State)
    requires s == Init().(clock := Clock(1, 1, 1, []), core := Init().core.(pc := Got(Flawless(0))))
    ensures Step(cfg, s, Work) == s.(core := Flowing(cfg, 1).core.(pc := LoadGeneration(Flawless(0))))
  {
    FlowAudio(cfg, 0);
    assert Flow(0) == [] && Flow(1) == [Flawless(0)];
    assert Audio(cfg.law, []) == [];
    assert [] + Decode(cfg.law, [0]) == Audio(cfg.law, Flow(1));
  }

  lemma NextJoins(cfg: Config, m: nat, s: State)
    requires m >= 1
    requires s == Flowing(cfg, m).(clock := Clock(1, 1, m +
              1, []), core := Flowing(cfg, m).core.(pc := Got(Flawless(m))))
    ensures Step(cfg, s, Work) == s.(core := Flowing(cfg, m + 1).core.(pc := LoadGeneration(Flawless(m))))
  {
    FlawlessFollows(m - 1);
    FollowsIsNotLate(Flawless(m - 1), Flawless(m));
    FlowAudio(cfg, m);
    assert Flow(m + 1) == Flow(m) + [Flawless(m)];
    assert [Run(Flow(m), [])][0 := Run(Flow(m + 1), [])] == [Run(Flow(m + 1), [])];
  }

  lemma FirstOfRun(cfg: Config) returns (actions: seq<Action>)
    requires ValidConfig(cfg) && 1 < cfg.size
    ensures Exec(cfg, actions) == Flowing(cfg, 1)
  {
    FlowLength(cfg, 1);
    actions := Deliver(cfg, [], 0, 0);
    FirstJoins(cfg, Exec(cfg, actions));
    actions := NothingToCut(cfg, actions, Flowing(cfg, 1).core.(pc := LoadGeneration(Flawless(0))));
  }

  lemma NextOfRun(cfg: Config, actions: seq<Action>, m: nat) returns (actions': seq<Action>)
    requires ValidConfig(cfg) && 1 <= m && m + 1 < cfg.size && Exec(cfg, actions) == Flowing(cfg, m)
    ensures Exec(cfg, actions') == Flowing(cfg, m + 1)
  {
    FlowLength(cfg, m + 1);
    actions' := Deliver(cfg, actions, Flawless(m).seqNo, Flawless(m).ts);
    NextJoins(cfg, m, Exec(cfg, actions'));
    actions' := NothingToCut(cfg, actions', Flowing(cfg, m + 1).core.(pc := LoadGeneration(Flawless(m))));
  }

  /** Runs of every length are reachable when windows are longer. */
  lemma {:induction false} BuildRun(cfg: Config, m: nat) returns (actions: seq<Action>)
    requires ValidConfig(cfg) && 1 <= m < cfg.size
    ensures Exec(cfg, actions) == Flowing(cfg, m)
  {
    if m == 1 {
      actions := FirstOfRun(cfg);
    } else {
      actions := BuildRun(cfg, m - 1);
      actions := NextOfRun(cfg, actions, m - 1);
    }
  }

  /** A packet can be re-delivered at every distance behind the newest one, and is then ignored
      exactly when the distance is at most 64 modulo 2^16. */
  lemma RedeliveryIsReachable(law: Law, j: nat) returns (cfg: Config, actions: seq<Action>, q: Packet)
    ensures ValidConfig(cfg)
    ensures var s := Exec(cfg, actions);
            && s.core.pc == Got(q) && s.core.runs != [] && j < |Last(s.core).packets|
            && q.seqNo == Last(s.core).packets[|Last(s.core).packets| - 1 - j].seqNo
            && q.ssrc == Last(s.core).packets[|Last(s.core).packets| - 1 - j].ssrc
            && (Step(cfg, s, Work) == s.(core := s.core.(pc := Idle)) <==> j % 0x1_0000 <= 64)
  {
    cfg := Config(j + 2, 1, 1, 1, law);
    actions := BuildRun(cfg, j + 1);
    actions := Deliver(cfg, actions, 0, 0);
    q := Numbered(Flowing(cfg, j + 1), 0, 0);
    FlowStart(j + 1);
    assert Last(Exec(cfg, actions).core) == Run(Flow(j + 1), []);
    RedeliveryIgnoredIff(cfg, actions, j, q);
  }

  lemma TooFarBack(q: Packet)
    requires q.seqNo == 0
    ensures !Late(Flawless(65), q) && !Follows(Flawless(65), q)
  {
    assert Flawless(65).seqNo == 65;
    assert Delta(Flawless(65), q) == -65;
  }

  lemma GapResets(cfg: Config, s: State, q: Packet)
    requires s.core.pc == Got(q) && q.epoch == s.clock.epoch == s.core.queueEpoch
    requires s.core.prev.Some? && !Late(s.core.prev.value, q) && !Follows(s.core.prev.value, q)
    ensures Step(cfg, s, Work) == s.(core := s.core.(pc := Resetting(q, false)))
  {
  }

  /** At distance 65 it counts as a restart of the camera's counters: the worker resets. */
  lemma CounterRestartIsReachable(law: Law) returns (cfg: Config, actions: seq<Action>, q: Packet)
    ensures ValidConfig(cfg)
    ensures var s := Exec(cfg, actions);
            && s.core.pc == Got(q) && s.core.runs != [] && |Last(s.core).packets| == 66
            && q.seqNo == Last(s.core).packets[0].seqNo && q.ssrc == Last(s.core).packets[0].ssrc
            && Step(cfg, s, Work) == s.(core := s.core.(pc := Resetting(q, false)))
  {
    cfg := Config(67, 1, 1, 1, law);
    actions := BuildRun(cfg, 66);
    actions := Deliver(cfg, actions, 0, 0);
    q := Numbered(Flowing(cfg, 66), 0, 0);
    FlowStart(66);
    TooFarBack(q);
    GapResets(cfg, Exec(cfg, actions), q);
  }

  // ---------------------------------------------------------------- a run cut short

  /** A disconnect right after the worker has joined a packet and loaded the generation: the check
      of the epoch fails. */
  lemma BreakOff(cfg: Config, actions: seq<Action>, c: Core) returns (actions': seq<Action>)
    requires var s := Exec(cfg, actions);
             && s.core == c && c.pc.CheckEpoch? && c.queueEpoch == s.clock.epoch && s.producers == map[]
    ensures Exec(cfg, actions').core == c.(pc := Idle)
  {
    var s := Exec(cfg, actions);
    var s1 := s.(producers := map[0 := Breaking]);
    var s2 := Step(cfg, s1, AddEpoch(0));
    Then(cfg, actions, Disconnect(0), s, s1);
    actions' := actions + [Disconnect(0)];
    Then(cfg, actions', AddEpoch(0), s1, s2);
    actions' := actions' + [AddEpoch(0)];
    assert s2.core == c && s2.clock.epoch == c.queueEpoch + 1;
    Then(cfg, actions', Work, s2, s2.(core := c.(pc := Idle)));
    actions' := actions' + [Work];
  }

  /** Such a disconnect can cost a run a window that its audio yields. */
  lemma EarlyBreakIsReachable(law: Law) returns (cfg: Config, actions: seq<Action>)
    ensures ValidConfig(cfg)
    ensures var c := Exec(cfg, actions).core;
            && Between(c, 0) && c.runs[0].windows == []
            && WindowCount(cfg, |Audio(cfg.law, c.runs[0].packets)|) == 1
  {
    cfg := Config(1, 1, 1, 1, law);
    actions := Deliver(cfg, [], 0, 0);
    var s := Exec(cfg, actions);
    var c := Flowing(cfg, 1).core.(pc := LoadGeneration(Flawless(0)));
    FirstJoins(cfg, s);
    FlowLength(cfg, 1);
    var c' := c.(pc := CheckEpoch(Flawless(0), 1));
    Then(cfg, actions, Work, s, s.(core := c));
    actions := actions + [Work];
    Then(cfg, actions, Work, s.(core := c), s.(core := c'));
    actions := actions + [Work];
    actions := BreakOff(cfg, actions, c');
  }
}
