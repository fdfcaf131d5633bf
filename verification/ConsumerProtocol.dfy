/** The generation protocol: producers add to the epoch before the generation, the worker loads
    the generation before it checks the epoch. Together they make every window that holds
    pre-event audio stale once the event is complete. */
module ConsumerProtocol {
  import opened Optional
  import opened Rtp
  import opened AudioRuns
  import opened ConsumerSystem
  import opened ConsumerData

  // ---------------------------------------------------------------- runs are continuous

  ghost predicate Joined(c: Core) {
    && (forall r :: 0 <= r < |c.runs| ==> Continuous(c.runs[r].packets))
    && (c.prev.Some? ==> c.prev.value.epoch == c.queueEpoch)
  }

  lemma JoinedNext(cfg: Config, c: Core, p: Packet)
    requires Joined(c) && c.runs != [] && Last(c).packets != []
    requires c.prev == Some(Last(c).packets[|Last(c).packets| - 1])
    requires Joins(c.prev.value, p) && p.epoch == c.queueEpoch
    ensures Joined(CoreAppend(cfg, c, p))
  {
    ContinuousAppend(Last(c).packets, p);
    var runs, n := CoreAppend(cfg, c, p).runs, |c.runs| - 1;
    assert runs == c.runs[n := Run(Last(c).packets + [p], Last(c).windows)];
  }

  lemma PrevIsLast(cfg: Config, c: Core)
    requires Aligned(cfg, c) && c.prev.Some?
    ensures c.runs != [] && Last(c).packets != [] && c.prev == Some(Last(c).packets[|Last(c).packets| - 1])
  {
  }

  lemma JoinedGot(cfg: Config, epoch: nat, c: Core, p: Packet)
    requires Aligned(cfg, c) && Joined(c) && c.pc == Got(p)
    ensures Joined(CoreGot(cfg, epoch, c, p))
  {
    if c.prev.Some? && Follows(c.prev.value, p) && p.epoch == c.queueEpoch {
      PrevIsLast(cfg, c);
      JoinedNext(cfg, c, p);
    }
  }

  lemma JoinedResume(cfg: Config, c: Core)
    requires Aligned(cfg, c) && Joined(c) && c.pc.Draining?
    ensures Joined(CoreResume(cfg, c, c.pc.p, c.pc.bump))
  {
  }

  lemma JoinedWork(cfg: Config, s: State)
    requires Aligned(cfg, s.core) && Joined(s.core)
    ensures Joined(WorkStep(cfg, s).core)
  {
    match s.core.pc
    case Got(p) => JoinedGot(cfg, s.clock.epoch, s.core, p);
    case Draining(_, _) => JoinedResume(cfg, s.core);
    case _ =>
  }

  // ---------------------------------------------------------------- generations

  /** What a window's generation says: it was current when loaded, it is behind once the run is
      over, and it is behind every completed event that the run's stamp precedes. */
  ghost predicate Dated(clock: Clock, current: bool, stamp: nat, generation: nat) {
    && generation <= clock.generation
    && (!current ==> generation < clock.generation)
    && forall i :: 0 <= i < |clock.events| ==>
         clock.events[i].completed.Some? && stamp < clock.events[i].epochAfter ==>
           generation < clock.events[i].completed.value
  }

  ghost predicate RunDated(clock: Clock, current: bool, run: Run) {
    run.packets != [] ==>
      forall k :: 0 <= k < |run.windows| ==> Dated(clock, current, run.packets[0].epoch, run.windows[k].generation)
  }

  ghost predicate Generations(clock: Clock, c: Core) {
    && (forall r :: 0 <= r < |c.runs| ==> RunDated(clock, r + 1 >= c.epoch, c.runs[r]))
    && (c.pc.CheckEpoch? || c.pc.Sending? || c.pc.CountDropped? ==> c.pc.generation <= clock.generation)
  }

  /** No step of a producer takes a date away: an event that completes now gets a generation no
      window has seen yet. */
  lemma DatedOthers(cfg: Config, s: State, a: Action, current: bool, stamp: nat, generation: nat)
    requires !a.Work? && Dated(s.clock, current, stamp, generation)
    ensures Dated(Step(cfg, s, a).clock, current, stamp, generation)
  {
  }

  lemma GenerationsOthers(cfg: Config, s: State, a: Action)
    requires !a.Work? && Generations(s.clock, s.core)
    ensures Generations(Step(cfg, s, a).clock, Step(cfg, s, a).core)
  {
    OthersKeepCore(cfg, s, a);
    var c := s.core;
    forall r, k | 0 <= r < |c.runs| && c.runs[r].packets != [] && 0 <= k < |c.runs[r].windows|
      ensures Dated(Step(cfg, s, a).clock, r + 1 >= c.epoch, c.runs[r].packets[0].epoch,
                    c.runs[r].windows[k].generation)
    {
      DatedOthers(cfg, s, a, r + 1 >= c.epoch, c.runs[r].packets[0].epoch, c.runs[r].windows[k].generation);
    }
    assert s.clock.generation <= Step(cfg, s, a).clock.generation;
  }

  /** The check comes after the load: with the epoch unmoved, no event is ahead of the run. */
  lemma GenerationsCheck(cfg: Config, s: State)
    requires ClockOk(s.clock) && Aligned(cfg, s.core) && Generations(s.clock, s.core) && s.core.pc.CheckEpoch?
    ensures Generations(s.clock, WorkStep(cfg, s).core)
  {
    var c, c' := s.core, WorkStep(cfg, s).core;
    if c'.pc.Sending? {
      var n := |c.runs| - 1;
      assert Dated(s.clock, true, c.runs[n].packets[0].epoch, c'.pc.w.generation);
      assert RunDated(s.clock, true, c.runs[n]);
      assert c'.runs[n] == Run(c.runs[n].packets, c.runs[n].windows + [c'.pc.w]);
      assert RunDated(s.clock, true, c'.runs[n]);
    }
  }

  lemma GenerationsReset(cfg: Config, s: State)
    requires Aligned(cfg, s.core) && Generations(s.clock, s.core) && s.core.pc.Resetting?
    ensures Generations(WorkStep(cfg, s).clock, WorkStep(cfg, s).core)
  {
    var clock, clock', c := s.clock, WorkStep(cfg, s).clock, s.core;
    forall r, k | 0 <= r < |c.runs| && c.runs[r].packets != [] && 0 <= k < |c.runs[r].windows|
      ensures Dated(clock', false, c.runs[r].packets[0].epoch, c.runs[r].windows[k].generation)
    {
      assert RunDated(clock, r + 1 >= c.epoch, c.runs[r]);
      assert Dated(clock, r + 1 >= c.epoch, c.runs[r].packets[0].epoch, c.runs[r].windows[k].generation);
    }
  }

  lemma GenerationsAppend(cfg: Config, clock: Clock, c: Core, p: Packet)
    requires forall r :: 0 <= r < |c.runs| ==> RunDated(clock, r + 1 >= c.epoch, c.runs[r])
    requires c.prev.Some? && c.runs != [] ==> c.runs[|c.runs| - 1].packets != []
    ensures Generations(clock, CoreAppend(cfg, c, p))
  {
    var c' := CoreAppend(cfg, c, p);
    forall r | 0 <= r < |c'.runs|
      ensures RunDated(clock, r + 1 >= c.epoch, c'.runs[r])
    {
      if r < |c.runs| {
        assert RunDated(clock, r + 1 >= c.epoch, c.runs[r]);
      }
    }
  }

  lemma GenerationsGot(cfg: Config, s: State)
    requires Aligned(cfg, s.core) && Generations(s.clock, s.core) && s.core.pc.Got?
    ensures Generations(s.clock, WorkStep(cfg, s).core)
  {
    var c, p := s.core, s.core.pc.p;
    GenerationsAppend(cfg, s.clock, c, p);
    if c.queueEpoch == 0 {
      GenerationsAppend(cfg, s.clock, c.(epoch := 1, queueEpoch := p.epoch), p);
    }
  }

  lemma GenerationsResume(cfg: Config, s: State)
    requires Aligned(cfg, s.core) && Generations(s.clock, s.core) && s.core.pc.Draining?
    ensures Generations(s.clock, WorkStep(cfg, s).core)
  {
    GenerationsAppend(cfg, s.clock, s.core, s.core.pc.p);
    GenerationsAppend(cfg, s.clock, s.core.(queueEpoch := s.core.pc.p.epoch), s.core.pc.p);
  }

  lemma GenerationsWork(cfg: Config, s: State)
    requires ClockOk(s.clock) && Aligned(cfg, s.core) && Generations(s.clock, s.core)
    ensures Generations(WorkStep(cfg, s).clock, WorkStep(cfg, s).core)
  {
    match s.core.pc
    case Got(_) => GenerationsGot(cfg, s);
    case Draining(_, _) => GenerationsResume(cfg, s);
    case CheckEpoch(_, _) => GenerationsCheck(cfg, s);
    case Resetting(_, _) => GenerationsReset(cfg, s);
    case _ =>
  }

  ghost predicate Protocol(cfg: Config, s: State) {
    Data(cfg, s) && Joined(s.core) && Generations(s.clock, s.core)
  }

  lemma ProtocolStep(cfg: Config, s: State, a: Action)
    requires ValidConfig(cfg) && Protocol(cfg, s)
    ensures Protocol(cfg, Step(cfg, s, a))
  {
    DataStep(cfg, s, a);
    if a.Work? {
      JoinedWork(cfg, s);
      GenerationsWork(cfg, s);
    } else {
      OthersKeepCore(cfg, s, a);
      GenerationsOthers(cfg, s, a);
    }
  }

  lemma {:induction false} ProtocolAlways(cfg: Config, actions: seq<Action>)
    requires ValidConfig(cfg)
    ensures Protocol(cfg, Exec(cfg, actions))
  {
    if actions != [] {
      ProtocolAlways(cfg, actions[..|actions| - 1]);
      ProtocolStep(cfg, Exec(cfg, actions[..|actions| - 1]), actions[|actions| - 1]);
    }
  }
}
