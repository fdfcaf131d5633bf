/** How runs develop: they only grow, the last one alone, and the worker is between packets when it
    gives one up. */
module ConsumerRuns {
  import opened Optional
  import opened Rtp
  import opened AudioRuns
  import opened ConsumerSystem
  import opened ConsumerData

  // ---------------------------------------------------------------- runs only grow

  ghost predicate Grown(x: Run, y: Run) { x.packets <= y.packets && x.windows <= y.windows }

  ghost predicate AllGrown(xs: seq<Run>, ys: seq<Run>) {
    |xs| <= |ys| && forall r :: 0 <= r < |xs| ==> Grown(xs[r], ys[r])
  }

  lemma AppendGrows(cfg: Config, c: Core, p: Packet)
    ensures AllGrown(c.runs, CoreAppend(cfg, c, p).runs)
  {
  }

  lemma CheckGrows(cfg: Config, epoch: nat, c: Core, p: Packet, g: nat)
    ensures AllGrown(c.runs, CoreCheck(cfg, epoch, c, p, g).runs)
  {
  }

  lemma GotGrows(cfg: Config, epoch: nat, c: Core, p: Packet)
    ensures AllGrown(c.runs, CoreGot(cfg, epoch, c, p).runs)
  {
    AppendGrows(cfg, c, p);
    AppendGrows(cfg, c.(epoch := 1, queueEpoch := p.epoch), p);
  }

  lemma ResumeGrows(cfg: Config, c: Core, p: Packet, bump: bool)
    ensures AllGrown(c.runs, CoreResume(cfg, c, p, bump).runs)
  {
    AppendGrows(cfg, c, p);
    AppendGrows(cfg, c.(queueEpoch := p.epoch), p);
  }

  lemma StepGrows(cfg: Config, s: State, a: Action)
    ensures AllGrown(s.core.runs, Step(cfg, s, a).core.runs)
  {
    if a.Work? {
      match s.core.pc
      case Got(p) => GotGrows(cfg, s.clock.epoch, s.core, p);
      case Draining(p, bump) => ResumeGrows(cfg, s.core, p, bump);
      case CheckEpoch(p, g) => CheckGrows(cfg, s.clock.epoch, s.core, p, g);
      case _ =>
    } else {
      OthersKeepCore(cfg, s, a);
    }
  }

  lemma {:induction false} RunsGrow(cfg: Config, s: State, later: seq<Action>)
    ensures AllGrown(s.core.runs, ExecFrom(cfg, s, later).core.runs)
  {
    if later != [] {
      var n := |later| - 1;
      RunsGrow(cfg, s, later[..n]);
      StepGrows(cfg, ExecFrom(cfg, s, later[..n]), later[n]);
    }
  }

  // ---------------------------------------------------------------- when a run is given up

  /** The worker builds run `r` and is between two packets. */
  ghost predicate Between(c: Core, r: nat) { |c.runs| == r + 1 && c.prev.Some? && !Windowing(c.pc) }

  /** The worker will not come back to run `r`. */
  ghost predicate Finished(c: Core, r: nat) { r < |c.runs| && (r + 1 < |c.runs| || c.prev.None?) }

  /** A run that is finished after a step was finished before it, or the worker was between two
      packets of it; the step itself adds nothing to it. */
  ghost predicate Settles(c: Core, c': Core, r: nat) {
    Finished(c', r) ==> r < |c.runs| && c'.runs[r] == c.runs[r] && (Finished(c, r) || Between(c, r))
  }

  lemma AppendSettles(cfg: Config, c: Core, p: Packet, r: nat)
    requires c.runs == [] ==> c.prev.None?
    ensures Settles(c, CoreAppend(cfg, c, p), r)
  {
  }

  lemma GotSettles(cfg: Config, epoch: nat, c: Core, p: Packet, r: nat)
    requires (c.runs == [] ==> c.prev.None?) && c.pc == Got(p)
    ensures Settles(c, CoreGot(cfg, epoch, c, p), r)
  {
    AppendSettles(cfg, c, p, r);
    AppendSettles(cfg, c.(epoch := 1, queueEpoch := p.epoch), p, r);
  }

  lemma ResumeSettles(cfg: Config, c: Core, p: Packet, bump: bool, r: nat)
    requires (c.runs == [] ==> c.prev.None?) && c.pc == Draining(p, bump)
    ensures Settles(c, CoreResume(cfg, c, p, bump), r)
  {
    AppendSettles(cfg, c, p, r);
    AppendSettles(cfg, c.(queueEpoch := p.epoch), p, r);
  }

  lemma CheckSettles(cfg: Config, epoch: nat, c: Core, p: Packet, g: nat, r: nat)
    requires c.prev.Some?
    ensures Settles(c, CoreCheck(cfg, epoch, c, p, g), r)
  {
  }

  lemma StepSettles(cfg: Config, s: State, a: Action, r: nat)
    requires Aligned(cfg, s.core)
    ensures Settles(s.core, Step(cfg, s, a).core, r)
  {
    if a.Work? {
      match s.core.pc
      case Got(p) => GotSettles(cfg, s.clock.epoch, s.core, p, r);
      case Draining(p, bump) => ResumeSettles(cfg, s.core, p, bump, r);
      case CheckEpoch(p, g) => CheckSettles(cfg, s.clock.epoch, s.core, p, g, r);
      case _ =>
    } else {
      OthersKeepCore(cfg, s, a);
    }
  }

  /** A finished run is as the worker left it between two packets, at some earlier moment. */
  lemma {:induction false} LeftBetween(cfg: Config, actions: seq<Action>, r: nat) returns (n: nat)
    requires ValidConfig(cfg) && Finished(Exec(cfg, actions).core, r)
    ensures n < |actions| && Between(Exec(cfg, actions[..n]).core, r)
    ensures Exec(cfg, actions[..n]).core.runs[r] == Exec(cfg, actions).core.runs[r]
  {
    assert actions != [];
    var before := actions[..|actions| - 1];
    DataAlways(cfg, before);
    StepSettles(cfg, Exec(cfg, before), actions[|actions| - 1], r);
    if Between(Exec(cfg, before).core, r) {
      n := |before|;
    } else {
      n := LeftBetween(cfg, before, r);
      assert before[..n] == actions[..n];
    }
  }

  // ---------------------------------------------------------------- how many windows

  ghost predicate CountExact(cfg: Config, run: Run)
    requires ValidConfig(cfg)
  {
    |run.windows| == WindowCount(cfg, |Audio(cfg.law, run.packets)|)
  }

  /** A run never has more windows than its audio yields. */
  lemma CountAtMost(cfg: Config, run: Run, e: nat)
    requires ValidConfig(cfg) && RunOk(cfg, run, e)
    ensures |run.windows| <= WindowCount(cfg, |Audio(cfg.law, run.packets)|)
  {
    var c, n := |run.windows|, |Audio(cfg.law, run.packets)|;
    if c > 0 {
      assert IsSlice(cfg, run.packets, c - 1, run.windows[c - 1]);
      HopsIsProduct(cfg, c - 1);
      WholeHops(c - 1, cfg.hop, n - cfg.size);
    }
  }

  lemma WholeHops(q: nat, h: nat, m: nat)
    requires 1 <= h && q * h <= m
    ensures q <= m / h
  {
    assert m == (m / h) * h + m % h;
    if m / h < q {
      ProductGap(m / h, q, h);
    }
  }

  /** It has exactly as many when too little audio for another window is left over. */
  lemma CountExactIff(cfg: Config, run: Run, e: nat)
    requires ValidConfig(cfg) && RunOk(cfg, run, e)
    ensures CountExact(cfg, run) <==> |Audio(cfg.law, run.packets)| < Hops(cfg, |run.windows|) + cfg.size
  {
    var c, n := |run.windows|, |Audio(cfg.law, run.packets)|;
    if n < Hops(cfg, c) + cfg.size {
      if c > 0 {
        assert IsSlice(cfg, run.packets, c - 1, run.windows[c - 1]);
      }
      CountFromBounds(cfg, n, c);
    } else {
      HopsIsProduct(cfg, c);
      WholeHops(c, cfg.hop, n - cfg.size);
    }
  }

  /** What the buffer says about the count between two packets. */
  lemma BufferTells(cfg: Config, c: Core, r: nat)
    requires ValidConfig(cfg) && RunsOk(cfg, c.runs) && Aligned(cfg, c) && Between(c, r)
    ensures CountExact(cfg, c.runs[r]) <==> |c.pcm| < cfg.size
  {
    assert Buffered(cfg, c) && Last(c) == c.runs[r];
    assert RunOk(cfg, c.runs[r], r + 1);
    CountExactIff(cfg, c.runs[r], r + 1);
  }
}
