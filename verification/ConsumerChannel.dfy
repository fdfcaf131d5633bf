/** Every window that is cut is read, still buffered, or counted as dropped, and none is
    overtaken by a window of an earlier epoch. */
module ConsumerChannel {
  import opened Optional
  import opened Rtp
  import opened AudioRuns
  import opened ConsumerSystem
  import opened ConsumerData

  /** All windows ever cut, in order. */
  ghost function Generated(runs: seq<Run>): seq<Window> {
    if runs == [] then [] else Generated(runs[..|runs| - 1]) + runs[|runs| - 1].windows
  }

  /** A window the worker holds between taking it and accounting for it. */
  ghost function InHand(pc: Pc): seq<Window> {
    if pc.CountDrained? || pc.Sending? || pc.CountDropped? then [pc.w] else []
  }

  /** How often `x` occurs in `ws`. */
  ghost function Count(ws: seq<Window>, x: Window): nat {
    if ws == [] then 0 else Count(ws[..|ws| - 1], x) + One(ws[|ws| - 1], x)
  }

  ghost function One(w: Window, x: Window): nat { if w == x then 1 else 0 }

  lemma CountAppend(ws: seq<Window>, w: Window, x: Window)
    ensures Count(ws + [w], x) == Count(ws, x) + One(w, x)
  {
    assert (ws + [w])[..|ws|] == ws;
  }

  lemma CountOne(w: Window, x: Window)
    ensures Count([w], x) == One(w, x)
  {
    assert [w][..0] == [];
  }

  lemma {:induction false} CountHead(ws: seq<Window>, x: Window)
    requires ws != []
    ensures Count(ws, x) == One(ws[0], x) + Count(ws[1..], x)
  {
    var n := |ws| - 1;
    if n > 0 {
      var init := ws[..n];
      CountHead(init, x);
      assert ws[1..] == init[1..] + [ws[n]];
      CountAppend(init[1..], ws[n], x);
    } else {
      assert ws[..0] == [] == ws[1..];
    }
  }

  lemma {:induction false} CountIsMultiset(ws: seq<Window>, x: Window)
    ensures Count(ws, x) == multiset(ws)[x]
  {
    if ws != [] {
      var n := |ws| - 1;
      CountIsMultiset(ws[..n], x);
      assert ws == ws[..n] + [ws[n]];
    }
  }

  /** The account, for windows equal to `x` and for all windows together. */
  ghost predicate Balanced(x: Window, cut: seq<Window>, ch: Channel, held: seq<Window>) {
    && ch.dropped == |ch.discarded|
    && Count(cut, x) == Count(ch.read, x) + Count(ch.buffered, x) + Count(ch.discarded, x) + Count(held, x)
    && |cut| == |ch.read| + |ch.buffered| + |ch.discarded| + |held|
  }

  ghost predicate Conserved(x: Window, ch: Channel, c: Core) {
    Balanced(x, Generated(c.runs), ch, InHand(c.pc))
  }

  ghost predicate Ordered(ws: seq<Window>) {
    forall i, j :: 0 <= i < j < |ws| ==> ws[i].epoch <= ws[j].epoch
  }

  ghost predicate AllOf(ws: seq<Window>, epoch: int) {
    forall i :: 0 <= i < |ws| ==> ws[i].epoch == epoch
  }

  /** Outside a drain the channel holds windows of the current epoch only. */
  ghost predicate Flowing(cfg: Config, ch: Channel, c: Core) {
    && |ch.buffered| <= cfg.windowCap
    && Ordered(ch.read + ch.buffered)
    && (forall i :: 0 <= i < |ch.read| ==> ch.read[i].epoch <= c.epoch)
    && AllOf(ch.buffered, if Clearing(c.pc) then c.epoch - 1 else c.epoch)
    && (c.pc.Sending? || c.pc.CountDropped? ==> c.pc.w.epoch == c.epoch)
    && (c.runs == [] ==> ch.buffered == [])
  }

  lemma GeneratedAdd(runs: seq<Run>, ps: seq<Packet>)
    ensures Generated(runs + [Run(ps, [])]) == Generated(runs)
  {
    assert (runs + [Run(ps, [])])[..|runs|] == runs;
  }

  lemma GeneratedLast(runs: seq<Run>, run: Run)
    requires runs != []
    ensures Generated(runs[|runs| - 1 := run]) == Generated(runs[..|runs| - 1]) + run.windows
  {
    assert runs[|runs| - 1 := run][..|runs| - 1] == runs[..|runs| - 1];
  }

  lemma AppendKeepsGenerated(cfg: Config, c: Core, p: Packet)
    ensures Generated(CoreAppend(cfg, c, p).runs) == Generated(c.runs)
  {
    if c.prev.None? || c.runs == [] {
      GeneratedAdd(c.runs, [p]);
    } else {
      GeneratedLast(c.runs, CoreAppend(cfg, c, p).runs[|c.runs| - 1]);
    }
  }

  // Each operation moves one window from one account to another.

  lemma BalancedTake(x: Window, cut: seq<Window>, ch: Channel, held: seq<Window>)
    requires Balanced(x, cut, ch, held)
    ensures Balanced(x, cut, Take(ch), held)
  {
    if ch.buffered != [] {
      CountHead(ch.buffered, x);
      CountAppend(ch.read, ch.buffered[0], x);
    }
  }

  lemma BalancedDrain(x: Window, cut: seq<Window>, ch: Channel)
    requires Balanced(x, cut, ch, []) && ch.buffered != []
    ensures Balanced(x, cut, ch.(buffered := ch.buffered[1..]), [ch.buffered[0]])
  {
    CountHead(ch.buffered, x);
    CountOne(ch.buffered[0], x);
  }

  lemma BalancedDiscard(x: Window, cut: seq<Window>, ch: Channel, w: Window)
    requires Balanced(x, cut, ch, [w])
    ensures Balanced(x, cut, Discard(ch, w), [])
  {
    CountOne(w, x);
    CountAppend(ch.discarded, w, x);
  }

  lemma BalancedSend(x: Window, cut: seq<Window>, ch: Channel, w: Window)
    requires Balanced(x, cut, ch, [w])
    ensures Balanced(x, cut, ch.(buffered := ch.buffered + [w]), [])
  {
    CountOne(w, x);
    CountAppend(ch.buffered, w, x);
  }

  lemma BalancedCut(x: Window, cut: seq<Window>, ch: Channel, w: Window)
    requires Balanced(x, cut, ch, [])
    ensures Balanced(x, cut + [w], ch, [w])
  {
    CountOne(w, x);
    CountAppend(cut, w, x);
  }

  lemma ClassifyCutsNothing(cfg: Config, c: Core, p: Packet)
    ensures Generated(CoreClassify(cfg, c, p).runs) == Generated(c.runs)
    ensures InHand(CoreClassify(cfg, c, p).pc) == []
  {
    AppendKeepsGenerated(cfg, c, p);
  }

  lemma GotCutsNothing(cfg: Config, epoch: nat, c: Core, p: Packet)
    requires c.pc == Got(p)
    ensures Generated(CoreGot(cfg, epoch, c, p).runs) == Generated(c.runs)
    ensures InHand(CoreGot(cfg, epoch, c, p).pc) == []
  {
    if p.epoch == epoch == c.queueEpoch {
      ClassifyCutsNothing(cfg, c, p);
    } else if p.epoch == epoch && c.queueEpoch == 0 {
      ClassifyCutsNothing(cfg, c.(epoch := 1, queueEpoch := p.epoch), p);
    }
  }

  lemma ResumeCutsNothing(cfg: Config, c: Core, p: Packet, bump: bool)
    ensures Generated(CoreResume(cfg, c, p, bump).runs) == Generated(c.runs)
    ensures InHand(CoreResume(cfg, c, p, bump).pc) == []
  {
    if bump {
      ClassifyCutsNothing(cfg, c.(queueEpoch := p.epoch), p);
    } else {
      AppendKeepsGenerated(cfg, c, p);
    }
  }

  lemma CheckCutsOne(cfg: Config, epoch: nat, c: Core, p: Packet, g: nat)
    ensures var c' := CoreCheck(cfg, epoch, c, p, g);
            if c'.pc.Idle? then c'.runs == c.runs
            else c'.pc.Sending? && Generated(c'.runs) == Generated(c.runs) + [c'.pc.w]
  {
    var c' := CoreCheck(cfg, epoch, c, p, g);
    if !c'.pc.Idle? {
      GeneratedLast(c.runs, c'.runs[|c.runs| - 1]);
    }
  }

  /** A step of the worker that cuts nothing and holds nothing before or after. */
  lemma ConservedSame(x: Window, ch: Channel, c: Core, c': Core)
    requires Conserved(x, ch, c) && Generated(c'.runs) == Generated(c.runs) && InHand(c'.pc) == InHand(c.pc)
    ensures Conserved(x, ch, c')
  {
  }

  lemma ConservedCut(x: Window, ch: Channel, c: Core, c': Core, w: Window)
    requires Conserved(x, ch, c) && InHand(c.pc) == []
    requires Generated(c'.runs) == Generated(c.runs) + [w] && InHand(c'.pc) == [w]
    ensures Conserved(x, ch, c')
  {
    BalancedCut(x, Generated(c.runs), ch, w);
  }

  lemma ConservedGot(x: Window, cfg: Config, s: State)
    requires Conserved(x, s.chan, s.core) && s.core.pc.Got?
    ensures Conserved(x, WorkStep(cfg, s).chan, WorkStep(cfg, s).core)
  {
    GotCutsNothing(cfg, s.clock.epoch, s.core, s.core.pc.p);
    ConservedSame(x, s.chan, s.core, CoreGot(cfg, s.clock.epoch, s.core, s.core.pc.p));
  }

  lemma ConservedDraining(x: Window, cfg: Config, s: State)
    requires Conserved(x, s.chan, s.core) && s.core.pc.Draining?
    ensures Conserved(x, WorkStep(cfg, s).chan, WorkStep(cfg, s).core)
  {
    var p, bump := s.core.pc.p, s.core.pc.bump;
    if s.chan.buffered == [] {
      ResumeCutsNothing(cfg, s.core, p, bump);
      ConservedSame(x, s.chan, s.core, CoreResume(cfg, s.core, p, bump));
    } else {
      BalancedDrain(x, Generated(s.core.runs), s.chan);
    }
  }

  lemma ConservedCheck(x: Window, cfg: Config, s: State)
    requires Conserved(x, s.chan, s.core) && s.core.pc.CheckEpoch?
    ensures Conserved(x, WorkStep(cfg, s).chan, WorkStep(cfg, s).core)
  {
    var c := s.core;
    var c' := CoreCheck(cfg, s.clock.epoch, c, c.pc.p, c.pc.generation);
    CheckCutsOne(cfg, s.clock.epoch, c, c.pc.p, c.pc.generation);
    if c'.pc.Idle? {
      ConservedSame(x, s.chan, c, c');
    } else {
      ConservedCut(x, s.chan, c, c', c'.pc.w);
    }
  }

  lemma ConservedSending(x: Window, cfg: Config, s: State)
    requires Conserved(x, s.chan, s.core) && s.core.pc.Sending?
    ensures Conserved(x, WorkStep(cfg, s).chan, WorkStep(cfg, s).core)
  {
    var w, s' := s.core.pc.w, WorkStep(cfg, s);
    assert s'.core.runs == s.core.runs;
    if |s.chan.buffered| < cfg.windowCap {
      BalancedSend(x, Generated(s.core.runs), s.chan, w);
      assert s'.chan == s.chan.(buffered := s.chan.buffered + [w]) && InHand(s'.core.pc) == [];
    } else {
      ConservedSame(x, s.chan, s.core, s'.core);
    }
  }

  /** Counting a window that was taken back, or that found no room. */
  lemma ConservedCount(x: Window, cfg: Config, s: State)
    requires Conserved(x, s.chan, s.core) && (s.core.pc.CountDrained? || s.core.pc.CountDropped?)
    ensures Conserved(x, WorkStep(cfg, s).chan, WorkStep(cfg, s).core)
  {
    var w, s' := s.core.pc.w, WorkStep(cfg, s);
    BalancedDiscard(x, Generated(s.core.runs), s.chan, w);
    assert s'.chan == Discard(s.chan, w) && s'.core.runs == s.core.runs && InHand(s'.core.pc) == [];
  }

  /** The other steps leave the channel and the runs alone. */
  lemma ConservedMove(x: Window, cfg: Config, s: State)
    requires Conserved(x, s.chan, s.core)
    requires s.core.pc.Idle? || s.core.pc.Stopped? || s.core.pc.Resetting? || s.core.pc.LoadGeneration?
    ensures Conserved(x, WorkStep(cfg, s).chan, WorkStep(cfg, s).core)
  {
    var s' := WorkStep(cfg, s);
    assert s'.chan == s.chan && s'.core.runs == s.core.runs;
    ConservedSame(x, s.chan, s.core, s'.core);
  }

  lemma ConservedWork(x: Window, cfg: Config, s: State)
    requires Conserved(x, s.chan, s.core)
    ensures Conserved(x, WorkStep(cfg, s).chan, WorkStep(cfg, s).core)
  {
    match s.core.pc
    case Got(_) => ConservedGot(x, cfg, s);
    case Draining(_, _) => ConservedDraining(x, cfg, s);
    case CountDrained(_, _, _) => ConservedCount(x, cfg, s);
    case CheckEpoch(_, _) => ConservedCheck(x, cfg, s);
    case Sending(_, _, _) => ConservedSending(x, cfg, s);
    case CountDropped(_, _, _) => ConservedCount(x, cfg, s);
    case _ => ConservedMove(x, cfg, s);
  }

  lemma FlowingTake(cfg: Config, ch: Channel, c: Core)
    requires Flowing(cfg, ch, c)
    ensures Flowing(cfg, Take(ch), c)
  {
    if ch.buffered != [] {
      assert Take(ch).read + Take(ch).buffered == ch.read + ch.buffered;
    }
  }

  lemma FlowingDrain(cfg: Config, ch: Channel, c: Core)
    requires Flowing(cfg, ch, c) && c.pc.Draining? && ch.buffered != []
    ensures Flowing(cfg, ch.(buffered := ch.buffered[1..]), c.(pc := CountDrained(c.pc.p, c.pc.bump, ch.buffered[0])))
  {
    var all, rest := ch.read + ch.buffered, ch.read + ch.buffered[1..];
    forall i, j | 0 <= i < j < |rest|
      ensures rest[i].epoch <= rest[j].epoch
    {
      var i' := if i < |ch.read| then i else i + 1;
      var j' := if j < |ch.read| then j else j + 1;
      assert rest[i] == all[i'] && rest[j] == all[j'];
    }
  }

  lemma FlowingSend(cfg: Config, ch: Channel, c: Core)
    requires Flowing(cfg, ch, c) && c.pc.Sending? && |ch.buffered| < cfg.windowCap && c.runs != []
    ensures Flowing(cfg, ch.(buffered := ch.buffered + [c.pc.w]), CoreShift(cfg, c, c.pc.p, c.pc.generation))
  {
    assert ch.read + (ch.buffered + [c.pc.w]) == (ch.read + ch.buffered) + [c.pc.w];
  }

  /** Steps that leave the channel alone keep the flow unless they start or end a drain. */
  lemma FlowingSame(cfg: Config, ch: Channel, c: Core, c': Core)
    requires Flowing(cfg, ch, c) && c.epoch <= c'.epoch
    requires c'.pc.Sending? || c'.pc.CountDropped? ==> c'.pc.w.epoch == c'.epoch
    requires ch.buffered == [] ||
             (c'.epoch == c.epoch && Clearing(c'.pc) == Clearing(c.pc)) ||
             (c'.epoch == c.epoch + 1 && Clearing(c'.pc) && !Clearing(c.pc))
    requires c'.runs == [] ==> c.runs == []
    ensures Flowing(cfg, ch, c')
  {
  }

  /** How a step of the worker moves its epoch relative to the drain. */
  ghost predicate Advances(c: Core, c': Core, empty: bool) {
    && c.epoch <= c'.epoch
    && (c'.pc.Sending? || c'.pc.CountDropped? ==> c'.pc.w.epoch == c'.epoch)
    && (c'.runs == [] ==> c.runs == [])
    && (|| c.runs == []
        || empty
        || (c'.epoch == c.epoch && Clearing(c'.pc) == Clearing(c.pc))
        || (c'.epoch == c.epoch + 1 && Clearing(c'.pc) && !Clearing(c.pc)))
  }

  lemma AdvancesGot(cfg: Config, epoch: nat, c: Core, p: Packet)
    requires c.pc == Got(p) && (c.queueEpoch == 0 ==> c.runs == [] && c.epoch == 0)
    ensures Advances(c, CoreGot(cfg, epoch, c, p), false)
  {
  }

  lemma AdvancesResume(cfg: Config, c: Core, p: Packet, bump: bool)
    ensures Advances(c, CoreResume(cfg, c, p, bump), true)
  {
  }

  lemma AdvancesCheck(cfg: Config, epoch: nat, c: Core)
    requires c.pc.CheckEpoch?
    ensures Advances(c, CoreCheck(cfg, epoch, c, c.pc.p, c.pc.generation), false)
  {
  }

  lemma AdvancesWork(cfg: Config, s: State)
    requires s.core.queueEpoch == 0 ==> s.core.runs == [] && s.core.epoch == 0
    requires s.core.pc.Sending? || s.core.pc.CountDropped? ==> s.core.pc.w.epoch == s.core.epoch
    ensures Advances(s.core, WorkStep(cfg, s).core, s.core.pc.Draining? && s.chan.buffered == [])
  {
    match s.core.pc
    case Got(p) => AdvancesGot(cfg, s.clock.epoch, s.core, p);
    case Draining(p, bump) => if s.chan.buffered == [] { AdvancesResume(cfg, s.core, p, bump); }
    case CheckEpoch(_, _) => AdvancesCheck(cfg, s.clock.epoch, s.core);
    case _ =>
  }

  lemma FlowingWork(cfg: Config, s: State)
    requires Flowing(cfg, s.chan, s.core)
    requires s.core.queueEpoch == 0 ==> s.core.runs == [] && s.core.epoch == 0
    requires s.core.pc.Sending? ==> s.core.runs != []
    ensures Flowing(cfg, WorkStep(cfg, s).chan, WorkStep(cfg, s).core)
  {
    var ch, c, s' := s.chan, s.core, WorkStep(cfg, s);
    if c.pc.Draining? && ch.buffered != [] {
      FlowingDrain(cfg, ch, c);
    } else if c.pc.Sending? && |ch.buffered| < cfg.windowCap {
      FlowingSend(cfg, ch, c);
    } else {
      AdvancesWork(cfg, s);
      FlowingSame(cfg, ch, c, s'.core);
    }
  }

  lemma OthersKeepChannel(cfg: Config, s: State, a: Action)
    requires !a.Work?
    ensures Step(cfg, s, a).chan == s.chan || Step(cfg, s, a).chan == Take(s.chan)
    ensures Step(cfg, s, a).core == s.core || (s.core.pc.Idle? && Step(cfg, s, a).core == s.core.(pc := Stopped))
  {
  }

  lemma ConservedStep(x: Window, cfg: Config, s: State, a: Action)
    requires Conserved(x, s.chan, s.core)
    ensures Conserved(x, Step(cfg, s, a).chan, Step(cfg, s, a).core)
  {
    if a.Work? {
      ConservedWork(x, cfg, s);
    } else {
      OthersKeepChannel(cfg, s, a);
      BalancedTake(x, Generated(s.core.runs), s.chan, InHand(s.core.pc));
      ConservedSame(x, Step(cfg, s, a).chan, s.core, Step(cfg, s, a).core);
    }
  }

  lemma DataBasics(cfg: Config, s: State)
    requires Data(cfg, s)
    ensures s.core.queueEpoch == 0 ==> s.core.runs == [] && s.core.epoch == 0
    ensures s.core.pc.Sending? ==> s.core.runs != []
  {
  }

  lemma FlowingStep(cfg: Config, s: State, a: Action)
    requires Data(cfg, s) && Flowing(cfg, s.chan, s.core)
    ensures Flowing(cfg, Step(cfg, s, a).chan, Step(cfg, s, a).core)
  {
    if a.Work? {
      DataBasics(cfg, s);
      FlowingWork(cfg, s);
    } else {
      OthersKeepChannel(cfg, s, a);
      FlowingTake(cfg, s.chan, s.core);
      FlowingSame(cfg, Step(cfg, s, a).chan, s.core, Step(cfg, s, a).core);
    }
  }

  /** What holds of the channel in every reachable state. */
  ghost predicate Delivery(cfg: Config, s: State) {
    Flowing(cfg, s.chan, s.core) && forall x :: Conserved(x, s.chan, s.core)
  }

  lemma {:induction false} DeliveryAlways(cfg: Config, actions: seq<Action>)
    requires ValidConfig(cfg)
    ensures Delivery(cfg, Exec(cfg, actions))
  {
    if actions != [] {
      var before, a := actions[..|actions| - 1], actions[|actions| - 1];
      DataAlways(cfg, before);
      DeliveryAlways(cfg, before);
      FlowingStep(cfg, Exec(cfg, before), a);
      forall x
        ensures Conserved(x, Exec(cfg, actions).chan, Exec(cfg, actions).core)
      {
        ConservedStep(x, cfg, Exec(cfg, before), a);
      }
    }
  }

  /** The account in terms of multisets and lengths. */
  lemma Accounts(cfg: Config, s: State)
    requires Delivery(cfg, s)
    ensures multiset(Generated(s.core.runs)) ==
              multiset(s.chan.read) + multiset(s.chan.buffered) + multiset(s.chan.discarded) +
              multiset(InHand(s.core.pc))
    ensures |Generated(s.core.runs)| == |s.chan.read| + |s.chan.buffered| + s.chan.dropped + |InHand(s.core.pc)|
  {
    forall x
      ensures multiset(Generated(s.core.runs))[x] ==
                multiset(s.chan.read)[x] + multiset(s.chan.buffered)[x] + multiset(s.chan.discarded)[x] +
                multiset(InHand(s.core.pc))[x]
    {
      assert Conserved(x, s.chan, s.core);
      CountIsMultiset(Generated(s.core.runs), x);
      CountIsMultiset(s.chan.read, x);
      CountIsMultiset(s.chan.buffered, x);
      CountIsMultiset(s.chan.discarded, x);
      CountIsMultiset(InHand(s.core.pc), x);
    }
    assert Conserved(Window([], 0, 0, 0, 0), s.chan, s.core);
  }

  lemma {:induction false} GeneratedFrom(runs: seq<Run>, w: Window) returns (r: nat, k: nat)
    requires w in Generated(runs)
    ensures r < |runs| && k < |runs[r].windows| && runs[r].windows[k] == w
  {
    var n := |runs| - 1;
    if w in runs[n].windows {
      r := n;
      k :| 0 <= k < |runs[n].windows| && runs[n].windows[k] == w;
    } else {
      r, k := GeneratedFrom(runs[..n], w);
    }
  }
}
