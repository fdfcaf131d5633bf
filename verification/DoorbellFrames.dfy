/** The doorbell frame hand-off: offers come from the detection path under a mutex, the run
    loop receives without it, and the run's cleanup takes the mutex to close the door. Times
    are nanoseconds since Go's zero time. */
module DoorbellFrames {
  import opened Optional

  const SAMPLE_INTERVAL := 500_000_000
  const DOORBELL_WINDOW := 2_000_000_000

  /** `main` is the time of the main-stream image that travels with the offer, if there is one. */
  datatype Job = Job(at: int, main: Option<int>)

  /** The guard that offerDoorbellFrame evaluates under the mutex. */
  predicate Passes(active: bool, lastOffer: int, pending: seq<Job>, at: int) {
    active && at - lastOffer >= SAMPLE_INTERVAL && |pending| == 0
  }

  /** Whether the run loop analyses the main-stream image of a job. */
  predicate Fresh(lastMain: int, job: Job) {
    job.main.Some? && job.main.value > lastMain && job.at - job.main.value <= DOORBELL_WINDOW
  }

  /** The object with its methods taken one at a time; the channel has one slot. */
  class Snapshots {
    var pending: seq<Job>
    var active: bool
    var lastOffer: int
    var lastMain: int

    constructor ()
      ensures pending == [] && !active && lastOffer == 0
    {
      pending, active, lastOffer, lastMain := [], false, 0, 0;
    }

    method Start()
      modifies this
      ensures active && lastMain == 0 && pending == old(pending) && lastOffer == old(lastOffer)
    {
      active := true;
      lastMain := 0;
    }

    /** An offer is queued exactly when the guard passes, and only then moves lastOffer. */
    method Offer(at: int, main: Option<int>) returns (queued: bool)
      modifies this`pending, this`lastOffer
      ensures queued <==> active && old(pending) == [] && at - old(lastOffer) >= 500_000_000
      ensures queued ==> pending == [Job(at, main)] && lastOffer == at
      ensures !queued ==> pending == old(pending) && lastOffer == old(lastOffer)
    {
      queued := false;
      if !active || at - lastOffer < SAMPLE_INTERVAL || |pending| > 0 {
        return;
      }
      lastOffer := at;
      if |pending| < 1 {
        pending := pending + [Job(at, main)];
        queued := true;
      }
    }

    /** The run loop takes a job and decides whether its main-stream image is new. */
    method Take() returns (analysed: Option<int>)
      requires pending != []
      modifies this`pending, this`lastMain
      ensures pending == old(pending)[1..]
      ensures var job := old(pending)[0];
              analysed ==
                if job.main.Some? && job.main.value > old(lastMain) && job.at - job.main.value <= 2_000_000_000
                then job.main else None
      ensures lastMain == if analysed.Some? then analysed.value else old(lastMain)
    {
      var job := pending[0];
      pending := pending[1..];
      analysed := None;
      if job.main.Some? && job.main.value > lastMain && job.at - job.main.value <= DOORBELL_WINDOW {
        lastMain := job.main.value;
        analysed := job.main;
      }
    }

    /** The deferred cleanup: closes the door, then drains. */
    method Cleanup()
      modifies this`active, this`pending
      ensures !active && pending == []
    {
      active := false;
      while pending != []
        invariant !active
      {
        pending := pending[1..];
      }
    }
  }

  // ---------------------------------------------------------------- the interleaved system

  /** A goroutine inside offerDoorbellFrame: past the unlocked test, holding the mutex, or past
      the guard with the send still to come. */
  datatype Offerer = Wanting(at: int) | Holding(at: int) | Sending(job: Job)

  datatype Run = Stopped | Looping(lastMain: int) | Leaving | Draining

  datatype Mutex = Free | HeldBy(t: nat) | HeldByCleanup

  datatype State = State(active: bool, cancelled: bool, lastOffer: int, pending: seq<Job>, mu: Mutex,
                         run: Run, offerers: map<nat, Offerer>,
                         // history: accepted offers, images analysed in the current run, sends lost
                         accepted: seq<int>, analysed: seq<Job>, lost: nat)

  datatype Action =
    | StartRun
    | Cancel
    | ReceiveJob
    | NoticeCancel
    | LockCleanup
    | DrainOne
    | Arrive(t: nat, at: int)
    | Lock(t: nat)
    | Guard(t: nat, main: Option<int>)
    | Send(t: nat)

  function Init(): State { State(false, false, 0, [], Free, Stopped, map[], [], [], 0) }

  function Next(s: State, a: Action): State {
    match a
    case StartRun =>
      if !s.run.Stopped? then s else s.(active := true, cancelled := false, run := Looping(0), analysed := [])
    case Cancel => s.(cancelled := true)
    case ReceiveJob => if !s.run.Looping? || s.pending == [] then s else Received(s)
    case NoticeCancel => if s.run.Looping? && s.cancelled then s.(run := Leaving) else s
    case LockCleanup =>
      if s.run.Leaving? && s.mu.Free? then s.(mu := HeldByCleanup, active := false, run := Draining) else s
    case DrainOne =>
      if !s.run.Draining? then s
      else if s.pending != [] then s.(pending := s.pending[1..])
      else s.(mu := Free, run := Stopped)
    case Arrive(t, at) =>
      if t in s.offerers || !s.active then s else s.(offerers := s.offerers[t := Wanting(at)])
    case Lock(t) =>
      if t !in s.offerers || !s.offerers[t].Wanting? || !s.mu.Free? then s
      else s.(mu := HeldBy(t), offerers := s.offerers[t := Holding(s.offerers[t].at)])
    case Guard(t, main) =>
      if t !in s.offerers || !s.offerers[t].Holding? then s
      else Guarded(s, t, s.offerers[t].at, main)
    case Send(t) =>
      if t !in s.offerers || !s.offerers[t].Sending? then s
      else if |s.pending| < 1 then
        s.(pending := s.pending + [s.offerers[t].job], mu := Free, offerers := s.offerers - {t})
      else s.(lost := s.lost + 1, mu := Free, offerers := s.offerers - {t})
  }

  /** A job taken after cancellation is thrown away; otherwise its image is analysed if new. */
  function Received(s: State): State
    requires s.run.Looping? && s.pending != []
  {
    var job, rest := s.pending[0], s.pending[1..];
    if s.cancelled then s.(pending := rest, run := Leaving)
    else if Fresh(s.run.lastMain, job) then
      s.(pending := rest, run := Looping(job.main.value), analysed := s.analysed + [job])
    else s.(pending := rest)
  }

  function Guarded(s: State, t: nat, at: int, main: Option<int>): State {
    if Passes(s.active, s.lastOffer, s.pending, at) then
      s.(lastOffer := at, accepted := s.accepted + [at], offerers := s.offerers[t := Sending(Job(at, main))])
    else s.(mu := Free, offerers := s.offerers - {t})
  }

  function Exec(actions: seq<Action>): State {
    if actions == [] then Init() else Next(Exec(actions[..|actions| - 1]), actions[|actions| - 1])
  }

  /** Mutual exclusion: whoever is past Lock holds the mutex. */
  ghost predicate Exclusive(s: State) {
    && (forall t :: t in s.offerers && !s.offerers[t].Wanting? ==> s.mu == HeldBy(t))
    && (s.run.Draining? <==> s.mu.HeldByCleanup?)
  }

  /** The door is closed whenever no run is under way, and a send in progress finds the slot
      empty: only receivers touched it since the guard. */
  ghost predicate Door(s: State) {
    && (s.active <==> s.run.Looping? || s.run.Leaving?)
    && (s.run.Stopped? ==> s.pending == [])
    && (s.run.Leaving? || s.run.Draining? ==> s.cancelled)
    && (forall t :: t in s.offerers && s.offerers[t].Sending? ==> s.pending == [] && s.active)
    && s.lost == 0
  }

  ghost predicate Spaced(times: seq<int>) {
    forall i, j :: 0 <= i < j < |times| ==> times[j] - times[i] >= 500_000_000 * (j - i)
  }

  ghost predicate Offers(s: State) {
    && Spaced(s.accepted)
    && s.lastOffer == LastAccepted(s)
  }

  /** The time of the last accepted offer, Go's zero time before the first. */
  ghost function LastAccepted(s: State): int { if s.accepted == [] then 0 else s.accepted[|s.accepted| - 1] }

  /** The time of the last image analysed in this run, Go's zero time before the first. */
  ghost function LastAnalysed(s: State): int
    requires forall i :: 0 <= i < |s.analysed| ==> s.analysed[i].main.Some?
  {
    if s.analysed == [] then 0 else s.analysed[|s.analysed| - 1].main.value
  }

  ghost predicate Analyses(s: State) {
    && (forall i :: 0 <= i < |s.analysed| ==>
          s.analysed[i].main.Some? && s.analysed[i].at - s.analysed[i].main.value <= 2_000_000_000)
    && (forall i, j :: 0 <= i < j < |s.analysed| ==> s.analysed[i].main.value < s.analysed[j].main.value)
    && (s.run.Looping? ==> s.run.lastMain == LastAnalysed(s))
  }

  ghost predicate Inv(s: State) { Exclusive(s) && Door(s) && Offers(s) && Analyses(s) }

  lemma HandOffNext(s: State, a: Action)
    requires Exclusive(s) && Door(s)
    ensures Exclusive(Next(s, a)) && Door(Next(s, a))
  {
  }

  lemma OffersNext(s: State, a: Action)
    requires Offers(s)
    ensures Offers(Next(s, a))
  {
    var s' := Next(s, a);
    if s'.accepted != s.accepted {
      var n := |s.accepted|;
      forall i, j | 0 <= i < j < |s'.accepted|
        ensures s'.accepted[j] - s'.accepted[i] >= 500_000_000 * (j - i)
      {
        if j == n && i < n - 1 {
          assert s.accepted[n - 1] - s.accepted[i] >= 500_000_000 * (n - 1 - i);
        }
      }
    }
  }

  lemma ReceivedAnalyses(s: State)
    requires Analyses(s) && s.run.Looping? && s.pending != []
    ensures Analyses(Received(s))
  {
  }

  /** No other step analyses an image, and a new run starts from nothing. */
  lemma OthersAnalyse(s: State, a: Action)
    requires !a.ReceiveJob?
    ensures var s' := Next(s, a);
            || (s'.analysed == s.analysed && (s'.run == s.run || !s'.run.Looping?))
            || (s'.analysed == [] && s'.run == Looping(0))
  {
  }

  lemma AnalysesNext(s: State, a: Action)
    requires Analyses(s)
    ensures Analyses(Next(s, a))
  {
    if a.ReceiveJob? {
      if s.run.Looping? && s.pending != [] {
        ReceivedAnalyses(s);
      }
    } else {
      OthersAnalyse(s, a);
    }
  }

  lemma {:induction false} InvAlways(actions: seq<Action>)
    ensures Inv(Exec(actions))
  {
    if actions != [] {
      var s, a := Exec(actions[..|actions| - 1]), actions[|actions| - 1];
      InvAlways(actions[..|actions| - 1]);
      HandOffNext(s, a);
      OffersNext(s, a);
      AnalysesNext(s, a);
    }
  }

  /** In every interleaving with one run at a time: an offer past the guard always lands (the
      default branch of its send is never taken), the slot is empty whenever no run is under way, a
      run ends only when cancelled, and accepted offers are at least 500 ms apart, across runs too. */
  lemma OffersLandAndAreSpaced(actions: seq<Action>)
    ensures var s := Exec(actions);
            && s.lost == 0
            && (forall t :: t in s.offerers && s.offerers[t].Sending? ==>
                  Next(s, Send(t)).pending == [s.offerers[t].job])
            && (s.run.Stopped? ==> s.pending == [] && !s.active)
            && (s.run.Leaving? || s.run.Draining? ==> s.cancelled)
            && (forall i, j :: 0 <= i < j < |s.accepted| ==> s.accepted[j] - s.accepted[i] >= 500_000_000)
  {
    InvAlways(actions);
    var s := Exec(actions);
    forall i, j | 0 <= i < j < |s.accepted|
      ensures s.accepted[j] - s.accepted[i] >= 500_000_000
    {
      assert s.accepted[j] - s.accepted[i] >= 500_000_000 * (j - i);
    }
  }

  lemma StoppedNext(s: State, a: Action)
    requires s.run.Stopped? && a != StartRun
    ensures Next(s, a).run.Stopped?
  {
  }

  /** Until the next run starts nothing can be put into the slot, whatever offers are still
      under way. */
  lemma {:induction false} StoppedStaysEmpty(actions: seq<Action>, later: seq<Action>)
    requires Exec(actions).run.Stopped? && StartRun !in later
    ensures Exec(actions + later).run.Stopped? && Exec(actions + later).pending == []
  {
    InvAlways(actions + later);
    if later == [] {
      assert actions + later == actions;
    } else {
      var n := |later| - 1;
      var before := actions + later[..n];
      StoppedStaysEmpty(actions, later[..n]);
      StoppedNext(Exec(before), later[n]);
      Then(before, later[n], Exec(before), Next(Exec(before), later[n]));
      assert actions + later == before + [later[n]];
    }
  }

  /** Within a run every main-stream image is analysed at most once, in order of its time, and
      never when it is more than the doorbell window old. */
  lemma EachImageAnalysedOnce(actions: seq<Action>)
    ensures var done := Exec(actions).analysed;
            && (forall i :: 0 <= i < |done| ==>
                done[i].main.Some? && done[i].at - done[i].main.value <= 2_000_000_000)
            && (forall i, j :: 0 <= i < j < |done| ==> done[i].main.value < done[j].main.value)
  {
    InvAlways(actions);
  }

  /** Which offers are accepted: in every reachable state, of an offer that holds the mutex, exactly
      when a run has its door open, the slot is empty, and at least 500 ms lie since the last
      accepted offer. Its send then puts exactly that job into the slot; otherwise it lets go of
      the mutex and nothing else changes. */
  lemma OfferAcceptedIff(actions: seq<Action>, t: nat, main: Option<int>)
    requires t in Exec(actions).offerers && Exec(actions).offerers[t].Holding?
    ensures var s := Exec(actions);
            var at, s' := s.offerers[t].at, Next(s, Guard(t, main));
            if (s.run.Looping? || s.run.Leaving?) && s.pending == [] && at - LastAccepted(s) >= 500_000_000 then
              && s' == s.(lastOffer := at, accepted := s.accepted + [at],
                          offerers := s.offerers[t := Sending(Job(at, main))])
              && Next(s', Send(t)).pending == [Job(at, main)] && Next(s', Send(t)).mu.Free?
            else s' == s.(mu := Free, offerers := s.offerers - {t})
  {
    InvAlways(actions);
  }

  /** Which images are analysed: of the jobs taken by a run that has not been cancelled, exactly
      those with an image newer than the last one analysed in the run and at most 2 s older than
      the offer. */
  lemma ImageAnalysedIff(actions: seq<Action>)
    requires var s := Exec(actions);
             s.run.Looping? && !s.cancelled && s.pending != []
    ensures var s := Exec(actions);
            var job, s' := s.pending[0], Next(s, ReceiveJob);
            && (forall i :: 0 <= i < |s.analysed| ==> s.analysed[i].main.Some?)
            && s'.pending == s.pending[1..] && s'.run.Looping?
            && s'.analysed ==
                 if job.main.Some? && job.main.value > LastAnalysed(s) && job.at - job.main.value <= 2_000_000_000
                 then s.analysed + [job] else s.analysed
  {
    InvAlways(actions);
  }

  // ---------------------------------------------------------------- offers half a second apart

  lemma Then(actions: seq<Action>, a: Action, s: State, s': State)
    requires Exec(actions) == s && Next(s, a) == s'
    ensures Exec(actions + [a]) == s'
  {
    assert (actions + [a])[..|actions|] == actions;
  }

  /** An offer that comes when it is due goes all the way into the slot and out again. */
  lemma WholeOffer(actions: seq<Action>, at: int) returns (actions': seq<Action>)
    requires var s := Exec(actions);
             && s.active && !s.cancelled && s.run.Looping? && s.pending == [] && s.mu.Free? && s.offerers == map[]
             && at - s.lastOffer >= 500_000_000
    ensures Exec(actions') == Exec(actions).(lastOffer := at, accepted := Exec(actions).accepted + [at])
  {
    var s, job := Exec(actions), Job(at, None);
    var s1 := s.(offerers := map[0 := Wanting(at)]);
    var s2 := s.(offerers := map[0 := Holding(at)], mu := HeldBy(0));
    var s3 := s2.(lastOffer := at, accepted := s.accepted + [at], offerers := map[0 := Sending(job)]);
    var s4 := s3.(pending := [job], mu := Free, offerers := map[]);
    Then(actions, Arrive(0, at), s, s1);
    actions' := actions + [Arrive(0, at)];
    assert s1.offerers[0 := Holding(at)] == s2.offerers;
    Then(actions', Lock(0), s1, s2);
    actions' := actions' + [Lock(0)];
    assert s2.offerers[0 := Sending(job)] == s3.offerers;
    Then(actions', Guard(0, None), s2, s3);
    actions' := actions' + [Guard(0, None)];
    assert s3.pending + [job] == [job] && s3.offerers - {0} == map[];
    Then(actions', Send(0), s3, s4);
    actions' := actions' + [Send(0)];
    assert [job][1..] == s.pending;
    Then(actions', ReceiveJob, s4, s4.(pending := s.pending));
    actions' := actions' + [ReceiveJob];
  }

  /** Two offers exactly 500 ms apart can both be accepted. */
  lemma HalfASecondIsEnough(at: int) returns (actions: seq<Action>)
    requires at >= 500_000_000
    ensures Exec(actions).accepted == [at, at + 500_000_000]
  {
    actions := Started();
    actions := WholeOffer(actions, at);
    assert Init().accepted + [at] == [at];
    actions := WholeOffer(actions, at + 500_000_000);
  }

  lemma Started() returns (actions: seq<Action>)
    ensures Exec(actions) == Init().(active := true, run := Looping(0))
  {
    actions := [StartRun];
    assert actions[..0] == [];
  }
}
