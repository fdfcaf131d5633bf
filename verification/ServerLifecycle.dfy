/** The race between Start and any number of Shutdown calls. The critical sections under srvMu
    are atomic. Of net/http the model has the order of its own steps: ListenAndServe tests the
    shutdown flag, binds, and tests again when it tracks the listener, closing what it bound if it
    is refused; Shutdown sets the flag and then closes the tracked listener. */
module ServerLifecycle {
  /** What srvMu guards. */
  datatype Guarded = Guarded(closed: bool, hasServer: bool)

  /** Start's critical section, and whether it goes on. */
  function Installing(g: Guarded): (Guarded, bool) {
    if g.closed then (g, false) else (g.(hasServer := true), true)
  }

  /** Shutdown's critical section, and whether it found a server. */
  function Closing(g: Guarded): (Guarded, bool) { (g.(closed := true), g.hasServer) }

  class Server {
    var closed: bool
    var hasServer: bool

    function Contents(): Guarded
      reads this
    {
      Guarded(closed, hasServer)
    }

    constructor ()
      ensures Contents() == Guarded(false, false)
    {
      closed, hasServer := false, false;
    }

    method Install() returns (ok: bool)
      modifies this
      ensures (Contents(), ok) == Installing(old(Contents()))
    {
      if closed {
        return false;
      }
      hasServer := true;
      ok := true;
    }

    method MarkClosed() returns (srv: bool)
      modifies this
      ensures (Contents(), srv) == Closing(old(Contents()))
    {
      closed := true;
      srv := hasServer;
    }
  }

  // ---------------------------------------------------------------- the interleaved system

  /** `Bound` has an open socket that nobody accepts from, `Turned` has been refused and is about to
      close it, `Accepting` is in the accept loop. What becomes of a connection once accepted is
      not modelled. */
  datatype Start = Before | Installed | Checked | Bound | Turned | Accepting | Over
  datatype Shutdown = Called | Passed(holdsServer: bool) | Told | Returned

  /** `told` is the http.Server's own shutdown flag, `open` says that the socket is open. */
  datatype State = State(guarded: Guarded, told: bool, open: bool, start: Start, shutdowns: map<nat, Shutdown>)

  datatype Action =
    | LockStart
    | CheckFlag
    | BindSocket
    | TrackListener
    | CloseSocket
    | CallShutdown(t: nat)
    | LockShutdown(t: nat)
    | SetFlag(t: nat)
    | CloseListener(t: nat)

  function Init(): State { State(Guarded(false, false), false, false, Before, map[]) }

  predicate At(s: State, t: nat, call: Shutdown) { t in s.shutdowns && s.shutdowns[t] == call }

  function Next(s: State, a: Action): State {
    match a
    case LockStart =>
      if !s.start.Before? then s else
        var (guarded, ok) := Installing(s.guarded);
        s.(guarded := guarded, start := if ok then Installed else Over)
    case CheckFlag => if !s.start.Installed? then s else s.(start := if s.told then Over else Checked)
    case BindSocket => if !s.start.Checked? then s else s.(open := true, start := Bound)
    case TrackListener => if !s.start.Bound? then s else s.(start := if s.told then Turned else Accepting)
    case CloseSocket => if !s.start.Turned? then s else s.(open := false, start := Over)
    case CallShutdown(t) => if t in s.shutdowns then s else s.(shutdowns := s.shutdowns[t := Called])
    case LockShutdown(t) =>
      if !At(s, t, Called) then s else
        var (guarded, srv) := Closing(s.guarded);
        s.(guarded := guarded, shutdowns := s.shutdowns[t := Passed(srv)])
    case SetFlag(t) =>
      if At(s, t, Passed(true)) then s.(told := true, shutdowns := s.shutdowns[t := Told])
      else if At(s, t, Passed(false)) then s.(shutdowns := s.shutdowns[t := Returned])
      else s
    case CloseListener(t) =>
      if !At(s, t, Told) then s
      else if s.start.Accepting? then s.(open := false, start := Over, shutdowns := s.shutdowns[t := Returned])
      else s.(shutdowns := s.shutdowns[t := Returned])
  }

  function ExecFrom(s: State, actions: seq<Action>): State {
    if actions == [] then s else Next(ExecFrom(s, actions[..|actions| - 1]), actions[|actions| - 1])
  }

  lemma ExecFromAppend(s: State, actions: seq<Action>, a: Action)
    ensures ExecFrom(s, actions + [a]) == Next(ExecFrom(s, actions), a)
  {
    assert (actions + [a])[..|actions|] == actions;
  }

  function Exec(actions: seq<Action>): State { ExecFrom(Init(), actions) }

  /** Start is kept out for good: it never installed a server and never will. */
  ghost predicate KeptOut(s: State) {
    s.guarded.closed && !s.guarded.hasServer && (s.start.Before? || s.start.Over?)
  }

  /** No connection is being accepted, and none will be. */
  ghost predicate Quiet(s: State) { KeptOut(s) || (s.told && !s.start.Accepting?) }

  ghost predicate Inv(s: State) {
    && (!s.guarded.hasServer ==> (s.start.Before? || s.start.Over?) && !s.told)
    && (s.open <==> s.start.Bound? || s.start.Turned? || s.start.Accepting?)
    && (s.start.Turned? ==> s.told)
    && (s.start.Before? ==> !s.guarded.hasServer)
    && (forall t :: t in s.shutdowns ==> CallOk(s, s.shutdowns[t]))
  }

  /** Who passed while no server was installed has kept Start out for good. */
  ghost predicate CallOk(s: State, call: Shutdown) {
    && (!call.Called? ==> s.guarded.closed)
    && match call
       case Called => true
       case Passed(holdsServer) => if holdsServer then s.guarded.hasServer else KeptOut(s)
       case Told => s.told
       case Returned => Quiet(s)
  }

  lemma InvNext(s: State, a: Action)
    requires Inv(s)
    ensures Inv(Next(s, a))
  {
  }

  lemma {:induction false} InvAlways(actions: seq<Action>)
    ensures Inv(Exec(actions))
  {
    if actions != [] {
      InvAlways(actions[..|actions| - 1]);
      InvNext(Exec(actions[..|actions| - 1]), actions[|actions| - 1]);
    }
  }

  /** Once a Shutdown is past its critical section, in every interleaving: either Start is kept
      out for good, or the server has been told to stop, or this call holds the server and tells
      it in its next step. */
  lemma ShutdownCannotMissTheServer(actions: seq<Action>, t: nat)
    requires t in Exec(actions).shutdowns && !Exec(actions).shutdowns[t].Called?
    ensures var s := Exec(actions);
            KeptOut(s) || s.told || (At(s, t, Passed(true)) && Next(s, SetFlag(t)).told)
  {
    InvAlways(actions);
  }

  lemma QuietNext(s: State, a: Action)
    requires Inv(s) && Quiet(s)
    ensures Quiet(Next(s, a))
  {
  }

  lemma {:induction false} QuietStays(s: State, later: seq<Action>)
    requires Inv(s) && Quiet(s)
    ensures Inv(ExecFrom(s, later)) && Quiet(ExecFrom(s, later))
  {
    if later != [] {
      var n := |later| - 1;
      QuietStays(s, later[..n]);
      InvNext(ExecFrom(s, later[..n]), later[n]);
      QuietNext(ExecFrom(s, later[..n]), later[n]);
    }
  }

  /** After any Shutdown has returned no connection is accepted, now or after anything that follows.
      Should a socket be open then, Start's next two steps refuse it and close it. */
  lemma NothingAcceptedAfterShutdown(actions: seq<Action>, later: seq<Action>, t: nat)
    requires At(Exec(actions), t, Returned)
    ensures var s := ExecFrom(Exec(actions), later);
            && !s.start.Accepting?
            && (s.open <==> s.start.Bound? || s.start.Turned?)
            && (s.start.Bound? ==> Next(s, TrackListener).start.Turned?)
            && (s.start.Turned? ==> !Next(s, CloseSocket).open)
            && (s.start.Over? ==> !s.open)
  {
    InvAlways(actions);
    QuietStays(Exec(actions), later);
  }

  // ---------------------------------------------------------------- when a socket can outlive a Shutdown

  /** Start has ended, or accepts already, or has yet to run into a closed door: its own critical
      section with `closed` set, or its test of the flag with the flag set. */
  ghost predicate Caught(s: State) {
    || s.start.Over? || s.start.Accepting?
    || (s.start.Before? && s.guarded.closed)
    || (s.start.Installed? && s.told)
  }

  lemma CaughtNext(s: State, a: Action)
    requires Inv(s) && Caught(s)
    ensures Caught(Next(s, a))
  {
  }

  lemma {:induction false} CaughtStays(s: State, later: seq<Action>)
    requires Inv(s) && Caught(s)
    ensures Inv(ExecFrom(s, later)) && Caught(ExecFrom(s, later))
  {
    if later != [] {
      var n := |later| - 1;
      CaughtStays(s, later[..n]);
      InvNext(ExecFrom(s, later[..n]), later[n]);
      CaughtNext(ExecFrom(s, later[..n]), later[n]);
    }
  }

  lemma CaughtIsClosed(s: State, t: nat)
    requires Inv(s) && Caught(s) && At(s, t, Returned)
    ensures !s.open
  {
    assert CallOk(s, Returned);
  }

  /** Start between its test of the flag and closing the socket. */
  ghost predicate Loose(s: State) { s.start.Checked? || s.start.Bound? || s.start.Turned? }

  lemma ExecTwo(s: State, a: Action, b: Action)
    ensures ExecFrom(s, [a] + [b]) == Next(Next(s, a), b)
  {
    ExecFromAppend(s, [], a);
    assert [] + [a] == [a];
    ExecFromAppend(s, [a], b);
  }

  /** All that call `t` of Shutdown still has to do, from wherever it stands. */
  function ToLock(t: nat): seq<Action> { [CallShutdown(t)] + [LockShutdown(t)] }

  function ToReturn(t: nat): seq<Action> { [SetFlag(t)] + [CloseListener(t)] }

  lemma GoesToLock(s: State, t: nat)
    requires Inv(s) && Loose(s)
    ensures var s' := ExecFrom(s, ToLock(t));
            Inv(s') && s'.start == s.start && t in s'.shutdowns && !s'.shutdowns[t].Called?
  {
    ExecTwo(s, CallShutdown(t), LockShutdown(t));
    InvNext(s, CallShutdown(t));
    InvNext(Next(s, CallShutdown(t)), LockShutdown(t));
  }

  lemma GoesToReturn(s: State, t: nat)
    requires Inv(s) && Loose(s) && t in s.shutdowns && !s.shutdowns[t].Called?
    ensures var s' := ExecFrom(s, ToReturn(t));
            Inv(s') && s'.start == s.start && At(s', t, Returned)
  {
    ExecTwo(s, SetFlag(t), CloseListener(t));
    InvNext(s, SetFlag(t));
    InvNext(Next(s, SetFlag(t)), CloseListener(t));
    assert CallOk(s, s.shutdowns[t]);
  }

  lemma {:induction false} ExecFromConcat(s: State, a: seq<Action>, b: seq<Action>)
    ensures ExecFrom(s, a + b) == ExecFrom(ExecFrom(s, a), b)
  {
    if b == [] {
      assert a + b == a;
    } else {
      var n := |b| - 1;
      assert (a + b)[..|a + b| - 1] == a + b[..n];
      ExecFromConcat(s, a, b[..n]);
    }
  }

  /** If Start is not caught it can be led past its test of the flag. */
  lemma GetLoose(s: State)
    requires Inv(s) && !Caught(s)
    ensures var s' := ExecFrom(s, [LockStart] + [CheckFlag]);
            Inv(s') && Loose(s')
  {
    ExecTwo(s, LockStart, CheckFlag);
    InvNext(s, LockStart);
    InvNext(Next(s, LockStart), CheckFlag);
  }

  /** A loose Start holds an open socket, or opens one in its next step. */
  lemma LooseOpens(s: State, t: nat)
    requires Inv(s) && Loose(s) && At(s, t, Returned)
    ensures Next(s, BindSocket).open && At(Next(s, BindSocket), t, Returned)
  {
  }

  /** Exactly when it is sure, before or during call `t` of Shutdown, that no socket is open once
      the call has returned, now or later: when Start is caught already. */
  lemma NoSocketLeftIff(actions: seq<Action>, t: nat)
    ensures var s := Exec(actions);
            (forall later :: At(ExecFrom(s, later), t, Returned) ==> !ExecFrom(s, later).open) <==> Caught(s)
  {
    var s := Exec(actions);
    InvAlways(actions);
    if Caught(s) {
      forall later | At(ExecFrom(s, later), t, Returned)
        ensures !ExecFrom(s, later).open
      {
        CaughtStays(s, later);
        CaughtIsClosed(ExecFrom(s, later), t);
      }
    } else {
      var later := LeftOpen(s, t);
      assert At(ExecFrom(s, later), t, Returned) && ExecFrom(s, later).open;
    }
  }

  lemma LeftOpen(s: State, t: nat) returns (later: seq<Action>)
    requires Inv(s) && !Caught(s)
    ensures At(ExecFrom(s, later), t, Returned) && ExecFrom(s, later).open
  {
    later := [LockStart] + [CheckFlag];
    GetLoose(s);
    GoesToLock(ExecFrom(s, later), t);
    ExecFromConcat(s, later, ToLock(t));
    later := later + ToLock(t);
    GoesToReturn(ExecFrom(s, later), t);
    ExecFromConcat(s, later, ToReturn(t));
    later := later + ToReturn(t);
    LooseOpens(ExecFrom(s, later), t);
    ExecFromAppend(s, later, BindSocket);
    later := later + [BindSocket];
  }

  /** Exactly when it is sure, as call `t` returns, that no socket is open now or later: when Start
      is not between its test of the flag and closing the socket. */
  lemma NoSocketAfterReturnIff(actions: seq<Action>, t: nat)
    requires At(Exec(actions), t, Returned)
    ensures (forall later :: !ExecFrom(Exec(actions), later).open) <==> !Loose(Exec(actions))
  {
    var s := Exec(actions);
    InvAlways(actions);
    assert CallOk(s, Returned);
    if Loose(s) {
      LooseOpens(s, t);
      ExecFromAppend(s, [], BindSocket);
      assert [] + [BindSocket] == [BindSocket];
      assert ExecFrom(s, [BindSocket]).open;
    } else {
      forall later
        ensures !ExecFrom(s, later).open
      {
        CaughtStays(s, later);
        QuietStays(s, later);
      }
    }
  }

  lemma ExecAppend(actions: seq<Action>, a: Action)
    ensures Exec(actions + [a]) == Next(Exec(actions), a)
  {
    ExecFromAppend(Init(), actions, a);
  }

  /** A socket is in fact open after a Shutdown has returned when Start tested the flag before it
      was set and binds afterwards. */
  lemma LateBindIsReachable() returns (actions: seq<Action>)
    ensures At(Exec(actions), 0, Returned) && Exec(actions).open && Exec(actions).start.Bound?
  {
    var starting := [LockStart] + [CheckFlag];
    ExecAppend([], LockStart);
    ExecAppend([LockStart], CheckFlag);
    assert [] + [LockStart] == [LockStart];
    assert Exec(starting) == State(Guarded(false, true), false, false, Checked, map[]);
    var passed := starting + [CallShutdown(0)] + [LockShutdown(0)];
    ExecAppend(starting, CallShutdown(0));
    ExecAppend(starting + [CallShutdown(0)], LockShutdown(0));
    assert At(Exec(passed), 0, Passed(true)) && Exec(passed).start.Checked?;
    var returned := passed + [SetFlag(0)] + [CloseListener(0)];
    ExecAppend(passed, SetFlag(0));
    ExecAppend(passed + [SetFlag(0)], CloseListener(0));
    assert At(Exec(returned), 0, Returned) && Exec(returned).start.Checked?;
    actions := returned + [BindSocket];
    ExecAppend(returned, BindSocket);
  }
}
