/** The re-match coalescer: any number of requests per object, at most one worker, and no
    request lost to the worker's finish section. Critical sections under objectRematchMu are
    atomic steps; the runs between them are not. */
module Rematch {
  type Id = int

  /** The two maps guarded by objectRematchMu; a missing key reads as false. */
  datatype Jobs = Jobs(running: map<Id, bool>, pending: map<Id, bool>)

  function Get(m: map<Id, bool>, id: Id): bool { id in m && m[id] }

  /** scheduleObjectRematch's critical section, and whether it spawns a worker. */
  function Requested(j: Jobs, id: Id): (Jobs, bool) {
    if Get(j.running, id) then (j.(pending := j.pending[id := true]), false)
    else (j.(running := j.running[id := true]), true)
  }

  /** The worker's finish section, and whether it runs again. */
  function Finished(j: Jobs, id: Id): (Jobs, bool) {
    if Get(j.pending, id) then (j.(pending := j.pending[id := false]), true)
    else (Jobs(j.running - {id}, j.pending - {id}), false)
  }

  class Coalescer {
    var running: map<Id, bool>
    var pending: map<Id, bool>

    function Contents(): Jobs
      reads this
    {
      Jobs(running, pending)
    }

    constructor ()
      ensures Contents() == Jobs(map[], map[])
    {
      running, pending := map[], map[];
    }

    method Request(id: Id) returns (spawn: bool)
      modifies this
      ensures id == 0 ==> Contents() == old(Contents()) && !spawn
      ensures id != 0 ==> (Contents(), spawn) == Requested(old(Contents()), id)
    {
      if id == 0 {
        return false;
      }
      if Get(running, id) {
        pending := pending[id := true];
        return false;
      }
      running := running[id := true];
      spawn := true;
    }

    method Finish(id: Id) returns (again: bool)
      modifies this
      ensures (Contents(), again) == Finished(old(Contents()), id)
    {
      if Get(pending, id) {
        pending := pending[id := false];
        return true;
      }
      running := running - {id};
      pending := pending - {id};
      again := false;
    }
  }

  // ---------------------------------------------------------------- the interleaved system

  /** A worker goroutine: about to start a run, inside one (with the number of requests accepted
      when it started), about to enter the finish section, or gone. */
  datatype Pc = Starting | Running(since: nat) | Finishing | Exited
  datatype Worker = Worker(id: Id, pc: Pc)
  datatype Done = Done(id: Id, since: nat)

  datatype State = State(jobs: Jobs, workers: seq<Worker>, requests: seq<Id>, completed: seq<Done>)

  datatype Action = Request(id: Id) | Step(i: nat)

  function Init(): State { State(Jobs(map[], map[]), [], [], []) }

  function Next(s: State, a: Action): State {
    match a
    case Request(id) =>
      if id == 0 then s else
        var (jobs, spawn) := Requested(s.jobs, id);
        State(jobs, if spawn then s.workers + [Worker(id, Starting)] else s.workers, s.requests + [id], s.completed)
    case Step(i) =>
      if i >= |s.workers| then s else
        var w := s.workers[i];
        match w.pc
        case Starting => s.(workers := s.workers[i := w.(pc := Running(|s.requests|))])
        case Running(since) =>
          s.(workers := s.workers[i := w.(pc := Finishing)], completed := s.completed + [Done(w.id, since)])
        case Finishing =>
          var (jobs, again) := Finished(s.jobs, w.id);
          s.(jobs := jobs, workers := s.workers[i := w.(pc := if again then Starting else Exited)])
        case Exited => s
  }

  function Exec(s: State, actions: seq<Action>): State {
    if actions == [] then s else Next(Exec(s, actions[..|actions| - 1]), actions[|actions| - 1])
  }

  ghost predicate Live(s: State, i: nat) { i < |s.workers| && !s.workers[i].pc.Exited? }

  /** Request number `q` has been followed by a complete run that started after it. */
  ghost predicate Served(s: State, q: nat)
    requires q < |s.requests|
  {
    exists d :: 0 <= d < |s.completed| && s.completed[d].id == s.requests[q] && q < s.completed[d].since
  }

  /** Worker `i` still owes a run that starts after request `q`, or is inside it. */
  ghost predicate Owes(s: State, i: nat, q: nat)
    requires q < |s.requests|
  {
    && Live(s, i) && s.workers[i].id == s.requests[q]
    && match s.workers[i].pc
       case Starting => true
       case Running(since) => q < since || Get(s.jobs.pending, s.workers[i].id)
       case _ => Get(s.jobs.pending, s.workers[i].id)
  }

  ghost predicate OneWorker(s: State) {
    && (forall i: nat, j: nat :: i < j < |s.workers| && Live(s, i) && Live(s, j) ==> s.workers[i].id != s.workers[j].id)
    && (forall i: nat :: Live(s, i) ==> Get(s.jobs.running, s.workers[i].id))
    && (forall id :: id in s.jobs.running ==>
          s.jobs.running[id] && exists i: nat :: Live(s, i) && s.workers[i].id == id)
    && (forall id :: id in s.jobs.pending ==> id in s.jobs.running)
  }

  ghost predicate NothingLost(s: State) {
    forall q :: 0 <= q < |s.requests| ==> Served(s, q) || exists i: nat :: Owes(s, i, q)
  }

  lemma OneWorkerRequest(s: State, id: Id)
    requires OneWorker(s)
    ensures OneWorker(Next(s, Request(id)))
  {
    var s' := Next(s, Request(id));
    forall i: nat | Live(s, i)
      ensures Live(s', i) && s'.workers[i] == s.workers[i]
    {
    }
    if id != 0 && !Get(s.jobs.running, id) {
      assert Live(s', |s.workers|) && s'.workers[|s.workers|].id == id;
    }
  }

  /** A worker's step outside the finish section changes neither map nor who is live. */
  lemma OneWorkerRun(s: State, i: nat)
    requires OneWorker(s) && i < |s.workers| && !s.workers[i].pc.Finishing?
    ensures OneWorker(Next(s, Step(i)))
  {
    var s' := Next(s, Step(i));
    assert s'.jobs == s.jobs && |s'.workers| == |s.workers|;
    forall j: nat
      ensures Live(s', j) <==> Live(s, j)
      ensures Live(s, j) ==> s'.workers[j].id == s.workers[j].id
    {
    }
  }

  lemma OneWorkerFinish(s: State, i: nat)
    requires OneWorker(s) && i < |s.workers| && s.workers[i].pc.Finishing?
    ensures OneWorker(Next(s, Step(i)))
  {
    var s' := Next(s, Step(i));
    assert Live(s, i);
    forall j: nat | Live(s, j) && (j != i || Live(s', i))
      ensures Live(s', j) && s'.workers[j].id == s.workers[j].id
    {
    }
  }

  lemma OneWorkerStep(s: State, i: nat)
    requires OneWorker(s)
    ensures OneWorker(Next(s, Step(i)))
  {
    if i < |s.workers| {
      if s.workers[i].pc.Finishing? {
        OneWorkerFinish(s, i);
      } else {
        OneWorkerRun(s, i);
      }
    }
  }

  lemma ServedStays(s: State, a: Action, q: nat)
    requires q < |s.requests| && Served(s, q)
    ensures q < |Next(s, a).requests| && Served(Next(s, a), q)
  {
    var d :| 0 <= d < |s.completed| && s.completed[d].id == s.requests[q] && q < s.completed[d].since;
    assert Next(s, a).completed[d] == s.completed[d];
  }

  /** How many more steps worker `i` needs before request `q` is served. */
  ghost function Rank(s: State, i: nat, q: nat): nat
    requires q < |s.requests| && Owes(s, i, q)
  {
    match s.workers[i].pc
    case Starting => 2
    case Running(since) => if q < since then 1 else 4
    case _ => 3
  }

  /** No step of anyone else delays the worker; each of its own steps brings the run closer. */
  lemma OwesProgress(s: State, a: Action, i: nat, q: nat)
    requires OneWorker(s) && q < |s.requests| && Owes(s, i, q)
    requires forall d :: 0 <= d < |s.completed| ==> s.completed[d].since <= |s.requests|
    ensures q < |Next(s, a).requests|
    ensures || Served(Next(s, a), q)
            || (Owes(Next(s, a), i, q) &&
                Rank(Next(s, a), i, q) <= Rank(s, i, q) - (if a == Step(i) then 1 else 0))
  {
    var s' := Next(s, a);
    assert s'.requests[q] == s.requests[q];
    if a == Step(i) && s.workers[i].pc.Running? && q < s.workers[i].pc.since {
      var d := |s.completed|;
      assert s'.completed[d] == Done(s.requests[q], s.workers[i].pc.since);
    }
  }

  lemma NothingLostNext(s: State, a: Action)
    requires OneWorker(s) && NothingLost(s)
    requires forall d :: 0 <= d < |s.completed| ==> s.completed[d].since <= |s.requests|
    ensures NothingLost(Next(s, a))
  {
    var s' := Next(s, a);
    forall q | 0 <= q < |s'.requests|
      ensures Served(s', q) || exists i: nat :: Owes(s', i, q)
    {
      if q < |s.requests| {
        if Served(s, q) {
          ServedStays(s, a, q);
        } else {
          var i: nat :| Owes(s, i, q);
          OwesProgress(s, a, i, q);
        }
      } else {
        var id := s'.requests[q];
        if Get(s.jobs.running, id) {
          var i: nat :| Live(s, i) && s.workers[i].id == id;
          assert Owes(s', i, q);
        } else {
          assert Owes(s', |s.workers|, q);
        }
      }
    }
  }

  // ---------------------------------------------------------------- counting

  function Count(ids: seq<Id>, id: Id): nat {
    if ids == [] then 0 else Count(ids[..|ids| - 1], id) + (if ids[|ids| - 1] == id then 1 else 0)
  }

  function CountDone(done: seq<Done>, id: Id): nat {
    if done == [] then 0 else CountDone(done[..|done| - 1], id) + (if done[|done| - 1].id == id then 1 else 0)
  }

  lemma CountAppend(ids: seq<Id>, x: Id, id: Id)
    ensures Count(ids + [x], id) == Count(ids, id) + (if x == id then 1 else 0)
  {
    assert (ids + [x])[..|ids|] == ids;
  }

  lemma CountDoneAppend(done: seq<Done>, x: Done, id: Id)
    ensures CountDone(done + [x], id) == CountDone(done, id) + (if x.id == id then 1 else 0)
  {
    assert (done + [x])[..|done|] == done;
  }

  ghost predicate Busy(s: State, id: Id) {
    exists i: nat :: Live(s, i) && s.workers[i].id == id && !s.workers[i].pc.Finishing?
  }

  /** Runs of `id` begun or promised but not complete. */
  ghost function Outstanding(s: State, id: Id): nat {
    (if Busy(s, id) then 1 else 0) + (if Get(s.jobs.pending, id) then 1 else 0)
  }

  ghost predicate Budgeted(s: State) {
    forall id :: CountDone(s.completed, id) + Outstanding(s, id) <= Count(s.requests, id)
  }

  lemma BusyRequest(s: State, x: Id, id: Id)
    requires OneWorker(s)
    ensures Busy(Next(s, Request(x)), id) ==> Busy(s, id) || (x == id && !Get(s.jobs.running, id))
    ensures !Get(s.jobs.running, id) ==> !Busy(s, id) && !Get(s.jobs.pending, id)
  {
    var s' := Next(s, Request(x));
    if Busy(s', id) {
      var i: nat :| Live(s', i) && s'.workers[i].id == id && !s'.workers[i].pc.Finishing?;
      if i < |s.workers| {
        assert Live(s, i);
      }
    }
  }

  lemma BudgetedRequest(s: State, x: Id, id: Id)
    requires OneWorker(s) && Budgeted(s)
    ensures var s' := Next(s, Request(x));
            CountDone(s'.completed, id) + Outstanding(s', id) <= Count(s'.requests, id)
  {
    BusyRequest(s, x, id);
    CountAppend(s.requests, x, id);
    assert CountDone(s.completed, id) + Outstanding(s, id) <= Count(s.requests, id);
  }

  /** Whether this step of worker `k` completes a run of `id`. */
  ghost predicate Completes(s: State, k: nat, id: Id) {
    k < |s.workers| && s.workers[k].pc.Running? && s.workers[k].id == id
  }

  lemma OthersStay(s: State, k: nat, i: nat)
    requires i != k
    ensures Live(Next(s, Step(k)), i) <==> Live(s, i)
    ensures Live(s, i) ==> Next(s, Step(k)).workers[i] == s.workers[i]
  {
  }

  /** Only worker `k` can have been the busy one if it is live and works for `id`. */
  lemma BusyStep(s: State, k: nat, id: Id)
    requires OneWorker(s)
    ensures (if Completes(s, k, id) then 1 else 0) + Outstanding(Next(s, Step(k)), id) <= Outstanding(s, id)
  {
    var s' := Next(s, Step(k));
    if Live(s, k) && s.workers[k].id == id {
      if !s.workers[k].pc.Finishing? {
        assert Busy(s, id);
      }
      forall i: nat | Live(s', i) && s'.workers[i].id == id
        ensures i == k
      {
        if i != k {
          OthersStay(s, k, i);
        }
      }
    } else if Busy(s', id) {
      var i: nat :| Live(s', i) && s'.workers[i].id == id && !s'.workers[i].pc.Finishing?;
      if i != k {
        OthersStay(s, k, i);
      }
      assert Live(s, i) && s.workers[i] == s'.workers[i];
    }
  }

  lemma CompletedStep(s: State, k: nat, id: Id)
    ensures CountDone(Next(s, Step(k)).completed, id) == CountDone(s.completed, id) +
              (if Completes(s, k, id) then 1 else 0)
    ensures Next(s, Step(k)).requests == s.requests
  {
    if k < |s.workers| && s.workers[k].pc.Running? {
      CountDoneAppend(s.completed, Done(s.workers[k].id, s.workers[k].pc.since), id);
    }
  }

  lemma BudgetedStep(s: State, k: nat, id: Id)
    requires OneWorker(s) && Budgeted(s)
    ensures var s' := Next(s, Step(k));
            CountDone(s'.completed, id) + Outstanding(s', id) <= Count(s'.requests, id)
  {
    BusyStep(s, k, id);
    CompletedStep(s, k, id);
    assert CountDone(s.completed, id) + Outstanding(s, id) <= Count(s.requests, id);
  }

  // ---------------------------------------------------------------- every reachable state

  /** No run claims to have started after a request that has not been made. */
  ghost predicate Timely(s: State) {
    && (forall d :: 0 <= d < |s.completed| ==> s.completed[d].since <= |s.requests|)
    && (forall i :: 0 <= i < |s.workers| && s.workers[i].pc.Running? ==> s.workers[i].pc.since <= |s.requests|)
  }

  ghost predicate Inv(s: State) { OneWorker(s) && NothingLost(s) && Budgeted(s) && Timely(s) }

  lemma TimelyNext(s: State, a: Action)
    requires Timely(s)
    ensures Timely(Next(s, a))
  {
  }

  lemma OneWorkerNext(s: State, a: Action)
    requires OneWorker(s)
    ensures OneWorker(Next(s, a))
  {
    match a
    case Request(x) => OneWorkerRequest(s, x);
    case Step(k) => OneWorkerStep(s, k);
  }

  lemma BudgetedNext(s: State, a: Action)
    requires OneWorker(s) && Budgeted(s)
    ensures Budgeted(Next(s, a))
  {
    var s' := Next(s, a);
    forall id
      ensures CountDone(s'.completed, id) + Outstanding(s', id) <= Count(s'.requests, id)
    {
      match a
      case Request(x) => BudgetedRequest(s, x, id);
      case Step(k) => BudgetedStep(s, k, id);
    }
  }

  lemma InvNext(s: State, a: Action)
    requires Inv(s)
    ensures Inv(Next(s, a))
  {
    NothingLostNext(s, a);
    OneWorkerNext(s, a);
    BudgetedNext(s, a);
    TimelyNext(s, a);
  }

  lemma {:induction false} InvAlways(actions: seq<Action>)
    ensures Inv(Exec(Init(), actions))
  {
    if actions != [] {
      InvAlways(actions[..|actions| - 1]);
      InvNext(Exec(Init(), actions[..|actions| - 1]), actions[|actions| - 1]);
    }
  }

  /** In every interleaving at most one worker exists per object, a pending key implies a running
      key, and when no worker is left for an object neither map has an entry for it. */
  lemma AtMostOneWorker(actions: seq<Action>, i: nat, j: nat, id: Id)
    ensures var s := Exec(Init(), actions);
            && (Live(s, i) && Live(s, j) && s.workers[i].id == s.workers[j].id ==> i == j)
            && (id in s.jobs.pending ==> id in s.jobs.running)
            && ((forall k: nat :: Live(s, k) ==> s.workers[k].id != id) <==> id !in s.jobs.running)
            && (id !in s.jobs.running ==> id !in s.jobs.pending)
            && CountDone(s.completed, id) <= Count(s.requests, id)
  {
    InvAlways(actions);
  }

  /** How often worker `i` moves in `actions`. */
  function Moves(actions: seq<Action>, i: nat): nat {
    if actions == [] then 0
    else Moves(actions[..|actions| - 1], i) + (if actions[|actions| - 1] == Step(i) then 1 else 0)
  }

  lemma {:induction false} OwesEventually(s: State, later: seq<Action>, i: nat, q: nat)
    requires Inv(s) && q < |s.requests| && Owes(s, i, q)
    ensures var s' := Exec(s, later);
            && Inv(s') && q < |s'.requests|
            && (Served(s', q) || (Owes(s', i, q) && Rank(s', i, q) + Moves(later, i) <= Rank(s, i, q)))
  {
    if later != [] {
      var before, a := later[..|later| - 1], later[|later| - 1];
      OwesEventually(s, before, i, q);
      var mid := Exec(s, before);
      InvNext(mid, a);
      if Served(mid, q) {
        ServedStays(mid, a, q);
      } else {
        OwesProgress(mid, a, i, q);
      }
    }
  }

  /** No request is lost: whatever else is interleaved, four steps of one worker are enough for a
      complete run that started after the request. */
  lemma EveryRequestIsServed(actions: seq<Action>, q: nat) returns (i: nat)
    requires q < |Exec(Init(), actions).requests|
    ensures forall later :: Moves(later, i) >= 4 ==>
              var s := Exec(Exec(Init(), actions), later);
              q < |s.requests| && Served(s, q)
  {
    InvAlways(actions);
    var s := Exec(Init(), actions);
    if !Served(s, q) {
      i :| Owes(s, i, q);
    } else {
      i := 0;
    }
    forall later | Moves(later, i) >= 4
      ensures q < |Exec(s, later).requests| && Served(Exec(s, later), q)
    {
      if Served(s, q) {
        ServedForever(s, later, q);
      } else {
        OwesEventually(s, later, i, q);
      }
    }
  }

  lemma {:induction false} ServedForever(s: State, later: seq<Action>, q: nat)
    requires q < |s.requests| && Served(s, q)
    ensures q < |Exec(s, later).requests| && Served(Exec(s, later), q)
  {
    if later != [] {
      ServedForever(s, later[..|later| - 1], q);
      ServedStays(Exec(s, later[..|later| - 1]), later[|later| - 1], q);
    }
  }
}
