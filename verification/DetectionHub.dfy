/** The detection fan-out: publishers hold the read lock while they visit subscribers one by
    one, subscription changes hold the write lock, channels are bounded and closed after the
    write lock is released. A published frame is named by its number in order of lock entry. */
module DetectionHub {
  const BUFFER := 4

  type Camera = string

  /** A subscriber; `leaving` is set once Unsubscribe has removed it from the hub. */
  datatype Sub = Sub(camera: Camera, ch: seq<nat>, leaving: bool, closed: bool, received: seq<nat>)

  /** A Publish call: whom it found under the lock, and whom it has not visited yet. */
  datatype Pub = Pub(camera: Camera, targets: set<nat>, remaining: set<nat>, locked: bool)

  datatype State = State(hub: map<Camera, set<nat>>, subs: seq<Sub>, pubs: seq<Pub>,
                         dropped: nat, sent: set<(nat, nat)>, refused: set<(nat, nat)>)

  datatype Action =
    | Subscribe(camera: Camera)
    | Unsubscribe(x: nat)
    | CloseChannel(x: nat)
    | BeginPublish(camera: Camera)
    | Visit(p: nat, x: nat)
    | EndPublish(p: nat)
    | Receive(x: nat)

  function Init(): State { State(map[], [], [], 0, {}, {}) }

  function Subscribers(hub: map<Camera, set<nat>>, camera: Camera): set<nat> {
    if camera in hub then hub[camera] else {}
  }

  /** The write lock is free when no publisher holds the read lock. */
  predicate Quiet(s: State) { forall p :: 0 <= p < |s.pubs| ==> !s.pubs[p].locked }

  function Joined(hub: map<Camera, set<nat>>, camera: Camera, x: nat): map<Camera, set<nat>> {
    hub[camera := Subscribers(hub, camera) + {x}]
  }

  function Left(hub: map<Camera, set<nat>>, camera: Camera, x: nat): map<Camera, set<nat>> {
    if camera !in hub then hub
    else if hub[camera] - {x} == {} then hub - {camera}
    else hub[camera := hub[camera] - {x}]
  }

  function Next(s: State, a: Action): State {
    match a
    case Subscribe(camera) =>
      if !Quiet(s) then s
      else s.(hub := Joined(s.hub, camera, |s.subs|), subs := s.subs + [Sub(camera, [], false, false, [])])
    case Unsubscribe(x) =>
      if !Quiet(s) || x >= |s.subs| || s.subs[x].leaving then s
      else s.(hub := Left(s.hub, s.subs[x].camera, x), subs := s.subs[x := s.subs[x].(leaving := true)])
    case CloseChannel(x) =>
      if x >= |s.subs| || !s.subs[x].leaving || s.subs[x].closed then s
      else s.(subs := s.subs[x := s.subs[x].(closed := true)])
    case BeginPublish(camera) =>
      var targets := Subscribers(s.hub, camera);
      s.(pubs := s.pubs + [Pub(camera, targets, targets, true)])
    case Visit(p, x) => if Visitable(s, p, x) then Visited(s, p, x) else s
    case EndPublish(p) =>
      if p >= |s.pubs| || s.pubs[p].remaining != {} then s
      else s.(pubs := s.pubs[p := s.pubs[p].(locked := false)])
    case Receive(x) =>
      if x >= |s.subs| || s.subs[x].ch == [] then s
      else
        var sub := s.subs[x];
        s.(subs := s.subs[x := sub.(ch := sub.ch[1..], received := sub.received + [sub.ch[0]])])
  }

  predicate Visitable(s: State, p: nat, x: nat) {
    p < |s.pubs| && s.pubs[p].locked && x in s.pubs[p].remaining && x < |s.subs|
  }

  /** The non-blocking send of frame `p` to subscriber `x`. */
  function Visited(s: State, p: nat, x: nat): State
    requires Visitable(s, p, x)
  {
    var pub, sub := s.pubs[p], s.subs[x];
    var pubs := s.pubs[p := pub.(remaining := pub.remaining - {x})];
    if |sub.ch| < BUFFER then
      s.(pubs := pubs, subs := s.subs[x := sub.(ch := sub.ch + [p])], sent := s.sent + {(p, x)})
    else s.(pubs := pubs, dropped := s.dropped + 1, refused := s.refused + {(p, x)})
  }

  function Exec(actions: seq<Action>): State {
    if actions == [] then Init() else Next(Exec(actions[..|actions| - 1]), actions[|actions| - 1])
  }

  // ---------------------------------------------------------------- membership

  /** `xs` are live subscribers of camera `c`. */
  ghost predicate Of(subs: seq<Sub>, c: Camera, xs: set<nat>) {
    forall x: nat :: x in xs ==> x < |subs| && subs[x].camera == c && !subs[x].leaving
  }

  ghost predicate Members(s: State) {
    && (forall c :: c in s.hub ==> s.hub[c] != {} && Of(s.subs, c, s.hub[c]))
    && (forall x :: 0 <= x < |s.subs| && !s.subs[x].leaving ==> x in Subscribers(s.hub, s.subs[x].camera))
    && (forall x :: 0 <= x < |s.subs| && s.subs[x].closed ==> s.subs[x].leaving)
  }

  /** While a publisher holds the lock its targets are exactly the camera's subscribers. */
  ghost predicate Locked(s: State) {
    forall p :: 0 <= p < |s.pubs| ==>
      && s.pubs[p].remaining <= s.pubs[p].targets
      && (s.pubs[p].locked ==> s.pubs[p].targets == Subscribers(s.hub, s.pubs[p].camera))
      && (!s.pubs[p].locked ==> s.pubs[p].remaining == {})
      && forall x: nat :: x in s.pubs[p].targets ==> x < |s.subs| && s.subs[x].camera == s.pubs[p].camera
  }

  lemma MembersJoin(s: State, camera: Camera)
    requires Members(s)
    ensures Members(Next(s, Subscribe(camera)))
  {
  }

  lemma MembersLeave(s: State, x: nat)
    requires Members(s)
    ensures Members(Next(s, Unsubscribe(x)))
  {
  }

  /** Sending, reading and closing leave the membership as it is. */
  lemma OthersKeepMembers(s: State, a: Action)
    requires !a.Subscribe? && !a.Unsubscribe?
    ensures var s' := Next(s, a);
            && s'.hub == s.hub && |s'.subs| == |s.subs|
            && forall x :: 0 <= x < |s.subs| ==>
                 && s'.subs[x].camera == s.subs[x].camera && s'.subs[x].leaving == s.subs[x].leaving
                 && (s'.subs[x].closed ==> s.subs[x].closed || s.subs[x].leaving)
  {
  }

  lemma MembersNext(s: State, a: Action)
    requires Members(s)
    ensures Members(Next(s, a))
  {
    if a.Subscribe? {
      MembersJoin(s, a.camera);
    } else if a.Unsubscribe? {
      MembersLeave(s, a.x);
    } else {
      OthersKeepMembers(s, a);
    }
  }

  lemma LockedNext(s: State, a: Action)
    requires Members(s) && Locked(s)
    ensures Locked(Next(s, a))
  {
  }

  // ---------------------------------------------------------------- accounting

  ghost predicate Distinct(q: seq<nat>) { forall i, j :: 0 <= i < j < |q| ==> q[i] != q[j] }

  /** Everything the channel of `x` has carried: read already, then still buffered. */
  ghost function Carried(s: State, x: nat): seq<nat>
    requires x < |s.subs|
  {
    s.subs[x].received + s.subs[x].ch
  }

  /** Publish number `p` has visited subscriber `x`. */
  ghost predicate Done(s: State, p: nat, x: nat) {
    p < |s.pubs| && x in s.pubs[p].targets && x !in s.pubs[p].remaining
  }

  ghost predicate Accounted(s: State) {
    && s.sent !! s.refused && |s.refused| == s.dropped
    && (forall p: nat, x: nat :: (p, x) in s.sent + s.refused <==> Done(s, p, x))
    && (forall x :: 0 <= x < |s.subs| ==>
          && |s.subs[x].ch| <= BUFFER
          && Distinct(Carried(s, x))
          && forall p: nat :: p in Carried(s, x) <==> (p, x) in s.sent)
  }

  lemma VisitAdds(s: State, p: nat, x: nat)
    requires Locked(s) && Visitable(s, p, x)
    ensures var s' := Visited(s, p, x);
            && s'.sent + s'.refused == s.sent + s.refused + {(p, x)} && !Done(s, p, x)
            && forall q: nat, y: nat :: Done(s', q, y) <==> Done(s, q, y) || (q == p && y == x)
  {
  }

  lemma VisitBooks(s: State, p: nat, x: nat)
    requires Locked(s) && Accounted(s) && Visitable(s, p, x)
    ensures (p, x) !in s.sent + s.refused
    ensures var s' := Visited(s, p, x);
            forall q: nat, y: nat :: (q, y) in s'.sent + s'.refused <==> Done(s', q, y)
  {
    VisitAdds(s, p, x);
    var s' := Visited(s, p, x);
    forall q: nat, y: nat
      ensures (q, y) in s'.sent + s'.refused <==> Done(s', q, y)
    {
      assert (q, y) in s.sent + s.refused <==> Done(s, q, y);
    }
    assert (p, x) in s.sent + s.refused <==> Done(s, p, x);
  }

  lemma VisitCarries(s: State, p: nat, x: nat, y: nat)
    requires Accounted(s) && Visitable(s, p, x) && (p, x) !in s.sent && y < |s.subs|
    ensures var s' := Visited(s, p, x);
            && |s'.subs[y].ch| <= BUFFER && Distinct(Carried(s', y))
            && forall q: nat :: q in Carried(s', y) <==> (q, y) in s'.sent
  {
    var s' := Visited(s, p, x);
    if y == x && |s.subs[x].ch| < BUFFER {
      assert Carried(s', x) == Carried(s, x) + [p];
    } else {
      assert Carried(s', y) == Carried(s, y);
    }
  }

  lemma VisitAccounted(s: State, p: nat, x: nat)
    requires Locked(s) && Accounted(s) && Visitable(s, p, x)
    ensures Accounted(Visited(s, p, x))
  {
    var s' := Visited(s, p, x);
    VisitBooks(s, p, x);
    assert s'.sent !! s'.refused && |s'.refused| == s'.dropped;
    forall y | 0 <= y < |s'.subs|
      ensures |s'.subs[y].ch| <= BUFFER && Distinct(Carried(s', y))
      ensures forall q: nat :: q in Carried(s', y) <==> (q, y) in s'.sent
    {
      VisitCarries(s, p, x, y);
    }
  }

  /** A step that visits nobody leaves what each channel has carried, and the books, alone. */
  lemma OthersCarry(s: State, a: Action)
    requires !a.Visit?
    ensures var s' := Next(s, a);
            && s'.sent == s.sent && s'.refused == s.refused && s'.dropped == s.dropped
            && |s.subs| <= |s'.subs|
            && (forall y: nat :: y < |s.subs| ==> Carried(s', y) == Carried(s, y) && |s'.subs[y].ch| <= |s.subs[y].ch|)
            && (forall y: nat :: |s.subs| <= y < |s'.subs| ==> s'.subs[y].ch == [] && s'.subs[y].received == [])
  {
  }

  lemma OthersBooks(s: State, a: Action)
    requires !a.Visit? && Locked(s)
    ensures var s' := Next(s, a);
            forall q: nat, y: nat :: Done(s', q, y) <==> Done(s, q, y)
  {
  }

  lemma NobodyNew(s: State, y: nat)
    requires Locked(s) && Accounted(s) && |s.subs| <= y
    ensures forall p: nat :: (p, y) !in s.sent
  {
    forall p: nat
      ensures (p, y) !in s.sent
    {
      assert (p, y) in s.sent ==> (p, y) in s.sent + s.refused;
    }
  }

  lemma AccountedNext(s: State, a: Action)
    requires Locked(s) && Accounted(s)
    ensures Accounted(Next(s, a))
  {
    var s' := Next(s, a);
    if a.Visit? {
      if Visitable(s, a.p, a.x) {
        VisitAccounted(s, a.p, a.x);
      }
    } else {
      OthersCarry(s, a);
      OthersBooks(s, a);
      forall y | 0 <= y < |s'.subs|
        ensures |s'.subs[y].ch| <= BUFFER && Distinct(Carried(s', y))
        ensures forall q: nat :: q in Carried(s', y) <==> (q, y) in s'.sent
      {
        if y >= |s.subs| {
          assert Carried(s', y) == [];
          NobodyNew(s, y);
        }
      }
    }
  }

  ghost predicate Inv(s: State) { Members(s) && Locked(s) && Accounted(s) }

  lemma {:induction false} InvAlways(actions: seq<Action>)
    ensures Inv(Exec(actions))
  {
    if actions != [] {
      var s, a := Exec(actions[..|actions| - 1]), actions[|actions| - 1];
      InvAlways(actions[..|actions| - 1]);
      MembersNext(s, a);
      LockedNext(s, a);
      AccountedNext(s, a);
    }
  }

  /** In every interleaving: whoever a publisher may still send to has an open channel, and no
      camera is left with an empty subscriber set. */
  lemma NoSendOnClosed(actions: seq<Action>)
    ensures forall p: nat, x: nat :: Visitable(Exec(actions), p, x) ==> !Exec(actions).subs[x].closed
    ensures forall c :: c in Exec(actions).hub ==> Exec(actions).hub[c] != {}
  {
    InvAlways(actions);
  }

  /** A publish addresses exactly the live subscribers of its camera. Each frame and each subscriber
      it was published to are counted exactly once, as enqueued or as dropped, when the publish is
      over; the drop counter is the number of refusals; and a subscriber gets a frame exactly once
      and only if it was enqueued for it. */
  lemma FramesConserved(actions: seq<Action>, p: nat, x: nat)
    requires p < |Exec(actions).pubs| && x < |Exec(actions).subs|
    ensures var s := Exec(actions);
            && (s.pubs[p].locked ==>
                  (x in s.pubs[p].targets <==> s.subs[x].camera == s.pubs[p].camera && !s.subs[x].leaving))
            && (!s.pubs[p].locked && x in s.pubs[p].targets ==>
                  ((p, x) in s.sent) != ((p, x) in s.refused))
            && (x !in s.pubs[p].targets ==> (p, x) !in s.sent && (p, x) !in s.refused)
            && s.dropped == |s.refused|
            && Distinct(Carried(s, x))
            && (p in Carried(s, x) <==> (p, x) in s.sent)
            && (p in Carried(s, x) ==> s.pubs[p].camera == s.subs[x].camera)
  {
    InvAlways(actions);
    var s := Exec(actions);
    assert (p, x) in s.sent + s.refused <==> Done(s, p, x);
  }

  /** A send is refused exactly when four frames wait already; otherwise the frame goes to the end
      of what the channel carries. Nobody else's channel changes. */
  lemma RefusedIffFour(actions: seq<Action>, p: nat, x: nat)
    requires Visitable(Exec(actions), p, x)
    ensures var s, s' := Exec(actions), Next(Exec(actions), Visit(p, x));
            && |s.subs[x].ch| <= 4 && |s'.subs| == |s.subs|
            && (if |s.subs[x].ch| == 4 then s'.dropped == s.dropped + 1 && s'.subs == s.subs
                else
                  && s'.dropped == s.dropped && Carried(s', x) == Carried(s, x) + [p]
                  && |s'.subs[x].ch| == |s.subs[x].ch| + 1)
            && forall y :: 0 <= y < |s.subs| && y != x ==> s'.subs[y] == s.subs[y]
  {
    InvAlways(actions);
    var s, s' := Exec(actions), Next(Exec(actions), Visit(p, x));
    if |s.subs[x].ch| < 4 {
      assert s.subs[x].received + (s.subs[x].ch + [p]) == s.subs[x].received + s.subs[x].ch + [p];
    }
  }

  // ---------------------------------------------------------------- order

  ghost predicate Increasing(q: seq<nat>) { forall i, j :: 0 <= i < j < |q| ==> q[i] < q[j] }

  /** Every subscriber of camera `c` has been handed its frames in publishing order. */
  ghost predicate InOrderOf(s: State, c: Camera) {
    forall x :: 0 <= x < |s.subs| && s.subs[x].camera == c ==> Increasing(Carried(s, x))
  }

  /** No Publish for camera `c` has subscribers left to visit. */
  ghost predicate Settled(s: State, c: Camera) {
    forall p :: 0 <= p < |s.pubs| && s.pubs[p].camera == c ==> s.pubs[p].remaining == {}
  }

  /** Every Publish for camera `c` in the schedule started when the camera was settled; other
      cameras' publishes come as they may. */
  ghost predicate SerialOf(actions: seq<Action>, c: Camera) {
    actions == [] ||
    var before, a := actions[..|actions| - 1], actions[|actions| - 1];
    SerialOf(before, c) && (a == BeginPublish(c) ==> Settled(Exec(before), c))
  }

  /** Only the newest Publish for camera `c` still visits subscribers. */
  ghost predicate NewestOnly(s: State, c: Camera) {
    forall p, q :: 0 <= p < q < |s.pubs| && s.pubs[p].camera == c == s.pubs[q].camera ==> s.pubs[p].remaining == {}
  }

  lemma VisitInOrder(s: State, c: Camera, p: nat, x: nat)
    requires Inv(s) && InOrderOf(s, c) && NewestOnly(s, c) && Visitable(s, p, x) && s.subs[x].camera == c
    ensures Increasing(Carried(Visited(s, p, x), x))
  {
    if |s.subs[x].ch| < BUFFER {
      assert Carried(Visited(s, p, x), x) == Carried(s, x) + [p];
      forall i | 0 <= i < |Carried(s, x)|
        ensures Carried(s, x)[i] < p
      {
        var q := Carried(s, x)[i];
        assert q in Carried(s, x);
        assert (q, x) in s.sent + s.refused;
        assert (p, x) !in s.sent + s.refused;
      }
    }
  }

  lemma NewestOnlyNext(s: State, a: Action, c: Camera)
    requires NewestOnly(s, c) && (a == BeginPublish(c) ==> Settled(s, c))
    ensures NewestOnly(Next(s, a), c)
  {
  }

  lemma InOrderNext(s: State, a: Action, c: Camera)
    requires Inv(s) && InOrderOf(s, c) && NewestOnly(s, c)
    ensures InOrderOf(Next(s, a), c)
  {
    var s' := Next(s, a);
    if !a.Visit? {
      OthersCarry(s, a);
    }
    forall y | 0 <= y < |s'.subs| && s'.subs[y].camera == c
      ensures Increasing(Carried(s', y))
    {
      if a.Visit? {
        if Visitable(s, a.p, a.x) && y == a.x {
          VisitInOrder(s, c, a.p, a.x);
        } else {
          assert Carried(s', y) == Carried(s, y);
        }
      } else if y >= |s.subs| {
        assert Carried(s', y) == [];
      }
    }
  }

  lemma ExecAppend(actions: seq<Action>, a: Action)
    ensures Exec(actions + [a]) == Next(Exec(actions), a)
  {
    assert (actions + [a])[..|actions|] == actions;
  }

  /** When publishes for a camera take turns, every one of its subscribers receives its frames in
      publishing order, as a subsequence of them, whatever other cameras do. */
  lemma {:induction false} SerialPublishKeepsOrder(actions: seq<Action>, c: Camera)
    requires SerialOf(actions, c)
    ensures InOrderOf(Exec(actions), c) && NewestOnly(Exec(actions), c)
  {
    if actions != [] {
      var s, a := Exec(actions[..|actions| - 1]), actions[|actions| - 1];
      SerialPublishKeepsOrder(actions[..|actions| - 1], c);
      InvAlways(actions[..|actions| - 1]);
      InOrderNext(s, a, c);
      NewestOnlyNext(s, a, c);
    }
  }

  /** From a state in order, with one Publish at most under way for the camera, it stays so until
      the next one starts. */
  lemma {:induction false} OrderGoesOn(actions: seq<Action>, later: seq<Action>, c: Camera)
    requires InOrderOf(Exec(actions), c) && NewestOnly(Exec(actions), c) && BeginPublish(c) !in later
    ensures InOrderOf(Exec(actions + later), c) && NewestOnly(Exec(actions + later), c)
  {
    if later == [] {
      assert actions + later == actions;
    } else {
      var n := |later| - 1;
      var before := actions + later[..n];
      OrderGoesOn(actions, later[..n], c);
      InvAlways(before);
      InOrderNext(Exec(before), later[n], c);
      NewestOnlyNext(Exec(before), later[n], c);
      ExecAppend(before, later[n]);
      assert actions + later == before + [later[n]];
    }
  }

  /** Reading until the channel is empty changes nothing but that channel. */
  lemma {:induction false} ReadAll(actions: seq<Action>, x: nat) returns (drain: seq<Action>)
    requires x < |Exec(actions).subs|
    ensures forall a :: a in drain ==> a.Receive?
    ensures var s, s' := Exec(actions), Exec(actions + drain);
            && s'.pubs == s.pubs && |s'.subs| == |s.subs|
            && s'.subs[x].camera == s.subs[x].camera && s'.subs[x].ch == []
    decreases |Exec(actions).subs[x].ch|
  {
    if Exec(actions).subs[x].ch == [] {
      drain := [];
      assert actions + drain == actions;
    } else {
      ExecAppend(actions, Receive(x));
      var more := ReadAll(actions + [Receive(x)], x);
      drain := [Receive(x)] + more;
      assert actions + drain == actions + [Receive(x)] + more;
    }
  }

  /** Two frames handed to an empty channel in the wrong order. */
  lemma VisitBoth(s: State, p: nat, q: nat, x: nat)
    requires p < q && Visitable(s, p, x) && Visitable(s, q, x) && s.subs[x].ch == []
    ensures !InOrderOf(Visited(Visited(s, q, x), p, x), s.subs[x].camera)
  {
    var s2 := Visited(Visited(s, q, x), p, x);
    var n := |Carried(s, x)|;
    assert Carried(s2, x) == Carried(s, x) + [q, p];
    assert Carried(s2, x)[n] == q && Carried(s2, x)[n + 1] == p;
  }

  /** Two publishes that both have subscriber `x` still to visit can reach it in the wrong order. */
  lemma {:induction false} OverlapCanReorder(actions: seq<Action>, p: nat, q: nat, x: nat) returns (later: seq<Action>)
    requires p < q && Visitable(Exec(actions), p, x) && Visitable(Exec(actions), q, x)
    ensures forall a :: a in later ==> a.Receive? || a.Visit?
    ensures !InOrderOf(Exec(actions + later), Exec(actions).subs[x].camera)
  {
    var drain := ReadAll(actions, x);
    VisitBoth(Exec(actions + drain), p, q, x);
    ExecAppend(actions + drain, Visit(q, x));
    ExecAppend(actions + drain + [Visit(q, x)], Visit(p, x));
    later := drain + [Visit(q, x)] + [Visit(p, x)];
    assert actions + later == actions + drain + [Visit(q, x)] + [Visit(p, x)];
  }

  lemma BegunInOrder(actions: seq<Action>, c: Camera)
    ensures InOrderOf(Exec(actions + [BeginPublish(c)]), c) <==> InOrderOf(Exec(actions), c)
    ensures Settled(Exec(actions), c) ==> NewestOnly(Exec(actions + [BeginPublish(c)]), c)
  {
    ExecAppend(actions, BeginPublish(c));
    var s, s' := Exec(actions), Exec(actions + [BeginPublish(c)]);
    assert forall x :: 0 <= x < |s.subs| ==> Carried(s', x) == Carried(s, x);
  }

  /** Exactly when a new Publish is sure to keep its camera's order until the next one for that
      camera, whatever else happens before and after it: when the order has held so far and no
      other Publish for the camera has subscribers left to visit. */
  lemma PublishKeepsOrderIff(actions: seq<Action>, c: Camera)
    ensures (forall later :: BeginPublish(c) !in later ==> InOrderOf(Exec(actions + [BeginPublish(c)] + later), c))
            <==> InOrderOf(Exec(actions), c) && Settled(Exec(actions), c)
  {
    var begun := actions + [BeginPublish(c)];
    BegunInOrder(actions, c);
    if !InOrderOf(Exec(actions), c) {
      assert begun + [] == begun;
      assert BeginPublish(c) !in [] && !InOrderOf(Exec(begun + []), c);
    } else if Settled(Exec(actions), c) {
      forall later | BeginPublish(c) !in later
        ensures InOrderOf(Exec(begun + later), c)
      {
        OrderGoesOn(begun, later, c);
      }
    } else {
      var later := UnsettledBreaks(actions, c);
      assert BeginPublish(c) !in later && !InOrderOf(Exec(begun + later), c);
    }
  }

  lemma UnsettledBreaks(actions: seq<Action>, c: Camera) returns (later: seq<Action>)
    requires !Settled(Exec(actions), c)
    ensures BeginPublish(c) !in later && !InOrderOf(Exec(actions + [BeginPublish(c)] + later), c)
  {
    var s := Exec(actions);
    InvAlways(actions);
    ExecAppend(actions, BeginPublish(c));
    var p :| 0 <= p < |s.pubs| && s.pubs[p].camera == c && s.pubs[p].remaining != {};
    var x :| x in s.pubs[p].remaining;
    later := OverlapCanReorder(actions + [BeginPublish(c)], p, |s.pubs|, x);
  }

  /** A subscriber and two overlapping publishes: the second frame arrives before the first. */
  lemma OverlapReorders(c: Camera)
    ensures var actions := [Subscribe(c), BeginPublish(c), BeginPublish(c), Visit(1, 0), Visit(0, 0)];
            !SerialOf(actions[..3], c) && |Exec(actions).subs| == 1 && Carried(Exec(actions), 0) == [1, 0]
  {
    var a0: seq<Action> := [];
    ExecAppend(a0, Subscribe(c));
    var a1 := [Subscribe(c)];
    ExecAppend(a1, BeginPublish(c));
    var a2 := a1 + [BeginPublish(c)];
    ExecAppend(a2, BeginPublish(c));
    var a3 := a2 + [BeginPublish(c)];
    ExecAppend(a3, Visit(1, 0));
    ExecAppend(a3 + [Visit(1, 0)], Visit(0, 0));
    assert a0 + [Subscribe(c)] == a1;
    assert Exec(a2).pubs[0] == Pub(c, {0}, {0}, true);
    assert !Settled(Exec(a2), c);
    var actions := [Subscribe(c), BeginPublish(c), BeginPublish(c), Visit(1, 0), Visit(0, 0)];
    assert a3[..2] == a2 && a3[2] == BeginPublish(c);
    assert actions[..3] == a3 && actions == a3 + [Visit(1, 0)] + [Visit(0, 0)];
  }

  // ---------------------------------------------------------------- the hub as an object

  /** What a subscriber looks like after a publish that did or did not address it. */
  function Offered(sub: Sub, frame: nat, addressed: bool): Sub {
    if addressed && |sub.ch| < BUFFER then sub.(ch := sub.ch + [frame]) else sub
  }

  ghost function Full(subs: seq<Sub>, xs: set<nat>): set<nat> {
    set x | x in xs && x < |subs| && |subs[x].ch| >= BUFFER
  }

  lemma FullAdd(subs: seq<Sub>, xs: set<nat>, x: nat)
    requires x !in xs && x < |subs|
    ensures |Full(subs, xs + {x})| == |Full(subs, xs)| + (if |subs[x].ch| >= BUFFER then 1 else 0)
  {
    if |subs[x].ch| >= BUFFER {
      assert Full(subs, xs + {x}) == Full(subs, xs) + {x};
    } else {
      assert Full(subs, xs + {x}) == Full(subs, xs);
    }
  }

  /** `now` is `before` with the frame offered to the subscribers in `visited`. */
  ghost predicate Handed(before: seq<Sub>, now: seq<Sub>, frame: nat, visited: set<nat>) {
    |now| == |before| && forall x :: 0 <= x < |now| ==> now[x] == Offered(before[x], frame, x in visited)
  }

  lemma HandedNext(before: seq<Sub>, now: seq<Sub>, frame: nat, visited: set<nat>, x: nat)
    requires Handed(before, now, frame, visited) && x !in visited && x < |now|
    ensures now[x].ch == before[x].ch
    ensures Handed(before, now[x := Offered(now[x], frame, true)], frame, visited + {x})
  {
  }

  lemma OneLess(targets: set<nat>, remaining: set<nat>, visited: set<nat>, x: nat)
    requires remaining !! visited && remaining + visited == targets && x in remaining
    ensures (remaining - {x}) !! (visited + {x}) && (remaining - {x}) + (visited + {x}) == targets
  {
  }

  class Hub {
    var hub: map<Camera, set<nat>>
    var subs: seq<Sub>
    var dropped: nat

    ghost predicate Valid()
      reads this
    {
      forall c :: c in hub ==> hub[c] != {} && Of(subs, c, hub[c])
    }

    constructor ()
      ensures Valid() && hub == map[] && subs == [] && dropped == 0
    {
      hub, subs, dropped := map[], [], 0;
    }

    method Subscribe(camera: Camera) returns (x: nat)
      requires Valid()
      modifies this
      ensures Valid() && x == old(|subs|) && hub == Joined(old(hub), camera, x) && dropped == old(dropped)
      ensures subs == old(subs) + [Sub(camera, [], false, false, [])]
    {
      x := |subs|;
      subs := subs + [Sub(camera, [], false, false, [])];
      if camera !in hub {
        hub := hub[camera := {}];
      }
      hub := hub[camera := hub[camera] + {x}];
    }

    method Unsubscribe(x: nat)
      requires Valid() && x < |subs| && !subs[x].leaving && !subs[x].closed
      modifies this
      ensures Valid() && hub == Left(old(hub), old(subs[x].camera), x) && dropped == old(dropped)
      ensures subs == old(subs)[x := old(subs[x]).(leaving := true, closed := true)]
    {
      var camera := subs[x].camera;
      if camera in hub {
        hub := hub[camera := hub[camera] - {x}];
        if hub[camera] == {} {
          hub := hub - {camera};
        }
      }
      subs := subs[x := subs[x].(leaving := true, closed := true)];
    }

    /** The non-blocking send to one subscriber. */
    method Offer(x: nat, frame: nat) returns (refused: bool)
      requires x < |subs|
      modifies this`subs, this`dropped
      ensures subs == old(subs)[x := Offered(old(subs)[x], frame, true)]
      ensures refused <==> |old(subs)[x].ch| >= 4
      ensures dropped == old(dropped) + (if refused then 1 else 0)
    {
      refused := |subs[x].ch| >= BUFFER;
      if refused {
        dropped := dropped + 1;
      } else {
        subs := subs[x := subs[x].(ch := subs[x].ch + [frame])];
      }
    }

    /** Visits every target once, in whatever order. */
    method VisitAll(targets: set<nat>, frame: nat)
      requires forall x :: x in targets ==> x < |subs|
      modifies this`subs, this`dropped
      ensures Handed(old(subs), subs, frame, targets)
      ensures dropped == old(dropped) + |Full(old(subs), targets)|
    {
      ghost var before := subs;
      var remaining := targets;
      ghost var visited: set<nat> := {};
      while remaining != {}
        invariant remaining !! visited && remaining + visited == targets
        invariant Handed(before, subs, frame, visited)
        invariant dropped == old(dropped) + |Full(before, visited)|
        decreases remaining
      {
        var x: nat :| x in remaining;
        HandedNext(before, subs, frame, visited, x);
        FullAdd(before, visited, x);
        OneLess(targets, remaining, visited, x);
        var refused := Offer(x, frame);
        remaining, visited := remaining - {x}, visited + {x};
      }
    }

    /** Publish with nobody interleaving: every subscriber of the camera with room gets the frame,
        every full one costs a drop, nobody else is touched; the visiting order does not matter. */
    method Publish(camera: Camera, frame: nat)
      requires Valid()
      modifies this`subs, this`dropped
      ensures Valid() && Handed(old(subs), subs, frame, Subscribers(hub, camera))
      ensures dropped == old(dropped) + |Full(old(subs), Subscribers(hub, camera))|
    {
      assert Of(subs, camera, Subscribers(hub, camera));
      VisitAll(Subscribers(hub, camera), frame);
      forall c | c in hub
        ensures Of(subs, c, hub[c])
      {
        assert Of(old(subs), c, hub[c]);
      }
    }
  }

  // ---------------------------------------------------------------- the object's Publish as a schedule

  function After(s: State, actions: seq<Action>): State {
    if actions == [] then s else Next(After(s, actions[..|actions| - 1]), actions[|actions| - 1])
  }

  lemma AfterAppend(s: State, actions: seq<Action>, a: Action)
    ensures After(s, actions + [a]) == Next(After(s, actions), a)
  {
    assert (actions + [a])[..|actions|] == actions;
  }

  /** The visits of frame `p` in the order `xs`. */
  function Visits(p: nat, xs: seq<nat>): (actions: seq<Action>)
    ensures |actions| == |xs|
  {
    if xs == [] then [] else Visits(p, xs[..|xs| - 1]) + [Visit(p, xs[|xs| - 1])]
  }

  ghost predicate Distinctly(xs: seq<nat>, targets: set<nat>) {
    Distinct(xs) && forall x :: x in xs <==> x in targets
  }

  ghost function Elements(xs: seq<nat>): set<nat> { set x | x in xs }

  /** Part of the way through the visits: those of `xs` are done. */
  ghost predicate Midway(s: State, s': State, p: nat, camera: Camera, targets: set<nat>, xs: seq<nat>) {
    && s'.hub == s.hub && |s'.pubs| == p + 1 && s'.pubs[..p] == s.pubs
    && s'.pubs[p] == Pub(camera, targets, targets - Elements(xs), true)
    && Handed(s.subs, s'.subs, p, Elements(xs))
    && s'.dropped == s.dropped + |Full(s.subs, Elements(xs))|
  }

  lemma ElementsAppend(xs: seq<nat>, x: nat)
    ensures Elements(xs + [x]) == Elements(xs) + {x}
  {
  }

  lemma VisitMidway(s: State, s': State, p: nat, camera: Camera, targets: set<nat>, xs: seq<nat>, x: nat)
    requires Midway(s, s', p, camera, targets, xs) && p == |s.pubs|
    requires x in targets && x !in xs && x < |s.subs|
    ensures Midway(s, Next(s', Visit(p, x)), p, camera, targets, xs + [x])
  {
    ElementsAppend(xs, x);
    HandedNext(s.subs, s'.subs, p, Elements(xs), x);
    FullAdd(s.subs, Elements(xs), x);
    assert Visitable(s', p, x);
    var s'' := Visited(s', p, x);
    assert s''.subs == s'.subs[x := Offered(s'.subs[x], p, true)];
    assert targets - (Elements(xs) + {x}) == (targets - Elements(xs)) - {x};
  }

  lemma LastIsNew(xs: seq<nat>)
    requires Distinct(xs) && xs != []
    ensures var before, x := xs[..|xs| - 1], xs[|xs| - 1];
            && Distinct(before) && x !in before && x in xs
            && forall y :: y in before ==> y in xs
  {
    var before := xs[..|xs| - 1];
    assert forall i :: 0 <= i < |before| ==> before[i] == xs[i];
  }

  lemma {:induction false} VisitsMidway(s: State, camera: Camera, xs: seq<nat>)
    requires Distinct(xs) && forall x :: x in xs ==> x in Subscribers(s.hub, camera) && x < |s.subs|
    ensures var s1 := Next(s, BeginPublish(camera));
            Midway(s, After(s1, Visits(|s.pubs|, xs)), |s.pubs|, camera, Subscribers(s.hub, camera), xs)
  {
    var p, targets, s1 := |s.pubs|, Subscribers(s.hub, camera), Next(s, BeginPublish(camera));
    if xs == [] {
      assert targets - Elements([]) == targets && Full(s.subs, Elements([])) == {};
    } else {
      var before, x := xs[..|xs| - 1], xs[|xs| - 1];
      LastIsNew(xs);
      VisitsMidway(s, camera, before);
      VisitMidway(s, After(s1, Visits(p, before)), p, camera, targets, before, x);
      AfterAppend(s1, Visits(p, before), Visit(p, x));
      assert xs == before + [x];
    }
  }

  /** A publish of the system that nobody interrupts, whatever the order of its visits, does what
      Publish of the object does: every subscriber of the camera is offered the frame once, the
      full ones each cost a drop, and the hub is as before. */
  lemma UninterruptedPublish(actions: seq<Action>, camera: Camera, xs: seq<nat>)
    requires Distinctly(xs, Subscribers(Exec(actions).hub, camera))
    ensures var s, targets := Exec(actions), Subscribers(Exec(actions).hub, camera);
            var s1 := After(Next(s, BeginPublish(camera)), Visits(|s.pubs|, xs));
            var s' := Next(s1, EndPublish(|s.pubs|));
            && s'.hub == s.hub && Handed(s.subs, s'.subs, |s.pubs|, targets)
            && s'.dropped == s.dropped + |Full(s.subs, targets)|
            && |s'.pubs| == |s.pubs| + 1 && !s'.pubs[|s.pubs|].locked
  {
    InvAlways(actions);
    var s, targets := Exec(actions), Subscribers(Exec(actions).hub, camera);
    TargetsExist(s, camera);
    VisitsMidway(s, camera, xs);
    LastVisited(s, After(Next(s, BeginPublish(camera)), Visits(|s.pubs|, xs)), camera, targets, xs);
  }

  lemma TargetsExist(s: State, camera: Camera)
    requires Members(s)
    ensures forall x: nat :: x in Subscribers(s.hub, camera) ==> x < |s.subs|
  {
  }

  lemma LastVisited(s: State, s1: State, camera: Camera, targets: set<nat>, xs: seq<nat>)
    requires Midway(s, s1, |s.pubs|, camera, targets, xs) && Distinctly(xs, targets)
    ensures var s' := Next(s1, EndPublish(|s.pubs|));
            && s'.hub == s.hub && Handed(s.subs, s'.subs, |s.pubs|, targets)
            && s'.dropped == s.dropped + |Full(s.subs, targets)|
            && |s'.pubs| == |s.pubs| + 1 && !s'.pubs[|s.pubs|].locked
  {
    assert Elements(xs) == targets;
    assert s1.pubs[|s.pubs|].remaining == {};
  }
}
