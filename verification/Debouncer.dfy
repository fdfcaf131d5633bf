/** The doorbell debouncer: per camera a greedy choice of presses, at least a window apart. */
module Debouncer {
  type Camera = string

  /** One call of allow: the new table, and whether the press rings. */
  function Allowed(last: map<Camera, int>, camera: Camera, t: int, window: int): (map<Camera, int>, bool) {
    if window <= 0 then (last, true)
    else if camera in last && t - last[camera] < window then (last, false)
    else (last[camera := t], true)
  }

  class DoorbellDebouncer {
    var last: map<Camera, int>

    constructor ()
      ensures last == map[]
    {
      last := map[];
    }

    method Allow(camera: Camera, t: int, window: int) returns (ok: bool)
      modifies this
      ensures (last, ok) == Allowed(old(last), camera, t, window)
    {
      if window <= 0 {
        return true;
      }
      if camera in last {
        var prev := last[camera];
        if t - prev < window {
          return false;
        }
      }
      last := last[camera := t];
      ok := true;
    }
  }

  // ---------------------------------------------------------------- whole press histories

  datatype Press = Press(camera: Camera, t: int)

  /** The table after a history of presses, all with the same window. */
  function Table(presses: seq<Press>, window: int): map<Camera, int> {
    if presses == [] then map[]
    else
      var n := |presses| - 1;
      Allowed(Table(presses[..n], window), presses[n].camera, presses[n].t, window).0
  }

  /** Whether press `i` of a history rings. */
  predicate Rings(presses: seq<Press>, window: int, i: nat)
    requires i < |presses|
  {
    Allowed(Table(presses[..i], window), presses[i].camera, presses[i].t, window).1
  }

  /** The presses of one camera, in order. */
  function Times(presses: seq<Press>, camera: Camera): seq<int> {
    if presses == [] then []
    else
      var n := |presses| - 1;
      Times(presses[..n], camera) + (if presses[n].camera == camera then [presses[n].t] else [])
  }

  /** The times at which one camera rings. */
  function RingTimes(presses: seq<Press>, window: int, camera: Camera): seq<int> {
    if presses == [] then []
    else
      var n := |presses| - 1;
      RingTimes(presses[..n], window, camera) +
        (if presses[n].camera == camera && Rings(presses, window, n) then [presses[n].t] else [])
  }

  /** What a greedy reader with the picks `before` does with a press at `t`. */
  function Pick(before: seq<int>, t: int, window: int): seq<int> {
    if before != [] && t - before[|before| - 1] < window then before else before + [t]
  }

  /** The times a greedy reader of one camera's presses picks. */
  function Picks(ts: seq<int>, window: int): seq<int> {
    if ts == [] then [] else Pick(Picks(ts[..|ts| - 1], window), ts[|ts| - 1], window)
  }

  /** Cameras do not affect one another: one camera's rings in a mixed history are the greedy
      picks of its own presses, and its table entry is the last of them. */
  lemma {:induction false} CamerasAreIndependent(presses: seq<Press>, window: int, camera: Camera)
    requires window > 0
    ensures var rings := RingTimes(presses, window, camera);
            && rings == Picks(Times(presses, camera), window)
            && (camera in Table(presses, window) <==> rings != [])
            && (rings != [] ==> Table(presses, window)[camera] == rings[|rings| - 1])
  {
    if presses != [] {
      var n := |presses| - 1;
      CamerasAreIndependent(presses[..n], window, camera);
      var ts, ts' := Times(presses[..n], camera), Times(presses, camera);
      var table := Table(presses[..n], window);
      if presses[n].camera == camera {
        assert ts' == ts + [presses[n].t] && ts'[..|ts|] == ts;
        assert Rings(presses, window, n) <==> !(camera in table && presses[n].t - table[camera] < window);
      } else {
        assert ts' == ts;
        assert RingTimes(presses, window, camera) == RingTimes(presses[..n], window, camera);
        assert camera in Table(presses, window) <==> camera in table;
      }
    }
  }

  /** The table holds the time of the camera's last ring. */
  lemma {:induction false} LastRing(presses: seq<Press>, window: int, camera: Camera) returns (k: nat)
    requires window > 0 && camera in Table(presses, window)
    ensures k < |presses| && presses[k].camera == camera && presses[k].t == Table(presses, window)[camera]
    ensures Rings(presses, window, k)
    ensures forall m :: k < m < |presses| && presses[m].camera == camera ==> !Rings(presses, window, m)
  {
    var n := |presses| - 1;
    if presses[n].camera == camera && Rings(presses, window, n) {
      k := n;
    } else {
      k := LastRing(presses[..n], window, camera);
      forall m | 0 <= m < n
        ensures Rings(presses[..n], window, m) == Rings(presses, window, m)
      {
        RingsInPrefix(presses, window, n, m);
      }
    }
  }

  lemma RingsInPrefix(presses: seq<Press>, window: int, n: nat, m: nat)
    requires m < n <= |presses|
    ensures Rings(presses[..n], window, m) == Rings(presses, window, m)
  {
    assert presses[..n][..m] == presses[..m];
  }

  /** The last ring of the camera before press `i`, and what it says about that press. */
  lemma RingBefore(presses: seq<Press>, window: int, i: nat) returns (k: nat)
    requires window > 0 && i < |presses| && presses[i].camera in Table(presses[..i], window)
    ensures k < i && presses[k].camera == presses[i].camera && Rings(presses, window, k)
    ensures Rings(presses, window, i) <==> presses[i].t - presses[k].t >= window
    ensures forall m :: k < m < i && presses[m].camera == presses[i].camera ==> !Rings(presses, window, m)
  {
    k := LastRing(presses[..i], window, presses[i].camera);
    forall m | 0 <= m < i
      ensures Rings(presses[..i], window, m) == Rings(presses, window, m)
    {
      RingsInPrefix(presses, window, i, m);
    }
  }

  lemma {:induction false} RungIsInTable(presses: seq<Press>, window: int, i: nat)
    requires window > 0 && i < |presses| && Rings(presses, window, i)
    ensures presses[i].camera in Table(presses, window)
  {
    var n := |presses| - 1;
    if i < n {
      RingsInPrefix(presses, window, n, i);
      RungIsInTable(presses[..n], window, i);
    }
  }

  /** A press that does not ring comes less than a window after the last ring of its camera. */
  lemma SilentPressIsClose(presses: seq<Press>, window: int, i: nat) returns (k: nat)
    requires window > 0 && i < |presses| && !Rings(presses, window, i)
    ensures k < i && presses[k].camera == presses[i].camera && Rings(presses, window, k)
    ensures presses[i].t - presses[k].t < window
    ensures forall m :: k < m < i && presses[m].camera == presses[i].camera ==> !Rings(presses, window, m)
  {
    k := RingBefore(presses, window, i);
  }

  /** Two rings of one camera are at least a window apart, whatever the clock did in between. */
  lemma {:induction false} RingsAreSeparated(presses: seq<Press>, window: int, i: nat, j: nat)
    requires window > 0 && i < j < |presses| && presses[i].camera == presses[j].camera
    requires Rings(presses, window, i) && Rings(presses, window, j)
    ensures presses[j].t - presses[i].t >= window
    decreases j
  {
    RingsInPrefix(presses, window, j, i);
    RungIsInTable(presses[..j], window, i);
    var k := RingBefore(presses, window, j);
    if i < k {
      RingsAreSeparated(presses, window, i, k);
    }
  }

  /** Without a window every press rings and nothing is remembered. */
  lemma {:induction false} DisabledWindow(presses: seq<Press>, window: int, i: nat)
    requires window <= 0
    ensures Table(presses, window) == map[]
    ensures i < |presses| ==> Rings(presses, window, i)
  {
    if presses != [] {
      DisabledWindow(presses[..|presses| - 1], window, i);
    }
  }

  /** A choice of presses, in order, at least a window apart. */
  ghost predicate Selection(ts: seq<int>, window: int, sel: seq<nat>) {
    && (forall i :: 0 <= i < |sel| ==> sel[i] < |ts|)
    && (forall i, j :: 0 <= i < j < |sel| ==> sel[i] < sel[j] && ts[sel[j]] - ts[sel[i]] >= window)
  }

  ghost predicate Nondecreasing(ts: seq<int>) { forall i, j :: 0 <= i <= j < |ts| ==> ts[i] <= ts[j] }

  lemma SelectionShrinks(ts: seq<int>, window: int, sel: seq<nat>, m: nat)
    requires ts != [] && Selection(ts, window, sel) && m <= |sel|
    requires m > 0 ==> sel[m - 1] < |ts| - 1
    ensures Selection(ts[..|ts| - 1], window, sel[..m])
  {
    var n := |ts| - 1;
    forall i, j | 0 <= i < j < m
      ensures ts[..n][sel[j]] - ts[..n][sel[i]] >= window
    {
      assert sel[j] <= sel[m - 1] < n;
      assert ts[sel[j]] - ts[sel[i]] >= window;
    }
  }

  lemma {:induction false} LastPickIsThere(ts: seq<int>, window: int) returns (k: nat)
    requires ts != []
    ensures var picks := Picks(ts, window);
            picks != [] && k < |ts| && picks[|picks| - 1] == ts[k]
  {
    var n := |ts| - 1;
    var before := Picks(ts[..n], window);
    if before != [] && ts[n] - before[|before| - 1] < window {
      k := LastPickIsThere(ts[..n], window);
    } else {
      k := n;
    }
  }

  /** A choice of `length` presses that ends at time `end` is no longer than `picks`, and ends no
      earlier if it is as long. */
  ghost predicate Beaten(length: nat, end: int, picks: seq<int>) {
    length <= |picks| && (length == |picks| > 0 ==> end >= picks[|picks| - 1])
  }

  ghost function End(ts: seq<int>, window: int, sel: seq<nat>): int
    requires Selection(ts, window, sel)
  {
    if sel == [] then 0 else ts[sel[|sel| - 1]]
  }

  /** A choice that goes on with a press at `t`, and picks that are offered the same press. */
  lemma BothOffered(length: nat, end: int, before: seq<int>, t: int, window: int)
    requires window > 0 && Beaten(length, end, before) && (length > 0 ==> t - end >= window)
    requires before != [] ==> before[|before| - 1] <= t
    ensures Beaten(length + 1, t, Pick(before, t, window))
  {
  }

  lemma PicksOffered(length: nat, end: int, before: seq<int>, t: int, window: int)
    requires Beaten(length, end, before) && (length > 0 ==> before != [])
    ensures Beaten(length, end, Pick(before, t, window))
  {
  }

  /** No choice of presses a window apart is longer than the greedy one; one that is as long ends
      no earlier. */
  lemma {:induction false} PicksAreMaximal(ts: seq<int>, window: int, sel: seq<nat>)
    requires window > 0 && Nondecreasing(ts) && Selection(ts, window, sel)
    ensures Beaten(|sel|, End(ts, window, sel), Picks(ts, window))
    decreases |ts|, 1
  {
    if sel != [] {
      assert sel[0] < |ts|;
      var n, m := |ts| - 1, |sel| - 1;
      if sel[m] == n {
        LongerChoice(ts, window, sel);
      } else {
        assert sel[m] < n && sel[..m + 1] == sel;
        SelectionShrinks(ts, window, sel, m + 1);
        PicksAreMaximal(ts[..n], window, sel);
        PicksOffered(|sel|, End(ts, window, sel), Picks(ts[..n], window), ts[n], window);
      }
    }
  }

  lemma {:induction false} LongerChoice(ts: seq<int>, window: int, sel: seq<nat>)
    requires window > 0 && Nondecreasing(ts) && Selection(ts, window, sel)
    requires sel != [] && ts != [] && sel[|sel| - 1] == |ts| - 1
    ensures Beaten(|sel|, ts[|ts| - 1], Picks(ts, window))
    decreases |ts|, 0
  {
    var n, m := |ts| - 1, |sel| - 1;
    var earlier, rest := ts[..n], sel[..m];
    if m > 0 {
      assert sel[m - 1] < sel[m] && ts[n] - ts[sel[m - 1]] >= window;
    }
    SelectionShrinks(ts, window, sel, m);
    PicksAreMaximal(earlier, window, rest);
    if n > 0 {
      var k := LastPickIsThere(earlier, window);
      assert ts[k] <= ts[n];
    }
    BothOffered(m, End(earlier, window, rest), Picks(earlier, window), ts[n], window);
  }

  /** The times `picks` are the presses `sel`, a choice in this sense. */
  ghost predicate Chosen(ts: seq<int>, window: int, picks: seq<int>, sel: seq<nat>) {
    Selection(ts, window, sel) && |sel| == |picks| && forall i :: 0 <= i < |sel| ==> ts[sel[i]] == picks[i]
  }

  lemma ChosenStays(ts: seq<int>, window: int, picks: seq<int>, sel: seq<nat>, t: int)
    requires Chosen(ts, window, picks, sel)
    ensures Chosen(ts + [t], window, picks, sel)
  {
    assert forall i :: 0 <= i < |ts| ==> (ts + [t])[i] == ts[i];
  }

  lemma ChosenGrows(ts: seq<int>, window: int, picks: seq<int>, sel: seq<nat>, t: int)
    requires window > 0 && Chosen(ts, window, picks, sel)
    requires picks != [] ==> t - picks[|picks| - 1] >= window
    ensures Chosen(ts + [t], window, picks + [t], sel + [|ts|])
  {
    ChosenStays(ts, window, picks, sel, t);
    var ts', sel' := ts + [t], sel + [|ts|];
    forall i, j | 0 <= i < j < |sel'|
      ensures sel'[i] < sel'[j] && ts'[sel'[j]] - ts'[sel'[i]] >= window
    {
      if j < |sel| {
        assert sel'[i] == sel[i] && sel'[j] == sel[j];
      } else if i < |sel| - 1 {
        assert ts[sel[|sel| - 1]] - ts[sel[i]] >= window;
      }
    }
  }

  lemma ChosenNext(ts: seq<int>, window: int, picks: seq<int>, sel: seq<nat>, t: int) returns (sel': seq<nat>)
    requires window > 0 && Chosen(ts, window, picks, sel)
    ensures Chosen(ts + [t], window, Pick(picks, t, window), sel')
  {
    if picks != [] && t - picks[|picks| - 1] < window {
      ChosenStays(ts, window, picks, sel, t);
      sel' := sel;
    } else {
      ChosenGrows(ts, window, picks, sel, t);
      sel' := sel + [|ts|];
    }
  }

  /** The greedy picks are such a choice themselves. */
  lemma {:induction false} PicksAreAChoice(ts: seq<int>, window: int) returns (sel: seq<nat>)
    requires window > 0
    ensures Chosen(ts, window, Picks(ts, window), sel)
  {
    sel := [];
    if ts != [] {
      var before, t := ts[..|ts| - 1], ts[|ts| - 1];
      sel := PicksAreAChoice(before, window);
      sel := ChosenNext(before, window, Picks(before, window), sel, t);
      assert ts == before + [t];
    }
  }

  /** A camera's rings in a mixed history are a choice of its presses, in order, a window apart. */
  lemma RingsAreAChoice(presses: seq<Press>, window: int, camera: Camera) returns (sel: seq<nat>)
    requires window > 0
    ensures Chosen(Times(presses, camera), window, RingTimes(presses, window, camera), sel)
  {
    CamerasAreIndependent(presses, window, camera);
    sel := PicksAreAChoice(Times(presses, camera), window);
  }

  /** No choice of a camera's presses a window apart is longer than its rings in a mixed history. */
  lemma RingsAreMaximal(presses: seq<Press>, window: int, camera: Camera, sel: seq<nat>)
    requires window > 0 && Nondecreasing(Times(presses, camera))
    requires Selection(Times(presses, camera), window, sel)
    ensures |sel| <= |RingTimes(presses, window, camera)|
  {
    CamerasAreIndependent(presses, window, camera);
    PicksAreMaximal(Times(presses, camera), window, sel);
  }
}
