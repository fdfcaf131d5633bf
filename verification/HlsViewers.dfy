/** The HLS viewer tracker: an index that forgets expired clients on every read, against the
    full history of polls. */
module HlsViewers {
  import opened Optional

  type Name = string
  type Index = map<Name, map<Name, int>>

  datatype Poll = Poll(camera: Name, client: Name, t: int)

  // ---------------------------------------------------------------- the reference: full history

  /** The newest recorded poll of a client; polls with an empty name are not recorded. */
  function Latest(history: seq<Poll>, camera: Name, client: Name): Option<int> {
    if history == [] then None
    else
      var n := |history| - 1;
      if history[n].camera == camera && history[n].client == client then Some(history[n].t)
      else Latest(history[..n], camera, client)
  }

  function Cameras(history: seq<Poll>): set<Name> { set i | 0 <= i < |history| :: history[i].camera }
  function Clients(history: seq<Poll>): set<Name> { set i | 0 <= i < |history| :: history[i].client }

  function Active(history: seq<Poll>, camera: Name, cutoff: int): set<Name> {
    set k | k in Clients(history) && Latest(history, camera, k).Some? && Latest(history, camera, k).value >= cutoff
  }

  /** What a read should report: the number of active clients of every camera that has any. */
  function Expected(history: seq<Poll>, cutoff: int): map<Name, nat> {
    map c | c in Cameras(history) && Active(history, c, cutoff) != {} :: |Active(history, c, cutoff)|
  }

  // ---------------------------------------------------------------- the evicting index

  function Seen(last: Index, camera: Name, client: Name, t: int): Index {
    if camera == "" || client == "" then last
    else last[camera := (if camera in last then last[camera] else map[])[client := t]]
  }

  function Kept(clients: map<Name, int>, cutoff: int): map<Name, int> {
    map k | k in clients && clients[k] >= cutoff :: clients[k]
  }

  function Evicted(last: Index, cutoff: int): Index {
    map c | c in last && Kept(last[c], cutoff) != map[] :: Kept(last[c], cutoff)
  }

  function Sizes(last: Index): map<Name, nat> { map c | c in last :: |last[c]| }

  /** The index with the cameras in `done` already pruned. */
  ghost function Partly(last: Index, done: set<Name>, cutoff: int): Index {
    map c | c in last && (c !in done || Kept(last[c], cutoff) != map[]) ::
      if c in done then Kept(last[c], cutoff) else last[c]
  }

  ghost function PartlySizes(last: Index, done: set<Name>, cutoff: int): map<Name, nat> {
    map c | c in last && c in done && Kept(last[c], cutoff) != map[] :: |Kept(last[c], cutoff)|
  }

  lemma PartlyAdd(last: Index, done: set<Name>, cutoff: int, c: Name)
    requires c in last && c !in done
    ensures var kept := Kept(last[c], cutoff);
            if kept == map[] then
              && Partly(last, done + {c}, cutoff) == Partly(last, done, cutoff) - {c}
              && PartlySizes(last, done + {c}, cutoff) == PartlySizes(last, done, cutoff)
            else
              && Partly(last, done + {c}, cutoff) == Partly(last, done, cutoff)[c := kept]
              && PartlySizes(last, done + {c}, cutoff) == PartlySizes(last, done, cutoff)[c := |kept|]
  {
  }

  lemma PartlyAll(last: Index, cutoff: int)
    ensures Partly(last, last.Keys, cutoff) == Evicted(last, cutoff)
    ensures PartlySizes(last, last.Keys, cutoff) == Sizes(Evicted(last, cutoff))
  {
  }

  class Viewers {
    const ttl: int
    var last: Index

    constructor (ttl: int)
      ensures this.ttl == ttl && last == map[]
    {
      this.ttl := ttl;
      last := map[];
    }

    method RecordSeen(camera: Name, client: Name, t: int)
      modifies this
      ensures last == Seen(old(last), camera, client, t)
    {
      if camera == "" || client == "" {
        return;
      }
      if camera !in last {
        last := last[camera := map[]];
      }
      last := last[camera := last[camera][client := t]];
    }

    /** The inner loop: deletes the expired clients of one camera. */
    method Prune(clients: map<Name, int>, cutoff: int) returns (kept: map<Name, int>)
      ensures kept == Kept(clients, cutoff)
    {
      kept := clients;
      var todo := clients.Keys;
      while todo != {}
        invariant todo <= clients.Keys
        invariant kept == map k | k in clients && (k in todo || clients[k] >= cutoff) :: clients[k]
        decreases todo
      {
        var k :| k in todo;
        if clients[k] < cutoff {
          kept := kept - {k};
        }
        todo := todo - {k};
      }
    }

    /** One turn of the outer loop: prunes a camera, and forgets it or reports it. */
    method PruneCamera(cam: Name, cutoff: int, out: map<Name, nat>) returns (out': map<Name, nat>)
      requires cam in last
      modifies this
      ensures var kept := Kept(old(last)[cam], cutoff);
              if kept == map[] then last == old(last) - {cam} && out' == out
              else last == old(last)[cam := kept] && out' == out[cam := |kept|]
    {
      var clients := Prune(last[cam], cutoff);
      if |clients| == 0 {
        assert clients == map[];
        last := last - {cam};
        return out;
      }
      last := last[cam := clients];
      out' := out[cam := |clients|];
    }

    /** counts: evicts, reports what is left, and leaves no camera without clients. */
    method Counts(now: int) returns (out: map<Name, nat>)
      modifies this
      ensures last == Evicted(old(last), now - ttl) && out == Sizes(last)
    {
      var cutoff := now - ttl;
      ghost var before := last;
      ghost var done: set<Name> := {};
      out := map[];
      var todo := last.Keys;
      while todo != {}
        invariant todo !! done && todo + done == before.Keys
        invariant last == Partly(before, done, cutoff)
        invariant out == PartlySizes(before, done, cutoff)
        decreases todo
      {
        var cam :| cam in todo;
        PartlyAdd(before, done, cutoff, cam);
        out := PruneCamera(cam, cutoff, out);
        todo, done := todo - {cam}, done + {cam};
      }
      PartlyAll(before, cutoff);
    }
  }

  // ---------------------------------------------------------------- every sequence of polls and reads

  datatype Op = Seen_(camera: Name, client: Name, t: int) | Read(now: int)

  function IndexAfter(ops: seq<Op>, ttl: int): Index {
    if ops == [] then map[]
    else
      var n := |ops| - 1;
      var before := IndexAfter(ops[..n], ttl);
      match ops[n]
      case Seen_(camera, client, t) => Seen(before, camera, client, t)
      case Read(now) => Evicted(before, now - ttl)
  }

  function History(ops: seq<Op>): seq<Poll> {
    if ops == [] then []
    else
      var n := |ops| - 1;
      match ops[n]
      case Seen_(camera, client, t) =>
        History(ops[..n]) + (if camera == "" || client == "" then [] else [Poll(camera, client, t)])
      case Read(_) => History(ops[..n])
  }

  /** Reads see a clock that never goes back. Poll times are unconstrained: seen reads the clock
      before it takes the lock. */
  ghost predicate ReadsInOrder(ops: seq<Op>) {
    forall i, j :: 0 <= i < j < |ops| && ops[i].Read? && ops[j].Read? ==> ops[i].now <= ops[j].now
  }

  /** The index is the history minus clients whose newest poll some read has found expired. */
  ghost predicate Faithful(last: Index, history: seq<Poll>, cutoff: int) {
    && (forall c :: c in last ==> last[c] != map[])
    && (forall c, k :: c in last && k in last[c] ==> Latest(history, c, k) == Some(last[c][k]))
    && (forall c, k :: Latest(history, c, k).Some? && Latest(history, c, k).value >= cutoff ==>
        c in last && k in last[c])
  }

  lemma FaithfulSeen(last: Index, history: seq<Poll>, cutoff: int, camera: Name, client: Name, t: int)
    requires Faithful(last, history, cutoff) && camera != "" && client != ""
    ensures Faithful(Seen(last, camera, client, t), history + [Poll(camera, client, t)], cutoff)
  {
    assert client in Seen(last, camera, client, t)[camera];
    var history' := history + [Poll(camera, client, t)];
    assert history'[..|history|] == history;
    forall c, k
      ensures Latest(history', c, k) == if c == camera && k == client then Some(t) else Latest(history, c, k)
    {
    }
  }

  lemma FaithfulEvicted(last: Index, history: seq<Poll>, cutoff: int, cutoff': int)
    requires Faithful(last, history, cutoff) && cutoff <= cutoff'
    ensures Faithful(Evicted(last, cutoff'), history, cutoff')
  {
    var last' := Evicted(last, cutoff');
    forall c, k | Latest(history, c, k).Some? && Latest(history, c, k).value >= cutoff'
      ensures c in last' && k in last'[c]
    {
      assert c in last && k in last[c];
      assert k in Kept(last[c], cutoff');
    }
  }

  lemma {:induction false} LatestIsRecorded(history: seq<Poll>, c: Name, k: Name)
    requires Latest(history, c, k).Some?
    ensures c in Cameras(history) && k in Clients(history)
  {
    var n := |history| - 1;
    if history[n].camera != c || history[n].client != k {
      LatestIsRecorded(history[..n], c, k);
      var i :| 0 <= i < n && history[..n][i].camera == c;
      assert history[i].camera == c;
      var j :| 0 <= j < n && history[..n][j].client == k;
      assert history[j].client == k;
    }
  }

  lemma SizesAreExpected(last: Index, history: seq<Poll>, cutoff: int)
    requires Faithful(last, history, cutoff)
    requires forall c, k :: c in last && k in last[c] ==> last[c][k] >= cutoff
    ensures Sizes(last) == Expected(history, cutoff)
  {
    forall c
      ensures c in last ==> c in Cameras(history) && Active(history, c, cutoff) == last[c].Keys
      ensures c in Cameras(history) && Active(history, c, cutoff) != {} ==> c in last
    {
      if c in last {
        forall k | k in last[c]
          ensures k in Active(history, c, cutoff) && c in Cameras(history)
        {
          LatestIsRecorded(history, c, k);
        }
        var k :| k in last[c];
        assert Active(history, c, cutoff) == last[c].Keys;
      }
    }
  }

  lemma {:induction false} IndexIsFaithful(ops: seq<Op>, ttl: int, cutoff: int)
    requires ReadsInOrder(ops)
    requires forall i :: 0 <= i < |ops| && ops[i].Read? ==> ops[i].now - ttl <= cutoff
    ensures Faithful(IndexAfter(ops, ttl), History(ops), cutoff)
  {
    if ops != [] {
      var n := |ops| - 1;
      IndexIsFaithful(ops[..n], ttl, cutoff);
      match ops[n]
      case Seen_(camera, client, t) =>
        if camera != "" && client != "" {
          FaithfulSeen(IndexAfter(ops[..n], ttl), History(ops[..n]), cutoff, camera, client, t);
        } else {
          assert History(ops) == History(ops[..n]);
        }
      case Read(now) =>
        IndexIsFaithful(ops[..n], ttl, now - ttl);
        FaithfulEvicted(IndexAfter(ops[..n], ttl), History(ops[..n]), now - ttl, now - ttl);
        Weaken(Evicted(IndexAfter(ops[..n], ttl), now - ttl), History(ops[..n]), now - ttl, cutoff);
    }
  }

  lemma Weaken(last: Index, history: seq<Poll>, cutoff: int, cutoff': int)
    requires Faithful(last, history, cutoff) && cutoff <= cutoff'
    ensures Faithful(last, history, cutoff')
  {
  }

  lemma EvictedIsCurrent(last: Index, cutoff: int, c: Name)
    requires c in Evicted(last, cutoff)
    ensures Evicted(last, cutoff)[c] != map[]
    ensures forall k :: k in Evicted(last, cutoff)[c] ==> Evicted(last, cutoff)[c][k] >= cutoff
  {
  }

  lemma ReadIsExpected(last: Index, history: seq<Poll>, cutoff: int)
    requires Faithful(last, history, cutoff)
    ensures Sizes(Evicted(last, cutoff)) == Expected(history, cutoff)
  {
    FaithfulEvicted(last, history, cutoff, cutoff);
    forall c | c in Evicted(last, cutoff)
      ensures forall k :: k in Evicted(last, cutoff)[c] ==> Evicted(last, cutoff)[c][k] >= cutoff
    {
      EvictedIsCurrent(last, cutoff, c);
    }
    SizesAreExpected(Evicted(last, cutoff), history, cutoff);
  }

  lemma {:induction false} ReadMatches(ops: seq<Op>, ttl: int, cutoff: int)
    requires ReadsInOrder(ops)
    requires forall i :: 0 <= i < |ops| && ops[i].Read? ==> ops[i].now - ttl <= cutoff
    ensures Sizes(Evicted(IndexAfter(ops, ttl), cutoff)) == Expected(History(ops), cutoff)
  {
    IndexIsFaithful(ops, ttl, cutoff);
    ReadIsExpected(IndexAfter(ops, ttl), History(ops), cutoff);
  }

  lemma {:induction false} ReadAtEnd(ops: seq<Op>, ttl: int)
    requires ops != [] && ops[|ops| - 1].Read?
    ensures var before := ops[..|ops| - 1];
            && Sizes(IndexAfter(ops, ttl)) == Sizes(Evicted(IndexAfter(before, ttl), ops[|ops| - 1].now - ttl))
            && History(ops) == History(before)
  {
  }

  lemma {:induction false} ReadsBefore(ops: seq<Op>, ttl: int)
    requires ReadsInOrder(ops) && ops != [] && ops[|ops| - 1].Read?
    ensures var before := ops[..|ops| - 1];
            && ReadsInOrder(before)
            && forall i :: 0 <= i < |before| && before[i].Read? ==> before[i].now - ttl <= ops[|ops| - 1].now - ttl
  {
  }

  /** A read after any sequence of polls and earlier reads reports exactly what the full history
      says: eviction never shows, and a camera without active viewers is not reported. */
  lemma {:induction false} CountsMatchHistory(ops: seq<Op>, ttl: int)
    requires ReadsInOrder(ops) && ops != [] && ops[|ops| - 1].Read?
    ensures Sizes(IndexAfter(ops, ttl)) == Expected(History(ops), ops[|ops| - 1].now - ttl)
  {
    var before, cutoff := ops[..|ops| - 1], ops[|ops| - 1].now - ttl;
    ReadAtEnd(ops, ttl);
    ReadsBefore(ops, ttl);
    ReadMatches(before, ttl, cutoff);
    assert Expected(History(ops), cutoff) == Expected(History(before), cutoff);
  }
}
