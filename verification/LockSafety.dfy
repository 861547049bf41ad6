/** What the lock protocol guarantees, for every run from the empty ensemble. */
module LockSafety {
  import opened LockProtocol
  import opened Sequences

  ghost predicate Reachable(s: State) {
    exists acts :: IsRun(Init, acts) && After(Init, acts) == s
  }

  lemma ReachableKeepsInv(s: State)
    requires Reachable(s)
    ensures Inv(s)
  {
    var acts :| IsRun(Init, acts) && After(Init, acts) == s;
    RunKeepsInv(Init, acts);
  }

  // ---------------------------------------------------------------- mutual exclusion

  /** Two holders of one directory are both readers, although each acted on a stale listing. */
  lemma MutualExclusion(s: State, a: Req, b: Req)
    requires Reachable(s)
    requires InPhase(s, a, Holding) && InPhase(s, b, Holding)
    requires a != b && a.dir == b.dir
    ensures a.kind == Read && b.kind == Read
  {
    ReachableKeepsInv(s);
    HoldersCompatible(s, a, b);
  }

  lemma HoldersCompatible(s: State, a: Req, b: Req)
    requires Inv(s)
    requires InPhase(s, a, Holding) && InPhase(s, b, Holding)
    requires a != b && a.dir == b.dir
    ensures a.kind == Read && b.kind == Read
  {
    assert RequestOk(s, a) && RequestOk(s, b) && !SameSlot(a, b);
    assert !Blocks(a, b) && !Blocks(b, a);
  }

  // ---------------------------------------------------------------- runs and their parts

  lemma {:induction false} RunSplit(s: State, acts: seq<Action>, k: nat)
    requires IsRun(s, acts) && k <= |acts|
    ensures IsRun(s, acts[..k]) && IsRun(After(s, acts[..k]), acts[k..])
    ensures After(s, acts) == After(After(s, acts[..k]), acts[k..])
    decreases |acts|
  {
    if k == 0 {
      assert acts[0..] == acts;
    } else {
      assert acts[..k][1..] == acts[1..][..k - 1];
      assert acts[1..][k - 1..] == acts[k..];
      RunSplit(Apply(s, acts[0]), acts[1..], k - 1);
    }
  }

  /** The state before action `k`. */
  lemma StateBefore(acts: seq<Action>, k: nat)
    requires IsRun(Init, acts) && k < |acts|
    ensures IsRun(Init, acts[..k]) && Inv(After(Init, acts[..k]))
    ensures Enabled(After(Init, acts[..k]), acts[k])
    ensures IsRun(Apply(After(Init, acts[..k]), acts[k]), acts[k + 1..])
    ensures After(Init, acts) == After(Apply(After(Init, acts[..k]), acts[k]), acts[k + 1..])
  {
    RunSplit(Init, acts, k);
    RunKeepsInv(Init, acts[..k]);
    assert acts[k..][0] == acts[k] && acts[k..][1..] == acts[k + 1..];
  }

  // ---------------------------------------------------------------- order of grants

  /** The sequence number of `r` has been handed out and its node is not there. */
  predicate Gone(s: State, r: Req) {
    r !in s.live && r.idx < NextIndex(s, r.dir)
  }

  lemma {:induction false} GoneForever(s: State, acts: seq<Action>, r: Req)
    requires IsRun(s, acts) && Gone(s, r)
    ensures Gone(After(s, acts), r)
    decreases |acts|
  {
    if acts != [] {
      GoneForever(Apply(s, acts[0]), acts[1..], r);
    }
  }

  predicate Deletes(s: State, a: Action, r: Req) {
    a == Release(r) || (a.Crash? && r in s.reqs && s.reqs[r].session == a.session)
  }

  lemma {:induction false} DeletionHappened(s: State, acts: seq<Action>, r: Req) returns (k: nat)
    requires IsRun(s, acts) && r in s.live && r !in After(s, acts).live
    ensures k < |acts| && IsRun(s, acts[..k]) && Deletes(After(s, acts[..k]), acts[k], r)
    decreases |acts|
  {
    if Deletes(s, acts[0], r) {
      k := 0;
    } else {
      assert r in Apply(s, acts[0]).live;
      var k' := DeletionHappened(Apply(s, acts[0]), acts[1..], r);
      k := k' + 1;
      assert acts[..k][1..] == acts[1..][..k'];
    }
  }

  lemma BlockerGoneAtGrant(s: State, a: Req, b: Req)
    requires Inv(s) && Enabled(s, Grant(b)) && Blocks(a, b)
    ensures Gone(s, a)
  {
    assert RequestOk(s, b);
  }

  lemma GrantsAscend(acts: seq<Action>, a: Req, b: Req, i: nat, j: nat)
    requires IsRun(Init, acts) && i < |acts| && j < |acts|
    requires acts[i] == Grant(a) && acts[j] == Grant(b) && Blocks(a, b)
    ensures i < j
  {
    StateBefore(acts, j);
    BlockerGoneAtGrant(After(Init, acts[..j]), a, b);
    if j < i {
      StateBefore(acts, i);
      assert RequestOk(After(Init, acts[..i]), a);
      RunSplit(Init, acts[..i], j);
      assert acts[..i][..j] == acts[..j];
      GoneForever(After(Init, acts[..j]), acts[..i][j..], a);
    }
  }

  /** A request that was granted at step `i` and is gone at the end was deleted in between. */
  lemma GrantedThenDeleted(acts: seq<Action>, a: Req, i: nat) returns (k: nat)
    requires IsRun(Init, acts) && i < |acts| && acts[i] == Grant(a) && a !in After(Init, acts).live
    ensures i < k < |acts| && IsRun(Init, acts[..k]) && Deletes(After(Init, acts[..k]), acts[k], a)
  {
    StateBefore(acts, i);
    var s := After(Init, acts[..i]);
    assert RequestOk(s, a);
    var m := DeletionHappened(Apply(s, Grant(a)), acts[i + 1..], a);
    k := i + 1 + m;
    RunSplit(Init, acts, k);
    assert acts[..k][..i] == acts[..i];
    StateBefore(acts[..k], i);
    assert acts[..k][i + 1..] == acts[i + 1..][..m];
  }

  /** Incompatible requests are granted in sequence order, and the node of the earlier one is
      deleted, by its release or by the loss of its session, before the later one is granted. */
  lemma GrantOrder(acts: seq<Action>, a: Req, b: Req, i: nat, j: nat) returns (k: nat)
    requires IsRun(Init, acts) && i < |acts| && j < |acts|
    requires acts[i] == Grant(a) && acts[j] == Grant(b) && Blocks(a, b)
    ensures i < k < j
    ensures IsRun(Init, acts[..k]) && Deletes(After(Init, acts[..k]), acts[k], a)
  {
    GrantsAscend(acts, a, b, i, j);
    StateBefore(acts, j);
    BlockerGoneAtGrant(After(Init, acts[..j]), a, b);
    k := GrantedThenDeleted(acts[..j], a, i);
    assert acts[..j][..k] == acts[..k];
  }

  // ---------------------------------------------------------------- how often a request scans and is granted

  function ScansOf(acts: seq<Action>, r: Req): nat {
    if acts == [] then 0
    else (if acts[0].Scan? && acts[0].r == r then 1 else 0) + ScansOf(acts[1..], r)
  }

  function GrantsOf(acts: seq<Action>, r: Req): nat {
    if acts == [] then 0
    else (if acts[0] == Grant(r) then 1 else 0) + GrantsOf(acts[1..], r)
  }

  /** The history kept in the request counts the actions of the run. */
  lemma {:induction false} HistoryCounts(s: State, acts: seq<Action>, r: Req)
    requires Inv(s) && IsRun(s, acts) && r in s.reqs
    ensures r in After(s, acts).reqs
    ensures After(s, acts).reqs[r].preds == s.reqs[r].preds
    ensures After(s, acts).reqs[r].scans == s.reqs[r].scans + ScansOf(acts, r)
    ensures After(s, acts).reqs[r].grants == s.reqs[r].grants + GrantsOf(acts, r)
    decreases |acts|
  {
    if acts != [] {
      var s' := Apply(s, acts[0]);
      StepKeepsInv(s, acts[0]);
      if acts[0].Create? {
        NewNodeIsFresh(s, Req(acts[0].dir, acts[0].kind, acts[0].idx));
      }
      HistoryCounts(s', acts[1..], r);
    }
  }

  /** A request with `k` live incompatible predecessors at its creation lists the children at most
      `k + 1` times over all loop iterations and re-entries, and calls on_locked at most once. */
  lemma ScanBound(acts: seq<Action>, i: nat)
    requires IsRun(Init, acts) && i < |acts| && acts[i].Create?
    ensures IsRun(Init, acts[..i])
    ensures var r := Req(acts[i].dir, acts[i].kind, acts[i].idx);
            var preds := set t | t in After(Init, acts[..i]).live && Blocks(t, r);
            ScansOf(acts[i + 1..], r) <= |preds| + 1 && GrantsOf(acts[i + 1..], r) <= 1
  {
    StateBefore(acts, i);
    var s := After(Init, acts[..i]);
    var r := Req(acts[i].dir, acts[i].kind, acts[i].idx);
    var s1 := Apply(s, acts[i]);
    StepKeepsInv(s, acts[i]);
    HistoryCounts(s1, acts[i + 1..], r);
    RunKeepsInv(s1, acts[i + 1..]);
    var q := After(s1, acts[i + 1..]).reqs[r];
    assert RequestOk(After(s1, acts[i + 1..]), r);
    SubsetSize(q.tried, q.preds);
  }

  // ---------------------------------------------------------------- no lost wake-up, no deadlock

  /** Every waiting request watches a node before it that is still there, or its notification is on the way. */
  lemma NoLostWakeup(s: State, r: Req)
    requires Reachable(s) && r in s.reqs && s.reqs[r].phase.Waiting?
    ensures var t := s.reqs[r].phase.target;
            Blocks(t, r) && if t in s.live then Watch(r, t) in s.watches else Watch(r, t) in s.fired
  {
    ReachableKeepsInv(s);
    assert RequestOk(s, r);
  }

  predicate ManagerAction(a: Action) {
    a.Scan? || a.Check? || a.Deliver? || a.Grant?
  }

  /** The lock managers have nothing left to do: only new requests, releases and crashes can happen. */
  ghost predicate Settled(s: State) {
    forall a :: ManagerAction(a) ==> !Enabled(s, a)
  }

  lemma ListSet(rest: set<Req>) returns (children: seq<Req>)
    ensures forall c :: c in children <==> c in rest
    decreases rest
  {
    children := [];
    if rest != {} {
      var c :| c in rest;
      children := ListSet(rest - {c});
      children := [c] + children;
    }
  }

  lemma SettledPhases(s: State, r: Req)
    requires Inv(s) && Settled(s) && r in s.live
    ensures s.reqs[r].phase.Holding? || (s.reqs[r].phase.Waiting? && s.fired == {})
  {
    assert RequestOk(s, r);
    var children := ListSet(set c | c in s.live && c.dir == r.dir);
    assert !Enabled(s, Scan(r, children)) && !Enabled(s, Check(r)) && !Enabled(s, Grant(r));
    if s.fired != {} {
      var w :| w in s.fired;
      assert FiredOk(s, w);
      assert Enabled(s, Deliver(w));
    }
  }

  /** When the managers are settled, a live request holds the lock exactly when no live incompatible
      request stands before it. */
  lemma NoDeadlock(s: State, r: Req)
    requires Reachable(s) && Settled(s) && r in s.live
    ensures InPhase(s, r, Holding) <==> forall t :: t in s.live ==> !Blocks(t, r)
    ensures InPhase(s, r, Holding) <==>
            forall t :: t in s.live && t.dir == r.dir && t.idx < r.idx ==> t.kind == Read && r.kind == Read
  {
    ReachableKeepsInv(s);
    assert RequestOk(s, r);
    SettledPhases(s, r);
    assert forall t :: Blocks(t, r) <==> t.dir == r.dir && t.idx < r.idx && !(t.kind == Read && r.kind == Read);
  }

  /** In particular the lowest-numbered live request of every directory holds its lock. */
  lemma LowestHolds(s: State, r: Req)
    requires Reachable(s) && Settled(s) && r in s.live
    requires forall t :: t in s.live && t.dir == r.dir ==> r.idx <= t.idx
    ensures InPhase(s, r, Holding)
  {
    NoDeadlock(s, r);
  }

  lemma ReachableStep(s: State, a: Action)
    requires Reachable(s) && Enabled(s, a)
    ensures Reachable(Apply(s, a))
  {
    var acts :| IsRun(Init, acts) && After(Init, acts) == s;
    RunAppend(Init, acts, a);
    assert After(Init, acts + [a]) == Apply(s, a);
  }

  /** Among readers a new reader gets the lock at once, with one listing, and all others keep it. */
  lemma ReaderJoins(s: State, session: nat, dir: Dir, idx: nat) returns (s': State)
    requires Reachable(s) && Enabled(s, Create(session, dir, Read, idx))
    requires forall t :: t in s.live && t.dir == dir ==> t.kind == Read
    ensures Reachable(s') && InPhase(s', Req(dir, Read, idx), Holding) && s'.live == s.live + {Req(dir, Read, idx)}
    ensures s'.dead == s.dead && NextIndex(s', dir) == idx + 1
    ensures forall t :: InPhase(s, t, Holding) ==> InPhase(s', t, Holding)
  {
    var r := Req(dir, Read, idx);
    ReachableKeepsInv(s);
    NewNodeIsFresh(s, r);
    var s1 := Apply(s, Create(session, dir, Read, idx));
    ReachableStep(s, Create(session, dir, Read, idx));
    var children := ListSet(set c | c in s1.live && c.dir == dir);
    assert forall t :: t in children ==> !Blocks(t, r);
    var s2 := Apply(s1, Scan(r, children));
    ReachableStep(s1, Scan(r, children));
    ReachableStep(s2, Grant(r));
    s' := Apply(s2, Grant(r));
  }

  /** Two readers hold the lock of one directory together. */
  lemma ReadersShare(dir: Dir, a: nat, b: nat) returns (s: State)
    ensures Reachable(s) && InPhase(s, Req(dir, Read, 0), Holding) && InPhase(s, Req(dir, Read, 1), Holding)
  {
    assert IsRun(Init, []) && After(Init, []) == Init;
    s := ReaderJoins(Init, a, dir, 0);
    s := ReaderJoins(s, b, dir, 1);
  }

  // ---------------------------------------------------------------- no livelock

  /** How much work a request can still cause. */
  function Work(q: Request): int {
    4 * (|q.preds| - |q.tried|) +
    match q.phase
    case Scanning => 3
    case Blocked(_) => 6
    case Waiting(_) => 5
    case Clear => 2
    case Holding => 1
    case Released => 0
    case Dead => 0
  }

  ghost function TotalWork(reqs: map<Req, Request>): int
    decreases reqs.Keys
  {
    if reqs == map[] then 0
    else
      var r :| r in reqs;
      assert (reqs - {r}).Keys == reqs.Keys - {r};
      Work(reqs[r]) + TotalWork(reqs - {r})
  }

  lemma {:induction false} TotalWorkSplit(reqs: map<Req, Request>, r: Req)
    requires r in reqs
    ensures TotalWork(reqs) == Work(reqs[r]) + TotalWork(reqs - {r})
    decreases reqs.Keys
  {
    var x :| x in reqs && TotalWork(reqs) == Work(reqs[x]) + TotalWork(reqs - {x});
    if x != r {
      assert (reqs - {x}).Keys == reqs.Keys - {x};
      assert (reqs - {r}).Keys == reqs.Keys - {r};
      TotalWorkSplit(reqs - {x}, r);
      TotalWorkSplit(reqs - {r}, x);
      assert reqs - {x} - {r} == reqs - {r} - {x};
    }
  }

  lemma {:induction false} TotalWorkNonNegative(s: State, reqs: map<Req, Request>)
    requires Inv(s)
    requires forall r :: r in reqs ==> r in s.reqs && reqs[r] == s.reqs[r]
    ensures TotalWork(reqs) >= 0
    decreases reqs.Keys
  {
    if reqs != map[] {
      var r :| r in reqs;
      TotalWorkSplit(reqs, r);
      assert RequestOk(s, r);
      SubsetSize(reqs[r].tried, reqs[r].preds);
      assert (reqs - {r}).Keys == reqs.Keys - {r};
      TotalWorkNonNegative(s, reqs - {r});
    }
  }

  predicate Internal(a: Action) {
    ManagerAction(a) || a.Release?
  }

  function Actor(a: Action): Req
    requires Internal(a)
  {
    if a.Deliver? then a.w.watcher else a.r
  }

  lemma StepDoesWork(s: State, a: Action)
    requires Inv(s) && Enabled(s, a) && Internal(a)
    ensures TotalWork(Apply(s, a).reqs) < TotalWork(s.reqs)
  {
    var r, s' := Actor(a), Apply(s, a);
    assert RequestOk(s, r);
    if a.Deliver? { assert FiredOk(s, a.w); }
    if a.Scan? {
      var before := LocksBefore(r, a.children);
      if before != [] { assert before[0] in before && before[0] !in s.reqs[r].tried; }
    }
    assert Work(s'.reqs[r]) < Work(s.reqs[r]);
    TotalWorkSplit(s.reqs, r);
    TotalWorkSplit(s'.reqs, r);
    assert s'.reqs - {r} == s.reqs - {r};
  }

  lemma {:induction false} RunDoesWork(s: State, acts: seq<Action>)
    requires Inv(s) && IsRun(s, acts)
    requires forall a :: a in acts ==> Internal(a)
    ensures |acts| <= TotalWork(s.reqs)
    decreases |acts|
  {
    TotalWorkNonNegative(s, s.reqs);
    if acts != [] {
      StepDoesWork(s, acts[0]);
      StepKeepsInv(s, acts[0]);
      RunDoesWork(Apply(s, acts[0]), acts[1..]);
    }
  }

  /** Without new requests and crashes every run is finite: the managers cannot wake each other forever. */
  lemma NoLivelock(s: State, acts: seq<Action>)
    requires Reachable(s) && IsRun(s, acts)
    requires forall a :: a in acts ==> Internal(a)
    ensures |acts| <= TotalWork(s.reqs)
  {
    ReachableKeepsInv(s);
    RunDoesWork(s, acts);
  }
}
