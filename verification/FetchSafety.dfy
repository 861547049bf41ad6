/** What the write lock gives the status nodes, whatever the processes, jobs and cancellations do. */
module FetchSafety {
  import opened Options
  import opened FetchStates
  import opened FetchProtocol
  import L = LockProtocol
  import LockSafety

  /** A step of the lock does not change whether `r` holds or has released. */
  predicate SameHold(l: L.State, l': L.State, r: L.Req) {
    && r in l.reqs && r in l'.reqs && l'.reqs[r].session == l.reqs[r].session
    && (L.InPhase(l', r, L.Holding) <==> L.InPhase(l, r, L.Holding))
    && (L.InPhase(l', r, L.Released) <==> L.InPhase(l, r, L.Released))
    && (r in l'.live <==> r in l.live)
  }

  lemma LockStepFrame(l: L.State, a: L.Action, r: L.Req)
    requires L.Inv(l) && L.Enabled(l, a) && r in l.reqs
    requires !a.Crash? && (a.Grant? || a.Release? ==> a.r != r)
    ensures SameHold(l, L.Apply(l, a), r)
  {
    assert L.RequestOk(l, r);
    if a.Create? { L.NewNodeIsFresh(l, L.Req(a.dir, a.kind, a.idx)); }
    if a.Deliver? { assert L.FiredOk(l, a.w); }
  }

  /** A fetch that does nothing itself keeps its part of the invariant. */
  lemma FetchFrame(s: State, s': State, k: nat)
    requires k in s.fetches && FetchOk(s, k) && k in s'.fetches
    requires s'.fetches[k] == s.fetches[k].(armed := s'.fetches[k].armed, changed := s'.fetches[k].changed)
    requires s.fetches[k].armed == 0 && s.fetches[k].changed == 0 ==> s'.fetches[k] == s.fetches[k]
    requires SameHold(s.lock, s'.lock, s.fetches[k].req)
    requires Up(s', k) ==> Up(s, k)
    requires OwnsNode(s', k) ==> OwnsNode(s, k)
    ensures FetchOk(s', k)
  {
  }

  /** A step that keeps the lock, changes fetch `i` alone (apart from watches) and creates no node. */
  lemma ActorStep(s: State, s': State, i: nat)
    requires Inv(s) && i in s.fetches && s'.lock == s.lock && s'.fetches.Keys == s.fetches.Keys
    requires forall k :: k in s.fetches && k != i ==>
            s'.fetches[k] == s.fetches[k] || s'.fetches[k] == s.fetches[k].(armed := 0)
    requires s'.fetches[i].req == s.fetches[i].req && s'.fetches[i].spec == s.fetches[i].spec
    requires s'.fetches[i].releaseCalls == s.fetches[i].releaseCalls
    requires Created(s.fetches[i].start) ==> Created(s'.fetches[i].start)
    requires forall p :: p in s'.nodes ==> p in s.nodes && s'.nodes[p] == s.nodes[p]
    requires FetchOk(s', i)
    ensures Inv(s')
  {
    forall k | k in s'.fetches ensures FetchOk(s', k) {
      if k != i {
        assert FetchOk(s, k);
        FetchFrame(s, s', k);
      }
    }
    forall p | p in s'.nodes ensures NodeOk(s', p) { assert NodeOk(s, p); }
    forall k, j | k in s'.fetches && j in s'.fetches && SameRequest(s', k, j) ensures k == j {
      assert SameRequest(s, k, j);
    }
  }

  lemma LockStepKeepsInv(s: State, a: L.Action)
    requires Inv(s) && L.Enabled(s.lock, a) && !a.Crash? && (a.Grant? || a.Release? ==> !IsFetchRequest(s, a.r))
    ensures Inv(s.(lock := L.Apply(s.lock, a)))
  {
    var s' := s.(lock := L.Apply(s.lock, a));
    L.StepKeepsInv(s.lock, a);
    forall k | k in s'.fetches ensures FetchOk(s', k) {
      assert FetchOk(s, k);
      LockStepFrame(s.lock, a, s.fetches[k].req);
      FetchFrame(s, s', k);
    }
    forall p | p in s'.nodes ensures NodeOk(s', p) { assert NodeOk(s, p); }
    forall k, j | k in s'.fetches && j in s'.fetches && SameRequest(s', k, j) ensures k == j {
      assert SameRequest(s, k, j);
    }
  }

  lemma NewRequest(s: State, create: L.Action, r: L.Req, k: nat)
    requires create.Create? && L.Inv(s.lock) && L.Enabled(s.lock, create)
    requires r == L.Req(create.dir, create.kind, create.idx)
    requires k in s.fetches && FetchOk(s, k)
    ensures s.fetches[k].req != r && SameHold(s.lock, L.Apply(s.lock, create), s.fetches[k].req)
  {
    L.NewNodeIsFresh(s.lock, r);
    LockStepFrame(s.lock, create, s.fetches[k].req);
  }

  /** A new fetch with a new request joins; nobody else notices. */
  lemma JoinKeepsInv(s: State, s': State, i: nat, create: L.Action, r: L.Req)
    requires Inv(s) && i !in s.fetches && create.Create? && L.Enabled(s.lock, create)
    requires r == L.Req(create.dir, create.kind, create.idx)
    requires s'.lock == L.Apply(s.lock, create) && s'.nodes == s.nodes && i in s'.fetches
    requires s'.fetches == s.fetches[i := s'.fetches[i]] && s'.fetches[i].req == r && FetchOk(s', i)
    ensures Inv(s')
  {
    L.StepKeepsInv(s.lock, create);
    forall p | p in s'.nodes ensures NodeOk(s', p) && s'.nodes[p].owner != i { assert NodeOk(s, p); }
    forall k | k in s.fetches ensures FetchOk(s', k) && s.fetches[k].req != r {
      assert FetchOk(s, k);
      NewRequest(s, create, r, k);
      FetchFrame(s, s', k);
    }
    forall k, j | k in s'.fetches && j in s'.fetches && SameRequest(s', k, j) ensures k == j {
      if k != i && j != i { assert SameRequest(s, k, j); }
    }
  }

  lemma RequestKeepsInv(specs: seq<Spec>, s: State, i: nat, idx: nat)
    requires Inv(s) && Enabled(specs, s, Request(i, idx))
    ensures Inv(Apply(specs, s, Request(i, idx)))
  {
    var s' := Apply(specs, s, Request(i, idx));
    var create := L.Create(specs[i].session, specs[i].dir, L.Write, idx);
    assert FetchOk(s', i) by {
      forall p | p in s.nodes ensures s.nodes[p].owner != i { assert NodeOk(s, p); }
    }
    JoinKeepsInv(s, s', i, create, L.Req(specs[i].dir, L.Write, idx));
  }

  /** Grant or release of fetch `i`'s own lock: everybody else's lock is unaffected. */
  lemma OwnLockStep(s: State, s': State, i: nat, a: L.Action)
    requires Inv(s) && i in s.fetches && s'.fetches.Keys == s.fetches.Keys && s'.nodes == s.nodes
    requires a == L.Grant(s.fetches[i].req) || a == L.Release(s.fetches[i].req)
    requires L.Enabled(s.lock, a) && s'.lock == L.Apply(s.lock, a)
    requires forall k :: k in s.fetches && k != i ==> s'.fetches[k] == s.fetches[k]
    requires s'.fetches[i].req == s.fetches[i].req && s'.fetches[i].spec == s.fetches[i].spec
    requires !OwnsNode(s, i)
    requires FetchOk(s', i)
    ensures Inv(s')
  {
    L.StepKeepsInv(s.lock, a);
    forall k | k in s'.fetches ensures FetchOk(s', k) {
      if k != i {
        assert FetchOk(s, k) && !SameRequest(s, k, i);
        LockStepFrame(s.lock, a, s.fetches[k].req);
        FetchFrame(s, s', k);
      }
    }
    forall p | p in s'.nodes ensures NodeOk(s', p) { assert NodeOk(s, p); }
    forall k, j | k in s'.fetches && j in s'.fetches && SameRequest(s', k, j) ensures k == j {
      assert SameRequest(s, k, j);
    }
  }

  lemma GrantedKeepsInv(specs: seq<Spec>, s: State, i: nat)
    requires Inv(s) && Enabled(specs, s, Granted(i))
    ensures Inv(Apply(specs, s, Granted(i)))
  {
    assert FetchOk(s, i);
    OwnLockStep(s, Apply(specs, s, Granted(i)), i, L.Grant(s.fetches[i].req));
  }

  /** Releasing, and then changing where fetch `i` stands. */
  lemma ReleaseKeepsInv(s: State, i: nat, f: Fetch)
    requires Inv(s) && Up(s, i) && s.fetches[i].start != Queued && !OwnsNode(s, i)
    requires f == ReleaseLock(s, i).fetches[i].(start := f.start, callback := f.callback)
    requires Created(f.start) <==> Created(s.fetches[i].start)
    requires f.start != Queued && f.start != Creating && f.start != Estimating && f.start != EstFailed
    requires f.start != EstReported
    requires f.callback == Idle || f.callback == s.fetches[i].callback
    ensures Inv(Set(ReleaseLock(s, i), i, f))
  {
    var s' := Set(ReleaseLock(s, i), i, f);
    assert FetchOk(s, i);
    var a := L.Release(s.fetches[i].req);
    if L.Enabled(s.lock, a) {
      OwnLockStep(s, s', i, a);
    } else {
      assert s.fetches[i].releaseCalls > 0;
      assert s'.lock == s.lock && s'.nodes == s.nodes;
      ReleasedAgain(s, s', i);
    }
  }

  lemma ReleasedAgain(s: State, s': State, i: nat)
    requires Inv(s) && i in s.fetches && s'.fetches.Keys == s.fetches.Keys
    requires s'.lock == s.lock && s'.nodes == s.nodes
    requires forall k :: k in s.fetches && k != i ==> s'.fetches[k] == s.fetches[k]
    requires s'.fetches[i].req == s.fetches[i].req && s'.fetches[i].spec == s.fetches[i].spec
    requires s.fetches[i].releaseCalls > 0 && FetchOk(s', i)
    ensures Inv(s')
  {
    forall k | k in s'.fetches ensures FetchOk(s', k) {
      if k != i { assert FetchOk(s, k); FetchFrame(s, s', k); }
    }
    forall p | p in s'.nodes ensures NodeOk(s', p) { assert NodeOk(s, p); }
    forall k, j | k in s'.fetches && j in s'.fetches && SameRequest(s', k, j) ensures k == j {
      assert SameRequest(s, k, j);
    }
  }

  lemma CreateNodeKeepsInv(specs: seq<Spec>, s: State, i: nat)
    requires Inv(s) && Enabled(specs, s, CreateNode(i))
    ensures Inv(Apply(specs, s, CreateNode(i)))
  {
    var s' := Apply(specs, s, CreateNode(i));
    assert FetchOk(s, i);
    if s.fetches[i].spec.path in s.nodes {
      ActorStep(s, s', i);
    } else {
      forall k | k in s'.fetches ensures FetchOk(s', k) {
        assert FetchOk(s, k);
        if k != i { FetchFrame(s, s', k); }
      }
      forall p | p in s'.nodes ensures NodeOk(s', p) {
        if p != s.fetches[i].spec.path { assert NodeOk(s, p); }
      }
      forall k, j | k in s'.fetches && j in s'.fetches && SameRequest(s', k, j) ensures k == j {
        assert SameRequest(s, k, j);
      }
    }
  }

  lemma FirstKeepsInv(s: State, i: nat)
    requires Inv(s) && Up(s, i) && s.fetches[i].start.First?
    ensures Inv(DoFirst(s, i))
  {
    var s' := DoFirst(s, i);
    assert FetchOk(s, i);
    if s.fetches[i].start.h == Reported {
      ReleaseKeepsInv(s, i, s'.fetches[i]);
    } else {
      ActorStep(s, s', i);
    }
  }

  lemma CallbackKeepsInv(s: State, i: nat)
    requires Inv(s) && Up(s, i) && s.fetches[i].callback != Idle
    ensures Inv(DoCallback(s, i))
  {
    var s' := DoCallback(s, i);
    assert FetchOk(s, i);
    if s.fetches[i].callback == Reported {
      ReleaseKeepsInv(s, i, s'.fetches[i]);
    } else {
      ActorStep(s, s', i);
    }
  }

  lemma WriteKeepsInv(s: State, path: NodePath, res: FetcherResult)
    requires Inv(s) && path in s.nodes
    ensures Inv(WriteNode(s, path, res))
  {
    var s' := WriteNode(s, path, res);
    forall k | k in s'.fetches ensures FetchOk(s', k) { assert FetchOk(s, k); FetchFrame(s, s', k); }
    forall p | p in s'.nodes ensures NodeOk(s', p) { assert NodeOk(s, p); }
    forall k, j | k in s'.fetches && j in s'.fetches && SameRequest(s', k, j) ensures k == j {
      assert SameRequest(s, k, j);
    }
  }

  lemma CrashKeepsInv(s: State, session: nat)
    requires Inv(s) && L.Enabled(s.lock, L.Crash(session))
    ensures Inv(DoCrash(s, session))
  {
    var s' := DoCrash(s, session);
    L.StepKeepsInv(s.lock, L.Crash(session));
    forall k | k in s'.fetches ensures FetchOk(s', k) {
      assert FetchOk(s, k);
      assert L.RequestOk(s.lock, s.fetches[k].req);
      if s.fetches[k].spec.session != session { FetchFrame(s, s', k); }
    }
    forall p | p in s'.nodes ensures NodeOk(s', p) { assert NodeOk(s, p); }
    forall k, j | k in s'.fetches && j in s'.fetches && SameRequest(s', k, j) ensures k == j {
      assert SameRequest(s, k, j);
    }
  }

  predicate Local(a: Action) {
    a.Estimate? || a.ReportFailure? || a.Dispatch? || a.Notify? || a.AbortStart? || a.AbortCallback?
  }

  lemma LocalFetch(specs: seq<Spec>, s: State, a: Action)
    requires Inv(s) && Enabled(specs, s, a) && Local(a)
    ensures FetchOk(Apply(specs, s, a), a.i)
  {
    assert FetchOk(s, a.i);
  }

  lemma LocalKeepsInv(specs: seq<Spec>, s: State, a: Action)
    requires Inv(s) && Enabled(specs, s, a) && Local(a)
    ensures Inv(Apply(specs, s, a))
  {
    LocalFetch(specs, s, a);
    ActorStep(s, Apply(specs, s, a), a.i);
  }

  lemma ReleaseFailureKeepsInv(specs: seq<Spec>, s: State, i: nat)
    requires Inv(s) && Enabled(specs, s, ReleaseFailure(i))
    ensures Inv(Apply(specs, s, ReleaseFailure(i)))
  {
    assert FetchOk(s, i);
    ReleaseKeepsInv(s, i, Apply(specs, s, ReleaseFailure(i)).fetches[i]);
  }

  lemma StepKeepsInv(specs: seq<Spec>, s: State, a: Action)
    requires Inv(s) && Enabled(specs, s, a)
    ensures Inv(Apply(specs, s, a))
  {
    match a
    case LockStep(a) => LockStepKeepsInv(s, a);
    case Request(i, idx) => RequestKeepsInv(specs, s, i, idx);
    case Granted(i) => GrantedKeepsInv(specs, s, i);
    case Estimate(_, _) => LocalKeepsInv(specs, s, a);
    case ReportFailure(_) => LocalKeepsInv(specs, s, a);
    case ReleaseFailure(i) => ReleaseFailureKeepsInv(specs, s, i);
    case CreateNode(i) => CreateNodeKeepsInv(specs, s, i);
    case FirstStep(i) => FirstKeepsInv(s, i);
    case Dispatch(_, _, _) => LocalKeepsInv(specs, s, a);
    case AbortStart(_) => LocalKeepsInv(specs, s, a);
    case AbortCallback(_) => LocalKeepsInv(specs, s, a);
    case Notify(_) => LocalKeepsInv(specs, s, a);
    case CallbackStep(i) => CallbackKeepsInv(s, i);
    case JobWrite(i, res) => WriteKeepsInv(s, s.fetches[i].spec.path, res);
    case CancelWrite(path) => WriteKeepsInv(s, path, s.nodes[path].result.(status := CANCELED));
    case Crash(session) => CrashKeepsInv(s, session);
  }

  lemma {:induction false} RunKeepsInv(specs: seq<Spec>, s: State, acts: seq<Action>)
    requires Inv(s) && IsRun(specs, s, acts)
    ensures Inv(After(specs, s, acts))
    decreases |acts|
  {
    if acts != [] {
      StepKeepsInv(specs, s, acts[0]);
      RunKeepsInv(specs, Apply(specs, s, acts[0]), acts[1..]);
    }
  }

  ghost predicate Reachable(specs: seq<Spec>, s: State) {
    exists acts :: IsRun(specs, Init, acts) && After(specs, Init, acts) == s
  }

  lemma ReachableKeepsInv(specs: seq<Spec>, s: State)
    requires Reachable(specs, s)
    ensures Inv(s)
  {
    var acts :| IsRun(specs, Init, acts) && After(specs, Init, acts) == s;
    RunKeepsInv(specs, Init, acts);
  }

  /** Fetches that use the same status node use the same lock. */
  predicate PathsUnderLock(specs: seq<Spec>) {
    forall i, j :: 0 <= i < |specs| && 0 <= j < |specs| && specs[i].path == specs[j].path ==>
        specs[i].dir == specs[j].dir
  }

  predicate SpecsOk(specs: seq<Spec>, s: State) {
    forall i :: i in s.fetches ==>
      i < |specs| && s.fetches[i].spec == specs[i] && s.fetches[i].content.src == specs[i].content.src
  }

  /** A fetch stays the same fetch, and its `on_done` is counted. */
  predicate Follows(f: Fetch, f': Fetch, reported: bool) {
    && f'.spec == f.spec && f'.req == f.req && f'.content.src == f.content.src && (f.aborted ==> f'.aborted)
    && f'.doneCalls == f.doneCalls + if reported then 1 else 0
  }

  lemma HandlerFollows(s: State, i: nat, h: Handler)
    requires i in s.fetches
    ensures HandlerEffect(s, i, h).fetches.Keys == s.fetches.Keys
    ensures forall k :: k in s.fetches ==>
              Follows(s.fetches[k], HandlerEffect(s, i, h).fetches[k], k == i && h == Deleted)
  {
  }

  lemma HandlerStepFollows(specs: seq<Spec>, s: State, a: Action)
    requires Enabled(specs, s, a) && (a.FirstStep? || a.CallbackStep?)
    ensures var s' := Apply(specs, s, a);
            && s'.fetches.Keys == s.fetches.Keys
            && forall k :: k in s.fetches ==> Follows(s.fetches[k], s'.fetches[k], Reports(s, a) == Some(k))
  {
    HandlerFollows(s, a.i, if a.FirstStep? then s.fetches[a.i].start.h else s.fetches[a.i].callback);
  }

  /** What a step means for the fetches there are. */
  lemma StepFollows(specs: seq<Spec>, s: State, a: Action)
    requires Enabled(specs, s, a)
    ensures var s' := Apply(specs, s, a);
            && s'.fetches.Keys == (if a.Request? then s.fetches.Keys + {a.i} else s.fetches.Keys)
            && forall k :: k in s.fetches ==> Follows(s.fetches[k], s'.fetches[k], Reports(s, a) == Some(k))
  {
    if a.FirstStep? || a.CallbackStep? { HandlerStepFollows(specs, s, a); }
  }

  lemma StepKeepsSpecs(specs: seq<Spec>, s: State, a: Action)
    requires Enabled(specs, s, a) && SpecsOk(specs, s)
    ensures SpecsOk(specs, Apply(specs, s, a))
  {
    StepFollows(specs, s, a);
    if a.Request? { assert Apply(specs, s, a).fetches[a.i].content == specs[a.i].content; }
  }

  lemma {:induction false} RunKeepsSpecs(specs: seq<Spec>, s: State, acts: seq<Action>)
    requires IsRun(specs, s, acts) && SpecsOk(specs, s)
    ensures SpecsOk(specs, After(specs, s, acts))
    decreases |acts|
  {
    if acts != [] {
      StepKeepsSpecs(specs, s, acts[0]);
      RunKeepsSpecs(specs, Apply(specs, s, acts[0]), acts[1..]);
    }
  }

  lemma OneHolder(s: State, i: nat, o: nat)
    requires Inv(s) && Up(s, i) && Up(s, o) && s.fetches[i].spec.dir == s.fetches[o].spec.dir
    requires s.fetches[i].start != Queued && s.fetches[i].releaseCalls == 0
    requires s.fetches[o].start != Queued && s.fetches[o].releaseCalls == 0
    ensures i == o
  {
    assert FetchOk(s, i) && FetchOk(s, o);
    if i != o {
      assert !SameRequest(s, i, o);
      LockSafety.HoldersCompatible(s.lock, s.fetches[i].req, s.fetches[o].req);
    }
  }

  /** Lock and status node compose: when a fetch creates its status node there is none at that path,
      and while the node exists its creator holds the lock. */
  lemma NodeCreationNeverCollides(specs: seq<Spec>, s: State, i: nat)
    requires PathsUnderLock(specs) && Reachable(specs, s) && Enabled(specs, s, CreateNode(i))
    ensures s.fetches[i].spec.path !in s.nodes
  {
    var acts :| IsRun(specs, Init, acts) && After(specs, Init, acts) == s;
    RunKeepsInv(specs, Init, acts);
    RunKeepsSpecs(specs, Init, acts);
    CreatorFindsNothing(specs, s, i);
  }

  lemma CreatorFindsNothing(specs: seq<Spec>, s: State, i: nat)
    requires PathsUnderLock(specs) && Inv(s) && SpecsOk(specs, s) && Starting(s, i, Creating)
    ensures s.fetches[i].spec.path !in s.nodes
  {
    var p := s.fetches[i].spec.path;
    assert FetchOk(s, i);
    if p in s.nodes {
      assert NodeOk(s, p);
      OneHolder(s, i, s.nodes[p].owner);
    }
  }

  lemma NodeMeansLocked(specs: seq<Spec>, s: State, p: NodePath)
    requires Reachable(specs, s) && p in s.nodes
    ensures var o := s.nodes[p].owner;
            o in s.fetches && s.fetches[o].spec.path == p && L.InPhase(s.lock, s.fetches[o].req, L.Holding)
  {
    ReachableKeepsInv(specs, s);
    assert NodeOk(s, p) && FetchOk(s, s.nodes[p].owner);
  }
}
