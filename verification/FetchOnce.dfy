/** A fetch whose status node is its own completes exactly once, whatever the other fetches share. */
module FetchOnce {
  import opened Options
  import opened FetchStates
  import opened FetchProtocol
  import opened FetchSafety
  import L = LockProtocol

  /** No other fetch uses the status node of fetch `i`. */
  predicate Alone(specs: seq<Spec>, i: nat) {
    i < |specs| && forall k :: 0 <= k < |specs| && k != i ==> specs[k].path != specs[i].path
  }

  predicate Here(s: State, i: nat)
    requires i in s.fetches
  {
    s.fetches[i].spec.path in s.nodes
  }

  predicate HereFinal(s: State, i: nat)
    requires i in s.fetches
  {
    Here(s, i) && s.nodes[s.fetches[i].spec.path].result.status.Final()
  }

  predicate Counts(f: Fetch, doneCalls: nat, releaseCalls: nat) {
    f.doneCalls == doneCalls && f.releaseCalls == releaseCalls
  }

  predicate Watches(f: Fetch, armed: nat, changed: nat) {
    f.armed == armed && f.changed == changed
  }

  /** Only the size has been filled in. */
  predicate Fresh(f: Fetch) {
    f.content == f.spec.content.(sizeInfo := f.content.sizeInfo)
  }

  /** Reported, and released unless an exception came in between. */
  predicate Closed(f: Fetch) {
    Counts(f, 1, if f.aborted then 0 else 1)
  }

  /** The content carries a final status, and its destination exactly when that status is DONE. */
  predicate Concluded(f: Fetch) {
    && f.content.status.Some? && f.content.status.value.Final()
    && f.content.dst == if f.content.status.value == DONE then f.spec.content.dst else None
  }

  /** The node is there: the callback thread will see every final status. */
  predicate CallbackHere(f: Fetch, final: bool) {
    && Counts(f, 0, 0) && !f.aborted
    && match f.callback
       case Idle => Fresh(f) && if final then Watches(f, 0, 1) else Watches(f, 1, 0)
       case Reading => final && Watches(f, 0, 0) && Fresh(f)
       case Final => final && f.armed + f.changed == 1 && Concluded(f)
       case Deleted => false
       case Reported => false
  }

  /** The node is gone: a late notification finds nothing. */
  predicate CallbackGone(f: Fetch) {
    && f.armed == 0 && f.changed <= 1 && Concluded(f)
    && match f.callback
       case Idle => Closed(f)
       case Reading => Closed(f) && f.changed == 0
       case Final => false
       case Deleted => Counts(f, 0, 0) && !f.aborted
       case Reported => Counts(f, 1, 0) && !f.aborted
  }

  predicate FirstRun(f: Fetch, h: Handler, here: bool, final: bool) {
    && f.callback == Idle && !f.dispatched && f.changed == 0 && !f.aborted
    && match h
       case Idle => false
       case Reading => here && f.armed == 0 && Counts(f, 0, 0) && Fresh(f)
       case Final => final && f.armed == 1 && Counts(f, 0, 0) && Concluded(f)
       case Deleted => !here && f.armed == 0 && Counts(f, 0, 0) && Concluded(f)
       case Reported => !here && f.armed == 0 && Counts(f, 1, 0) && Concluded(f)
  }

  /** Where a fetch can stand when its node is there, or there with a final status. */
  predicate Stands(f: Fetch, here: bool, final: bool) {
    match f.start
    case Queued => !here && Counts(f, 0, 0) && Fresh(f) && !f.dispatched && !f.aborted
    case Estimating => !here && Counts(f, 0, 0) && Fresh(f) && !f.dispatched && !f.aborted
    case Creating => !here && Counts(f, 0, 0) && Fresh(f) && !f.dispatched && !f.aborted
    case EstFailed => !here && Counts(f, 0, 0) && Concluded(f) && !f.dispatched && !f.aborted
    case EstReported => !here && Counts(f, 1, 0) && Concluded(f) && !f.dispatched && !f.aborted
    case Ended => !here && Counts(f, 1, 1) && Concluded(f) && !f.dispatched && !f.aborted
    case First(h) => FirstRun(f, h, here, final)
    case Dispatching => !f.dispatched && if here then CallbackHere(f, final) else CallbackGone(f)
    case Running => if here then CallbackHere(f, final) else CallbackGone(f)
    case Raised => !f.dispatched && if here then CallbackHere(f, final) else CallbackGone(f)
  }

  predicate Stage(s: State, i: nat)
    requires i in s.fetches
  {
    Stands(s.fetches[i], Here(s, i), HereFinal(s, i))
  }

  predicate OnceOk(s: State, i: nat)
    requires i in s.fetches
  {
    s.fetches[i].doneCalls <= 1 && s.fetches[i].releaseCalls <= 1 && (Up(s, i) ==> Stage(s, i))
  }

  /** Every fetch that is alone is where it can be. */
  predicate EachOnce(specs: seq<Spec>, s: State) {
    && Inv(s)
    && (forall i {:trigger OnceOk(s, i)} :: i in s.fetches && Alone(specs, i) ==> OnceOk(s, i))
  }

  predicate OnceInv(specs: seq<Spec>, s: State) {
    SpecsOk(specs, s) && EachOnce(specs, s)
  }

  lemma OnceFrame(s: State, s': State, i: nat)
    requires i in s.fetches && i in s'.fetches && OnceOk(s, i) && s'.fetches[i] == s.fetches[i]
    requires Up(s', i) ==> Up(s, i)
    requires Up(s', i) ==> (Here(s', i) <==> Here(s, i))
    requires Up(s', i) && Here(s, i) ==>
               s'.nodes[s.fetches[i].spec.path].result == s.nodes[s.fetches[i].spec.path].result
    ensures OnceOk(s', i)
  {
  }

  lemma OtherPath(specs: seq<Spec>, s: State, i: nat, k: nat)
    requires Alone(specs, k) && SpecsOk(specs, s) && i in s.fetches && k in s.fetches && i != k
    ensures s.fetches[i].spec.path != s.fetches[k].spec.path
  {
  }

  /** Nothing changes outside the path of fetch `i`. */
  ghost predicate Elsewhere(s: State, s': State, i: nat)
    requires i in s.fetches
  {
    var path := s.fetches[i].spec.path;
    && s'.fetches.Keys == s.fetches.Keys && s'.lock.dead == s.lock.dead
    && (forall k :: k in s.fetches && s.fetches[k].spec.path != path ==> s'.fetches[k] == s.fetches[k])
    && (forall p :: p != path ==> (p in s'.nodes <==> p in s.nodes) && (p in s.nodes ==> s'.nodes[p] == s.nodes[p]))
  }

  /** A step at the path of fetch `i` leaves the fetches that are alone undisturbed. */
  lemma ActorOnly(specs: seq<Spec>, s: State, s': State, i: nat)
    requires OnceInv(specs, s) && i in s.fetches && Elsewhere(s, s', i)
    requires Inv(s') && (Alone(specs, i) ==> OnceOk(s', i))
    ensures EachOnce(specs, s')
  {
    forall k | k in s'.fetches && Alone(specs, k) ensures OnceOk(s', k) {
      if k != i {
        assert OnceOk(s, k);
        OtherPath(specs, s, i, k);
        OnceFrame(s, s', k);
      }
    }
  }

  lemma FirstStage(s: State, i: nat)
    requires Up(s, i) && s.fetches[i].start.First? && Stage(s, i) && FetchOk(s, i)
    ensures OnceOk(DoFirst(s, i), i)
  {
  }

  lemma CallbackStage(s: State, i: nat)
    requires Up(s, i) && s.fetches[i].callback != Idle && Stage(s, i) && FetchOk(s, i)
    ensures OnceOk(DoCallback(s, i), i)
  {
    if s.fetches[i].callback == Reading || s.fetches[i].callback == Final {
      CallbackReads(s, i);
    } else {
      CallbackEnds(s, i);
    }
  }

  lemma CallbackReads(s: State, i: nat)
    requires Up(s, i) && (s.fetches[i].callback == Reading || s.fetches[i].callback == Final) && Stage(s, i)
    requires FetchOk(s, i)
    ensures OnceOk(DoCallback(s, i), i)
  {
  }

  lemma CallbackEnds(s: State, i: nat)
    requires Up(s, i) && (s.fetches[i].callback == Deleted || s.fetches[i].callback == Reported) && Stage(s, i)
    requires FetchOk(s, i)
    ensures OnceOk(DoCallback(s, i), i)
  {
  }

  /** What a fetch becomes by a step of its own that does not touch its node. */
  function Next(f: Fetch, a: Action): Fetch {
    match a
    case Estimate(_, result) =>
      (match result
       case Size(info) => Sized(f, info).(start := Creating)
       case EstimateError(message) => EstimateFailure(f, message))
    case ReportFailure(_) => f.(start := EstReported, doneCalls := f.doneCalls + 1)
    case ReleaseFailure(_) => f.(start := Ended, releaseCalls := f.releaseCalls + 1)
    case Dispatch(_, size, ok) =>
      (match size
       case None => f.(start := Raised)
       case Some(info) => Sized(f, info).(start := if ok then Running else Raised, dispatched := ok))
    case Notify(_) => if f.changed > 0 then f.(callback := Reading, changed := f.changed - 1) else f
    case AbortStart(_) => Aborted(f, f.start != First(Reported)).(start := Raised)
    case AbortCallback(_) => Aborted(f, f.callback == Deleted).(callback := Idle)
    case _ => f
  }

  predicate MayStep(f: Fetch, a: Action) {
    match a
    case Estimate(_, _) => f.start == Estimating
    case ReportFailure(_) => f.start == EstFailed
    case ReleaseFailure(_) => f.start == EstReported
    case Dispatch(_, _, _) => f.start == Dispatching
    case Notify(_) => f.callback == Idle && f.changed > 0
    case AbortStart(_) => f.start == EstFailed || f.start == First(Deleted) || f.start == First(Reported)
    case AbortCallback(_) => f.callback == Deleted || f.callback == Reported
    case _ => false
  }

  lemma NextStands(f: Fetch, a: Action, here: bool, final: bool)
    requires MayStep(f, a) && Stands(f, here, final)
    requires !Created(f.start) ==> f.callback == Idle && Watches(f, 0, 0)
    ensures Stands(Next(f, a), here, final) && Next(f, a).doneCalls <= 1 && Next(f, a).releaseCalls <= 1
  {
  }

  lemma LocalIsNext(specs: seq<Spec>, s: State, a: Action)
    requires Enabled(specs, s, a) && (Local(a) || a.ReleaseFailure?)
    ensures Up(s, a.i) && MayStep(s.fetches[a.i], a)
    ensures var s' := Apply(specs, s, a);
            && s'.fetches.Keys == s.fetches.Keys && s'.lock.dead == s.lock.dead && s'.nodes == s.nodes
            && s'.fetches == s.fetches[a.i := Next(s.fetches[a.i], a)]
  {
  }

  lemma LocalStage(s: State, s': State, a: Action)
    requires (Local(a) || a.ReleaseFailure?) && a.i in s.fetches && MayStep(s.fetches[a.i], a)
    requires s'.fetches == s.fetches[a.i := Next(s.fetches[a.i], a)] && s'.nodes == s.nodes
    requires Stage(s, a.i) && FetchOk(s, a.i)
    ensures OnceOk(s', a.i)
  {
    NextStands(s.fetches[a.i], a, Here(s, a.i), HereFinal(s, a.i));
  }

  lemma CreateNodeStage(specs: seq<Spec>, s: State, i: nat)
    requires Enabled(specs, s, CreateNode(i)) && Stage(s, i) && FetchOk(s, i)
    ensures OnceOk(Apply(specs, s, CreateNode(i)), i)
  {
  }

  lemma WriteStage(s: State, i: nat, res: FetcherResult)
    requires i in s.fetches && Here(s, i) && res.status.Final() && OnceOk(s, i)
    requires s.fetches[i].dispatched || !HereFinal(s, i)
    ensures OnceOk(WriteNode(s, s.fetches[i].spec.path, res), i)
  {
  }

  lemma WriteKeepsOnce(specs: seq<Spec>, s: State, i: nat, res: FetcherResult)
    requires OnceInv(specs, s) && i in s.fetches && Here(s, i) && res.status.Final()
    requires s.fetches[i].dispatched || !HereFinal(s, i)
    ensures EachOnce(specs, WriteNode(s, s.fetches[i].spec.path, res))
  {
    if Alone(specs, i) {
      assert OnceOk(s, i);
      WriteStage(s, i, res);
    }
    WriteKeepsInv(s, s.fetches[i].spec.path, res);
    ActorOnly(specs, s, WriteNode(s, s.fetches[i].spec.path, res), i);
  }

  lemma JobKeepsOnce(specs: seq<Spec>, s: State, i: nat, res: FetcherResult)
    requires OnceInv(specs, s) && Enabled(specs, s, JobWrite(i, res))
    ensures EachOnce(specs, Apply(specs, s, JobWrite(i, res)))
  {
    WriteKeepsOnce(specs, s, i, res);
  }

  lemma CancelKeepsOnce(specs: seq<Spec>, s: State, path: NodePath)
    requires OnceInv(specs, s) && Enabled(specs, s, CancelWrite(path))
    ensures EachOnce(specs, Apply(specs, s, CancelWrite(path)))
  {
    assert NodeOk(s, path);
    WriteKeepsOnce(specs, s, s.nodes[path].owner, s.nodes[path].result.(status := CANCELED));
  }

  lemma CrashKeepsOnce(specs: seq<Spec>, s: State, session: nat)
    requires OnceInv(specs, s) && Enabled(specs, s, Crash(session))
    ensures EachOnce(specs, Apply(specs, s, Crash(session)))
  {
    var s' := DoCrash(s, session);
    CrashKeepsInv(s, session);
    forall k | k in s'.fetches && Alone(specs, k) ensures OnceOk(s', k) {
      assert OnceOk(s, k);
      if Up(s', k) {
        var p := s.fetches[k].spec.path;
        if p in s.nodes {
          var o := s.nodes[p].owner;
          assert NodeOk(s, p);
          if o != k { OtherPath(specs, s, o, k); }
          assert p in s'.nodes;
        } else {
          assert s'.fetches[k] == s.fetches[k];
        }
        OnceFrame(s, s', k);
      }
    }
  }

  lemma LockOnlyKeepsOnce(specs: seq<Spec>, s: State, a: L.Action)
    requires OnceInv(specs, s) && Enabled(specs, s, LockStep(a))
    ensures EachOnce(specs, Apply(specs, s, LockStep(a)))
  {
    var s' := Apply(specs, s, LockStep(a));
    LockStepKeepsInv(s, a);
    forall k | k in s'.fetches && Alone(specs, k) ensures OnceOk(s', k) {
      assert OnceOk(s, k);
      OnceFrame(s, s', k);
    }
  }

  lemma RequestKeepsOnce(specs: seq<Spec>, s: State, i: nat, idx: nat)
    requires OnceInv(specs, s) && Enabled(specs, s, Request(i, idx))
    ensures EachOnce(specs, Apply(specs, s, Request(i, idx)))
  {
    var s' := Apply(specs, s, Request(i, idx));
    RequestKeepsInv(specs, s, i, idx);
    if specs[i].path in s.nodes { assert NodeOk(s, specs[i].path) && !Alone(specs, i); }
    forall k | k in s'.fetches && Alone(specs, k) ensures OnceOk(s', k) {
      if k != i {
        assert OnceOk(s, k);
        OnceFrame(s, s', k);
      }
    }
  }

  /** A handler touches nothing outside its own path. */
  lemma HandlerFrame(s: State, i: nat, h: Handler)
    requires i in s.fetches
    ensures Elsewhere(s, HandlerEffect(s, i, h), i)
  {
  }

  lemma FirstFrame(s: State, i: nat)
    requires i in s.fetches && s.fetches[i].start.First?
    ensures Elsewhere(s, DoFirst(s, i), i)
  {
    HandlerFrame(s, i, s.fetches[i].start.h);
  }

  lemma CallbackFrame(s: State, i: nat)
    requires i in s.fetches
    ensures Elsewhere(s, DoCallback(s, i), i)
  {
    HandlerFrame(s, i, s.fetches[i].callback);
  }

  lemma FirstKeepsOnce(specs: seq<Spec>, s: State, i: nat)
    requires OnceInv(specs, s) && Enabled(specs, s, FirstStep(i))
    ensures EachOnce(specs, Apply(specs, s, FirstStep(i)))
  {
    assert FetchOk(s, i);
    if Alone(specs, i) { assert OnceOk(s, i); FirstStage(s, i); }
    FirstFrame(s, i);
    FirstKeepsInv(s, i);
    ActorOnly(specs, s, DoFirst(s, i), i);
  }

  lemma CallbackKeepsOnce(specs: seq<Spec>, s: State, i: nat)
    requires OnceInv(specs, s) && Enabled(specs, s, CallbackStep(i))
    ensures EachOnce(specs, Apply(specs, s, CallbackStep(i)))
  {
    assert FetchOk(s, i);
    if Alone(specs, i) { assert OnceOk(s, i); CallbackStage(s, i); }
    CallbackFrame(s, i);
    CallbackKeepsInv(s, i);
    ActorOnly(specs, s, DoCallback(s, i), i);
  }

  lemma CreateNodeFrame(specs: seq<Spec>, s: State, i: nat)
    requires Enabled(specs, s, CreateNode(i))
    ensures Elsewhere(s, Apply(specs, s, CreateNode(i)), i)
  {
  }

  lemma CreateNodeKeepsOnce(specs: seq<Spec>, s: State, i: nat)
    requires OnceInv(specs, s) && Enabled(specs, s, CreateNode(i))
    ensures EachOnce(specs, Apply(specs, s, CreateNode(i)))
  {
    assert FetchOk(s, i);
    if Alone(specs, i) { assert OnceOk(s, i); CreateNodeStage(specs, s, i); }
    CreateNodeFrame(specs, s, i);
    CreateNodeKeepsInv(specs, s, i);
    ActorOnly(specs, s, Apply(specs, s, CreateNode(i)), i);
  }

  lemma NextKeepsOnce(specs: seq<Spec>, s: State, s': State, a: Action)
    requires OnceInv(specs, s) && (Local(a) || a.ReleaseFailure?) && Up(s, a.i) && MayStep(s.fetches[a.i], a)
    requires s'.fetches == s.fetches[a.i := Next(s.fetches[a.i], a)] && s'.nodes == s.nodes
    requires s'.lock.dead == s.lock.dead
    requires Inv(s')
    ensures EachOnce(specs, s')
  {
    if Alone(specs, a.i) {
      assert FetchOk(s, a.i) && OnceOk(s, a.i);
      LocalStage(s, s', a);
    }
    ActorOnly(specs, s, s', a.i);
  }

  lemma LocalKeepsOnce(specs: seq<Spec>, s: State, a: Action)
    requires OnceInv(specs, s) && Enabled(specs, s, a) && (Local(a) || a.ReleaseFailure?)
    ensures EachOnce(specs, Apply(specs, s, a))
  {
    LocalIsNext(specs, s, a);
    FetchSafety.StepKeepsInv(specs, s, a);
    NextKeepsOnce(specs, s, Apply(specs, s, a), a);
  }

  lemma GrantedFrame(specs: seq<Spec>, s: State, i: nat)
    requires Enabled(specs, s, Granted(i))
    ensures Elsewhere(s, Apply(specs, s, Granted(i)), i)
    ensures OnceOk(s, i) ==> OnceOk(Apply(specs, s, Granted(i)), i)
  {
  }

  lemma GrantedKeepsOnce(specs: seq<Spec>, s: State, i: nat)
    requires OnceInv(specs, s) && Enabled(specs, s, Granted(i))
    ensures EachOnce(specs, Apply(specs, s, Granted(i)))
  {
    if Alone(specs, i) { assert OnceOk(s, i); }
    GrantedFrame(specs, s, i);
    GrantedKeepsInv(specs, s, i);
    ActorOnly(specs, s, Apply(specs, s, Granted(i)), i);
  }

  lemma StepKeepsOnce(specs: seq<Spec>, s: State, a: Action)
    requires OnceInv(specs, s) && Enabled(specs, s, a)
    ensures OnceInv(specs, Apply(specs, s, a))
  {
    StepKeepsSpecs(specs, s, a);
    EachStepKeepsOnce(specs, s, a);
  }

  lemma EachStepKeepsOnce(specs: seq<Spec>, s: State, a: Action)
    requires OnceInv(specs, s) && Enabled(specs, s, a)
    ensures EachOnce(specs, Apply(specs, s, a))
  {
    if Local(a) || a.ReleaseFailure? {
      LocalKeepsOnce(specs, s, a);
    } else if a.LockStep? || a.Request? || a.Granted? || a.Crash? {
      LockKeepsOnce(specs, s, a);
    } else {
      NodeKeepsOnce(specs, s, a);
    }
  }

  lemma LockKeepsOnce(specs: seq<Spec>, s: State, a: Action)
    requires OnceInv(specs, s) && Enabled(specs, s, a) && (a.LockStep? || a.Request? || a.Granted? || a.Crash?)
    ensures EachOnce(specs, Apply(specs, s, a))
  {
    match a
    case LockStep(a) => LockOnlyKeepsOnce(specs, s, a);
    case Request(i, idx) => RequestKeepsOnce(specs, s, i, idx);
    case Granted(i) => GrantedKeepsOnce(specs, s, i);
    case Crash(session) => CrashKeepsOnce(specs, s, session);
  }

  lemma NodeKeepsOnce(specs: seq<Spec>, s: State, a: Action)
    requires OnceInv(specs, s) && Enabled(specs, s, a)
    requires a.JobWrite? || a.CancelWrite? || a.CreateNode? || a.FirstStep? || a.CallbackStep?
    ensures EachOnce(specs, Apply(specs, s, a))
  {
    match a
    case JobWrite(i, res) => JobKeepsOnce(specs, s, i, res);
    case CancelWrite(path) => CancelKeepsOnce(specs, s, path);
    case CreateNode(i) => CreateNodeKeepsOnce(specs, s, i);
    case FirstStep(i) => FirstKeepsOnce(specs, s, i);
    case CallbackStep(i) => CallbackKeepsOnce(specs, s, i);
  }

  lemma {:induction false} RunKeepsOnce(specs: seq<Spec>, s: State, acts: seq<Action>)
    requires OnceInv(specs, s) && IsRun(specs, s, acts)
    ensures OnceInv(specs, After(specs, s, acts))
    decreases |acts|
  {
    if acts != [] {
      StepKeepsOnce(specs, s, acts[0]);
      RunKeepsOnce(specs, Apply(specs, s, acts[0]), acts[1..]);
    }
  }

  lemma ReachableOnce(specs: seq<Spec>, s: State)
    requires Reachable(specs, s)
    ensures OnceInv(specs, s)
  {
    var acts :| IsRun(specs, Init, acts) && After(specs, Init, acts) == s;
    RunKeepsOnce(specs, Init, acts);
  }

  /** on_done and release are called at most once, and whoever is told about the end of a fetch sees
      a final status, with the destination kept exactly when the status is DONE. */
  lemma AtMostOnce(specs: seq<Spec>, s: State, i: nat)
    requires Alone(specs, i) && Reachable(specs, s) && i in s.fetches
    ensures s.fetches[i].doneCalls <= 1 && s.fetches[i].releaseCalls <= 1
    ensures Up(s, i) && s.fetches[i].doneCalls == 1 ==> Concluded(s.fetches[i])
  {
    ReachableOnce(specs, s);
    assert OnceOk(s, i);
  }

  predicate OwnAction(a: Action, i: nat) {
    match a
    case Estimate(k, _) => k == i
    case ReportFailure(k) => k == i
    case ReleaseFailure(k) => k == i
    case CreateNode(k) => k == i
    case FirstStep(k) => k == i
    case Dispatch(k, _, _) => k == i
    case Notify(k) => k == i
    case CallbackStep(k) => k == i
    case _ => false
  }

  /** The process of fetch `i` has nothing left to do for it. */
  ghost predicate Quiet(specs: seq<Spec>, s: State, i: nat) {
    forall a :: OwnAction(a, i) ==> !Enabled(specs, s, a)
  }

  lemma QuietFetch(specs: seq<Spec>, s: State, i: nat)
    requires Up(s, i) && Quiet(specs, s, i) && s.fetches[i].start != Queued
    ensures var f := s.fetches[i];
            (f.start == Ended || f.start == Running || f.start == Raised) && f.callback == Idle && f.changed == 0
  {
    assert !Enabled(specs, s, Estimate(i, EstimateError(""))) && !Enabled(specs, s, ReportFailure(i));
    assert !Enabled(specs, s, ReleaseFailure(i)) && !Enabled(specs, s, CreateNode(i));
    assert !Enabled(specs, s, FirstStep(i)) && !Enabled(specs, s, Dispatch(i, None, true));
    assert !Enabled(specs, s, CallbackStep(i)) && !Enabled(specs, s, Notify(i));
  }

  /** No status is lost: once the lock was granted and the process is quiet, either the node holds a non-final
      status under an armed watch, or the fetch was reported exactly once and its node is gone; then the lock
      is free, unless on_done or the cleanup raised, and in that case it is held for good. */
  lemma CompletesOrWaits(specs: seq<Spec>, s: State, i: nat)
    requires Alone(specs, i) && Reachable(specs, s)
    requires Up(s, i) && s.fetches[i].start != Queued && Quiet(specs, s, i)
    ensures var f := s.fetches[i];
            if Here(s, i)
            then !HereFinal(s, i) && Counts(f, 0, 0) && f.armed == 1
            else Closed(f) && Concluded(f) && L.InPhase(s.lock, f.req, if f.aborted then L.Holding else L.Released)
  {
    ReachableOnce(specs, s);
    assert OnceOk(s, i) && FetchOk(s, i);
    QuietFetch(specs, s, i);
  }
}
