/** When an event is decided: what can still be missing once its process has nothing left to do, and what of that
    will be missing for good. */
module EventDecided {
  import opened Options
  import opened FetchProtocol
  import opened FetchSafety
  import opened FetchOnce
  import opened EventJoin
  import opened EventOutcome
  import L = LockProtocol
  import LockSafety

  /** The call that is under way has not come to its end. */
  predicate LoopInv(ev: Event, c: Join) {
    c.calling.Some? ==>
      c.calling.value in Tasks(ev) && c.calling.value in c.fetch.fetches && !AtReturn(c.fetch, c.calling.value)
  }

  lemma StepKeepsLoop(ev: Event, specs: seq<Spec>, c: Join, a: Action)
    requires LoopInv(ev, c) && EventJoin.Enabled(ev, specs, c, a)
    ensures LoopInv(ev, EventJoin.Apply(ev, specs, c, a))
  {
    CoreFields(ev, specs, c, a);
    StepFollows(specs, c.fetch, a);
  }

  lemma {:induction false} RunKeepsLoop(ev: Event, specs: seq<Spec>, c: Join, acts: seq<Action>)
    requires LoopInv(ev, c) && EventJoin.IsRun(ev, specs, c, acts)
    ensures LoopInv(ev, EventJoin.After(ev, specs, c, acts))
    decreases |acts|
  {
    if acts != [] {
      StepKeepsLoop(ev, specs, c, acts[0]);
      RunKeepsLoop(ev, specs, EventJoin.Apply(ev, specs, c, acts[0]), acts[1..]);
    }
  }

  // ---------------------------------------------------------------- nothing left to do

  /** The process of the event lives and has nothing left to do: the start loop does not go on, no task has a step
      of its own, and the lock managers have settled. */
  ghost predicate Quiescent(ev: Event, specs: seq<Spec>, c: Join) {
    && !LoopGoesOn(ev, c)
    && (forall t :: t in Tasks(ev) && t in c.fetch.fetches ==> Up(c.fetch, t) && Quiet(specs, c.fetch, t))
    && LockSafety.Settled(c.fetch.lock)
  }

  /** An exception ended the start loop before the last task. */
  predicate LoopBroken(ev: Event, c: Join) {
    c.ended && c.started < |Tasks(ev)|
  }

  /** Some task has a status node that is not final, under a watch: it waits for its job, or for a cancellation. */
  predicate JobOutstanding(ev: Event, c: Join) {
    exists t :: t in Tasks(ev) && Outstanding(c.fetch, t)
  }

  predicate Outstanding(s: State, t: nat) {
    t in s.fetches && Here(s, t) && !HereFinal(s, t) && s.fetches[t].armed == 1
  }

  /** Some task waits for a lock whose holder is no task of this event, or is one that never released it. */
  ghost predicate HeldBack(ev: Event, c: Join) {
    exists t, r :: t in Tasks(ev) && WaitsFor(c.fetch, t, r) && !WillRelease(ev, c.fetch, r)
  }

  predicate WaitsFor(s: State, t: nat, r: L.Req) {
    t in s.fetches && s.fetches[t].start == Queued && L.Blocks(r, s.fetches[t].req) && L.InPhase(s.lock, r, L.Holding)
  }

  predicate WillRelease(ev: Event, s: State, r: L.Req) {
    exists u :: u in Tasks(ev) && u in s.fetches && s.fetches[u].req == r && !s.fetches[u].aborted
  }

  /** Below a waiting request there is a holder. */
  lemma {:induction false} HolderBelow(l: L.State, r: L.Req) returns (h: L.Req)
    requires L.Inv(l) && LockSafety.Settled(l) && r in l.live && !L.InPhase(l, r, L.Holding)
    ensures L.InPhase(l, h, L.Holding) && h.dir == r.dir && h.idx < r.idx
    decreases r.idx
  {
    LockSafety.SettledPhases(l, r);
    assert L.RequestOk(l, r);
    h := l.reqs[r].phase.target;
    if !L.InPhase(l, h, L.Holding) { h := HolderBelow(l, h); }
  }

  /** A task that has not reported waits for its node, or for a lock with such a task or a stranger before it. */
  lemma OpenTask(ev: Event, specs: seq<Spec>, c: Join, t: nat)
    requires EventInv(ev, specs, c) && AllAlone(ev, specs) && Reachable(specs, c.fetch) && Quiescent(ev, specs, c)
    requires t in Tasks(ev) && t in c.fetch.fetches && c.fetch.fetches[t].doneCalls == 0
    ensures JobOutstanding(ev, c) || HeldBack(ev, c)
  {
    var s := c.fetch;
    assert FetchOk(s, t);
    if s.fetches[t].start != Queued {
      CompletesOrWaits(specs, s, t);
      assert Outstanding(s, t);
    } else {
      var h := HolderBelow(s.lock, s.fetches[t].req);
      assert WaitsFor(s, t, h);
      if WillRelease(ev, s, h) {
        var u :| u in Tasks(ev) && u in s.fetches && s.fetches[u].req == h && !s.fetches[u].aborted;
        HolderWaits(specs, s, u);
        assert Outstanding(s, u);
      }
    }
  }

  /** A quiet fetch that holds its lock and raised nothing waits for its node. */
  lemma HolderWaits(specs: seq<Spec>, s: State, u: nat)
    requires Alone(specs, u) && Reachable(specs, s) && Up(s, u) && Quiet(specs, s, u) && !s.fetches[u].aborted
    requires L.InPhase(s.lock, s.fetches[u].req, L.Holding)
    ensures Outstanding(s, u)
  {
    ReachableKeepsInv(specs, s);
    assert FetchOk(s, u);
    CompletesOrWaits(specs, s, u);
  }

  /** The start loop of a live process comes to its end, unless an exception ends it. */
  lemma LoopFinishes(ev: Event, specs: seq<Spec>, c: Join)
    requires EventInv(ev, specs, c) && LoopInv(ev, c) && Quiescent(ev, specs, c)
    ensures c.started == |Tasks(ev)| || LoopBroken(ev, c)
  {
    if c.calling.Some? {
      var s, t := c.fetch, c.calling.value;
      assert FetchOk(s, t);
      if s.fetches[t].start == Queued {
        LockSafety.SettledPhases(s.lock, s.fetches[t].req);
      } else {
        QuietFetch(specs, s, t);
      }
    }
  }

  lemma ReachesAll(ev: Event, specs: seq<Spec>, c: Join)
    requires EventOk(ev, specs) && Tasks(ev) != [] && AllAlone(ev, specs) && Reaches(ev, specs, c)
    ensures EventInv(ev, specs, c) && LoopInv(ev, c) && Reachable(specs, c.fetch)
  {
    ReachesKeepsInv(ev, specs, c);
    var acts :| EventJoin.IsRun(ev, specs, Begin(ev), acts) && EventJoin.After(ev, specs, Begin(ev), acts) == c;
    RunKeepsLoop(ev, specs, Begin(ev), acts);
    FetchRun(ev, specs, Begin(ev), acts);
  }

  /** When the process has nothing left to do, the event is decided if and only if the start loop was not broken off,
      no task waits for its status node, and no task is held back by a lock. */
  lemma NothingLost(ev: Event, specs: seq<Spec>, c: Join)
    requires EventOk(ev, specs) && Tasks(ev) != [] && AllAlone(ev, specs) && Reaches(ev, specs, c)
    requires Quiescent(ev, specs, c)
    ensures c.allDone == 1 <==> !LoopBroken(ev, c) && !JobOutstanding(ev, c) && !HeldBack(ev, c)
  {
    ReachesAll(ev, specs, c);
    OneOutcome(ev, specs, c);
    if LoopBroken(ev, c) || JobOutstanding(ev, c) || HeldBack(ev, c) {
      SomeOpen(ev, specs, c);
    } else if c.allDone != 1 {
      LoopFinishes(ev, specs, c);
      var t :| t in Tasks(ev) && Open(c.fetch, t);
      assert t in c.fetch.fetches;
      OpenTask(ev, specs, c, t);
    }
  }

  lemma SomeOpen(ev: Event, specs: seq<Spec>, c: Join)
    requires EventInv(ev, specs, c) && AllAlone(ev, specs) && Quiescent(ev, specs, c)
    requires LoopBroken(ev, c) || JobOutstanding(ev, c) || HeldBack(ev, c)
    ensures exists t :: t in Tasks(ev) && Open(c.fetch, t)
  {
    var s := c.fetch;
    if LoopBroken(ev, c) {
      assert Tasks(ev)[c.started] in Tasks(ev) && Open(s, Tasks(ev)[c.started]);
    } else if JobOutstanding(ev, c) {
      var t :| t in Tasks(ev) && Outstanding(s, t);
      assert OnceOk(s, t) && Open(s, t);
    } else {
      var t, r :| t in Tasks(ev) && WaitsFor(s, t, r) && !WillRelease(ev, s, r);
      assert OnceOk(s, t) && Open(s, t);
    }
  }

  // ---------------------------------------------------------------- for good

  lemma BrokenStays(ev: Event, specs: seq<Spec>, c: Join, a: Action)
    requires LoopBroken(ev, c) && EventJoin.Enabled(ev, specs, c, a)
    ensures LoopBroken(ev, EventJoin.Apply(ev, specs, c, a))
  {
    CoreFields(ev, specs, c, a);
  }

  lemma BrokenIsPending(ev: Event, specs: seq<Spec>, c: Join)
    requires EventInv(ev, specs, c) && LoopBroken(ev, c)
    ensures c.allDone == 0
  {
    assert Tasks(ev)[c.started] in Tasks(ev) && Tasks(ev)[c.started] in c.pending;
  }

  /** A broken loop is never resumed: in no continuation is the event decided. */
  lemma {:induction false} BrokenForGood(ev: Event, specs: seq<Spec>, c: Join, acts: seq<Action>)
    requires EventInv(ev, specs, c) && AllAlone(ev, specs) && LoopBroken(ev, c) && EventJoin.IsRun(ev, specs, c, acts)
    ensures LoopBroken(ev, EventJoin.After(ev, specs, c, acts)) && EventJoin.After(ev, specs, c, acts).allDone == 0
    decreases |acts|
  {
    BrokenIsPending(ev, specs, c);
    if acts != [] {
      BrokenStays(ev, specs, c, acts[0]);
      EventOutcome.StepKeepsInv(ev, specs, c, acts[0]);
      BrokenForGood(ev, specs, EventJoin.Apply(ev, specs, c, acts[0]), acts[1..]);
    }
  }

  /** Task `t` waits behind task `u`, whose handler ended without releasing the lock. */
  predicate Behind(ev: Event, s: State, u: nat, t: nat) {
    && u in Tasks(ev) && t in Tasks(ev) && u in s.fetches && t in s.fetches
    && s.fetches[u].aborted && s.fetches[t].start == Queued && L.Blocks(s.fetches[u].req, s.fetches[t].req)
  }

  lemma QueuedStays(specs: seq<Spec>, s: State, a: Action, t: nat)
    requires FetchProtocol.Enabled(specs, s, a) && t in s.fetches && s.fetches[t].start == Queued && a != Granted(t)
    ensures t in FetchProtocol.Apply(specs, s, a).fetches && FetchProtocol.Apply(specs, s, a).fetches[t].start == Queued
  {
  }

  /** The lock of an aborted fetch is held as long as its process lives. */
  lemma AbortedHolds(specs: seq<Spec>, s: State, u: nat)
    requires OnceInv(specs, s) && Alone(specs, u) && Up(s, u) && s.fetches[u].aborted
    ensures s.fetches[u].req in s.lock.live
  {
    assert OnceOk(s, u) && FetchOk(s, u);
    assert s.fetches[u].start != Queued && s.fetches[u].releaseCalls == 0;
    assert L.RequestOk(s.lock, s.fetches[u].req);
  }

  lemma NotGranted(ev: Event, specs: seq<Spec>, s: State, u: nat, t: nat)
    requires EventOk(ev, specs) && OnceInv(specs, s) && AllAlone(ev, specs) && Behind(ev, s, u, t) && Up(s, t)
    ensures !L.InPhase(s.lock, s.fetches[t].req, L.Clear)
  {
    assert s.fetches[u].spec == specs[u] && s.fetches[t].spec == specs[t];
    AbortedHolds(specs, s, u);
    assert FetchOk(s, t);
    assert L.RequestOk(s.lock, s.fetches[t].req);
  }

  lemma BehindStays(ev: Event, specs: seq<Spec>, s: State, a: Action, u: nat, t: nat)
    requires EventOk(ev, specs) && OnceInv(specs, s) && AllAlone(ev, specs) && FetchProtocol.Enabled(specs, s, a)
    requires Behind(ev, s, u, t)
    ensures Behind(ev, FetchProtocol.Apply(specs, s, a), u, t)
  {
    if Up(s, t) { NotGranted(ev, specs, s, u, t); }
    assert a != Granted(t);
    QueuedStays(specs, s, a, t);
    StepMoves(specs, s, a);
    MovesKeepBehind(ev, s, FetchProtocol.Apply(specs, s, a), if a.Request? then {a.i} else {}, Reports(s, a), u, t);
  }

  lemma MovesKeepBehind(ev: Event, s: State, s': State, added: set<nat>, reported: Option<nat>, u: nat, t: nat)
    requires Behind(ev, s, u, t) && Moves(s, s', added, reported) && s'.fetches[t].start == Queued
    ensures Behind(ev, s', u, t)
  {
  }

  /** A task behind an aborted one waits for good: in no continuation is the event decided. */
  lemma {:induction false} HeldForGood(ev: Event, specs: seq<Spec>, c: Join, acts: seq<Action>, u: nat, t: nat)
    requires EventInv(ev, specs, c) && AllAlone(ev, specs) && Behind(ev, c.fetch, u, t)
    requires EventJoin.IsRun(ev, specs, c, acts)
    ensures Behind(ev, EventJoin.After(ev, specs, c, acts).fetch, u, t)
    ensures EventJoin.After(ev, specs, c, acts).allDone == 0
    decreases |acts|
  {
    if acts == [] {
      WaiterIsPending(ev, specs, c, t);
    } else {
      EventOutcome.StepKeepsInv(ev, specs, c, acts[0]);
      BehindStays(ev, specs, c.fetch, acts[0], u, t);
      HeldForGood(ev, specs, EventJoin.Apply(ev, specs, c, acts[0]), acts[1..], u, t);
    }
  }

  lemma WaiterIsPending(ev: Event, specs: seq<Spec>, c: Join, t: nat)
    requires EventInv(ev, specs, c) && t in Tasks(ev)
    requires t in c.fetch.fetches && c.fetch.fetches[t].start == Queued
    ensures t in c.pending && c.allDone == 0
  {
    assert FetchOk(c.fetch, t);
    assert Open(c.fetch, t);
  }

  // ---------------------------------------------------------------- all promises together

  /** Everything the handler of an event promises, of one state. */
  ghost predicate Sound(ev: Event, specs: seq<Spec>, c: Join)
    requires ev.datasets <= |ev.contents|
  {
    && !c.raised
    && c.allDone == (if forall t :: t in Tasks(ev) ==> !Open(c.fetch, t) then 1 else 0)
    && Verdicts(c.sent) == (if c.allDone == 1 then VerdictOf(Values(ev, c.fetch)[..ev.datasets]) else [])
    && (Quiescent(ev, specs, c) ==>
          (c.allDone == 1 <==> !LoopBroken(ev, c) && !JobOutstanding(ev, c) && !HeldBack(ev, c)))
  }

  lemma AloneIsSound(ev: Event, specs: seq<Spec>, c: Join)
    requires EventOk(ev, specs) && Tasks(ev) != [] && AllAlone(ev, specs) && Reaches(ev, specs, c)
    ensures Sound(ev, specs, c)
  {
    OneOutcome(ev, specs, c);
    if Quiescent(ev, specs, c) { NothingLost(ev, specs, c); }
  }
}
