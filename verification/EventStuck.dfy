/** Runs in which an event with status nodes of its own is never decided. */
module EventStuck {
  import opened Options
  import opened FetchStates
  import opened FetchProtocol
  import opened EventJoin
  import opened EventOutcome
  import opened EventDecided
  import opened FetchTwice
  import L = LockProtocol
  import LockSafety

  // ---------------------------------------------------------------- a lock that is never released

  /** The cleanup after the report raises in the callback thread: the lock is not released. */
  lemma CleanupRaises(ev: Event, specs: seq<Spec>, c: Join, i: nat, f: Fetch) returns (c': Join)
    requires Reaches(ev, specs, c) && c.calling.None? && Is(c, i, f) && f.callback == Reported
    ensures Reaches(ev, specs, c') && c' == With(c, i, f.(callback := Idle, aborted := true))
  {
    c' := Plain(ev, specs, c, AbortCallback(i));
  }

  lemma DeleteAndTell(ev: Event, specs: seq<Spec>, c: Join, i: nat, f: Fetch) returns (c': Join, g: Fetch)
    requires Reaches(ev, specs, c) && c.calling.None? && Is(c, i, f) && f.callback == Final
    requires f.spec.path in c.fetch.nodes
    requires FirstInLine(ev, c, i)
    ensures Reaches(ev, specs, c') && Is(c', i, g) && c'.calling.None?
    ensures Reached(c, c', c.started, PendingAfter(ev, c, i))
    ensures g == f.(callback := Reported, armed := 0, doneCalls := f.doneCalls + 1)
    ensures c'.fetch.lock == c.fetch.lock && c'.fetch.fetches.Keys == c.fetch.fetches.Keys
    ensures c'.fetch.nodes == c.fetch.nodes - {f.spec.path}
  {
    var c1 := Delete(ev, specs, c, i, f);
    var f1 := f.(callback := Deleted, armed := 0);
    c' := Report(ev, specs, c1, i, f1);
    g := f1.(callback := Reported, doneCalls := f.doneCalls + 1);
  }

  /** A task starts its job, is canceled, and has read that. */
  lemma RunAndCancel(ev: Event, specs: seq<Spec>, c: Join, i: nat) returns (c': Join, f: Fetch)
    requires Reaches(ev, specs, c) && i < |specs| && MayRequest(ev, c, i) && FreeDir(c.fetch.lock, specs[i].dir)
    requires specs[i].path !in c.fetch.nodes
    ensures Reaches(ev, specs, c') && Is(c', i, f) && c'.calling.None? && Reached(c, c', Started(ev, c, i), c.pending)
    ensures f.start == Start.Running && f.callback == Final && f.changed == 0 && f.spec == specs[i] && f.doneCalls == 0
    ensures f.req.dir == specs[i].dir && f.req.kind == L.Write && L.InPhase(c'.fetch.lock, f.req, L.Holding)
    ensures c'.fetch.lock.live == c.fetch.lock.live + {f.req}
    ensures c'.fetch.lock.reqs.Keys == c.fetch.lock.reqs.Keys + {f.req}
    ensures c'.fetch.fetches.Keys == c.fetch.fetches.Keys + {i}
    ensures specs[i].path in c'.fetch.nodes && c'.fetch.nodes - {specs[i].path} == c.fetch.nodes
  {
    var c1, f1 := RunUntilJob(ev, specs, c, i);
    c', f := CanceledRead(ev, specs, c1, i, f1);
    NodesBack(c.fetch.nodes, c1.fetch.nodes, c'.fetch.nodes, specs[i].path, StatusNode(i, InitialData));
  }

  /** The first task is canceled and reports, and its cleanup raises. */
  lemma FirstTaskAborts(ev: Event, specs: seq<Spec>, i: nat) returns (c: Join, g: Fetch)
    requires EventOk(ev, specs) && Tasks(ev) != [] && Tasks(ev)[0] == i
    ensures Reaches(ev, specs, c) && Is(c, i, g) && Reached(Begin(ev), c, 1, Tasks(ev)[1..]) && c.calling.None?
    ensures g.start == Start.Running && g.callback == Idle && g.armed == 0 && g.changed == 0 && g.aborted
    ensures g.spec == specs[i] && g.req.dir == specs[i].dir && g.req.kind == L.Write
    ensures L.InPhase(c.fetch.lock, g.req, L.Holding) && c.fetch.lock.live == {g.req}
    ensures c.fetch.lock.reqs.Keys == {g.req}
    ensures c.fetch.fetches.Keys == {i} && c.fetch.nodes == map[]
  {
    BeginIsBetween(ev, specs);
    NextInLine(ev, Begin(ev));
    var c1, f1 := RunAndCancel(ev, specs, Begin(ev), i);
    assert FirstInLine(ev, c1, i);
    var c2, f2 := DeleteAndTell(ev, specs, c1, i, f1);
    c := CleanupRaises(ev, specs, c2, i, f2);
    g := f2.(callback := Idle, aborted := true);
  }

  /** A request that finds the lock held waits for it. */
  lemma LockIsHeld(l: L.State, session: nat, h: L.Req) returns (r: L.Req, l1: L.State, l2: L.State, l3: L.State)
    requires l.dead == {} && l.live == {h} && l.reqs.Keys == {h} && h.idx < L.NextIndex(l, h.dir)
    requires L.InPhase(l, h, L.Holding)
    ensures r == L.Req(h.dir, L.Write, L.NextIndex(l, h.dir)) && L.Blocks(h, r)
    ensures L.Enabled(l, L.Create(session, h.dir, L.Write, r.idx))
    ensures l1 == L.Apply(l, L.Create(session, h.dir, L.Write, r.idx))
    ensures L.Enabled(l1, L.Scan(r, [h, r])) && l2 == L.Apply(l1, L.Scan(r, [h, r]))
    ensures L.Enabled(l2, L.Check(r)) && l3 == L.Apply(l2, L.Check(r))
    ensures l3.reqs.Keys == {h, r} && L.InPhase(l3, h, L.Holding) && L.InPhase(l3, r, L.Waiting(h)) && l3.live == {h, r}
    ensures l1.dead == {} && l2.dead == {} && l3.dead == {}
  {
    r := L.Req(h.dir, L.Write, L.NextIndex(l, h.dir));
    l1 := L.Apply(l, L.Create(session, h.dir, L.Write, r.idx));
    assert [h, r][1..] == [r] && [r][1..] == [];
    assert L.LocksBefore(r, []) == [] && L.LocksBefore(r, [r]) == [];
    assert L.LocksBefore(r, [h, r]) == [h] + L.LocksBefore(r, [r]);
    l2 := L.Apply(l1, L.Scan(r, [h, r]));
    l3 := L.Apply(l2, L.Check(r));
  }

  /** The second task of the same source asks for the lock and waits for good. */
  lemma SecondTaskWaits(ev: Event, specs: seq<Spec>, c: Join, i: nat, g: Fetch, j: nat) returns (c': Join, r: L.Req)
    requires EventOk(ev, specs) && Reaches(ev, specs, c) && Is(c, i, g) && c.calling.None? && c.started == 1 && !c.ended
    requires Tasks(ev) == [i, j] && i != j && j < |specs| && j < |ev.contents| && specs[j].dir == g.req.dir
    requires c.fetch.fetches.Keys == {i} && g.req.idx < L.NextIndex(c.fetch.lock, g.req.dir)
    requires L.InPhase(c.fetch.lock, g.req, L.Holding) && c.fetch.lock.live == {g.req}
    requires c.fetch.lock.reqs.Keys == {g.req}
    ensures Reaches(ev, specs, c') && Is(c', i, g) && Is(c', j, New(specs[j], r)) && L.Blocks(g.req, r)
    ensures Reached(c, c', 2, c.pending) && c'.calling.None? && c'.fetch.nodes == c.fetch.nodes
    ensures c'.fetch.fetches.Keys == {i, j}
    ensures c'.fetch.lock.reqs.Keys == {g.req, r} && c'.fetch.lock.live == {g.req, r}
    ensures L.InPhase(c'.fetch.lock, g.req, L.Holding) && L.InPhase(c'.fetch.lock, r, L.Waiting(g.req))
  {
    var l1, l2, l3;
    r, l1, l2, l3 := LockIsHeld(c.fetch.lock, specs[j].session, g.req);
    var c1 := Ask(ev, specs, c, j, r);
    assert c1.fetch.lock == l1 && Is(c1, j, New(specs[j], r)) && Is(c1, i, g);
    c' := LookAndWait(ev, specs, c1, j, r, g.req, l2, l3);
  }

  lemma LookAndWait(ev: Event, specs: seq<Spec>, c: Join, j: nat, r: L.Req, h: L.Req, l2: L.State, l3: L.State)
      returns (c': Join)
    requires Reaches(ev, specs, c) && Calling(c, j) && j in c.fetch.fetches && c.fetch.fetches[j].start != Raised
    requires c.fetch.fetches[j].req == r
    requires L.Enabled(c.fetch.lock, L.Scan(r, [h, r])) && l2 == L.Apply(c.fetch.lock, L.Scan(r, [h, r]))
    requires L.Enabled(l2, L.Check(r)) && l3 == L.Apply(l2, L.Check(r)) && L.InPhase(l3, r, L.Waiting(h))
    ensures Reaches(ev, specs, c') && c' == c.(fetch := c.fetch.(lock := l3), calling := None)
  {
    var c1 := Look(ev, specs, c, L.Scan(r, [h, r]), j);
    c' := Look(ev, specs, c1, L.Check(r), j);
    assert AtReturn(c'.fetch, j);
  }

  lemma FiredHolds(l: L.State, w: L.Watch)
    requires L.Inv(l) && w in l.fired
    ensures L.FiredOk(l, w)
  {
    assert L.FiredOk(l, w);
  }

  /** One request holds the lock and the other waits for it: the managers have settled. */
  lemma HeldIsSettled(l: L.State, h: L.Req, r: L.Req)
    requires L.Inv(l) && l.reqs.Keys == {h, r} && l.live == {h, r}
    requires L.InPhase(l, h, L.Holding) && L.InPhase(l, r, L.Waiting(h))
    ensures LockSafety.Settled(l)
  {
    forall a | LockSafety.ManagerAction(a) ensures !L.Enabled(l, a) {
      if a.Deliver? && a.w in l.fired { FiredHolds(l, a.w); }
    }
  }

  /** The state the run ends in. */
  ghost predicate Stuck(ev: Event, specs: seq<Spec>, c: Join, i: nat, g: Fetch, j: nat, r: L.Req) {
    && Tasks(ev) == [i, j] && j < |specs| && c.started == 2 && c.calling.None? && !c.ended && c.fetch.nodes == map[]
    && Is(c, i, g) && g.start == Start.Running && g.callback == Idle && g.changed == 0 && g.aborted
    && Is(c, j, New(specs[j], r)) && L.Blocks(g.req, r) && c.fetch.fetches.Keys == {i, j}
    && c.fetch.lock.reqs.Keys == {g.req, r} && c.fetch.lock.live == {g.req, r}
    && L.InPhase(c.fetch.lock, g.req, L.Holding) && L.InPhase(c.fetch.lock, r, L.Waiting(g.req))
  }

  lemma StuckIsQuiescent(ev: Event, specs: seq<Spec>, c: Join, i: nat, g: Fetch, j: nat, r: L.Req)
    requires Stuck(ev, specs, c, i, g, j, r) && L.Inv(c.fetch.lock)
    ensures Quiescent(ev, specs, c)
  {
    HeldIsSettled(c.fetch.lock, g.req, r);
    forall t | t in Tasks(ev) ensures t == i || t == j { }
  }

  lemma StuckIsHeldBack(ev: Event, specs: seq<Spec>, c: Join, i: nat, g: Fetch, j: nat, r: L.Req)
    requires Stuck(ev, specs, c, i, g, j, r) && i != j
    ensures Behind(ev, c.fetch, i, j) && HeldBack(ev, c) && !LoopBroken(ev, c) && !JobOutstanding(ev, c)
  {
    assert Tasks(ev)[0] == i && Tasks(ev)[1] == j && i in Tasks(ev) && j in Tasks(ev);
    assert j in Tasks(ev) && WaitsFor(c.fetch, j, g.req);
    forall u | u in Tasks(ev) && u in c.fetch.fetches && c.fetch.fetches[u].req == g.req
        ensures c.fetch.fetches[u].aborted {
      assert u == i || u == j;
    }
  }

  /** Two tasks of one source: if the cleanup after the first report raises, the second waits for the lock, nobody
      has anything left to do, and in no continuation is the event decided. */
  lemma StuckBehindAbort(ev: Event, specs: seq<Spec>, i: nat, j: nat) returns (c: Join)
    requires EventOk(ev, specs) && AllAlone(ev, specs) && Tasks(ev) == [i, j]
    requires i < |ev.contents| && j < |ev.contents| && ev.contents[i].src == ev.contents[j].src
    ensures Reaches(ev, specs, c) && Quiescent(ev, specs, c)
    ensures HeldBack(ev, c) && !LoopBroken(ev, c) && !JobOutstanding(ev, c)
    ensures forall acts :: EventJoin.IsRun(ev, specs, c, acts) ==> EventJoin.After(ev, specs, c, acts).allDone == 0
  {
    assert Tasks(ev)[0] == i && Tasks(ev)[1] == j && i in Tasks(ev) && j in Tasks(ev);
    var c1, g := FirstTaskAborts(ev, specs, i);
    ReachesAll(ev, specs, c1);
    assert L.RequestOk(c1.fetch.lock, g.req);
    var r;
    c, r := SecondTaskWaits(ev, specs, c1, i, g, j);
    ReachesAll(ev, specs, c);
    StuckIsQuiescent(ev, specs, c, i, g, j, r);
    StuckIsHeldBack(ev, specs, c, i, g, j, r);
    forall acts | EventJoin.IsRun(ev, specs, c, acts) ensures EventJoin.After(ev, specs, c, acts).allDone == 0 {
      HeldForGood(ev, specs, c, acts, i, j);
    }
  }

  // ---------------------------------------------------------------- a start loop that is broken off

  lemma DispatchRaises(ev: Event, specs: seq<Spec>, c: Join, i: nat, f: Fetch) returns (c': Join)
    requires Reaches(ev, specs, c) && Is(c, i, f) && f.start == Dispatching && c.calling == Some(i)
    ensures Reaches(ev, specs, c') && c'.ended && c'.started == c.started
  {
    c' := Go(ev, specs, c, Dispatch(i, None, false));
    CoreFields(ev, specs, c, Dispatch(i, None, false));
  }

  /** Two tasks or more: if the second estimate or the dispatch of the first raises in the start loop, the others are
      never requested, and in no continuation is the event decided. */
  lemma StuckLoop(ev: Event, specs: seq<Spec>) returns (c: Join)
    requires EventOk(ev, specs) && AllAlone(ev, specs) && |Tasks(ev)| >= 2
    ensures Reaches(ev, specs, c) && LoopBroken(ev, c)
    ensures forall acts :: EventJoin.IsRun(ev, specs, c, acts) ==> EventJoin.After(ev, specs, c, acts).allDone == 0
  {
    var i := Tasks(ev)[0];
    BeginIsBetween(ev, specs);
    NextInLine(ev, Begin(ev));
    var c1, f1 := AcquireAndMeasure(ev, specs, Begin(ev), i, Size(SizeInfo(0, 0, 0)));
    var c2 := CreateAndRead(ev, specs, c1, i, f1);
    c := DispatchRaises(ev, specs, c2, i, f1.(start := Dispatching, armed := f1.armed + 1));
    ReachesAll(ev, specs, c);
    forall acts | EventJoin.IsRun(ev, specs, c, acts) ensures EventJoin.After(ev, specs, c, acts).allDone == 0 {
      BrokenForGood(ev, specs, c, acts);
    }
  }
}
