/** Two fetches that share a status node: a notification that arrives late finds the other fetch's node, and
    the first fetch completes a second time.  The run is built for the fetches of any event among any others;
    its steps keep to the order of the start loop and of the callback thread. */
module FetchTwice {
  import opened Options
  import opened Sequences
  import opened FetchStates
  import opened FetchProtocol
  import opened FetchSafety
  import opened FetchOnce
  import opened EventJoin
  import L = LockProtocol

  /** A step that starts no task and reports nothing, while no call of the start loop is under way. */
  lemma Plain(ev: Event, specs: seq<Spec>, c: Join, a: Action) returns (c': Join)
    requires Reaches(ev, specs, c) && FetchProtocol.Enabled(specs, c.fetch, a) && c.calling.None?
    requires !a.Request? && Reports(c.fetch, a).None?
    ensures Reaches(ev, specs, c') && c' == c.(fetch := FetchProtocol.Apply(specs, c.fetch, a))
  {
    c' := Go(ev, specs, c, a);
  }

  /** The start loop is calling `fetch` for task `i`, if it is calling at all. */
  predicate Calling(c: Join, i: nat) {
    c.calling.Some? ==> c.calling.value == i
  }

  /** The call for fetch `i`, if one is under way, goes on until it comes to its end. */
  predicate Calls(c: Join, c': Join, i: nat) {
    Calling(c', i) && if AtReturn(c'.fetch, i) then c'.calling.None? else c'.calling == c.calling
  }

  lemma LoopFields(c: Join, i: nat)
    requires Calling(c, i) && (c.calling.None? || (i in c.fetch.fetches ==> c.fetch.fetches[i].start != Raised))
    ensures Loop(c) == c.(calling := Loop(c).calling) && Calls(c, Loop(c), i)
  {
  }

  /** A step in the call for fetch `i`, or outside such a call. */
  lemma Advance(ev: Event, specs: seq<Spec>, c: Join, a: Action, i: nat) returns (c': Join)
    requires Reaches(ev, specs, c) && FetchProtocol.Enabled(specs, c.fetch, a) && Calling(c, i)
    requires !a.Request? && Reports(c.fetch, a).None?
    requires i in FetchProtocol.Apply(specs, c.fetch, a).fetches
    requires FetchProtocol.Apply(specs, c.fetch, a).fetches[i].start != Raised
    ensures Reaches(ev, specs, c') && c' == c.(fetch := FetchProtocol.Apply(specs, c.fetch, a), calling := c'.calling)
    ensures Calls(c, c', i)
  {
    LoopFields(c.(fetch := FetchProtocol.Apply(specs, c.fetch, a)), i);
    c' := Go(ev, specs, c, a);
  }

  // ---------------------------------------------------------------- a lock that is free

  predicate FreeDir(l: L.State, dir: L.Dir) {
    l.dead == {} && forall r :: r in l.live ==> r.dir != dir
  }

  lemma LockIsGranted(l: L.State, session: nat, dir: L.Dir) returns (r: L.Req, l2: L.State)
    requires FreeDir(l, dir)
    ensures r == L.Req(dir, L.Write, L.NextIndex(l, dir))
    ensures var create := L.Create(session, dir, L.Write, r.idx);
            && L.Enabled(l, create)
            && var l1 := L.Apply(l, create);
            && L.Enabled(l1, L.Scan(r, [r])) && l2 == L.Apply(l1, L.Scan(r, [r])) && l1.dead == {} && l2.dead == {}
            && L.Enabled(l2, L.Grant(r))
            && var l3 := L.Apply(l2, L.Grant(r));
               && l3.live == l.live + {r} && l3.dead == {} && L.InPhase(l3, r, L.Holding)
               && l3.reqs.Keys == l.reqs.Keys + {r}
  {
    r := L.Req(dir, L.Write, L.NextIndex(l, dir));
    var l1 := L.Apply(l, L.Create(session, dir, L.Write, r.idx));
    assert L.LocksBefore(r, [r]) == [];
    l2 := L.Apply(l1, L.Scan(r, [r]));
  }

  /** The start loop may request fetch `i` now. */
  predicate MayRequest(ev: Event, c: Join, i: nat) {
    i !in c.fetch.fetches && c.calling.None? && (i < |ev.contents| ==> LoopGoesOn(ev, c) && i == Tasks(ev)[c.started])
  }

  function Started(ev: Event, c: Join, i: nat): nat {
    c.started + if i < |ev.contents| then 1 else 0
  }

  function New(spec: Spec, r: L.Req): Fetch {
    Fetch(spec, r, Queued, Idle, 0, 0, false, spec.content, 0, 0, false)
  }

  // ---------------------------------------------------------------- single steps

  /** Fetch `i` is up and looks like `f`. */
  predicate Is(c: Join, i: nat, f: Fetch) {
    i in c.fetch.fetches && c.fetch.fetches[i] == f && c.fetch.lock.dead == {}
  }

  lemma Ask(ev: Event, specs: seq<Spec>, c: Join, i: nat, r: L.Req) returns (c': Join)
    requires Reaches(ev, specs, c) && i < |specs| && MayRequest(ev, c, i)
    requires r.kind == L.Write && r.dir == specs[i].dir
    requires L.Enabled(c.fetch.lock, L.Create(specs[i].session, r.dir, L.Write, r.idx))
    ensures Reaches(ev, specs, c') && c'.calling == (if i < |ev.contents| then Some(i) else None)
    ensures c' == c.(fetch := c'.fetch, started := Started(ev, c, i), calling := c'.calling, sent := c'.sent)
    ensures c'.fetch == State(L.Apply(c.fetch.lock, L.Create(specs[i].session, r.dir, L.Write, r.idx)),
                              c.fetch.fetches[i := New(specs[i], r)], c.fetch.nodes)
  {
    LoopFields(EventJoin.Core(ev, specs, c, Request(i, r.idx)), i);
    c' := Go(ev, specs, c, Request(i, r.idx));
  }

  lemma Look(ev: Event, specs: seq<Spec>, c: Join, a: L.Action, i: nat) returns (c': Join)
    requires Reaches(ev, specs, c) && (a.Scan? || a.Check?) && L.Enabled(c.fetch.lock, a) && Calling(c, i)
    requires i in c.fetch.fetches && c.fetch.fetches[i].start != Raised
    ensures Reaches(ev, specs, c')
    ensures c' == c.(fetch := c.fetch.(lock := L.Apply(c.fetch.lock, a)), calling := c'.calling)
    ensures Calls(c, c', i)
  {
    c' := Advance(ev, specs, c, LockStep(a), i);
  }

  lemma Win(ev: Event, specs: seq<Spec>, c: Join, i: nat, f: Fetch) returns (c': Join)
    requires Reaches(ev, specs, c) && Is(c, i, f) && f.start == Queued && L.Enabled(c.fetch.lock, L.Grant(f.req))
    requires Calling(c, i)
    ensures Reaches(ev, specs, c') && Calls(c, c', i)
    ensures c' == With(c, i, f.(start := Estimating))
                  .(fetch := c'.fetch, calling := c'.calling)
    ensures c'.fetch == State(L.Apply(c.fetch.lock, L.Grant(f.req)), c.fetch.fetches[i := f.(start := Estimating)],
            c.fetch.nodes)
  {
    c' := Advance(ev, specs, c, Granted(i), i);
  }

  lemma SetTwice(m: map<nat, Fetch>, i: nat, f: Fetch, g: Fetch)
    ensures m[i := f][i := g] == m[i := g]
  {
  }

  lemma ReadFirstState(s: State, i: nat, f: Fetch)
    requires i in s.fetches && s.fetches[i] == f && f.start == First(Reading)
    requires f.spec.path in s.nodes && !s.nodes[f.spec.path].result.status.Final()
    ensures DoFirst(s, i) == s.(fetches := s.fetches[i := f.(start := Dispatching, armed := f.armed + 1)])
  {
    SetTwice(s.fetches, i, f.(armed := f.armed + 1), f.(start := Dispatching, armed := f.armed + 1));
  }

  lemma ReleaseState(s: State, i: nat, f: Fetch, g: Fetch)
    requires i in s.fetches && s.fetches[i] == f && L.InPhase(s.lock, f.req, L.Holding)
    ensures Set(ReleaseLock(s, i), i, g) == State(L.Apply(s.lock, L.Release(f.req)), s.fetches[i := g], s.nodes)
    ensures ReleaseLock(s, i).fetches[i] == f.(releaseCalls := f.releaseCalls + 1)
  {
    SetTwice(s.fetches, i, f.(releaseCalls := f.releaseCalls + 1), g);
  }

  lemma ReleaseCallback(s: State, i: nat, f: Fetch)
    requires i in s.fetches && s.fetches[i] == f && f.callback == Reported && L.InPhase(s.lock, f.req, L.Holding)
    ensures DoCallback(s, i) == Set(ReleaseLock(s, i), i, ReleaseLock(s, i).fetches[i].(callback := Idle))
  {
  }

  lemma ReportState(s: State, i: nat, f: Fetch)
    requires i in s.fetches && s.fetches[i] == f && f.callback == Deleted
    ensures DoCallback(s, i) == s.(fetches := s.fetches[i := f.(callback := Reported, doneCalls := f.doneCalls + 1)])
  {
    SetTwice(s.fetches, i, f.(doneCalls := f.doneCalls + 1), f.(callback := Reported, doneCalls := f.doneCalls + 1));
  }

  function AfterRead(f: Fetch, res: FetcherResult): Fetch {
    f.(callback := Final, armed := f.armed + 1, content := Update(res, f.content))
  }

  lemma ReadFinalState(s: State, i: nat, f: Fetch)
    requires i in s.fetches && s.fetches[i] == f && f.callback == Reading
    requires f.spec.path in s.nodes && s.nodes[f.spec.path].result.status.Final()
    ensures DoCallback(s, i) == s.(fetches := s.fetches[i := AfterRead(f, s.nodes[f.spec.path].result)])
  {
    var g := f.(armed := f.armed + 1, content := Update(s.nodes[f.spec.path].result, f.content));
    SetTwice(s.fetches, i, g, g.(callback := Final));
  }

  /** The join with fetch `i` changed. */
  function With(c: Join, i: nat, f: Fetch): Join {
    c.(fetch := c.fetch.(fetches := c.fetch.fetches[i := f]))
  }

  function Measured(f: Fetch, result: Estimated): (g: Fetch)
    ensures g.req == f.req && g.spec == f.spec && g.start == if result.Size? then Creating else EstFailed
  {
    match result
    case Size(info) => Sized(f, info).(start := Creating)
    case EstimateError(message) => EstimateFailure(f, message)
  }

  lemma Measure(ev: Event, specs: seq<Spec>, c: Join, i: nat, f: Fetch, result: Estimated) returns (c': Join)
    requires Reaches(ev, specs, c) && Is(c, i, f) && f.start == Estimating && Calling(c, i)
    ensures Reaches(ev, specs, c') && Calls(c, c', i)
    ensures c' == With(c, i, Measured(f, result)).(calling := c'.calling)
  {
    c' := Advance(ev, specs, c, Estimate(i, result), i);
  }

  function FirstRead(f: Fetch): Fetch { f.(start := Dispatching, armed := f.armed + 1) }

  function Begun(f: Fetch): Fetch { f.(start := First(Reading)) }

  /** Only the fetches and the status nodes change. */
  predicate Only(c: Join, c': Join, fetches: map<nat, Fetch>, nodes: map<NodePath, StatusNode>) {
    c' == c.(fetch := State(c.fetch.lock, fetches, nodes))
  }

  lemma Create(ev: Event, specs: seq<Spec>, c: Join, i: nat, f: Fetch) returns (c': Join)
    requires Reaches(ev, specs, c) && Is(c, i, f) && f.start == Creating && f.spec.path !in c.fetch.nodes
    requires Calling(c, i)
    requires L.InPhase(c.fetch.lock, f.req, L.Holding)
    ensures Reaches(ev, specs, c')
    ensures Only(c, c', c.fetch.fetches[i := Begun(f)], c.fetch.nodes[f.spec.path := StatusNode(i, InitialData)])
  {
    c' := Advance(ev, specs, c, CreateNode(i), i);
    assert !AtReturn(c'.fetch, i);
  }

  lemma ReadFirst(ev: Event, specs: seq<Spec>, c: Join, i: nat, f: Fetch) returns (c': Join)
    requires Reaches(ev, specs, c) && Is(c, i, f) && f.start == First(Reading) && Calling(c, i)
    requires f.spec.path in c.fetch.nodes && !c.fetch.nodes[f.spec.path].result.status.Final()
    requires L.InPhase(c.fetch.lock, f.req, L.Holding)
    ensures Reaches(ev, specs, c')
    ensures Only(c, c', c.fetch.fetches[i := FirstRead(f)], c.fetch.nodes)
  {
    ReadFirstState(c.fetch, i, f);
    c' := Advance(ev, specs, c, FirstStep(i), i);
    assert !AtReturn(c'.fetch, i);
  }

  lemma StartJob(ev: Event, specs: seq<Spec>, c: Join, i: nat, f: Fetch, info: SizeInfo) returns (c': Join)
    requires Reaches(ev, specs, c) && Is(c, i, f) && f.start == Dispatching && Calling(c, i)
    ensures Reaches(ev, specs, c')
    ensures c' == With(c, i, Sized(f, info).(start := Start.Running, dispatched := true)).(calling := None)
  {
    c' := Advance(ev, specs, c, Dispatch(i, Some(info), true), i);
  }

  /** A write: the watches on the path become notifications. */
  lemma Cancel(ev: Event, specs: seq<Spec>, c: Join, path: NodePath) returns (c': Join)
    requires Reaches(ev, specs, c) && c.calling.None? && path in c.fetch.nodes
    requires !c.fetch.nodes[path].result.status.Final()
    ensures Reaches(ev, specs, c')
    ensures c' == c.(fetch := WriteNode(c.fetch, path, c.fetch.nodes[path].result.(status := CANCELED)))
  {
    c' := Plain(ev, specs, c, CancelWrite(path));
  }

  lemma FinishJob(ev: Event, specs: seq<Spec>, c: Join, i: nat, f: Fetch, res: FetcherResult) returns (c': Join)
    requires Reaches(ev, specs, c) && c.calling.None? && Is(c, i, f) && f.dispatched && res.status.Final()
    requires f.spec.path in c.fetch.nodes
    ensures Reaches(ev, specs, c') && c' == c.(fetch := WriteNode(c.fetch, f.spec.path, res))
  {
    c' := Plain(ev, specs, c, JobWrite(i, res));
  }

  lemma Hear(ev: Event, specs: seq<Spec>, c: Join, i: nat, f: Fetch) returns (c': Join)
    requires Reaches(ev, specs, c) && c.calling.None? && Is(c, i, f) && f.callback == Idle && f.changed > 0
    ensures Reaches(ev, specs, c') && c' == With(c, i, f.(callback := Reading, changed := f.changed - 1))
  {
    c' := Plain(ev, specs, c, Notify(i));
  }

  lemma ReadFinal(ev: Event, specs: seq<Spec>, c: Join, i: nat, f: Fetch) returns (c': Join)
    requires Reaches(ev, specs, c) && c.calling.None? && Is(c, i, f) && f.callback == Reading
    requires f.spec.path in c.fetch.nodes && c.fetch.nodes[f.spec.path].result.status.Final()
    ensures Reaches(ev, specs, c')
    ensures c' == With(c, i, AfterRead(f, c.fetch.nodes[f.spec.path].result))
  {
    ReadFinalState(c.fetch, i, f);
    c' := Plain(ev, specs, c, CallbackStep(i));
  }

  lemma Delete(ev: Event, specs: seq<Spec>, c: Join, i: nat, f: Fetch) returns (c': Join)
    requires Reaches(ev, specs, c) && c.calling.None? && Is(c, i, f) && f.callback == Final
    requires f.spec.path in c.fetch.nodes
    ensures Reaches(ev, specs, c')
    ensures c' == c.(fetch := State(c.fetch.lock,
            Unarm(c.fetch.fetches, {f.spec.path})[i := f.(callback := Deleted, armed := 0)],
                                    c.fetch.nodes - {f.spec.path}))
  {
    c' := Plain(ev, specs, c, CallbackStep(i));
  }

  lemma Release(ev: Event, specs: seq<Spec>, c: Join, i: nat, f: Fetch) returns (c': Join)
    requires Reaches(ev, specs, c) && c.calling.None? && Is(c, i, f) && f.callback == Reported
    requires L.InPhase(c.fetch.lock, f.req, L.Holding)
    ensures Reaches(ev, specs, c')
    ensures c' == c.(fetch := State(L.Apply(c.fetch.lock, L.Release(f.req)),
                                    c.fetch.fetches[i := f.(callback := Idle, releaseCalls := f.releaseCalls + 1)],
                                        c.fetch.nodes))
  {
    ReleaseCallback(c.fetch, i, f);
    ReleaseState(c.fetch, i, f, f.(callback := Idle, releaseCalls := f.releaseCalls + 1));
    c' := Plain(ev, specs, c, CallbackStep(i));
    assert c'.fetch == DoCallback(c.fetch, i);
  }

  lemma GiveUp(ev: Event, specs: seq<Spec>, c: Join, i: nat, f: Fetch) returns (c': Join)
    requires Reaches(ev, specs, c) && Is(c, i, f) && f.start == EstReported && L.InPhase(c.fetch.lock, f.req, L.Holding)
    requires Calling(c, i)
    ensures Reaches(ev, specs, c')
    ensures c' == c.(fetch := State(L.Apply(c.fetch.lock, L.Release(f.req)),
                                    c.fetch.fetches[i := f.(start := Ended, releaseCalls := f.releaseCalls + 1)],
                                        c.fetch.nodes),
                     calling := None)
  {
    ReleaseState(c.fetch, i, f, f.(start := Ended, releaseCalls := f.releaseCalls + 1));
    c' := Advance(ev, specs, c, ReleaseFailure(i), i);
    assert c'.fetch == Set(ReleaseLock(c.fetch, i), i, ReleaseLock(c.fetch, i).fetches[i].(start := Ended));
  }

  // ---------------------------------------------------------------- reports that succeed

  /** The reporting task is the first pending object. */
  predicate FirstInLine(ev: Event, c: Join, i: nat) {
    i < |ev.contents| ==> Within(ev.contents, c.pending) && c.pending != [] && c.pending[0] == i
  }

  function PendingAfter(ev: Event, c: Join, i: nat): seq<nat>
    requires FirstInLine(ev, c, i)
  {
    if i < |ev.contents| then c.pending[1..] else c.pending
  }

  lemma OnDoneFirst(ev: Event, c: Join, i: nat)
    requires i < |ev.contents| && FirstInLine(ev, c, i)
    ensures Found(ev, c, i) == Some(0)
    ensures OnDone(ev, c, i) == c.(pending := c.pending[1..], allDone := OnDone(ev, c, i).allDone,
            sent := OnDone(ev, c, i).sent)
  {
    assert Without(c.pending, 0) == c.pending[1..];
  }

  lemma TellCore(ev: Event, specs: seq<Spec>, c: Join, a: Action, i: nat)
    requires FetchProtocol.Enabled(specs, c.fetch, a) && !Aborts(a) && Reports(c.fetch, a) == Some(i)
    requires FirstInLine(ev, c, i)
    ensures EventJoin.Enabled(ev, specs, c, a)
    ensures var c' := EventJoin.Core(ev, specs, c, a);
            c' == c.(fetch := FetchProtocol.Apply(specs, c.fetch, a), pending := PendingAfter(ev, c, i),
                allDone := c'.allDone, sent := c'.sent)
  {
    if i < |ev.contents| { OnDoneFirst(ev, c, i); }
  }

  lemma Tell(ev: Event, specs: seq<Spec>, c: Join, a: Action, i: nat) returns (c': Join)
    requires Reaches(ev, specs, c) && FetchProtocol.Enabled(specs, c.fetch, a) && !Aborts(a)
    requires Reports(c.fetch, a) == Some(i)
    requires FirstInLine(ev, c, i) && Calling(c, i) && i in FetchProtocol.Apply(specs, c.fetch, a).fetches
    requires c.calling.None? || FetchProtocol.Apply(specs, c.fetch, a).fetches[i].start != Raised
    ensures Reaches(ev, specs, c') && Calls(c, c', i)
    ensures c' == c.(fetch := FetchProtocol.Apply(specs, c.fetch, a), pending := PendingAfter(ev, c, i),
                     calling := c'.calling, allDone := c'.allDone, sent := c'.sent)
  {
    TellCore(ev, specs, c, a, i);
    LoopFields(EventJoin.Core(ev, specs, c, a), i);
    c' := Go(ev, specs, c, a);
  }

  lemma Report(ev: Event, specs: seq<Spec>, c: Join, i: nat, f: Fetch) returns (c': Join)
    requires Reaches(ev, specs, c) && c.calling.None? && Is(c, i, f) && f.callback == Deleted && FirstInLine(ev, c, i)
    ensures Reaches(ev, specs, c')
    ensures c' == With(c, i, f.(callback := Reported, doneCalls := f.doneCalls + 1))
                  .(pending := PendingAfter(ev, c, i), allDone := c'.allDone, sent := c'.sent)
  {
    ReportState(c.fetch, i, f);
    c' := Tell(ev, specs, c, CallbackStep(i), i);
  }

  lemma TellFailure(ev: Event, specs: seq<Spec>, c: Join, i: nat, f: Fetch) returns (c': Join)
    requires Reaches(ev, specs, c) && Is(c, i, f) && f.start == EstFailed && FirstInLine(ev, c, i) && Calling(c, i)
    ensures Reaches(ev, specs, c') && Calls(c, c', i)
    ensures c' == With(c, i, f.(start := EstReported, doneCalls := f.doneCalls + 1))
                  .(pending := PendingAfter(ev, c, i), calling := c'.calling, allDone := c'.allDone, sent := c'.sent)
  {
    var g := f.(start := EstReported, doneCalls := f.doneCalls + 1);
    assert FetchProtocol.Apply(specs, c.fetch, ReportFailure(i)) == c.fetch.(fetches := c.fetch.fetches[i := g]);
    c' := Tell(ev, specs, c, ReportFailure(i), i);
  }

  // ---------------------------------------------------------------- acquiring and running

  lemma AskAndLook(ev: Event, specs: seq<Spec>, c: Join, i: nat, r: L.Req) returns (c': Join)
    requires Reaches(ev, specs, c) && i < |specs| && MayRequest(ev, c, i) && r.kind == L.Write && r.dir == specs[i].dir
    requires var create := L.Create(specs[i].session, r.dir, L.Write, r.idx);
             && L.Enabled(c.fetch.lock, create)
             && L.Enabled(L.Apply(c.fetch.lock, create), L.Scan(r, [r]))
             && L.InPhase(L.Apply(L.Apply(c.fetch.lock, create), L.Scan(r, [r])), r, L.Clear)
    ensures Reaches(ev, specs, c') && c'.calling == if i < |ev.contents| then Some(i) else None
    ensures c' == c.(fetch := c'.fetch, started := Started(ev, c, i), calling := c'.calling, sent := c'.sent)
    ensures c'.fetch == State(L.Apply(L.Apply(c.fetch.lock, L.Create(specs[i].session, r.dir, L.Write, r.idx)),
            L.Scan(r, [r])),
                              c.fetch.fetches[i := New(specs[i], r)], c.fetch.nodes)
  {
    var c1 := Ask(ev, specs, c, i, r);
    c' := Look(ev, specs, c1, L.Scan(r, [r]), i);
    assert !AtReturn(c'.fetch, i);
  }

  lemma Acquire(ev: Event, specs: seq<Spec>, c: Join, i: nat) returns (c': Join, f: Fetch)
    requires Reaches(ev, specs, c) && i < |specs| && MayRequest(ev, c, i) && FreeDir(c.fetch.lock, specs[i].dir)
    ensures Reaches(ev, specs, c') && f == New(specs[i], f.req).(start := Estimating) && f.req.dir == specs[i].dir
    ensures c'.calling == if i < |ev.contents| then Some(i) else None
    ensures c' == c.(fetch := c'.fetch, started := Started(ev, c, i), calling := c'.calling, sent := c'.sent)
    ensures c'.fetch.nodes == c.fetch.nodes && c'.fetch.fetches == c.fetch.fetches[i := f]
    ensures L.InPhase(c'.fetch.lock, f.req, L.Holding)
    ensures c'.fetch.lock.live == c.fetch.lock.live + {f.req} && c'.fetch.lock.dead == {}
    ensures c'.fetch.lock.reqs.Keys == c.fetch.lock.reqs.Keys + {f.req} && f.req.kind == L.Write
  {
    var r, l2 := LockIsGranted(c.fetch.lock, specs[i].session, specs[i].dir);
    var c1 := AskAndLook(ev, specs, c, i, r);
    var g := New(specs[i], r);
    c' := Win(ev, specs, c1, i, g);
    f := g.(start := Estimating);
    SetTwice(c.fetch.fetches, i, g, f);
  }

  lemma AcquireAndMeasure(ev: Event, specs: seq<Spec>, c: Join, i: nat, result: Estimated) returns (c': Join, f: Fetch)
    requires Reaches(ev, specs, c) && i < |specs| && MayRequest(ev, c, i) && FreeDir(c.fetch.lock, specs[i].dir)
    ensures Reaches(ev, specs, c') && f.req.dir == specs[i].dir
    ensures c'.calling == if i < |ev.contents| then Some(i) else None
    ensures f == Measured(New(specs[i], f.req).(start := Estimating), result)
    ensures c' == c.(fetch := c'.fetch, started := Started(ev, c, i), calling := c'.calling, sent := c'.sent)
    ensures c'.fetch.nodes == c.fetch.nodes && c'.fetch.fetches == c.fetch.fetches[i := f]
    ensures L.InPhase(c'.fetch.lock, f.req, L.Holding)
    ensures c'.fetch.lock.live == c.fetch.lock.live + {f.req} && c'.fetch.lock.dead == {}
    ensures c'.fetch.lock.reqs.Keys == c.fetch.lock.reqs.Keys + {f.req} && f.req.kind == L.Write
  {
    var c1, f1 := Acquire(ev, specs, c, i);
    c' := Measure(ev, specs, c1, i, f1, result);
    f := Measured(f1, result);
    SetTwice(c.fetch.fetches, i, f1, f);
  }

  lemma AfterCreate(c: Join, c1: Join, i: nat, f: Fetch)
    requires Is(c, i, f) && Calling(c, i) && L.InPhase(c.fetch.lock, f.req, L.Holding)
    requires Only(c, c1, c.fetch.fetches[i := Begun(f)], c.fetch.nodes[f.spec.path := StatusNode(i, InitialData)])
    ensures Is(c1, i, Begun(f)) && Calling(c1, i) && L.InPhase(c1.fetch.lock, f.req, L.Holding)
    ensures f.spec.path in c1.fetch.nodes && !c1.fetch.nodes[f.spec.path].result.status.Final()
  {
  }

  lemma OnlyTwice(c: Join, c1: Join, c2: Join, i: nat, f: Fetch, g: Fetch, nodes: map<NodePath, StatusNode>)
    requires Only(c, c1, c.fetch.fetches[i := f], nodes) && Only(c1, c2, c1.fetch.fetches[i := g], c1.fetch.nodes)
    ensures Only(c, c2, c.fetch.fetches[i := g], nodes)
  {
    SetTwice(c.fetch.fetches, i, f, g);
  }

  lemma CreateAndRead(ev: Event, specs: seq<Spec>, c: Join, i: nat, f: Fetch) returns (c': Join)
    requires Reaches(ev, specs, c) && Is(c, i, f) && f.start == Creating && f.spec.path !in c.fetch.nodes
    requires Calling(c, i)
    requires L.InPhase(c.fetch.lock, f.req, L.Holding)
    ensures Reaches(ev, specs, c')
    ensures Only(c, c', c.fetch.fetches[i := FirstRead(f)], c.fetch.nodes[f.spec.path := StatusNode(i, InitialData)])
  {
    var c1 := Create(ev, specs, c, i, f);
    AfterCreate(c, c1, i, f);
    c' := ReadFirst(ev, specs, c1, i, Begun(f));
    assert FirstRead(Begun(f)) == FirstRead(f);
    OnlyTwice(c, c1, c', i, Begun(f), FirstRead(f), c.fetch.nodes[f.spec.path := StatusNode(i, InitialData)]);
  }

  lemma CreateAndRun(ev: Event, specs: seq<Spec>, c: Join, i: nat, f: Fetch, info: SizeInfo) returns (c': Join)
    requires Reaches(ev, specs, c) && Is(c, i, f) && f.start == Creating && f.armed == 0
    requires f.spec.path !in c.fetch.nodes
    requires Calling(c, i) && L.InPhase(c.fetch.lock, f.req, L.Holding)
    ensures Reaches(ev, specs, c')
    ensures c' == c.(fetch := State(c.fetch.lock,
                                    c.fetch.fetches[i := Sized(f, info).(start := Start.Running, dispatched := true,
                                        armed := 1)],
                                    c.fetch.nodes[f.spec.path := StatusNode(i, InitialData)]), calling := None)
  {
    var c1 := CreateAndRead(ev, specs, c, i, f);
    var f1 := f.(start := Dispatching, armed := 1);
    c' := StartJob(ev, specs, c1, i, f1, info);
    SetTwice(c.fetch.fetches, i, f1, Sized(f1, info).(start := Start.Running, dispatched := true));
  }

  /** A fetch that finds the lock free and no node at its path runs until its job is started. */
  lemma RunUntilJob(ev: Event, specs: seq<Spec>, c: Join, i: nat) returns (c': Join, f: Fetch)
    requires Reaches(ev, specs, c) && i < |specs| && MayRequest(ev, c, i) && FreeDir(c.fetch.lock, specs[i].dir)
    requires specs[i].path !in c.fetch.nodes
    ensures Reaches(ev, specs, c')
    ensures c' == c.(fetch := c'.fetch, started := Started(ev, c, i), calling := None, sent := c'.sent)
    ensures c'.fetch.nodes == c.fetch.nodes[specs[i].path := StatusNode(i, InitialData)]
    ensures c'.fetch.fetches == c.fetch.fetches[i := f]
    ensures f == New(specs[i], f.req).(start := Start.Running, dispatched := true, armed := 1, content := f.content)
    ensures f.content == specs[i].content.(sizeInfo := f.content.sizeInfo) && f.req.dir == specs[i].dir
    ensures L.InPhase(c'.fetch.lock, f.req, L.Holding) && c'.fetch.lock.live == c.fetch.lock.live + {f.req}
    ensures c'.fetch.lock.dead == {}
    ensures c'.fetch.lock.reqs.Keys == c.fetch.lock.reqs.Keys + {f.req} && f.req.kind == L.Write
  {
    var info := SizeInfo(0, 0, 0);
    var c1, f1 := AcquireAndMeasure(ev, specs, c, i, Size(info));
    c' := CreateAndRun(ev, specs, c1, i, f1, info);
    f := c'.fetch.fetches[i];
    SetTwice(c.fetch.fetches, i, f1, f);
  }

  /** Between two tasks: no lock is taken, and exactly the tasks to come are pending. */
  ghost predicate Between(ev: Event, c: Join) {
    && c.fetch.lock.live == {} && c.fetch.lock.dead == {} && !c.raised && c.calling.None? && !c.ended
    && c.started <= |Tasks(ev)| && c.pending == Tasks(ev)[c.started..]
    && forall k :: c.started <= k < |Tasks(ev)| ==> Tasks(ev)[k] !in c.fetch.fetches
  }

  lemma BeginIsBetween(ev: Event, specs: seq<Spec>)
    ensures Reaches(ev, specs, Begin(ev)) && Between(ev, Begin(ev))
  {
    assert EventJoin.IsRun(ev, specs, Begin(ev), []) && EventJoin.After(ev, specs, Begin(ev), []) == Begin(ev);
  }

  lemma ReleasedLock(l: L.State, r: L.Req)
    requires L.InPhase(l, r, L.Holding) && l.live == {r}
    ensures L.Apply(l, L.Release(r)).live == {} && L.Apply(l, L.Release(r)).dead == l.dead
  {
  }

  /** How far the handler has come; nothing went wrong on the way. */
  predicate Reached(c: Join, c': Join, started: nat, pending: seq<nat>) {
    c'.started == started && c'.pending == pending && c'.raised == c.raised && c'.ended == c.ended
  }

  lemma FailAndTell(ev: Event, specs: seq<Spec>, c: Join, i: nat) returns (c': Join, f: Fetch)
    requires Reaches(ev, specs, c) && i < |specs| && MayRequest(ev, c, i) && FreeDir(c.fetch.lock, specs[i].dir)
    requires FirstInLine(ev, c, i)
    ensures Reaches(ev, specs, c') && f.start == EstReported
    ensures Reached(c, c', Started(ev, c, i), PendingAfter(ev, c, i)) && Calling(c', i)
    ensures c'.fetch.nodes == c.fetch.nodes && c'.fetch.fetches == c.fetch.fetches[i := f]
    ensures L.InPhase(c'.fetch.lock, f.req, L.Holding)
    ensures c'.fetch.lock.live == c.fetch.lock.live + {f.req} && c'.fetch.lock.dead == {}
  {
    var c1, f1 := AcquireAndMeasure(ev, specs, c, i, EstimateError(""));
    assert c1.pending == c.pending && FirstInLine(ev, c1, i) && Is(c1, i, f1);
    c' := TellFailure(ev, specs, c1, i, f1);
    f := f1.(start := EstReported, doneCalls := f1.doneCalls + 1);
    SetTwice(c.fetch.fetches, i, f1, f);
  }

  lemma NextInLine(ev: Event, c: Join)
    requires Between(ev, c) && c.started < |Tasks(ev)|
    ensures var i := Tasks(ev)[c.started];
            i < |ev.contents| && MayRequest(ev, c, i) && FirstInLine(ev, c, i) &&
                PendingAfter(ev, c, i) == Tasks(ev)[c.started + 1..]
  {
    assert Tasks(ev)[c.started] in Tasks(ev);
    forall k | 0 <= k < |c.pending| ensures c.pending[k] < |ev.contents| {
      assert c.pending[k] == Tasks(ev)[c.started + k];
    }
  }

  lemma StaysBetween(ev: Event, c: Join, c': Join)
    requires Between(ev, c) && c.started < |Tasks(ev)| && c'.started == c.started + 1 && !c'.raised && c'.calling.None?
    requires !c'.ended
    requires c'.pending == Tasks(ev)[c'.started..] && c'.fetch.lock.live == {} && c'.fetch.lock.dead == {}
    requires c'.fetch.fetches.Keys == c.fetch.fetches.Keys + {Tasks(ev)[c.started]}
    ensures Between(ev, c')
  {
  }

  /** The next task fails its estimate and is out of the way. */
  lemma FailNext(ev: Event, specs: seq<Spec>, c: Join) returns (c': Join, f: Fetch)
    requires Reaches(ev, specs, c) && Between(ev, c) && c.started < |Tasks(ev)| && |ev.contents| <= |specs|
    ensures Reaches(ev, specs, c') && Between(ev, c') && c'.started == c.started + 1
    ensures c'.fetch.nodes == c.fetch.nodes && c'.fetch.fetches == c.fetch.fetches[Tasks(ev)[c.started] := f]
  {
    var i := Tasks(ev)[c.started];
    NextInLine(ev, c);
    var c1, f1 := FailAndTell(ev, specs, c, i);
    ReleasedLock(c1.fetch.lock, f1.req);
    c' := GiveUp(ev, specs, c1, i, f1);
    f := c'.fetch.fetches[i];
    SetTwice(c.fetch.fetches, i, f1, f);
    StaysBetween(ev, c, c');
  }

  /** All tasks before the `n`-th are out of the way. */
  lemma {:induction false} FailUntil(ev: Event, specs: seq<Spec>, c: Join, n: nat) returns (c': Join)
    requires Reaches(ev, specs, c) && Between(ev, c) && c.started <= n <= |Tasks(ev)| && |ev.contents| <= |specs|
    ensures Reaches(ev, specs, c') && Between(ev, c') && c'.started == n && c'.fetch.nodes == c.fetch.nodes
    ensures forall k :: k in c.fetch.fetches ==> k in c'.fetch.fetches && c'.fetch.fetches[k] == c.fetch.fetches[k]
    ensures forall k :: k in c'.fetch.fetches ==> k in c.fetch.fetches || k in Tasks(ev)
    decreases n - c.started
  {
    if c.started == n {
      c' := c;
    } else {
      var c1, _ := FailNext(ev, specs, c);
      assert Tasks(ev)[c.started] in Tasks(ev);
      c' := FailUntil(ev, specs, c1, n);
    }
  }

  // ---------------------------------------------------------------- the first completion

  /** Only the node at `path` differs, if any, and only watches of fetches. */
  ghost predicate SameButPath(s: State, s': State, path: NodePath) {
    && s'.lock == s.lock && s'.fetches.Keys == s.fetches.Keys
    && s'.nodes - {path} == s.nodes - {path}
    && forall k :: k in s.fetches ==> s'.fetches[k].content.message == s.fetches[k].content.message
  }

  lemma WriteFacts(s: State, path: NodePath, res: FetcherResult, i: nat)
    requires path in s.nodes && i in s.fetches && s.fetches[i].spec.path == path
    ensures var s', f := WriteNode(s, path, res), s.fetches[i];
            && SameButPath(s, s', path) && path in s'.nodes && s'.nodes[path].result == res
            && s'.fetches[i] == f.(changed := f.changed + f.armed, armed := 0)
  {
  }

  lemma WithTwice(c: Join, i: nat, f: Fetch, g: Fetch)
    ensures With(With(c, i, f), i, g) == With(c, i, g)
  {
    SetTwice(c.fetch.fetches, i, f, g);
  }

  /** A notification arrives and the node is final. */
  lemma HearAndRead(ev: Event, specs: seq<Spec>, c: Join, i: nat, f: Fetch) returns (c': Join, g: Fetch)
    requires Reaches(ev, specs, c) && c.calling.None? && Is(c, i, f) && f.callback == Idle && f.changed > 0
    requires f.spec.path in c.fetch.nodes && c.fetch.nodes[f.spec.path].result.status.Final()
    ensures Reaches(ev, specs, c') && c' == With(c, i, g)
    ensures g == AfterRead(f.(callback := Reading, changed := f.changed - 1), c.fetch.nodes[f.spec.path].result)
  {
    var f1 := f.(callback := Reading, changed := f.changed - 1);
    var c1 := Hear(ev, specs, c, i, f);
    g := AfterRead(f1, c.fetch.nodes[f.spec.path].result);
    c' := ReadFinal(ev, specs, c1, i, f1);
    WithTwice(c, i, f1, g);
  }

  /** The fetch is canceled and has read that. */
  lemma CanceledRead(ev: Event, specs: seq<Spec>, c: Join, i: nat, f: Fetch) returns (c': Join, g: Fetch)
    requires Reaches(ev, specs, c) && c.calling.None? && Is(c, i, f) && f.callback == Idle && f.armed == 1
    requires f.changed == 0
    requires f.spec.path in c.fetch.nodes && c.fetch.nodes[f.spec.path].result.status == PENDING
    ensures Reaches(ev, specs, c') && Is(c', i, g) && g == f.(callback := Final, content := g.content)
    ensures c' == c.(fetch := c'.fetch) && c'.fetch.lock == c.fetch.lock
    ensures c'.fetch.fetches.Keys == c.fetch.fetches.Keys
    ensures f.spec.path in c'.fetch.nodes && c'.fetch.nodes - {f.spec.path} == c.fetch.nodes - {f.spec.path}
  {
    var path := f.spec.path;
    WriteFacts(c.fetch, path, c.fetch.nodes[path].result.(status := CANCELED), i);
    var c1 := Cancel(ev, specs, c, path);
    c', g := HearAndRead(ev, specs, c1, i, f.(changed := 1, armed := 0));
  }

  /** Between the read of CANCELED and the deletion the job reports success. */
  lemma CanceledThenDone(ev: Event, specs: seq<Spec>, c: Join, i: nat, f: Fetch) returns (c': Join, g: Fetch)
    requires Reaches(ev, specs, c) && c.calling.None? && Is(c, i, f) && f.dispatched && f.callback == Idle
    requires f.armed == 1 && f.changed == 0
    requires f.spec.path in c.fetch.nodes && c.fetch.nodes[f.spec.path].result.status == PENDING
    ensures Reaches(ev, specs, c') && Is(c', i, g)
    ensures g == f.(callback := Final, armed := 0, changed := 1, content := g.content)
    ensures c' == c.(fetch := c'.fetch) && c'.fetch.lock == c.fetch.lock
    ensures c'.fetch.fetches.Keys == c.fetch.fetches.Keys
    ensures f.spec.path in c'.fetch.nodes && c'.fetch.nodes - {f.spec.path} == c.fetch.nodes - {f.spec.path}
  {
    var done := FetcherResult(DONE, Some(FILE), Some("Success"));
    var c1, f1 := CanceledRead(ev, specs, c, i, f);
    WriteFacts(c1.fetch, f.spec.path, done, i);
    c' := FinishJob(ev, specs, c1, i, f1, done);
    g := f1.(changed := 1, armed := 0);
  }

  lemma ReportAndRelease(ev: Event, specs: seq<Spec>, c: Join, i: nat, f: Fetch) returns (c': Join, g: Fetch)
    requires Reaches(ev, specs, c) && c.calling.None? && Is(c, i, f) && f.callback == Deleted && FirstInLine(ev, c, i)
    requires L.InPhase(c.fetch.lock, f.req, L.Holding) && c.fetch.lock.live == {f.req}
    ensures Reaches(ev, specs, c') && Is(c', i, g)
    ensures g == f.(callback := Idle, doneCalls := f.doneCalls + 1, releaseCalls := f.releaseCalls + 1)
    ensures Reached(c, c', c.started, PendingAfter(ev, c, i)) && c'.calling.None?
    ensures c'.fetch.lock.live == {} && c'.fetch.fetches == c.fetch.fetches[i := g] && c'.fetch.nodes == c.fetch.nodes
  {
    var c1 := Report(ev, specs, c, i, f);
    var f1 := f.(callback := Reported, doneCalls := f.doneCalls + 1);
    ReleasedLock(c1.fetch.lock, f1.req);
    c' := Release(ev, specs, c1, i, f1);
    g := c'.fetch.fetches[i];
    SetTwice(c.fetch.fetches, i, f1, g);
  }

  lemma DeleteAndReport(ev: Event, specs: seq<Spec>, c: Join, i: nat, f: Fetch) returns (c': Join, g: Fetch)
    requires Reaches(ev, specs, c) && c.calling.None? && Is(c, i, f) && f.callback == Final
    requires f.spec.path in c.fetch.nodes && FirstInLine(ev, c, i)
    requires L.InPhase(c.fetch.lock, f.req, L.Holding) && c.fetch.lock.live == {f.req}
    ensures Reaches(ev, specs, c') && Is(c', i, g)
    ensures g == f.(callback := Idle, armed := 0, doneCalls := f.doneCalls + 1, releaseCalls := f.releaseCalls + 1)
    ensures Reached(c, c', c.started, PendingAfter(ev, c, i)) && c'.calling.None?
    ensures c'.fetch.lock.live == {} && c'.fetch.fetches.Keys == c.fetch.fetches.Keys
    ensures c'.fetch.nodes == c.fetch.nodes - {f.spec.path}
  {
    var c1 := Delete(ev, specs, c, i, f);
    c', g := ReportAndRelease(ev, specs, c1, i, f.(callback := Deleted, armed := 0));
  }

  lemma NodesBack(n: map<NodePath, StatusNode>, n1: map<NodePath, StatusNode>, n2: map<NodePath, StatusNode>,
      p: NodePath, x: StatusNode)
    requires p !in n && n1 == n[p := x] && n2 - {p} == n1 - {p}
    ensures n2 - {p} == n
  {
  }

  lemma FirstCompletion(ev: Event, specs: seq<Spec>, c: Join, i: nat) returns (c': Join, g: Fetch)
    requires Reaches(ev, specs, c) && Between(ev, c) && i < |specs| && MayRequest(ev, c, i) && FirstInLine(ev, c, i)
    requires specs[i].path !in c.fetch.nodes
    ensures Reaches(ev, specs, c') && Is(c', i, g) && g.spec == specs[i]
    ensures g.callback == Idle && g.armed == 0 && g.changed == 1 && g.doneCalls == 1
    ensures Reached(c, c', Started(ev, c, i), PendingAfter(ev, c, i)) && c'.calling.None?
    ensures c'.fetch.lock.live == {} && c'.fetch.lock.dead == {} && c'.fetch.fetches.Keys == c.fetch.fetches.Keys + {i}
    ensures c'.fetch.nodes == c.fetch.nodes
  {
    var c1, f1 := RunUntilJob(ev, specs, c, i);
    assert c1.pending == c.pending && Is(c1, i, f1);
    var c2, f2 := CanceledThenDone(ev, specs, c1, i, f1);
    assert FirstInLine(ev, c2, i);
    c', g := DeleteAndReport(ev, specs, c2, i, f2);
    NodesBack(c.fetch.nodes, c1.fetch.nodes, c2.fetch.nodes, specs[i].path, StatusNode(i, InitialData));
  }

  // ---------------------------------------------------------------- the second completion

  lemma DeleteFacts(s: State, i: nat, f: Fetch, path: NodePath)
    requires i in s.fetches && s.fetches[i] == f && f.spec.path == path
    ensures SameButPath(s, State(s.lock, Unarm(s.fetches, {path})[i := f.(callback := Deleted, armed := 0)],
            s.nodes - {path}), path)
  {
  }

  /** Fetch `j` runs at the same path, and its job fails with message `m`. */
  lemma OtherFails(ev: Event, specs: seq<Spec>, c: Join, i: nat, g: Fetch, j: nat, m: string) returns (c': Join)
    requires Reaches(ev, specs, c) && Is(c, i, g) && g.armed == 0 && j != i
    requires j < |specs| && MayRequest(ev, c, j) && FreeDir(c.fetch.lock, specs[j].dir)
    requires specs[j].path == g.spec.path && g.spec.path !in c.fetch.nodes
    ensures Reaches(ev, specs, c') && Is(c', i, g)
    ensures c' == c.(fetch := c'.fetch, started := Started(ev, c, j), calling := None, sent := c'.sent)
    ensures c'.fetch.fetches.Keys == c.fetch.fetches.Keys + {j}
    ensures c'.fetch.fetches[j].content.message == specs[j].content.message
    ensures g.spec.path in c'.fetch.nodes && c'.fetch.nodes[g.spec.path].result == FetcherResult(FAILED, None, Some(m))
  {
    var c1, f1 := RunUntilJob(ev, specs, c, j);
    var res := FetcherResult(FAILED, None, Some(m));
    WriteFacts(c1.fetch, g.spec.path, res, i);
    c' := FinishJob(ev, specs, c1, j, f1, res);
  }

  /** The late notification of fetch `i` finds that result; fetch `i` is about to call on_done again. */
  lemma LateNotice(ev: Event, specs: seq<Spec>, c: Join, i: nat, g: Fetch, m: string) returns (c': Join, h: Fetch)
    requires Reaches(ev, specs, c) && c.calling.None? && Is(c, i, g) && g.callback == Idle && g.changed == 1
    requires g.spec.path in c.fetch.nodes && c.fetch.nodes[g.spec.path].result == FetcherResult(FAILED, None, Some(m))
    ensures Reaches(ev, specs, c') && Is(c', i, h) && h.callback == Deleted && h.doneCalls == g.doneCalls
    ensures h.content.message == Some(m)
    ensures c' == c.(fetch := c'.fetch) && c'.fetch.fetches.Keys == c.fetch.fetches.Keys
    ensures forall k :: k in c.fetch.fetches && k != i ==>
            c'.fetch.fetches[k].content.message == c.fetch.fetches[k].content.message
  {
    var c1, f1 := HearAndRead(ev, specs, c, i, g);
    DeleteFacts(c1.fetch, i, f1, g.spec.path);
    c' := Delete(ev, specs, c1, i, f1);
    h := f1.(callback := Deleted, armed := 0);
  }

  /** An exception leaves on_done in the callback thread. */
  lemma Raise(ev: Event, specs: seq<Spec>, c: Join, i: nat, f: Fetch) returns (c': Join)
    requires Reaches(ev, specs, c) && c.calling.None? && Is(c, i, f) && f.callback == Deleted && i < |ev.contents|
    requires Within(ev.contents, c.pending) && Found(ev, c, i).None?
    ensures Reaches(ev, specs, c') && c'.raised && i in c'.fetch.fetches
    ensures c'.fetch.fetches[i].doneCalls == f.doneCalls + 1
  {
    c' := Go(ev, specs, c, AbortCallback(i));
  }

  // ---------------------------------------------------------------- any two fetches, no event

  const NoEvent := Event([], 0)

  /** For any two fetches that share a node there is a run in which the first calls on_done twice. */
  lemma SharedPathReportsTwice(specs: seq<Spec>, i: nat, j: nat) returns (s: State)
    requires i < |specs| && j < |specs| && i != j && specs[i].path == specs[j].path
    ensures Reachable(specs, s) && i in s.fetches && s.fetches[i].doneCalls == 2
  {
    BeginIsBetween(NoEvent, specs);
    var c1, g := FirstCompletion(NoEvent, specs, Begin(NoEvent), i);
    var c2 := OtherFails(NoEvent, specs, c1, i, g, j, "");
    var c3, h := LateNotice(NoEvent, specs, c2, i, g, "");
    var c4 := Report(NoEvent, specs, c3, i, h);
    s := c4.fetch;
    var acts :| EventJoin.IsRun(NoEvent, specs, Begin(NoEvent), acts) &&
        EventJoin.After(NoEvent, specs, Begin(NoEvent), acts) == c4;
    FetchRun(NoEvent, specs, Begin(NoEvent), acts);
  }

  ghost predicate AlwaysOnce(specs: seq<Spec>, i: nat) {
    forall s :: Reachable(specs, s) && i in s.fetches ==> s.fetches[i].doneCalls <= 1
  }

  /** Every run reports fetch `i` at most once if and only if no other fetch uses its status node. */
  lemma OnceIffAlone(specs: seq<Spec>, i: nat)
    requires i < |specs|
    ensures AlwaysOnce(specs, i) <==> Alone(specs, i)
  {
    if Alone(specs, i) {
      forall s | Reachable(specs, s) && i in s.fetches ensures s.fetches[i].doneCalls <= 1 {
        AtMostOnce(specs, s, i);
      }
    } else {
      var j :| 0 <= j < |specs| && j != i && specs[j].path == specs[i].path;
      var s := SharedPathReportsTwice(specs, i, j);
    }
  }

  // ---------------------------------------------------------------- collisions

  /** Two fetches with one node and different locks: the second finds the node there and its fetch raises. */
  lemma Collides(specs: seq<Spec>, i: nat, j: nat) returns (s: State)
    requires i < |specs| && j < |specs| && specs[i].path == specs[j].path && specs[i].dir != specs[j].dir
    ensures Reachable(specs, s) && FetchProtocol.Enabled(specs, s, CreateNode(j)) && s.fetches[j].spec.path in s.nodes
    ensures FetchProtocol.Apply(specs, s, CreateNode(j)).fetches[j].start == Raised
  {
    BeginIsBetween(NoEvent, specs);
    var c1, f := RunUntilJob(NoEvent, specs, Begin(NoEvent), i);
    var c2, g := AcquireAndMeasure(NoEvent, specs, c1, j, Size(SizeInfo(0, 0, 0)));
    s := c2.fetch;
    var acts :| EventJoin.IsRun(NoEvent, specs, Begin(NoEvent), acts) &&
        EventJoin.After(NoEvent, specs, Begin(NoEvent), acts) == c2;
    FetchRun(NoEvent, specs, Begin(NoEvent), acts);
  }

  ghost predicate NeverCollides(specs: seq<Spec>) {
    forall s, i :: Reachable(specs, s) && FetchProtocol.Enabled(specs, s, CreateNode(i)) ==>
        s.fetches[i].spec.path !in s.nodes
  }

  /** In every run a fetch finds no node where it creates its own if and only if fetches that share a status node
      share the lock. */
  lemma NeverCollidesIffUnderLock(specs: seq<Spec>)
    ensures NeverCollides(specs) <==> PathsUnderLock(specs)
  {
    if PathsUnderLock(specs) {
      forall s, i | Reachable(specs, s) && FetchProtocol.Enabled(specs, s, CreateNode(i))
          ensures s.fetches[i].spec.path !in s.nodes {
        NodeCreationNeverCollides(specs, s, i);
      }
    } else {
      var i, j :| 0 <= i < |specs| && 0 <= j < |specs| && specs[i].path == specs[j].path &&
          specs[i].dir != specs[j].dir;
      var s := Collides(specs, i, j);
    }
  }
}
