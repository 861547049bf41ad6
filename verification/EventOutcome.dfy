/** One outcome per event, for every run in which the tasks have status nodes of their own. */
module EventOutcome {
  import opened Options
  import opened Sequences
  import opened FetchStates
  import opened FetchProtocol
  import opened FetchSafety
  import opened FetchOnce
  import opened FetchReported
  import opened EventJoin
  import L = LockProtocol

  predicate Verdict(m: Message) {
    m.Forward? || m.Aborting?
  }

  /** The messages that decide the event: forwarded, or aborted. */
  function Verdicts(sent: seq<Message>): seq<Message> {
    if sent == [] then []
    else Verdicts(sent[..|sent| - 1]) + if Verdict(sent[|sent| - 1]) then [sent[|sent| - 1]] else []
  }

  lemma VerdictsAppend(sent: seq<Message>, m: Message)
    ensures Verdicts(sent + [m]) == Verdicts(sent) + if Verdict(m) then [m] else []
  {
    assert (sent + [m])[..|sent|] == sent;
  }

  function VerdictOf(datasets: seq<Content>): seq<Message> {
    match CollectStatus(datasets)
    case Succeeded => [Forward]
    case Canceled => [Aborting(Canceled)]
    case Failed => [Aborting(Failed)]
    case _ => []
  }

  lemma VerdictsAllDone(sent: seq<Message>, datasets: seq<Content>)
    ensures Verdicts(sent + AllDoneMessages(datasets)) == Verdicts(sent) + VerdictOf(datasets)
  {
    var total := CollectStatus(datasets);
    if total == Succeeded {
      VerdictsAppend(sent, Forward);
      VerdictsAppend(sent + [Forward], AllProcessed);
      assert sent + [Forward, AllProcessed] == sent + [Forward] + [AllProcessed];
    } else if total == Canceled || total == Failed {
      VerdictsAppend(sent, Aborting(total));
    } else {
      assert sent + [] == sent;
    }
  }

  predicate SomeStatus(cs: seq<Content>, status: FetcherStatus) {
    exists i :: 0 <= i < |cs| && cs[i].status == Some(status)
  }

  /** What an event's data sets decide. */
  lemma VerdictMeaning(cs: seq<Content>)
    ensures VerdictOf(cs) == [Aborting(Canceled)] <==> SomeStatus(cs, CANCELED)
    ensures VerdictOf(cs) == [Aborting(Failed)] <==> SomeStatus(cs, FAILED) && !SomeStatus(cs, CANCELED)
    ensures VerdictOf(cs) == [Forward] <==>
              !SomeStatus(cs, CANCELED) && !SomeStatus(cs, FAILED) && !SomeStatus(cs, PENDING) &&
                  !SomeStatus(cs, RUNNING)
  {
    assert forall st :: Some(st) in Statuses(cs) <==> SomeStatus(cs, st);
  }

  lemma SameStatuses(cs: seq<Content>, ds: seq<Content>)
    requires |cs| == |ds| && forall i :: 0 <= i < |cs| ==> cs[i].status == ds[i].status
    ensures VerdictOf(cs) == VerdictOf(ds)
  {
    assert Statuses(cs) == Statuses(ds);
  }

  // ---------------------------------------------------------------- the invariant

  predicate Open(s: State, t: nat) {
    t in s.fetches ==> s.fetches[t].doneCalls == 0
  }

  /** The start loop has requested the locks of exactly the tasks before the next one. */
  ghost predicate StartedInOrder(ev: Event, c: Join) {
    && c.started <= |Tasks(ev)|
    && (forall t {:trigger t in c.fetch.fetches} :: t in c.fetch.fetches && t < |ev.contents| ==> t in Tasks(ev))
    && (forall t :: t in Tasks(ev) ==>
          (t in c.fetch.fetches <==> (c.started < |Tasks(ev)| ==> t < Tasks(ev)[c.started])))
  }

  /** An earlier task with the same lock has the lower sequence number. */
  ghost predicate LockOrder(ev: Event, s: State) {
    forall t, u {:trigger s.fetches[t].req, s.fetches[u].req} ::
      t < u < |ev.contents| && t in s.fetches && u in s.fetches && s.fetches[t].req.dir == s.fetches[u].req.dir ==>
        s.fetches[t].req.idx < s.fetches[u].req.idx
  }

  ghost predicate PendingIsOpen(ev: Event, c: Join) {
    && Sorted(c.pending)
    && forall t :: t in c.pending <==> t in Tasks(ev) && Open(c.fetch, t)
  }

  predicate Decided(ev: Event, c: Join)
    requires ev.datasets <= |ev.contents|
  {
    && !c.raised
    && c.allDone == (if c.pending == [] then 1 else 0)
    && Verdicts(c.sent) == if c.pending == [] then VerdictOf(Values(ev, c.fetch)[..ev.datasets]) else []
  }

  predicate AllAlone(ev: Event, specs: seq<Spec>) {
    forall t :: t in Tasks(ev) ==> Alone(specs, t)
  }

  ghost predicate EventInv(ev: Event, specs: seq<Spec>, c: Join) {
    && EventOk(ev, specs) && OnceInv(specs, c.fetch)
    && StartedInOrder(ev, c) && LockOrder(ev, c.fetch) && PendingIsOpen(ev, c) && Decided(ev, c)
  }

  // ---------------------------------------------------------------- the lock decides who reports first

  /** A fetch that is up and has not reported still has its lock node. */
  lemma OpenHasLock(specs: seq<Spec>, s: State, t: nat)
    requires OnceInv(specs, s) && Up(s, t) && Alone(specs, t) && s.fetches[t].doneCalls == 0
    ensures s.fetches[t].req in s.lock.live
  {
    assert OnceOk(s, t) && FetchOk(s, t);
    assert L.RequestOk(s.lock, s.fetches[t].req);
    assert s.fetches[t].releaseCalls == 0;
  }

  /** A fetch about to report holds its lock. */
  lemma ReporterHolds(specs: seq<Spec>, s: State, a: Action, i: nat)
    requires OnceInv(specs, s) && FetchProtocol.Enabled(specs, s, a) && Reports(s, a) == Some(i) && Alone(specs, i)
    ensures Up(s, i) && L.InPhase(s.lock, s.fetches[i].req, L.Holding) && s.fetches[i].doneCalls == 0
  {
    assert OnceOk(s, i) && FetchOk(s, i);
  }

  /** While a fetch holds its lock, every other open fetch of the same lock has a higher number. */
  lemma HolderIsFirst(specs: seq<Spec>, s: State, i: nat, u: nat)
    requires OnceInv(specs, s) && Alone(specs, u) && Up(s, i) && Up(s, u)
    requires L.InPhase(s.lock, s.fetches[i].req, L.Holding) && s.fetches[u].doneCalls == 0
    requires s.fetches[u].req.dir == s.fetches[i].req.dir
    ensures s.fetches[i].req.idx <= s.fetches[u].req.idx
  {
    OpenHasLock(specs, s, u);
    assert FetchOk(s, i) && FetchOk(s, u);
    assert L.RequestOk(s.lock, s.fetches[i].req);
    if s.fetches[u].req.idx < s.fetches[i].req.idx {
      assert L.Blocks(s.fetches[u].req, s.fetches[i].req);
    }
  }

  /** No open task before the reporting one has an equal value: it would have the same source, hence the
      same lock and a lower number. */
  lemma NoEarlierEqual(ev: Event, specs: seq<Spec>, c: Join, a: Action, i: nat, u: nat)
    requires EventInv(ev, specs, c) && AllAlone(ev, specs) && FetchProtocol.Enabled(specs, c.fetch, a)
    requires Reports(c.fetch, a) == Some(i) && i < |ev.contents| && u in c.pending && u < i
    ensures Value(ev, c.fetch, u) != Value(ev, c.fetch, i)
  {
    var s := c.fetch;
    assert i in s.fetches && i in Tasks(ev) && u in Tasks(ev) && u in s.fetches;
    ReporterHolds(specs, s, a, i);
    assert s.fetches[u].spec == specs[u] && s.fetches[i].spec == specs[i];
    if Value(ev, s, u) == Value(ev, s, i) {
      assert FetchOk(s, u) && FetchOk(s, i);
      HolderIsFirst(specs, s, i, u);
    }
  }

  // ---------------------------------------------------------------- what a step leaves alone

  /** The status of a reported fetch stays. */
  lemma ReportedStays(specs: seq<Spec>, s: State, a: Action, k: nat)
    requires OnceInv(specs, s) && FetchProtocol.Enabled(specs, s, a) && Alone(specs, k)
    requires k in s.fetches && s.fetches[k].doneCalls > 0
    ensures k in FetchProtocol.Apply(specs, s, a).fetches
    ensures FetchProtocol.Apply(specs, s, a).fetches[k].content.status == s.fetches[k].content.status
  {
    ContentStays(specs, s, a, k);
  }

  lemma ValueStays(ev: Event, specs: seq<Spec>, c: Join, a: Action, i: nat)
    requires EventInv(ev, specs, c) && AllAlone(ev, specs) && FetchProtocol.Enabled(specs, c.fetch, a)
    requires c.pending == []
    requires !(a.Request? && a.i < |ev.contents|) && i < |ev.contents|
    ensures Value(ev, FetchProtocol.Apply(specs, c.fetch, a), i).status == Value(ev, c.fetch, i).status
  {
    if i in Tasks(ev) {
      assert i !in c.pending;
      ReportedStays(specs, c.fetch, a, i);
    } else {
      StepFollows(specs, c.fetch, a);
    }
  }

  /** When nothing is pending the data sets have settled. */
  lemma VerdictStays(ev: Event, specs: seq<Spec>, c: Join, a: Action, s': State)
    requires EventInv(ev, specs, c) && AllAlone(ev, specs) && FetchProtocol.Enabled(specs, c.fetch, a)
    requires s' == FetchProtocol.Apply(specs, c.fetch, a) && c.pending == []
    requires !(a.Request? && a.i < |ev.contents|)
    ensures VerdictOf(Values(ev, s')[..ev.datasets]) == VerdictOf(Values(ev, c.fetch)[..ev.datasets])
  {
    forall i | 0 <= i < ev.datasets ensures Value(ev, s', i).status == Value(ev, c.fetch, i).status {
      ValueStays(ev, specs, c, a, i);
    }
    SameStatuses(Values(ev, s')[..ev.datasets], Values(ev, c.fetch)[..ev.datasets]);
  }

  /** What `StepFollows` says of a step, without the step. */
  ghost predicate Moves(s: State, s': State, added: set<nat>, reported: Option<nat>) {
    && s'.fetches.Keys == s.fetches.Keys + added
    && forall k :: k in s.fetches ==> Follows(s.fetches[k], s'.fetches[k], reported == Some(k))
  }

  lemma StepMoves(specs: seq<Spec>, s: State, a: Action)
    requires FetchProtocol.Enabled(specs, s, a)
    ensures Moves(s, FetchProtocol.Apply(specs, s, a), if a.Request? then {a.i} else {}, Reports(s, a))
  {
    StepFollows(specs, s, a);
  }

  lemma OrderKept(ev: Event, c: Join, c': Join, added: set<nat>, reported: Option<nat>)
    requires StartedInOrder(ev, c) && LockOrder(ev, c.fetch) && Moves(c.fetch, c'.fetch, added, reported)
    requires c'.started == c.started && forall x :: x in added ==> x >= |ev.contents|
    ensures StartedInOrder(ev, c') && LockOrder(ev, c'.fetch)
  {
  }

  lemma PendingKept(ev: Event, c: Join, c': Join, added: set<nat>, reported: Option<nat>)
    requires PendingIsOpen(ev, c) && Moves(c.fetch, c'.fetch, added, reported) && c'.pending == c.pending
    requires forall x :: x in added ==> x in c'.fetch.fetches && c'.fetch.fetches[x].doneCalls == 0
    requires reported.Some? ==> reported.value >= |ev.contents|
    requires forall x :: x in added ==> x !in c.fetch.fetches
    ensures PendingIsOpen(ev, c')
  {
    forall t | t in Tasks(ev) ensures Open(c'.fetch, t) <==> Open(c.fetch, t) { }
  }

  // ---------------------------------------------------------------- starting

  lemma NewestIsLast(specs: seq<Spec>, s: State, i: nat, idx: nat, t: nat)
    requires OnceInv(specs, s) && FetchProtocol.Enabled(specs, s, Request(i, idx)) && t in s.fetches
    requires s.fetches[t].req.dir == specs[i].dir
    ensures s.fetches[t].req.idx < idx
  {
    assert FetchOk(s, t);
    assert L.RequestOk(s.lock, s.fetches[t].req);
  }

  lemma StartedNext(ev: Event, c: Join, c': Join)
    requires StartedInOrder(ev, c) && c.started < |Tasks(ev)| && c'.started == c.started + 1
    requires c'.fetch.fetches.Keys == c.fetch.fetches.Keys + {Tasks(ev)[c.started]}
    ensures StartedInOrder(ev, c')
    ensures forall t :: t in c.fetch.fetches && t < |ev.contents| ==> t < Tasks(ev)[c.started]
  {
    var tasks := Tasks(ev);
    forall t | t in tasks ensures t in c'.fetch.fetches <==> (c'.started < |tasks| ==> t < tasks[c'.started]) {
      var k :| 0 <= k < |tasks| && tasks[k] == t;
      assert t in c.fetch.fetches <==> k < c.started;
    }
  }

  lemma LockOrderNext(ev: Event, s: State, s': State, i: nat)
    requires LockOrder(ev, s) && Moves(s, s', {i}, None) && i < |ev.contents|
    requires forall t :: t in s.fetches && t < |ev.contents| ==> t < i
    requires forall t :: t in s.fetches && s.fetches[t].req.dir == s'.fetches[i].req.dir ==>
            s.fetches[t].req.idx < s'.fetches[i].req.idx
    ensures LockOrder(ev, s')
  {
  }

  lemma StartKeepsOrder(ev: Event, specs: seq<Spec>, c: Join, i: nat, idx: nat, c': Join)
    requires EventInv(ev, specs, c) && EventJoin.Enabled(ev, specs, c, Request(i, idx)) && i < |ev.contents|
    requires c'.started == c.started + 1 && c'.fetch == FetchProtocol.Apply(specs, c.fetch, Request(i, idx))
    ensures StartedInOrder(ev, c') && LockOrder(ev, c'.fetch)
  {
    var s, s' := c.fetch, c'.fetch;
    StepMoves(specs, s, Request(i, idx));
    StartedNext(ev, c, c');
    assert s'.fetches[i].req == L.Req(specs[i].dir, L.Write, idx);
    forall t | t in s.fetches && s.fetches[t].req.dir == specs[i].dir ensures s.fetches[t].req.idx < idx {
      NewestIsLast(specs, s, i, idx, t);
    }
    LockOrderNext(ev, s, s', i);
  }

  lemma StartKeepsInv(ev: Event, specs: seq<Spec>, c: Join, i: nat, idx: nat)
    requires EventInv(ev, specs, c) && EventJoin.Enabled(ev, specs, c, Request(i, idx)) && i < |ev.contents|
    ensures EventInv(ev, specs, EventJoin.Core(ev, specs, c, Request(i, idx)))
  {
    var s' := FetchProtocol.Apply(specs, c.fetch, Request(i, idx));
    var c' := c.(fetch := s', started := c.started + 1, calling := Some(i), sent := c.sent + [Progress(Pending)]);
    assert EventJoin.Core(ev, specs, c, Request(i, idx)) == c';
    StartKeepsOrder(ev, specs, c, i, idx, c');
    StepKeepsOnce(specs, c.fetch, Request(i, idx));
    StepMoves(specs, c.fetch, Request(i, idx));
    assert s'.fetches[i].doneCalls == 0;
    StartMoves(ev, specs, c, c', i);
  }

  lemma StartMoves(ev: Event, specs: seq<Spec>, c: Join, c': Join, i: nat)
    requires EventInv(ev, specs, c) && i in Tasks(ev) && i !in c.fetch.fetches
    requires OnceInv(specs, c'.fetch) && StartedInOrder(ev, c') && LockOrder(ev, c'.fetch)
    requires Moves(c.fetch, c'.fetch, {i}, None) && c'.fetch.fetches[i].doneCalls == 0
    requires c' == c.(fetch := c'.fetch, started := c'.started, calling := c'.calling,
            sent := c.sent + [Progress(Pending)])
    ensures EventInv(ev, specs, c')
  {
    PendingKept(ev, c, c', {i}, None);
    VerdictsAppend(c.sent, Progress(Pending));
    assert i in c.pending;
  }

  // ---------------------------------------------------------------- steps that are not reports of tasks

  lemma OtherStepKeepsInv(ev: Event, specs: seq<Spec>, c: Join, a: Action)
    requires EventInv(ev, specs, c) && AllAlone(ev, specs) && EventJoin.Enabled(ev, specs, c, a)
    requires !(a.Request? && a.i < |ev.contents|) && ReportedTask(ev, c, a).None?
    ensures EventInv(ev, specs, EventJoin.Core(ev, specs, c, a))
  {
    var s' := FetchProtocol.Apply(specs, c.fetch, a);
    assert EventJoin.Core(ev, specs, c, a) == c.(fetch := s');
    StepKeepsOnce(specs, c.fetch, a);
    StepMoves(specs, c.fetch, a);
    if a.Request? { assert s'.fetches[a.i].doneCalls == 0; }
    if c.pending == [] { VerdictStays(ev, specs, c, a, s'); }
    FrameKeepsInv(ev, specs, c, s', if a.Request? then {a.i} else {}, Reports(c.fetch, a));
  }

  lemma FrameKeepsInv(ev: Event, specs: seq<Spec>, c: Join, s': State, added: set<nat>, reported: Option<nat>)
    requires EventInv(ev, specs, c) && OnceInv(specs, s') && Moves(c.fetch, s', added, reported)
    requires forall x :: x in added ==> x >= |ev.contents| && x !in c.fetch.fetches && s'.fetches[x].doneCalls == 0
    requires reported.Some? ==> reported.value >= |ev.contents|
    requires c.pending == [] ==>
               VerdictOf(Values(ev, s')[..ev.datasets]) == VerdictOf(Values(ev, c.fetch)[..ev.datasets])
    ensures EventInv(ev, specs, c.(fetch := s'))
  {
    OrderKept(ev, c, c.(fetch := s'), added, reported);
    PendingKept(ev, c, c.(fetch := s'), added, reported);
  }

  // ---------------------------------------------------------------- reports

  /** `remove` takes the reporting object itself. */
  lemma RemovesItself(ev: Event, specs: seq<Spec>, c: Join, a: Action, i: nat)
    requires EventInv(ev, specs, c) && AllAlone(ev, specs) && FetchProtocol.Enabled(specs, c.fetch, a)
    requires Reports(c.fetch, a) == Some(i) && i < |ev.contents|
    ensures Within(ev.contents, c.pending) && Found(ev, c, i).Some? && c.pending[Found(ev, c, i).value] == i
  {
    var s, p := c.fetch, c.pending;
    forall k | 0 <= k < |p| ensures p[k] < |ev.contents| { assert p[k] in p; }
    assert i in s.fetches && i in Tasks(ev);
    ReporterHolds(specs, s, a, i);
    assert i in p;
    var k := Found(ev, c, i);
    if k.Some? && p[k.value] < i {
      assert p[k.value] in p;
      NoEarlierEqual(ev, specs, c, a, i, p[k.value]);
    }
  }

  lemma OnDoneFields(ev: Event, c: Join, i: nat)
    requires i < |ev.contents| && Within(ev.contents, c.pending) && Found(ev, c, i).Some?
    requires ev.datasets <= |ev.contents|
    ensures var c' := OnDone(ev, c, i);
            && c' == c.(pending := Without(c.pending, Found(ev, c, i).value), allDone := c'.allDone, sent := c'.sent)
            && c'.allDone == c.allDone + (if c'.pending == [] then 1 else 0)
            && Verdicts(c'.sent) == Verdicts(c.sent) + if c'.pending == []
                then VerdictOf(Values(ev, c.fetch)[..ev.datasets]) else []
  {
    var m := Progress(ProgressOf(Value(ev, c.fetch, i).status));
    VerdictsAppend(c.sent, m);
    VerdictsAllDone(c.sent + [m], Values(ev, c.fetch)[..ev.datasets]);
    assert Verdicts(c.sent + [m]) == Verdicts(c.sent);
  }

  lemma ReportKeepsStatuses(ev: Event, specs: seq<Spec>, s: State, a: Action, i: nat)
    requires FetchProtocol.Enabled(specs, s, a) && Reports(s, a) == Some(i) && ev.datasets <= |ev.contents|
    ensures VerdictOf(Values(ev, FetchProtocol.Apply(specs, s, a))[..ev.datasets]) ==
            VerdictOf(Values(ev, s)[..ev.datasets])
  {
    var s' := FetchProtocol.Apply(specs, s, a);
    StepFollows(specs, s, a);
    forall k | 0 <= k < ev.datasets ensures Value(ev, s', k).status == Value(ev, s, k).status {
      if k in s.fetches { OnlyReadsChange(specs, s, a, k); }
    }
    SameStatuses(Values(ev, s')[..ev.datasets], Values(ev, s)[..ev.datasets]);
  }

  lemma PendingShrinks(ev: Event, c: Join, c': Join, i: nat, k: nat)
    requires PendingIsOpen(ev, c) && Moves(c.fetch, c'.fetch, {}, Some(i)) && i in c.fetch.fetches
    requires k < |c.pending| && c.pending[k] == i && c'.pending == Without(c.pending, k)
    ensures PendingIsOpen(ev, c')
  {
    WithoutMembers(c.pending, k);
    forall t | t in Tasks(ev) ensures Open(c'.fetch, t) <==> Open(c.fetch, t) && t != i { }
  }

  lemma ReportKeepsInv(ev: Event, specs: seq<Spec>, c: Join, a: Action, i: nat)
    requires EventInv(ev, specs, c) && AllAlone(ev, specs) && EventJoin.Enabled(ev, specs, c, a)
    requires Reports(c.fetch, a) == Some(i) && i < |ev.contents|
    ensures EventInv(ev, specs, EventJoin.Core(ev, specs, c, a))
  {
    var s' := FetchProtocol.Apply(specs, c.fetch, a);
    RemovesItself(ev, specs, c, a, i);
    assert EventJoin.Core(ev, specs, c, a) == OnDone(ev, c, i).(fetch := s');
    StepKeepsOnce(specs, c.fetch, a);
    StepMoves(specs, c.fetch, a);
    ReportKeepsStatuses(ev, specs, c.fetch, a, i);
    ReportMoves(ev, specs, c, s', i);
  }

  lemma ReportMoves(ev: Event, specs: seq<Spec>, c: Join, s': State, i: nat)
    requires EventInv(ev, specs, c) && OnceInv(specs, s') && Moves(c.fetch, s', {}, Some(i)) && i in c.fetch.fetches
    requires i < |ev.contents| && Within(ev.contents, c.pending) && Found(ev, c, i).Some?
    requires c.pending[Found(ev, c, i).value] == i
    requires VerdictOf(Values(ev, s')[..ev.datasets]) == VerdictOf(Values(ev, c.fetch)[..ev.datasets])
    ensures EventInv(ev, specs, OnDone(ev, c, i).(fetch := s'))
  {
    var c' := OnDone(ev, c, i).(fetch := s');
    OnDoneFields(ev, c, i);
    OrderKept(ev, c, c', {}, Some(i));
    PendingShrinks(ev, c, c', i, Found(ev, c, i).value);
  }

  /** The invariant does not look at the start loop. */
  lemma LoopKeepsInv(ev: Event, specs: seq<Spec>, c: Join)
    requires EventInv(ev, specs, c)
    ensures EventInv(ev, specs, Loop(c))
  {
  }

  lemma StepKeepsInv(ev: Event, specs: seq<Spec>, c: Join, a: Action)
    requires EventInv(ev, specs, c) && AllAlone(ev, specs) && EventJoin.Enabled(ev, specs, c, a)
    ensures EventInv(ev, specs, EventJoin.Apply(ev, specs, c, a))
  {
    if a.Request? && a.i < |ev.contents| {
      StartKeepsInv(ev, specs, c, a.i, a.idx);
    } else if ReportedTask(ev, c, a).Some? {
      ReportKeepsInv(ev, specs, c, a, ReportedTask(ev, c, a).value);
    } else {
      OtherStepKeepsInv(ev, specs, c, a);
    }
    LoopKeepsInv(ev, specs, EventJoin.Core(ev, specs, c, a));
  }

  lemma BeginKeepsInv(ev: Event, specs: seq<Spec>)
    requires EventOk(ev, specs) && Tasks(ev) != []
    ensures EventInv(ev, specs, Begin(ev))
  {
    VerdictsAppend([], Progress(Pending));
    assert [] + [Progress(Pending)] == [Progress(Pending)];
    forall t | t in Tasks(ev) ensures !(t < Tasks(ev)[0]) {
      var k :| 0 <= k < |Tasks(ev)| && Tasks(ev)[k] == t;
    }
  }

  lemma {:induction false} RunKeepsInv(ev: Event, specs: seq<Spec>, c: Join, acts: seq<Action>)
    requires EventInv(ev, specs, c) && AllAlone(ev, specs) && EventJoin.IsRun(ev, specs, c, acts)
    ensures EventInv(ev, specs, EventJoin.After(ev, specs, c, acts))
    decreases |acts|
  {
    if acts != [] {
      StepKeepsInv(ev, specs, c, acts[0]);
      RunKeepsInv(ev, specs, EventJoin.Apply(ev, specs, c, acts[0]), acts[1..]);
    }
  }

  lemma ReachesKeepsInv(ev: Event, specs: seq<Spec>, c: Join)
    requires EventOk(ev, specs) && Tasks(ev) != [] && AllAlone(ev, specs) && Reaches(ev, specs, c)
    ensures EventInv(ev, specs, c)
  {
    var acts :| EventJoin.IsRun(ev, specs, Begin(ev), acts) && EventJoin.After(ev, specs, Begin(ev), acts) == c;
    BeginKeepsInv(ev, specs);
    RunKeepsInv(ev, specs, Begin(ev), acts);
  }

  // ---------------------------------------------------------------- the outcome

  /** Tasks with status nodes of their own, with any other fetches, crashes, cancellations and equal contents
      around: no report raises, an object is pending exactly until its own fetch reports, the all-done callback
      runs once, after the last report, and the event has exactly the verdict that its data sets decide. */
  lemma OneOutcome(ev: Event, specs: seq<Spec>, c: Join)
    requires EventOk(ev, specs) && Tasks(ev) != [] && AllAlone(ev, specs) && Reaches(ev, specs, c)
    ensures !c.raised
    ensures forall t :: t in c.pending <==> t in Tasks(ev) && Open(c.fetch, t)
    ensures c.allDone == if forall t :: t in Tasks(ev) ==> !Open(c.fetch, t) then 1 else 0
    ensures Verdicts(c.sent) == if c.allDone == 1 then VerdictOf(Values(ev, c.fetch)[..ev.datasets]) else []
  {
    ReachesKeepsInv(ev, specs, c);
    if c.pending != [] { assert c.pending[0] in c.pending; }
  }

  lemma NoTaskStep(ev: Event, specs: seq<Spec>, c: Join, a: Action)
    requires Tasks(ev) == [] && c.calling.None? && EventJoin.Enabled(ev, specs, c, a)
    requires forall i :: i in c.fetch.fetches ==> i >= |ev.contents|
    ensures EventJoin.Apply(ev, specs, c, a) == c.(fetch := FetchProtocol.Apply(specs, c.fetch, a))
    ensures forall i :: i in FetchProtocol.Apply(specs, c.fetch, a).fetches ==> i >= |ev.contents|
  {
    StepFollows(specs, c.fetch, a);
  }

  lemma {:induction false} NothingMoves(ev: Event, specs: seq<Spec>, c: Join, acts: seq<Action>)
    requires Tasks(ev) == [] && c.calling.None? && EventJoin.IsRun(ev, specs, c, acts)
    requires forall i :: i in c.fetch.fetches ==> i >= |ev.contents|
    ensures EventJoin.After(ev, specs, c, acts).sent == c.sent && EventJoin.After(ev, specs, c, acts).raised == c.raised
    decreases |acts|
  {
    if acts != [] {
      NoTaskStep(ev, specs, c, acts[0]);
      NothingMoves(ev, specs, EventJoin.Apply(ev, specs, c, acts[0]), acts[1..]);
    }
  }

  /** With nothing to fetch the event is forwarded at once, and in no run does its handler do anything else. */
  lemma NothingPending(ev: Event, specs: seq<Spec>, c: Join)
    requires Tasks(ev) == [] && Reaches(ev, specs, c)
    ensures c.sent == [NothingToFetch, Forward] && Verdicts(c.sent) == [Forward] && !c.raised
  {
    var acts :| EventJoin.IsRun(ev, specs, Begin(ev), acts) && EventJoin.After(ev, specs, Begin(ev), acts) == c;
    NothingMoves(ev, specs, Begin(ev), acts);
    VerdictsAppend([NothingToFetch], Forward);
    VerdictsAppend([], NothingToFetch);
    assert [NothingToFetch] + [Forward] == [NothingToFetch, Forward] && [] + [NothingToFetch] == [NothingToFetch];
  }
}
