/** The distributed read/write lock as a step relation.

    Any number of processes (sessions) create sequence nodes under any number of lock
    directories.  Every call to ZooKeeper is one step, and the steps of different
    requests interleave freely, so the list of children a request acts on may be stale. */
module LockProtocol {

  datatype Kind = Read | Write

  /** A lock directory: the parent path of the lock nodes of one resource. */
  datatype Dir = Dir(path: string)

  /** A lock node: its directory, kind and sequence number.  It also names the request that created it. */
  datatype Req = Req(dir: Dir, kind: Kind, idx: nat)

  /** Where the run of `_acquire_lock_loop` for one request stands. */
  datatype Phase =
    | Scanning                     // about to call get_children
    | Blocked(before: seq<Req>)    // locks_before was not empty; about to call exists
    | Waiting(target: Req)         // exists said yes; the call has returned
    | Clear                        // locks_before was empty; about to call on_locked
    | Holding                      // on_locked was called
    | Released
    | Dead                         // the session is lost

  /** `preds`, `tried`, `scans` and `grants` record the history of the request: the incompatible
      nodes alive when it was created, the nodes it decided to wait for, the number of calls to
      get_children and the number of calls to on_locked. */
  datatype Request = Request(
    session: nat, phase: Phase,
    preds: set<Req>, tried: set<Req>, scans: nat, grants: nat)

  datatype Watch = Watch(watcher: Req, target: Req)

  /** `watches` are registered, `fired` are notifications not yet delivered. */
  datatype State = State(
    next: map<Dir, nat>, reqs: map<Req, Request>, live: set<Req>,
    watches: set<Watch>, fired: set<Watch>, dead: set<nat>)

  const Init := State(map[], map[], {}, {}, {}, {})

  datatype Action =
    | Create(session: nat, dir: Dir, kind: Kind, idx: nat)
    | Scan(r: Req, children: seq<Req>)
    | Check(r: Req)
    | Deliver(w: Watch)
    | Grant(r: Req)
    | Release(r: Req)
    | Crash(session: nat)

  predicate Incompatible(mine: Kind, other: Kind) {
    mine == Write || other == Write
  }

  /** Node `t` stands before request `r` and excludes it. */
  predicate Blocks(t: Req, r: Req) {
    t.dir == r.dir && t.idx < r.idx && Incompatible(r.kind, t.kind)
  }

  /** The children that are incompatible predecessors of `r`, in the order they were listed. */
  function LocksBefore(r: Req, children: seq<Req>): (before: seq<Req>)
    ensures forall t :: t in before <==> t in children && Blocks(t, r)
  {
    if children == [] then []
    else (if Blocks(children[0], r) then [children[0]] else []) + LocksBefore(r, children[1..])
  }

  predicate Lists(s: State, dir: Dir, children: seq<Req>) {
    && (forall c :: c in children ==> c in s.live && c.dir == dir)
    && (forall c :: c in s.live && c.dir == dir ==> c in children)
  }

  function NextIndex(s: State, dir: Dir): nat {
    if dir in s.next then s.next[dir] else 0
  }

  predicate InPhase(s: State, r: Req, p: Phase) {
    r in s.reqs && s.reqs[r].phase == p
  }

  predicate Enabled(s: State, a: Action) {
    match a
    case Create(session, dir, _, idx) => session !in s.dead && NextIndex(s, dir) <= idx
    case Scan(r, children) => InPhase(s, r, Scanning) && Lists(s, r.dir, children)
    case Check(r) => r in s.reqs && s.reqs[r].phase.Blocked? && s.reqs[r].phase.before != []
    case Deliver(w) => w in s.fired && w.watcher in s.reqs
    case Grant(r) => InPhase(s, r, Clear)
    case Release(r) => InPhase(s, r, Holding)
    case Crash(session) => session !in s.dead
  }

  /** A watch fires once, when its node is deleted or created. */
  function Touch(s: State, nodes: set<Req>): State {
    s.(watches := (set w | w in s.watches && w.target !in nodes),
       fired := s.fired + (set w | w in s.watches && w.target in nodes))
  }

  function SetPhase(s: State, r: Req, p: Phase): State
    requires r in s.reqs
  {
    s.(reqs := s.reqs[r := s.reqs[r].(phase := p)])
  }

  function DoCreate(s: State, session: nat, dir: Dir, kind: Kind, idx: nat): State {
    var r := Req(dir, kind, idx);
    var preds := set t | t in s.live && Blocks(t, r);
    Touch(s, {r}).(
      next := s.next[dir := idx + 1],
      reqs := s.reqs[r := Request(session, Scanning, preds, {}, 0, 0)],
      live := s.live + {r})
  }

  function DoScan(s: State, r: Req, children: seq<Req>): State
    requires r in s.reqs
  {
    var q := s.reqs[r];
    var before := LocksBefore(r, children);
    s.(reqs := s.reqs[r :=
      if before == [] then q.(phase := Clear, scans := q.scans + 1)
      else q.(phase := Blocked(before), tried := q.tried + {before[0]}, scans := q.scans + 1)])
  }

  /** `exists` registers the watch whether or not the node is there. */
  function DoCheck(s: State, r: Req): State
    requires Enabled(s, Check(r))
  {
    var t := s.reqs[r].phase.before[0];
    SetPhase(s, r, if t in s.live then Waiting(t) else Scanning).(watches := s.watches + {Watch(r, t)})
  }

  function DoCrash(s: State, session: nat): State {
    var gone := set r | r in s.live && r in s.reqs && s.reqs[r].session == session;
    var s' := Touch(s, gone);
    s'.(
      reqs := (map r | r in s.reqs :: if r in gone then s.reqs[r].(phase := Dead) else s.reqs[r]),
      live := s.live - gone,
      watches := (set w | w in s'.watches && w.watcher !in gone),
      fired := (set w | w in s'.fired && w.watcher !in gone),
      dead := s.dead + {session})
  }

  function Apply(s: State, a: Action): State
    requires Enabled(s, a)
  {
    match a
    case Create(session, dir, kind, idx) => DoCreate(s, session, dir, kind, idx)
    case Scan(r, children) => DoScan(s, r, children)
    case Check(r) => DoCheck(s, r)
    case Deliver(w) => SetPhase(s, w.watcher, Scanning).(fired := s.fired - {w})
    case Grant(r) => s.(reqs := s.reqs[r := s.reqs[r].(phase := Holding, grants := s.reqs[r].grants + 1)])
    case Release(r) => SetPhase(Touch(s, {r}), r, Released).(live := s.live - {r})
    case Crash(session) => DoCrash(s, session)
  }

  /** `acts` can be taken one after the other from `s`. */
  predicate IsRun(s: State, acts: seq<Action>)
    decreases |acts|
  {
    acts != [] ==> Enabled(s, acts[0]) && IsRun(Apply(s, acts[0]), acts[1..])
  }

  function After(s: State, acts: seq<Action>): State
    requires IsRun(s, acts)
    decreases |acts|
  {
    if acts == [] then s else After(Apply(s, acts[0]), acts[1..])
  }

  lemma {:induction false} RunAppend(s: State, acts: seq<Action>, a: Action)
    requires IsRun(s, acts) && Enabled(After(s, acts), a)
    ensures IsRun(s, acts + [a]) && After(s, acts + [a]) == Apply(After(s, acts), a)
    decreases |acts|
  {
    if acts == [] {
      assert [a][1..] == [];
      assert acts + [a] == [a];
      assert IsRun(Apply(s, a), []);
    } else {
      assert (acts + [a])[1..] == acts[1..] + [a];
      RunAppend(Apply(s, acts[0]), acts[1..], a);
    }
  }

  // ---------------------------------------------------------------- the invariant

  predicate Alive(p: Phase) { !p.Released? && !p.Dead? }

  predicate NoneLive(s: State, ts: set<Req>) {
    forall t :: t in ts ==> t !in s.live
  }

  /** What holds of one request, phase by phase. */
  predicate PhaseOk(s: State, r: Req)
    requires r in s.reqs
  {
    var q := s.reqs[r];
    match q.phase
    case Scanning => NoneLive(s, q.tried)
    case Blocked(before) =>
      before != [] && before[0] in q.tried && NoneLive(s, q.tried - {before[0]})
    case Waiting(t) =>
      && t in q.tried && NoneLive(s, q.tried - {t})
      && (t in s.live ==> Watch(r, t) in s.watches)
      && (t !in s.live ==> Watch(r, t) in s.fired)
    case Clear => forall t :: t in s.live ==> !Blocks(t, r)
    case Holding => forall t :: t in s.live ==> !Blocks(t, r)
    case Released => true
    case Dead => true
  }

  function MaxScans(q: Request): nat {
    |q.tried| + if q.phase.Scanning? || q.phase.Blocked? || q.phase.Waiting? then 0 else 1
  }

  predicate CountsOk(q: Request) {
    && q.scans <= MaxScans(q)
    && (q.grants == 0 || (q.grants == 1 && (q.phase.Holding? || q.phase.Released? || q.phase.Dead?)))
    && (q.phase.Holding? || q.phase.Released? ==> q.grants == 1)
  }

  predicate RequestOk(s: State, r: Req)
    requires r in s.reqs
  {
    && r.idx < NextIndex(s, r.dir)
    && (r in s.live <==> Alive(s.reqs[r].phase))
    && (s.reqs[r].session in s.dead ==> r !in s.live)
    && s.reqs[r].tried <= s.reqs[r].preds <= s.reqs.Keys
    && (forall t :: t in s.reqs[r].preds ==> Blocks(t, r))
    && (forall t :: t in s.live && Blocks(t, r) ==> t in s.reqs[r].preds)
    && PhaseOk(s, r)
    && CountsOk(s.reqs[r])
  }

  predicate WatchOk(s: State, w: Watch) {
    && w.watcher in s.reqs && w.target in s.reqs
    && w.target in s.reqs[w.watcher].tried
    && (w.target in s.live ==> s.reqs[w.watcher].phase == Waiting(w.target))
  }

  predicate FiredOk(s: State, w: Watch) {
    && w.watcher in s.live && w.target in s.reqs && w.target !in s.live
    && InPhase(s, w.watcher, Waiting(w.target))
  }

  predicate SameSlot(a: Req, b: Req) {
    a.dir == b.dir && a.idx == b.idx
  }

  predicate Inv(s: State) {
    && s.live <= s.reqs.Keys
    && (forall a, b {:trigger SameSlot(a, b)} :: a in s.reqs && b in s.reqs && SameSlot(a, b) ==> a == b)
    && (forall r {:trigger RequestOk(s, r)} :: r in s.reqs ==> RequestOk(s, r))
    && (forall w {:trigger WatchOk(s, w)} :: w in s.watches ==> WatchOk(s, w))
    && (forall w {:trigger FiredOk(s, w)} :: w in s.fired ==> FiredOk(s, w))
  }

  // ---------------------------------------------------------------- preservation, step by step

  /** A new node has the highest number in its directory: it stands before nobody and nobody watches it. */
  lemma CreateKeepsOthers(s: State, n: Req, s': State, r: Req)
    requires r in s.reqs && RequestOk(s, r) && r in s'.reqs && n !in s.reqs && NextIndex(s, n.dir) <= n.idx
    requires s'.reqs[r] == s.reqs[r] && s'.reqs.Keys == s.reqs.Keys + {n} && s'.live == s.live + {n}
    requires s'.watches == s.watches && s'.fired == s.fired && s'.dead == s.dead
    requires s'.next == s.next[n.dir := n.idx + 1]
    ensures RequestOk(s', r)
  {
  }

  lemma NewNodeIsFresh(s: State, n: Req)
    requires Inv(s) && NextIndex(s, n.dir) <= n.idx
    ensures forall r :: r in s.reqs && r.dir == n.dir ==> r.idx < n.idx
    ensures Touch(s, {n}) == s
  {
    forall r | r in s.reqs && r.dir == n.dir ensures r.idx < n.idx { assert RequestOk(s, r); }
    forall w | w in s.watches ensures w.target != n { assert WatchOk(s, w); }
  }

  lemma CreateKeepsInv(s: State, session: nat, dir: Dir, kind: Kind, idx: nat)
    requires Inv(s) && Enabled(s, Create(session, dir, kind, idx))
    ensures Inv(DoCreate(s, session, dir, kind, idx))
  {
    var n := Req(dir, kind, idx);
    var s' := DoCreate(s, session, dir, kind, idx);
    NewNodeIsFresh(s, n);
    forall r | r in s'.reqs ensures RequestOk(s', r) {
      if r != n {
        assert RequestOk(s, r);
        CreateKeepsOthers(s, n, s', r);
      }
    }
    forall w | w in s.watches ensures WatchOk(s', w) { assert WatchOk(s, w); }
    forall w | w in s.fired ensures FiredOk(s', w) { assert FiredOk(s, w); }
  }

  /** A step of request `r` alone: it replaces its record and touches only its own watches. */
  lemma LocalStepKeepsInv(s: State, s': State, r: Req, q: Request)
    requires Inv(s) && r in s.live
    requires s' == s.(reqs := s.reqs[r := q], watches := s'.watches, fired := s'.fired)
    requires RequestOk(s', r)
    requires forall w: Watch :: w.watcher != r ==>
            (w in s'.watches <==> w in s.watches) && (w in s'.fired <==> w in s.fired)
    requires forall w :: w in s'.watches && w.watcher == r ==> WatchOk(s', w)
    requires forall w :: w in s'.fired ==> w.watcher != r
    ensures Inv(s')
  {
    assert s'.reqs.Keys == s.reqs.Keys;
    forall x | x in s'.reqs ensures RequestOk(s', x) {
      if x != r {
        assert RequestOk(s, x);
        assert s'.reqs[x] == s.reqs[x];
      }
    }
    forall w | w in s'.watches ensures WatchOk(s', w) {
      if w.watcher != r { assert WatchOk(s, w); }
    }
    forall w | w in s'.fired ensures FiredOk(s', w) {
      assert FiredOk(s, w);
    }
  }

  /** A request that is not waiting has no notification under way, and its watches are on dead nodes. */
  lemma OwnWatches(s: State, r: Req)
    requires Inv(s) && r in s.reqs && !s.reqs[r].phase.Waiting?
    ensures forall w :: w in s.watches && w.watcher == r ==> WatchOk(s, w) && w.target !in s.live
    ensures forall w :: w in s.fired ==> w.watcher != r
  {
    forall w | w in s.watches && w.watcher == r ensures WatchOk(s, w) && w.target !in s.live { assert WatchOk(s, w); }
    forall w | w in s.fired ensures w.watcher != r { assert FiredOk(s, w); }
  }

  lemma ScanRequest(s: State, r: Req, children: seq<Req>)
    requires Enabled(s, Scan(r, children)) && RequestOk(s, r)
    ensures RequestOk(DoScan(s, r, children), r)
  {
    var s' := DoScan(s, r, children);
    var before := LocksBefore(r, children);
    assert forall t :: t in before <==> t in s.live && Blocks(t, r);
    if before != [] {
      assert before[0] in before;
      assert s'.reqs[r].tried - {before[0]} == s.reqs[r].tried;
    }
  }

  lemma ScanKeepsInv(s: State, r: Req, children: seq<Req>)
    requires Inv(s) && Enabled(s, Scan(r, children))
    ensures Inv(DoScan(s, r, children))
  {
    var s' := DoScan(s, r, children);
    assert RequestOk(s, r);
    ScanRequest(s, r, children);
    OwnWatches(s, r);
    LocalStepKeepsInv(s, s', r, s'.reqs[r]);
  }

  lemma CheckRequest(s: State, r: Req)
    requires Enabled(s, Check(r)) && RequestOk(s, r)
    ensures RequestOk(DoCheck(s, r), r)
  {
  }

  lemma CheckKeepsInv(s: State, r: Req)
    requires Inv(s) && Enabled(s, Check(r))
    ensures Inv(DoCheck(s, r))
  {
    var s' := DoCheck(s, r);
    assert RequestOk(s, r);
    CheckRequest(s, r);
    OwnWatches(s, r);
    LocalStepKeepsInv(s, s', r, s'.reqs[r]);
  }

  lemma DeliverKeepsInv(s: State, w: Watch)
    requires Inv(s) && Enabled(s, Deliver(w))
    ensures Inv(Apply(s, Deliver(w)))
  {
    var s' := Apply(s, Deliver(w));
    var r := w.watcher;
    assert RequestOk(s, r) && FiredOk(s, w);
    forall v | v in s.watches && v.watcher == r ensures WatchOk(s', v) { assert WatchOk(s, v); }
    forall v | v in s'.fired ensures v.watcher != r { assert FiredOk(s, v); }
    LocalStepKeepsInv(s, s', r, s'.reqs[r]);
  }

  lemma GrantKeepsInv(s: State, r: Req)
    requires Inv(s) && Enabled(s, Grant(r))
    ensures Inv(Apply(s, Grant(r)))
  {
    var s' := Apply(s, Grant(r));
    assert RequestOk(s, r);
    OwnWatches(s, r);
    LocalStepKeepsInv(s, s', r, s'.reqs[r]);
  }

  /** Nodes disappear: their watchers are notified, nobody else is affected. */
  lemma DeletionKeepsOthers(s: State, s': State, gone: set<Req>, x: Req)
    requires x in s.reqs && RequestOk(s, x) && x in s'.reqs && x !in gone
    requires s'.reqs[x] == s.reqs[x] && s'.reqs.Keys == s.reqs.Keys && s'.next == s.next && s'.live == s.live - gone
    requires forall t :: Watch(x, t) in s'.watches <==> Watch(x, t) in s.watches && t !in gone
    requires forall t :: Watch(x, t) in s'.fired <==> Watch(x, t) in s.fired || (Watch(x, t) in s.watches && t in gone)
    requires s.reqs[x].session in s'.dead ==> s.reqs[x].session in s.dead || x !in s.live
    ensures RequestOk(s', x)
  {
  }

  lemma ReleaseKeepsInv(s: State, r: Req)
    requires Inv(s) && Enabled(s, Release(r))
    ensures Inv(Apply(s, Release(r)))
  {
    var s' := Apply(s, Release(r));
    assert RequestOk(s, r);
    assert s'.reqs.Keys == s.reqs.Keys;
    forall x | x in s'.reqs ensures RequestOk(s', x) {
      assert RequestOk(s, x);
      if x != r { DeletionKeepsOthers(s, s', {r}, x); }
    }
    forall w | w in s'.watches ensures WatchOk(s', w) { assert WatchOk(s, w); }
    forall w | w in s'.fired ensures FiredOk(s', w) {
      if w in s.fired { assert FiredOk(s, w); } else { assert WatchOk(s, w); assert RequestOk(s, w.watcher); }
    }
  }

  lemma CrashRequest(s: State, session: nat, x: Req)
    requires x in s.reqs && RequestOk(s, x)
    ensures x in DoCrash(s, session).reqs && RequestOk(DoCrash(s, session), x)
  {
    var s' := DoCrash(s, session);
    var gone := set r | r in s.live && r in s.reqs && s.reqs[r].session == session;
    assert s'.reqs.Keys == s.reqs.Keys;
    if x !in gone { DeletionKeepsOthers(s, s', gone, x); }
  }

  lemma CrashKeepsInv(s: State, session: nat)
    requires Inv(s) && Enabled(s, Crash(session))
    ensures Inv(DoCrash(s, session))
  {
    var s' := DoCrash(s, session);
    forall x | x in s'.reqs ensures RequestOk(s', x) {
      assert RequestOk(s, x);
      CrashRequest(s, session, x);
    }
    forall w | w in s'.watches ensures WatchOk(s', w) { assert WatchOk(s, w); }
    forall w | w in s'.fired ensures FiredOk(s', w) {
      if w in s.fired { assert FiredOk(s, w); } else { assert WatchOk(s, w); assert RequestOk(s, w.watcher); }
    }
  }

  lemma StepKeepsInv(s: State, a: Action)
    requires Inv(s) && Enabled(s, a)
    ensures Inv(Apply(s, a))
  {
    match a
    case Create(session, dir, kind, idx) => CreateKeepsInv(s, session, dir, kind, idx);
    case Scan(r, children) => ScanKeepsInv(s, r, children);
    case Check(r) => CheckKeepsInv(s, r);
    case Deliver(w) => DeliverKeepsInv(s, w);
    case Grant(r) => GrantKeepsInv(s, r);
    case Release(r) => ReleaseKeepsInv(s, r);
    case Crash(session) => CrashKeepsInv(s, session);
  }

  lemma {:induction false} RunKeepsInv(s: State, acts: seq<Action>)
    requires Inv(s) && IsRun(s, acts)
    ensures Inv(After(s, acts))
    decreases |acts|
  {
    if acts != [] {
      StepKeepsInv(s, acts[0]);
      RunKeepsInv(Apply(s, acts[0]), acts[1..]);
    }
  }
}
