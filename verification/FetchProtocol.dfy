/** The fetch protocol of `DownloadManager`, composed with the lock protocol.

    A run works on a list of fetches.  Each fetch acquires the write lock of its source, creates a
    status node, watches it, starts a job and waits for a final status.  Every call to ZooKeeper is
    one step.  The thread that starts a fetch and the callback thread of its process run concurrently;
    the callbacks of one fetch run one at a time.  Fetcher jobs write final results without a version,
    cancellation replaces a non-final status only.  An exception in `on_done` or in the cleanup after it
    leaves the handler before the lock is released. */
module FetchProtocol {
  import opened Options
  import opened FetchStates
  import L = LockProtocol

  datatype NodePath = NodePath(text: string)

  datatype Spec = Spec(session: nat, dir: L.Dir, path: NodePath, content: Content)

  /** One run of `__handle_node_state`. */
  datatype Handler =
    | Idle
    | Reading      // about to get the node and set the watch
    | Final        // read a final result and updated the content; about to delete the node
    | Deleted      // about to call on_done
    | Reported     // about to clean up and release the lock

  /** Where `on_content_locked` stands. */
  datatype Start =
    | Queued                // waiting for the lock
    | Estimating
    | EstFailed             // about to call on_done
    | EstReported           // about to release the lock
    | Ended                 // after a failed estimate
    | Creating              // about to create the status node
    | First(h: Handler)     // the first run of the handler
    | Dispatching           // about to estimate again and start the job
    | Running
    | Raised                // an exception left the function

  /** `armed` watches are registered for the fetch, `changed` notifications wait for delivery; `aborted` says
      that an exception prevented the release. */
  datatype Fetch = Fetch(
    spec: Spec, req: L.Req, start: Start, callback: Handler, armed: nat, changed: nat,
    dispatched: bool, content: Content, doneCalls: nat, releaseCalls: nat, aborted: bool)

  datatype StatusNode = StatusNode(owner: nat, result: FetcherResult)

  datatype State = State(lock: L.State, fetches: map<nat, Fetch>, nodes: map<NodePath, StatusNode>)

  const Init := State(L.Init, map[], map[])

  datatype Estimated = Size(info: SizeInfo) | EstimateError(message: string)

  datatype Action =
    | LockStep(a: L.Action)
    | Request(i: nat, idx: nat)
    | Granted(i: nat)
    | Estimate(i: nat, result: Estimated)
    | ReportFailure(i: nat)
    | ReleaseFailure(i: nat)
    | CreateNode(i: nat)
    | FirstStep(i: nat)
    | Dispatch(i: nat, size: Option<SizeInfo>, ok: bool)
    | Notify(i: nat)
    | CallbackStep(i: nat)
    | AbortStart(i: nat)          // on_done or cleanup raises in the starting thread
    | AbortCallback(i: nat)       // or in the callback thread
    | JobWrite(i: nat, res: FetcherResult)
    | CancelWrite(path: NodePath)
    | Crash(session: nat)

  /** The fetch exists and its process runs. */
  predicate Up(s: State, i: nat) {
    i in s.fetches && s.fetches[i].spec.session !in s.lock.dead
  }

  predicate Starting(s: State, i: nat, p: Start) {
    Up(s, i) && s.fetches[i].start == p
  }

  predicate IsFetchRequest(s: State, r: L.Req) {
    exists i :: i in s.fetches && s.fetches[i].req == r
  }

  predicate Enabled(specs: seq<Spec>, s: State, a: Action) {
    match a
    case LockStep(a) =>
      L.Enabled(s.lock, a) && !a.Crash? && (a.Grant? || a.Release? ==> !IsFetchRequest(s, a.r))
    case Request(i, idx) =>
      i < |specs| && i !in s.fetches && L.Enabled(s.lock, L.Create(specs[i].session, specs[i].dir, L.Write, idx))
    case Granted(i) => Starting(s, i, Queued) && L.Enabled(s.lock, L.Grant(s.fetches[i].req))
    case Estimate(i, _) => Starting(s, i, Estimating)
    case ReportFailure(i) => Starting(s, i, EstFailed)
    case ReleaseFailure(i) => Starting(s, i, EstReported)
    case CreateNode(i) => Starting(s, i, Creating)
    case FirstStep(i) => Up(s, i) && s.fetches[i].start.First?
    case Dispatch(i, _, _) => Starting(s, i, Dispatching)
    case Notify(i) => Up(s, i) && s.fetches[i].callback == Idle && s.fetches[i].changed > 0
    case CallbackStep(i) => Up(s, i) && s.fetches[i].callback != Idle
    case AbortStart(i) =>
      Starting(s, i, EstFailed) || Starting(s, i, First(Deleted)) || Starting(s, i, First(Reported))
    case AbortCallback(i) => Up(s, i) && (s.fetches[i].callback == Deleted || s.fetches[i].callback == Reported)
    case JobWrite(i, res) =>
      i in s.fetches && s.fetches[i].dispatched && res.status.Final() && s.fetches[i].spec.path in s.nodes
    case CancelWrite(path) => path in s.nodes && !s.nodes[path].result.status.Final()
    case Crash(session) => L.Enabled(s.lock, L.Crash(session))
  }

  // ---------------------------------------------------------------- effects

  function Set(s: State, i: nat, f: Fetch): State {
    s.(fetches := s.fetches[i := f])
  }

  /** A write to a node turns every watch on its path into a notification. */
  function Fire(fs: map<nat, Fetch>, path: NodePath): map<nat, Fetch> {
    map k | k in fs :: if fs[k].spec.path == path
                       then fs[k].(changed := fs[k].changed + fs[k].armed, armed := 0) else fs[k]
  }

  /** A deletion uses the watches up; the callback ignores the event. */
  function Unarm(fs: map<nat, Fetch>, paths: set<NodePath>): map<nat, Fetch> {
    map k | k in fs :: if fs[k].spec.path in paths then fs[k].(armed := 0) else fs[k]
  }

  function WriteNode(s: State, path: NodePath, res: FetcherResult): State
    requires path in s.nodes
  {
    s.(nodes := s.nodes[path := s.nodes[path].(result := res)], fetches := Fire(s.fetches, path))
  }

  /** `lock.release()`: deleting a lock node that is gone raises NoNodeError. */
  function ReleaseLock(s: State, i: nat): State
    requires i in s.fetches
  {
    var f := s.fetches[i];
    var s' := Set(s, i, f.(releaseCalls := f.releaseCalls + 1));
    if L.Enabled(s.lock, L.Release(f.req)) then s'.(lock := L.Apply(s.lock, L.Release(f.req))) else s'
  }

  datatype Outcome = Goes(h: Handler) | Returns | Raises

  /** What the next step of a handler does to the state; `HandlerOutcome` says where it stands then. */
  function HandlerEffect(s: State, i: nat, h: Handler): State
    requires i in s.fetches
  {
    var f := s.fetches[i];
    var path := f.spec.path;
    match h
    case Idle => s
    case Reading =>
      if path !in s.nodes then s
      else if s.nodes[path].result.status.Final()
      then Set(s, i, f.(armed := f.armed + 1, content := Update(s.nodes[path].result, f.content)))
      else Set(s, i, f.(armed := f.armed + 1))
    case Final =>
      s.(nodes := s.nodes - {path}, fetches := if path in s.nodes then Unarm(s.fetches, {path}) else s.fetches)
    case Deleted => Set(s, i, f.(doneCalls := f.doneCalls + 1))
    case Reported => ReleaseLock(s, i)
  }

  function HandlerOutcome(s: State, i: nat, h: Handler): Outcome
    requires i in s.fetches
  {
    var path := s.fetches[i].spec.path;
    match h
    case Idle => Returns
    case Reading =>
      if path !in s.nodes then Raises
      else if s.nodes[path].result.status.Final() then Goes(Final) else Returns
    case Final => if path in s.nodes then Goes(Deleted) else Raises
    case Deleted => Goes(Reported)
    case Reported => if L.Enabled(s.lock, L.Release(s.fetches[i].req)) then Returns else Raises
  }

  function EstimateFailure(f: Fetch, message: string): Fetch {
    f.(start := EstFailed, content := Update(FetcherResult(FAILED, None, Some(message)), f.content))
  }

  function Sized(f: Fetch, info: SizeInfo): Fetch {
    f.(content := f.content.(sizeInfo := Some(info)))
  }

  /** An exception ends the handler; if `on_done` raised it, the call is counted. */
  function Aborted(f: Fetch, inDone: bool): Fetch {
    f.(aborted := true, doneCalls := f.doneCalls + if inDone then 1 else 0)
  }

  function DoFirst(s: State, i: nat): State
    requires i in s.fetches && s.fetches[i].start.First?
  {
    var h := s.fetches[i].start.h;
    var s' := HandlerEffect(s, i, h);
    var start := match HandlerOutcome(s, i, h)
                 case Goes(h') => First(h')
                 case Returns => Dispatching
                 case Raises => Raised;
    Set(s', i, s'.fetches[i].(start := start))
  }

  function DoCallback(s: State, i: nat): State
    requires i in s.fetches
  {
    var h := s.fetches[i].callback;
    var s' := HandlerEffect(s, i, h);
    var outcome := HandlerOutcome(s, i, h);
    Set(s', i, s'.fetches[i].(callback := if outcome.Goes? then outcome.h else Idle))
  }

  /** A process dies: its locks and its status nodes vanish together. */
  function DoCrash(s: State, session: nat): State
    requires L.Enabled(s.lock, L.Crash(session))
  {
    var gone := set p | p in s.nodes && s.nodes[p].owner in s.fetches
                        && s.fetches[s.nodes[p].owner].spec.session == session;
    State(L.Apply(s.lock, L.Crash(session)), Unarm(s.fetches, gone), s.nodes - gone)
  }

  function Apply(specs: seq<Spec>, s: State, a: Action): State
    requires Enabled(specs, s, a)
  {
    match a
    case LockStep(a) => s.(lock := L.Apply(s.lock, a))
    case Request(i, idx) =>
      var create := L.Create(specs[i].session, specs[i].dir, L.Write, idx);
      var r := L.Req(specs[i].dir, L.Write, idx);
      Set(s, i, Fetch(specs[i], r, Queued, Idle, 0, 0, false, specs[i].content, 0, 0, false))
        .(lock := L.Apply(s.lock, create))
    case Granted(i) =>
      Set(s, i, s.fetches[i].(start := Estimating)).(lock := L.Apply(s.lock, L.Grant(s.fetches[i].req)))
    case Estimate(i, result) =>
      Set(s, i, match result
                case Size(info) => Sized(s.fetches[i], info).(start := Creating)
                case EstimateError(message) => EstimateFailure(s.fetches[i], message))
    case ReportFailure(i) =>
      Set(s, i, s.fetches[i].(start := EstReported, doneCalls := s.fetches[i].doneCalls + 1))
    case ReleaseFailure(i) =>
      var s' := ReleaseLock(s, i);
      Set(s', i, s'.fetches[i].(start := Ended))
    case CreateNode(i) =>
      if s.fetches[i].spec.path in s.nodes
      then Set(s, i, s.fetches[i].(start := Raised))
      else Set(s, i, s.fetches[i].(start := First(Reading)))
             .(nodes := s.nodes[s.fetches[i].spec.path := StatusNode(i, InitialData)])
    case FirstStep(i) => DoFirst(s, i)
    case Dispatch(i, size, ok) =>
      Set(s, i, match size
                case None => s.fetches[i].(start := Raised)
                case Some(info) =>
                  Sized(s.fetches[i], info).(start := if ok then Running else Raised, dispatched := ok))
    case Notify(i) => Set(s, i, s.fetches[i].(callback := Reading, changed := s.fetches[i].changed - 1))
    case CallbackStep(i) => DoCallback(s, i)
    case AbortStart(i) => Set(s, i, Aborted(s.fetches[i], s.fetches[i].start != First(Reported)).(start := Raised))
    case AbortCallback(i) => Set(s, i, Aborted(s.fetches[i], s.fetches[i].callback == Deleted).(callback := Idle))
    case JobWrite(i, res) => WriteNode(s, s.fetches[i].spec.path, res)
    case CancelWrite(path) => WriteNode(s, path, s.nodes[path].result.(status := CANCELED))
    case Crash(session) => DoCrash(s, session)
  }

  /** The fetch whose `on_done` is called in this step. */
  function Reports(s: State, a: Action): Option<nat> {
    match a
    case ReportFailure(i) => Some(i)
    case FirstStep(i) => if i in s.fetches && s.fetches[i].start == First(Deleted) then Some(i) else None
    case CallbackStep(i) => if i in s.fetches && s.fetches[i].callback == Deleted then Some(i) else None
    case AbortStart(i) => if i in s.fetches && s.fetches[i].start != First(Reported) then Some(i) else None
    case AbortCallback(i) => if i in s.fetches && s.fetches[i].callback == Deleted then Some(i) else None
    case _ => None
  }

  predicate IsRun(specs: seq<Spec>, s: State, acts: seq<Action>)
    decreases |acts|
  {
    acts != [] ==> Enabled(specs, s, acts[0]) && IsRun(specs, Apply(specs, s, acts[0]), acts[1..])
  }

  function After(specs: seq<Spec>, s: State, acts: seq<Action>): State
    requires IsRun(specs, s, acts)
    decreases |acts|
  {
    if acts == [] then s else After(specs, Apply(specs, s, acts[0]), acts[1..])
  }

  // ---------------------------------------------------------------- the invariant that needs only the lock

  predicate Created(p: Start) {
    p.First? || p == Dispatching || p == Running || p == Raised
  }

  predicate OwnsNode(s: State, i: nat) {
    i in s.fetches && s.fetches[i].spec.path in s.nodes && s.nodes[s.fetches[i].spec.path].owner == i
  }

  predicate PastDeletion(f: Fetch) {
    f.callback == Deleted || f.callback == Reported || f.start == First(Deleted) || f.start == First(Reported)
    || f.releaseCalls > 0
  }

  predicate FetchOk(s: State, i: nat)
    requires i in s.fetches
  {
    var f := s.fetches[i];
    && f.req.kind == L.Write && f.req.dir == f.spec.dir && f.req in s.lock.reqs
    && s.lock.reqs[f.req].session == f.spec.session
    && (f.start == Queued ==> !L.InPhase(s.lock, f.req, L.Holding) && !L.InPhase(s.lock, f.req, L.Released))
    && (Up(s, i) && f.start == Queued ==> f.req in s.lock.live)
    && (Up(s, i) && f.start != Queued ==>
          L.InPhase(s.lock, f.req, if f.releaseCalls == 0 then L.Holding else L.Released))
    && (!Created(f.start) ==> f.callback == Idle && f.armed == 0 && f.changed == 0 && !OwnsNode(s, i))
    && (f.start == Queued ==> f.releaseCalls == 0 && f.doneCalls == 0)
    && (f.start == Creating || f.start == Estimating || f.start == EstFailed || f.start == EstReported ==>
        f.releaseCalls == 0)
    && (PastDeletion(f) ==> !OwnsNode(s, i))
  }

  predicate NodeOk(s: State, p: NodePath)
    requires p in s.nodes
  {
    var o := s.nodes[p].owner;
    Up(s, o) && s.fetches[o].spec.path == p && s.fetches[o].releaseCalls == 0 && Created(s.fetches[o].start)
  }

  predicate SameRequest(s: State, i: nat, j: nat)
    requires i in s.fetches && j in s.fetches
  {
    s.fetches[i].req == s.fetches[j].req
  }

  predicate Inv(s: State) {
    && L.Inv(s.lock)
    && (forall i {:trigger FetchOk(s, i)} :: i in s.fetches ==> FetchOk(s, i))
    && (forall p {:trigger NodeOk(s, p)} :: p in s.nodes ==> NodeOk(s, p))
    && (forall i, j {:trigger SameRequest(s, i, j)} ::
          i in s.fetches && j in s.fetches && SameRequest(s, i, j) ==> i == j)
  }
}
