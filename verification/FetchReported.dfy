/** What a fetch reports: a result written to its status node in this run, or the failure of its estimate. */
module FetchReported {
  import opened Options
  import opened FetchStates
  import opened FetchProtocol
  import opened FetchSafety
  import opened FetchOnce
  import L = LockProtocol

  /** Content `c` is `c0` after the result: its status and type; after DONE the destination and the message of
      `c0`, otherwise the message of the result and no destination.  The size is filled in independently. */
  predicate Reflects(c0: Content, c: Content, res: FetcherResult) {
    && c.status == Some(res.status) && c.ftype == res.ftype
    && (res.status == DONE ==> c.dst == c0.dst && c.message == c0.message)
    && (res.status != DONE ==> c.dst == None && c.message == res.message)
    && c.src == c0.src && c.path == c0.path && c.id == c0.id && c.md5 == c0.md5
  }

  /** The fetch reads its node in this step. */
  predicate Reads(s: State, a: Action, i: nat) {
    && Up(s, i) && s.fetches[i].spec.path in s.nodes
    && ((a == FirstStep(i) && s.fetches[i].start == First(Reading)) ||
        (a == CallbackStep(i) && s.fetches[i].callback == Reading))
  }

  /** Reading a final node carries its result over to the content; reading another one changes nothing. */
  lemma ReadCarriesOver(specs: seq<Spec>, s: State, a: Action, i: nat)
    requires Reads(s, a, i)
    ensures Enabled(specs, s, a)
    ensures var res, f, f' := s.nodes[s.fetches[i].spec.path].result, s.fetches[i], Apply(specs, s, a).fetches[i];
            && f'.content.sizeInfo == f.content.sizeInfo
            && (res.status.Final() ==> Reflects(f.content, f'.content, res))
            && (!res.status.Final() ==> f'.content == f.content)
  {
  }

  /** No other step touches a content, except that an estimate fills in the size or fails. */
  lemma OnlyReadsChange(specs: seq<Spec>, s: State, a: Action, i: nat)
    requires Enabled(specs, s, a) && i in s.fetches && !Reads(s, a, i)
    ensures i in Apply(specs, s, a).fetches
    ensures var c, c' := s.fetches[i].content, Apply(specs, s, a).fetches[i].content;
            if a.Estimate? && a.i == i && a.result.EstimateError?
            then Reflects(c, c', FetcherResult(FAILED, None, Some(a.result.message))) && c'.sizeInfo == c.sizeInfo
            else c' == c.(sizeInfo := if Measures(a, i).Some? then Measures(a, i) else c.sizeInfo)
  {
    if a.FirstStep? {
      HandlerKeeps(s, a.i, s.fetches[a.i].start.h, i);
    } else if a.CallbackStep? {
      HandlerKeeps(s, a.i, s.fetches[a.i].callback, i);
    }
  }

  /** The size that a step finds for fetch `i`. */
  function Measures(a: Action, i: nat): Option<SizeInfo> {
    if a.Estimate? && a.i == i && a.result.Size? then Some(a.result.info)
    else if a.Dispatch? && a.i == i then a.size
    else None
  }

  lemma HandlerKeeps(s: State, i: nat, h: Handler, k: nat)
    requires i in s.fetches && k in s.fetches && !(k == i && h == Reading && s.fetches[i].spec.path in s.nodes)
    ensures k in HandlerEffect(s, i, h).fetches && HandlerEffect(s, i, h).fetches[k].content == s.fetches[k].content
  {
  }

  // ---------------------------------------------------------------- where a result comes from

  /** The action writes this result to the node of fetch `i`; a cancellation finds the initial data there. */
  predicate Writes(spec: Spec, i: nat, a: Action, res: FetcherResult) {
    || a == JobWrite(i, res)
    || (a == CancelWrite(spec.path) && res == FetcherResult(CANCELED, None, None))
  }

  predicate Fails(i: nat, a: Action, res: FetcherResult) {
    && a.Estimate? && a.i == i && a.result.EstimateError?
    && res == FetcherResult(FAILED, None, Some(a.result.message))
  }

  /** The content reflects a result that the action wrote to the node, or the failure of the estimate. */
  ghost predicate Tells(spec: Spec, i: nat, a: Action, c: Content) {
    exists res: FetcherResult ::
      Reflects(spec.content, c, res) && res.status.Final() && (Writes(spec, i, a, res) || Fails(i, a, res))
  }

  ghost predicate Told(spec: Spec, i: nat, acts: seq<Action>, c: Content) {
    exists a :: a in acts && Tells(spec, i, a, c)
  }

  ghost predicate Written(spec: Spec, i: nat, acts: seq<Action>, res: FetcherResult) {
    res.status.Final() && exists a :: a in acts && Writes(spec, i, a, res)
  }

  /** The content of the fetch has been given its final status. */
  predicate Touched(f: Fetch) {
    || f.start == EstFailed || f.start == EstReported || f.start == Ended
    || (f.start.First? && f.start.h != Reading)
    || f.callback == Final || f.callback == Deleted || f.callback == Reported || f.doneCalls > 0
  }

  ghost predicate TellsOk(s: State, acts: seq<Action>, i: nat)
    requires i in s.fetches
  {
    var f := s.fetches[i];
    && (Touched(f) ==> Told(f.spec, i, acts, f.content))
    && (f.spec.path in s.nodes ==>
          var res := s.nodes[f.spec.path].result;
          res == FetcherResult(PENDING, None, None) || Written(f.spec, i, acts, res))
  }

  lemma HandlerNodes(s: State, i: nat, h: Handler, p: NodePath)
    requires i in s.fetches && p in HandlerEffect(s, i, h).nodes
    ensures p in s.nodes && HandlerEffect(s, i, h).nodes[p] == s.nodes[p]
  {
  }

  /** What a node holds after a step. */
  lemma NodeAfter(specs: seq<Spec>, s: State, a: Action, p: NodePath)
    requires Enabled(specs, s, a) && p in Apply(specs, s, a).nodes
    ensures var res := Apply(specs, s, a).nodes[p].result;
            || res == FetcherResult(PENDING, None, None)
            || (p in s.nodes && res == s.nodes[p].result)
            || (a.JobWrite? && s.fetches[a.i].spec.path == p && res == a.res && res.status.Final())
            || (a == CancelWrite(p) && !s.nodes[p].result.status.Final() &&
                res == s.nodes[p].result.(status := CANCELED))
  {
    if a.FirstStep? {
      HandlerNodes(s, a.i, s.fetches[a.i].start.h, p);
    } else if a.CallbackStep? {
      HandlerNodes(s, a.i, s.fetches[a.i].callback, p);
    }
  }

  lemma NodeTold(specs: seq<Spec>, s: State, acts: seq<Action>, a: Action, i: nat)
    requires SpecsOk(specs, s) && Enabled(specs, s, a) && Alone(specs, i) && i in s.fetches && TellsOk(s, acts, i)
    requires s.fetches[i].spec.path in Apply(specs, s, a).nodes
    ensures var res := Apply(specs, s, a).nodes[s.fetches[i].spec.path].result;
            res == FetcherResult(PENDING, None, None) || Written(s.fetches[i].spec, i, acts + [a], res)
  {
    var spec := s.fetches[i].spec;
    NodeAfter(specs, s, a, spec.path);
    if a.JobWrite? && a.i != i { OtherPath(specs, s, a.i, i); }
    var res := Apply(specs, s, a).nodes[spec.path].result;
    if Written(spec, i, acts, res) {
      var b :| b in acts && Writes(spec, i, b, res);
      assert b in acts + [a];
    } else if Writes(spec, i, a, res) {
      assert a in acts + [a];
    }
  }

  /** A content is given its final status by a read of a final node or by a failed estimate. */
  lemma TouchedBy(specs: seq<Spec>, s: State, a: Action, i: nat)
    requires Enabled(specs, s, a) && i in s.fetches && i in Apply(specs, s, a).fetches
    requires !Touched(s.fetches[i]) && Touched(Apply(specs, s, a).fetches[i])
    ensures || (Reads(s, a, i) && s.nodes[s.fetches[i].spec.path].result.status.Final())
            || (a.Estimate? && a.i == i && a.result.EstimateError?)
  {
    if a.FirstStep? {
      TouchedByFirst(specs, s, i, a.i);
    } else if a.CallbackStep? {
      TouchedByCallback(specs, s, i, a.i);
    }
  }

  lemma TouchedByFirst(specs: seq<Spec>, s: State, i: nat, k: nat)
    requires Enabled(specs, s, FirstStep(k)) && i in s.fetches && i in DoFirst(s, k).fetches
    requires !Touched(s.fetches[i]) && Touched(DoFirst(s, k).fetches[i])
    ensures Reads(s, FirstStep(k), i) && s.nodes[s.fetches[i].spec.path].result.status.Final()
  {
  }

  lemma TouchedByCallback(specs: seq<Spec>, s: State, i: nat, k: nat)
    requires Enabled(specs, s, CallbackStep(k)) && i in s.fetches && i in DoCallback(s, k).fetches
    requires !Touched(s.fetches[i]) && Touched(DoCallback(s, k).fetches[i])
    ensures Reads(s, CallbackStep(k), i) && s.nodes[s.fetches[i].spec.path].result.status.Final()
  {
  }

  lemma ContentTold(specs: seq<Spec>, s: State, acts: seq<Action>, a: Action, i: nat)
    requires OnceInv(specs, s) && Enabled(specs, s, a) && Alone(specs, i) && i in s.fetches && TellsOk(s, acts, i)
    requires i in Apply(specs, s, a).fetches && Touched(Apply(specs, s, a).fetches[i])
    ensures Told(s.fetches[i].spec, i, acts + [a], Apply(specs, s, a).fetches[i].content)
  {
    var spec, c, c' := s.fetches[i].spec, s.fetches[i].content, Apply(specs, s, a).fetches[i].content;
    assert OnceOk(s, i);
    if Touched(s.fetches[i]) {
      ContentStays(specs, s, a, i);
      var b :| b in acts && Tells(spec, i, b, c);
      var res :| Reflects(spec.content, c, res) && res.status.Final() && (Writes(spec, i, b, res) || Fails(i, b, res));
      assert Reflects(spec.content, c', res) && b in acts + [a];
    } else {
      TouchedBy(specs, s, a, i);
      if Reads(s, a, i) {
        ReadTold(specs, s, acts, a, i);
      } else {
        OnlyReadsChange(specs, s, a, i);
        assert a in acts + [a] && Fails(i, a, FetcherResult(FAILED, None, Some(a.result.message)));
      }
    }
  }

  /** A fetch that has its final status keeps it. */
  lemma ContentStays(specs: seq<Spec>, s: State, a: Action, i: nat)
    requires OnceInv(specs, s) && Enabled(specs, s, a) && Alone(specs, i) && i in s.fetches && Touched(s.fetches[i])
    ensures i in Apply(specs, s, a).fetches
    ensures var c, c' := s.fetches[i].content, Apply(specs, s, a).fetches[i].content;
            c' == c.(sizeInfo := c'.sizeInfo)
  {
    assert OnceOk(s, i) && FetchOk(s, i);
    assert !Reads(s, a, i);
    OnlyReadsChange(specs, s, a, i);
  }

  lemma ReadTold(specs: seq<Spec>, s: State, acts: seq<Action>, a: Action, i: nat)
    requires OnceInv(specs, s) && Alone(specs, i) && i in s.fetches && TellsOk(s, acts, i) && Reads(s, a, i)
    requires !Touched(s.fetches[i]) && s.nodes[s.fetches[i].spec.path].result.status.Final()
    ensures Enabled(specs, s, a)
    ensures Told(s.fetches[i].spec, i, acts + [a], Apply(specs, s, a).fetches[i].content)
  {
    var spec := s.fetches[i].spec;
    var res := s.nodes[spec.path].result;
    assert OnceOk(s, i) && Fresh(s.fetches[i]);
    ReadCarriesOver(specs, s, a, i);
    var b :| b in acts && Writes(spec, i, b, res);
    assert Reflects(spec.content, Apply(specs, s, a).fetches[i].content, res) && b in acts + [a];
  }

  // ---------------------------------------------------------------- every run

  ghost predicate ToldInv(specs: seq<Spec>, s: State, acts: seq<Action>) {
    && OnceInv(specs, s)
    && forall i {:trigger TellsOk(s, acts, i)} :: i in s.fetches && Alone(specs, i) ==> TellsOk(s, acts, i)
  }

  /** A new fetch finds no node at its path. */
  lemma RequestTold(specs: seq<Spec>, s: State, acts: seq<Action>, i: nat, idx: nat)
    requires OnceInv(specs, s) && Enabled(specs, s, Request(i, idx)) && Alone(specs, i)
    ensures i in Apply(specs, s, Request(i, idx)).fetches && TellsOk(Apply(specs, s, Request(i, idx)), acts, i)
  {
    assert specs[i].path in s.nodes ==> NodeOk(s, specs[i].path);
  }

  lemma StepKeepsTold(specs: seq<Spec>, s: State, acts: seq<Action>, a: Action)
    requires ToldInv(specs, s, acts) && Enabled(specs, s, a)
    ensures ToldInv(specs, Apply(specs, s, a), acts + [a])
  {
    var s' := Apply(specs, s, a);
    StepKeepsOnce(specs, s, a);
    StepFollows(specs, s, a);
    forall i | i in s'.fetches && Alone(specs, i) ensures TellsOk(s', acts + [a], i) {
      if i in s.fetches {
        assert TellsOk(s, acts, i) && s'.fetches[i].spec == s.fetches[i].spec;
        if Touched(s'.fetches[i]) { ContentTold(specs, s, acts, a, i); }
        if s.fetches[i].spec.path in s'.nodes { NodeTold(specs, s, acts, a, i); }
      } else {
        RequestTold(specs, s, acts + [a], i, a.idx);
      }
    }
  }

  lemma {:induction false} RunKeepsTold(specs: seq<Spec>, s: State, before: seq<Action>, acts: seq<Action>)
    requires ToldInv(specs, s, before) && IsRun(specs, s, acts)
    ensures ToldInv(specs, After(specs, s, acts), before + acts)
    decreases |acts|
  {
    if acts == [] {
      assert before + acts == before;
    } else {
      StepKeepsTold(specs, s, before, acts[0]);
      RunKeepsTold(specs, Apply(specs, s, acts[0]), before + [acts[0]], acts[1..]);
      assert before + [acts[0]] + acts[1..] == before + acts;
    }
  }

  /** A fetch with a status node of its own reports what was written to that node in this run, or that its
      estimate failed: status, type, message and destination are those of the result. */
  lemma ReportsWhatWasWritten(specs: seq<Spec>, acts: seq<Action>, i: nat)
    requires Alone(specs, i) && IsRun(specs, Init, acts)
    requires i in After(specs, Init, acts).fetches && After(specs, Init, acts).fetches[i].doneCalls > 0
    ensures Told(specs[i], i, acts, After(specs, Init, acts).fetches[i].content)
  {
    RunKeepsTold(specs, Init, [], acts);
    assert [] + acts == acts;
    assert TellsOk(After(specs, Init, acts), acts, i);
  }

  // ---------------------------------------------------------------- when a job is started

  /** An exception in the first run of the handler ends the start: its node is gone, or its lock is. */
  lemma ExceptionEndsStart(specs: seq<Spec>, s: State, i: nat)
    requires Up(s, i) && s.fetches[i].start.First?
    requires var f := s.fetches[i];
             || ((f.start.h == Reading || f.start.h == Final) && f.spec.path !in s.nodes)
             || (f.start.h == Reported && !L.InPhase(s.lock, f.req, L.Holding))
    ensures Enabled(specs, s, FirstStep(i)) && Apply(specs, s, FirstStep(i)).fetches[i].start == Raised
  {
  }

  /** The start function has come to its regular end. */
  predicate JobOk(f: Fetch) {
    f.dispatched <==> f.start == Running
  }

  predicate JobsOk(s: State) {
    forall i :: i in s.fetches ==> JobOk(s.fetches[i])
  }

  lemma HandlerKeepsJobs(s: State, i: nat, h: Handler)
    requires i in s.fetches && JobsOk(s)
    ensures i in HandlerEffect(s, i, h).fetches && JobsOk(HandlerEffect(s, i, h))
    ensures HandlerEffect(s, i, h).fetches[i].start == s.fetches[i].start
  {
  }

  lemma StepKeepsJobs(specs: seq<Spec>, s: State, a: Action)
    requires JobsOk(s) && Enabled(specs, s, a)
    ensures JobsOk(Apply(specs, s, a))
  {
    if a.FirstStep? {
      HandlerKeepsJobs(s, a.i, s.fetches[a.i].start.h);
    } else if a.CallbackStep? {
      HandlerKeepsJobs(s, a.i, s.fetches[a.i].callback);
    }
  }

  lemma {:induction false} RunKeepsJobs(specs: seq<Spec>, s: State, acts: seq<Action>)
    requires JobsOk(s) && IsRun(specs, s, acts)
    ensures JobsOk(After(specs, s, acts))
    decreases |acts|
  {
    if acts != [] {
      StepKeepsJobs(specs, s, acts[0]);
      RunKeepsJobs(specs, Apply(specs, s, acts[0]), acts[1..]);
    }
  }

  /** In every run a fetch has a job if and only if its start function came to its regular end. */
  lemma JobIffStarted(specs: seq<Spec>, s: State, i: nat)
    requires Reachable(specs, s) && i in s.fetches
    ensures s.fetches[i].dispatched <==> s.fetches[i].start == Running
  {
    var acts :| IsRun(specs, Init, acts) && After(specs, Init, acts) == s;
    RunKeepsJobs(specs, Init, acts);
  }
}
