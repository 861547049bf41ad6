/** The verdict on an event, traced back to what jobs, cancellations and estimates did in the run, and the
    messages about its tasks. */
module EventReported {
  import opened Options
  import opened FetchStates
  import opened FetchProtocol
  import opened FetchSafety
  import opened FetchOnce
  import opened FetchReported
  import opened EventJoin
  import opened EventOutcome

  /** The action wrote the result to the status node of fetch `i`, or was the estimate that failed with it. */
  predicate Ends(spec: Spec, i: nat, a: Action, res: FetcherResult) {
    res.status.Final() && (Writes(spec, i, a, res) || Fails(i, a, res))
  }

  /** An action of the run ended task `t` with this status, and its content `c` says so. */
  ghost predicate EndedAs(spec: Spec, t: nat, acts: seq<Action>, c: Content, status: FetcherStatus) {
    exists a: Action, res: FetcherResult ::
      a in acts && Ends(spec, t, a, res) && res.status == status && Reflects(spec.content, c, res)
  }

  /** How content `i` came to its status: a task by an action of the run, another content brought it along. */
  ghost predicate HasStatus(ev: Event, specs: seq<Spec>, acts: seq<Action>, s: State, i: nat, status: FetcherStatus)
    requires i < |ev.contents| <= |specs|
  {
    if i in Tasks(ev) then EndedAs(specs[i], i, acts, Value(ev, s, i), status)
    else ev.contents[i].status == Some(status)
  }

  ghost predicate AnyHas(ev: Event, specs: seq<Spec>, acts: seq<Action>, s: State, status: FetcherStatus)
    requires ev.datasets <= |ev.contents| <= |specs|
  {
    exists i :: 0 <= i < ev.datasets && HasStatus(ev, specs, acts, s, i, status)
  }

  /** The action that ended a reported task, and its result. */
  lemma EndOf(ev: Event, specs: seq<Spec>, acts: seq<Action>, t: nat) returns (a: Action, res: FetcherResult)
    requires EventOk(ev, specs) && AllAlone(ev, specs) && t in Tasks(ev)
    requires EventJoin.IsRun(ev, specs, Begin(ev), acts)
    requires !Open(EventJoin.After(ev, specs, Begin(ev), acts).fetch, t)
    ensures a in acts && Ends(specs[t], t, a, res)
    ensures Reflects(specs[t].content, Value(ev, EventJoin.After(ev, specs, Begin(ev), acts).fetch, t), res)
  {
    var s := EventJoin.After(ev, specs, Begin(ev), acts).fetch;
    FetchRun(ev, specs, Begin(ev), acts);
    ReportsWhatWasWritten(specs, acts, t);
    var c := s.fetches[t].content;
    a :| a in acts && Tells(specs[t], t, a, c);
    res :| Reflects(specs[t].content, c, res) && res.status.Final() &&
        (Writes(specs[t], t, a, res) || Fails(t, a, res));
  }

  /** A reported task has exactly the status with which an action of the run ended it. */
  lemma ReportedTaskEnded(ev: Event, specs: seq<Spec>, acts: seq<Action>, t: nat, status: FetcherStatus)
    requires EventOk(ev, specs) && AllAlone(ev, specs) && t in Tasks(ev)
    requires EventJoin.IsRun(ev, specs, Begin(ev), acts)
    requires !Open(EventJoin.After(ev, specs, Begin(ev), acts).fetch, t)
    ensures var c := Value(ev, EventJoin.After(ev, specs, Begin(ev), acts).fetch, t);
            c.status == Some(status) <==> EndedAs(specs[t], t, acts, c, status)
  {
    var a, res := EndOf(ev, specs, acts, t);
  }

  /** When all tasks have reported, each content has a status exactly as the run says. */
  lemma StatusFromRun(ev: Event, specs: seq<Spec>, acts: seq<Action>, i: nat, status: FetcherStatus)
    requires EventOk(ev, specs) && Tasks(ev) != [] && AllAlone(ev, specs) && i < |ev.contents|
    requires EventJoin.IsRun(ev, specs, Begin(ev), acts) && EventJoin.After(ev, specs, Begin(ev), acts).allDone == 1
    ensures var s := EventJoin.After(ev, specs, Begin(ev), acts).fetch;
            Value(ev, s, i).status == Some(status) <==> HasStatus(ev, specs, acts, s, i, status)
  {
    var c := EventJoin.After(ev, specs, Begin(ev), acts);
    ReachesKeepsInv(ev, specs, c);
    if i in Tasks(ev) {
      assert i !in c.pending;
      ReportedTaskEnded(ev, specs, acts, i, status);
    }
  }

  lemma AnyFromRun(ev: Event, specs: seq<Spec>, acts: seq<Action>, status: FetcherStatus)
    requires EventOk(ev, specs) && Tasks(ev) != [] && AllAlone(ev, specs)
    requires EventJoin.IsRun(ev, specs, Begin(ev), acts) && EventJoin.After(ev, specs, Begin(ev), acts).allDone == 1
    ensures var s := EventJoin.After(ev, specs, Begin(ev), acts).fetch;
            SomeStatus(Values(ev, s)[..ev.datasets], status) <==> AnyHas(ev, specs, acts, s, status)
  {
    var s := EventJoin.After(ev, specs, Begin(ev), acts).fetch;
    var cs := Values(ev, s)[..ev.datasets];
    forall i | 0 <= i < ev.datasets ensures cs[i].status == Some(status) <==> HasStatus(ev, specs, acts, s, i, status) {
      StatusFromRun(ev, specs, acts, i, status);
    }
  }

  /** The verdict on an event whose tasks have all reported: aborted as canceled if and only if a data set was
      canceled in this run, as failed if and only if one failed and none was canceled, and forwarded if and only if
      none was, and no data set that needed no fetch came as pending or running. */
  lemma VerdictFromRun(ev: Event, specs: seq<Spec>, acts: seq<Action>)
    requires EventOk(ev, specs) && Tasks(ev) != [] && AllAlone(ev, specs)
    requires EventJoin.IsRun(ev, specs, Begin(ev), acts) && EventJoin.After(ev, specs, Begin(ev), acts).allDone == 1
    ensures var c := EventJoin.After(ev, specs, Begin(ev), acts);
            && (Verdicts(c.sent) == [Aborting(Canceled)] <==> AnyHas(ev, specs, acts, c.fetch, CANCELED))
            && (Verdicts(c.sent) == [Aborting(Failed)] <==>
                AnyHas(ev, specs, acts, c.fetch, FAILED) && !AnyHas(ev, specs, acts, c.fetch, CANCELED))
            && (Verdicts(c.sent) == [Forward] <==>
                forall status: FetcherStatus :: status != DONE ==> !AnyHas(ev, specs, acts, c.fetch, status))
  {
    var c := EventJoin.After(ev, specs, Begin(ev), acts);
    OneOutcome(ev, specs, c);
    VerdictMeaning(Values(ev, c.fetch)[..ev.datasets]);
    forall status: FetcherStatus
      ensures SomeStatus(Values(ev, c.fetch)[..ev.datasets], status) <==> AnyHas(ev, specs, acts, c.fetch, status)
    {
      AnyFromRun(ev, specs, acts, status);
    }
  }

  /** A forwarded event: the job of every data set that was fetched wrote DONE, and the data set has the type the job
      found and the destination it was fetched to. */
  lemma ForwardedIsFetched(ev: Event, specs: seq<Spec>, acts: seq<Action>, t: nat) returns (res: FetcherResult)
    requires EventOk(ev, specs) && Tasks(ev) != [] && AllAlone(ev, specs) && t in Tasks(ev) && t < ev.datasets
    requires EventJoin.IsRun(ev, specs, Begin(ev), acts) && EventJoin.After(ev, specs, Begin(ev), acts).allDone == 1
    requires Verdicts(EventJoin.After(ev, specs, Begin(ev), acts).sent) == [Forward]
    ensures JobWrite(t, res) in acts && res.status == DONE
    ensures var c := Value(ev, EventJoin.After(ev, specs, Begin(ev), acts).fetch, t);
            c.status == Some(DONE) && c.ftype == res.ftype && c.dst == specs[t].content.dst && c.dst.Some?
  {
    var c := EventJoin.After(ev, specs, Begin(ev), acts);
    ReachesKeepsInv(ev, specs, c);
    assert t !in c.pending;
    var a;
    a, res := EndOf(ev, specs, acts, t);
    VerdictFromRun(ev, specs, acts);
    assert HasStatus(ev, specs, acts, c.fetch, t, res.status);
  }

  /** If jobs write nothing but DONE for the data sets, nobody cancels them and no estimate fails, the event is
      forwarded. */
  lemma OnlyDoneForwards(ev: Event, specs: seq<Spec>, acts: seq<Action>)
    requires EventOk(ev, specs) && Tasks(ev) != [] && AllAlone(ev, specs)
    requires EventJoin.IsRun(ev, specs, Begin(ev), acts) && EventJoin.After(ev, specs, Begin(ev), acts).allDone == 1
    requires forall t, a, res :: t in Tasks(ev) && t < ev.datasets && a in acts && Ends(specs[t], t, a, res) ==>
               res.status == DONE
    requires forall i :: 0 <= i < ev.datasets && i !in Tasks(ev) ==> ev.contents[i].status in {None, Some(DONE)}
    ensures Verdicts(EventJoin.After(ev, specs, Begin(ev), acts).sent) == [Forward]
  {
    VerdictFromRun(ev, specs, acts);
  }

  // ---------------------------------------------------------------- messages about the tasks

  function Count(sent: seq<Message>, m: Message): nat {
    if sent == [] then 0 else Count(sent[..|sent| - 1], m) + if sent[|sent| - 1] == m then 1 else 0
  }

  lemma CountAppend(sent: seq<Message>, x: Message, m: Message)
    ensures Count(sent + [x], m) == Count(sent, m) + if x == m then 1 else 0
  {
    assert (sent + [x])[..|sent|] == sent;
  }

  /** Nothing but the verdict is sent at the end, with one more message if the event is forwarded. */
  lemma CountAllDone(sent: seq<Message>, datasets: seq<Content>, m: Message)
    requires !m.Aborting?
    ensures Count(sent + AllDoneMessages(datasets), m) == Count(sent, m) +
            if CollectStatus(datasets) == Succeeded && (m == Forward || m == AllProcessed) then 1 else 0
  {
    var total := CollectStatus(datasets);
    if total == Succeeded {
      CountAppend(sent, Forward, m);
      CountAppend(sent + [Forward], AllProcessed, m);
      assert sent + [Forward, AllProcessed] == sent + [Forward] + [AllProcessed];
    } else if total == Canceled || total == Failed {
      CountAppend(sent, Aborting(total), m);
    } else {
      assert sent + [] == sent;
    }
  }

  /** The last message comes with every forwarding, and only then. */
  predicate ProcessedWithForward(sent: seq<Message>) {
    Count(sent, AllProcessed) == Count(sent, Forward)
  }

  lemma ProcessedAppend(sent: seq<Message>, status: EventStatus)
    requires ProcessedWithForward(sent)
    ensures ProcessedWithForward(sent + [Progress(status)])
  {
    CountAppend(sent, Progress(status), AllProcessed);
    CountAppend(sent, Progress(status), Forward);
  }

  lemma ProcessedAllDone(sent: seq<Message>, datasets: seq<Content>)
    requires ProcessedWithForward(sent)
    ensures ProcessedWithForward(sent + AllDoneMessages(datasets))
  {
    CountAllDone(sent, datasets, AllProcessed);
    CountAllDone(sent, datasets, Forward);
  }

  /** The tasks that have been reported with this status. */
  ghost function ReportedAs(tasks: seq<nat>, s: State, status: FetcherStatus): set<nat> {
    set t | t in tasks && ReportedWith(s, t, status)
  }

  predicate ReportedWith(s: State, t: nat, status: FetcherStatus) {
    t in s.fetches && s.fetches[t].doneCalls > 0 && s.fetches[t].content.status == Some(status)
  }

  /** One message for the event and one for every task started or downloaded, one for every failed and one for
      every canceled task, and no other. */
  ghost function Expected(ev: Event, c: Join, status: EventStatus): nat {
    match status
    case Pending => 1 + c.started + |ReportedAs(Tasks(ev), c.fetch, DONE)|
    case Canceled => |ReportedAs(Tasks(ev), c.fetch, CANCELED)|
    case Failed => |ReportedAs(Tasks(ev), c.fetch, FAILED)|
    case _ => 0
  }

  ghost predicate Announced(ev: Event, c: Join) {
    && ProcessedWithForward(c.sent)
    && forall status: EventStatus :: Count(c.sent, Progress(status)) == Expected(ev, c, status)
  }

  /** What a step means for the reports of the tasks, without the step. */
  ghost predicate Carries(tasks: seq<nat>, s: State, s': State, added: set<nat>, reported: Option<nat>) {
    && Moves(s, s', added, reported)
    && (forall x :: x in added ==> x !in s.fetches && s'.fetches[x].doneCalls == 0)
    && (forall t :: t in tasks && t in s.fetches && (s.fetches[t].doneCalls > 0 || reported == Some(t)) ==>
          s'.fetches[t].content.status == s.fetches[t].content.status)
  }

  lemma StatusCarried(specs: seq<Spec>, s: State, a: Action, t: nat)
    requires OnceInv(specs, s) && Alone(specs, t) && FetchProtocol.Enabled(specs, s, a)
    requires t in s.fetches && (s.fetches[t].doneCalls > 0 || Reports(s, a) == Some(t))
    ensures t in FetchProtocol.Apply(specs, s, a).fetches
    ensures FetchProtocol.Apply(specs, s, a).fetches[t].content.status == s.fetches[t].content.status
  {
    if s.fetches[t].doneCalls > 0 {
      ReportedStays(specs, s, a, t);
    } else {
      OnlyReadsChange(specs, s, a, t);
    }
  }

  lemma StepCarries(specs: seq<Spec>, tasks: seq<nat>, s: State, a: Action, s': State)
    requires OnceInv(specs, s) && FetchProtocol.Enabled(specs, s, a) && s' == FetchProtocol.Apply(specs, s, a)
    requires forall t :: t in tasks ==> Alone(specs, t)
    ensures Carries(tasks, s, s', if a.Request? then {a.i} else {}, Reports(s, a))
  {
    StepMoves(specs, s, a);
    assert a.Request? ==> a.i !in s.fetches && s'.fetches[a.i].doneCalls == 0;
    forall t | t in tasks && t in s.fetches && (s.fetches[t].doneCalls > 0 || Reports(s, a) == Some(t))
      ensures s'.fetches[t].content.status == s.fetches[t].content.status
    {
      StatusCarried(specs, s, a, t);
    }
  }

  lemma ReportAdds(tasks: seq<nat>, s: State, s': State, i: nat, status: FetcherStatus, t: nat)
    requires Carries(tasks, s, s', {}, Some(i)) && i in s.fetches && s.fetches[i].doneCalls == 0 && t in tasks
    ensures ReportedWith(s', t, status) <==>
            ReportedWith(s, t, status) || (t == i && s.fetches[i].content.status == Some(status))
    ensures !ReportedWith(s, i, status)
  {
    if t in s.fetches { assert Follows(s.fetches[t], s'.fetches[t], t == i); }
  }

  lemma GainsOne(before: set<nat>, after: set<nat>, i: nat, gains: bool)
    requires i !in before && forall t :: t in after <==> t in before || (t == i && gains)
    ensures |after| == |before| + if gains then 1 else 0
  {
    assert after == if gains then before + {i} else before;
  }

  lemma OneReported(tasks: seq<nat>, s: State, s': State, i: nat, status: FetcherStatus)
    requires Carries(tasks, s, s', {}, Some(i)) && i in tasks && i in s.fetches && s.fetches[i].doneCalls == 0
    ensures |ReportedAs(tasks, s', status)| ==
            |ReportedAs(tasks, s, status)| + if s.fetches[i].content.status == Some(status) then 1 else 0
  {
    var before, after := ReportedAs(tasks, s, status), ReportedAs(tasks, s', status);
    var gains := s.fetches[i].content.status == Some(status);
    ReportAdds(tasks, s, s', i, status, i);
    forall t ensures t in after <==> t in before || (t == i && gains) {
      if t in tasks { ReportAdds(tasks, s, s', i, status, t); }
    }
    GainsOne(before, after, i, gains);
  }

  lemma NoneReported(tasks: seq<nat>, s: State, s': State, added: set<nat>, reported: Option<nat>,
      status: FetcherStatus)
    requires Carries(tasks, s, s', added, reported) && (reported.Some? ==> reported.value !in tasks)
    ensures ReportedAs(tasks, s', status) == ReportedAs(tasks, s, status)
  {
    forall t | t in tasks ensures ReportedWith(s', t, status) <==> ReportedWith(s, t, status) {
      if t in s.fetches { assert Follows(s.fetches[t], s'.fetches[t], false); }
    }
  }

  /** What one report sends. */
  lemma DoneSends(ev: Event, c: Join, i: nat) returns (datasets: seq<Content>)
    requires i < |ev.contents| && Within(ev.contents, c.pending)
    ensures var c', sent := OnDone(ev, c, i), c.sent + [Progress(ProgressOf(Value(ev, c.fetch, i).status))];
            c'.started == c.started && (c'.sent == sent || c'.sent == sent + AllDoneMessages(datasets))
  {
    datasets := if ev.datasets <= |ev.contents| then Values(ev, c.fetch)[..ev.datasets] else [];
  }

  lemma CountSent(sent: seq<Message>, st: EventStatus, datasets: seq<Content>, status: EventStatus)
    ensures Count(sent + [Progress(st)], Progress(status)) ==
            Count(sent + [Progress(st)] + AllDoneMessages(datasets), Progress(status)) ==
            Count(sent, Progress(status)) + if status == st then 1 else 0
  {
    CountAppend(sent, Progress(st), Progress(status));
    CountAllDone(sent + [Progress(st)], datasets, Progress(status));
  }

  lemma ExpectsOneMore(ev: Event, c: Join, c': Join, i: nat, st: FetcherStatus, status: EventStatus)
    requires Carries(Tasks(ev), c.fetch, c'.fetch, {}, Some(i)) && st.Final() && c'.started == c.started
    requires i in Tasks(ev) && i in c.fetch.fetches && c.fetch.fetches[i].doneCalls == 0
    requires c.fetch.fetches[i].content.status == Some(st)
    ensures Expected(ev, c', status) == Expected(ev, c, status) + if status == ProgressOf(Some(st)) then 1 else 0
  {
    match status
    case Pending => OneReported(Tasks(ev), c.fetch, c'.fetch, i, DONE);
    case Canceled => OneReported(Tasks(ev), c.fetch, c'.fetch, i, CANCELED);
    case Failed => OneReported(Tasks(ev), c.fetch, c'.fetch, i, FAILED);
    case _ =>
  }

  /** A fetch that reports has a final status. */
  lemma ReporterIsFinal(specs: seq<Spec>, s: State, a: Action, i: nat)
    requires OnceInv(specs, s) && FetchProtocol.Enabled(specs, s, a) && Reports(s, a) == Some(i) && Alone(specs, i)
    ensures i in s.fetches && s.fetches[i].doneCalls == 0
    ensures s.fetches[i].content.status.Some? && s.fetches[i].content.status.value.Final()
  {
    assert OnceOk(s, i) && FetchOk(s, i);
  }

  lemma DoneAnnounced(ev: Event, c: Join, c': Join, i: nat, st: FetcherStatus)
    requires i in Tasks(ev) && i in c.fetch.fetches && c.fetch.fetches[i].doneCalls == 0
    requires Announced(ev, c) && Carries(Tasks(ev), c.fetch, c'.fetch, {}, Some(i)) && ev.datasets <= |ev.contents|
    requires c.fetch.fetches[i].content.status == Some(st) && st.Final()
    requires Within(ev.contents, c.pending) && c' == OnDone(ev, c, i).(fetch := c'.fetch)
    ensures Announced(ev, c')
  {
    var datasets := DoneSends(ev, c, i);
    ProcessedAppend(c.sent, ProgressOf(Some(st)));
    ProcessedAllDone(c.sent + [Progress(ProgressOf(Some(st)))], datasets);
    forall status: EventStatus ensures Count(c'.sent, Progress(status)) == Expected(ev, c', status) {
      CountSent(c.sent, ProgressOf(Some(st)), datasets, status);
      ExpectsOneMore(ev, c, c', i, st, status);
    }
  }

  lemma ReportAnnounced(ev: Event, specs: seq<Spec>, c: Join, a: Action, i: nat)
    requires EventInv(ev, specs, c) && AllAlone(ev, specs) && EventJoin.Enabled(ev, specs, c, a) && Announced(ev, c)
    requires Reports(c.fetch, a) == Some(i) && i < |ev.contents|
    ensures Announced(ev, EventJoin.Core(ev, specs, c, a))
  {
    var s' := FetchProtocol.Apply(specs, c.fetch, a);
    RemovesItself(ev, specs, c, a, i);
    assert EventJoin.Core(ev, specs, c, a) == OnDone(ev, c, i).(fetch := s');
    assert i in c.fetch.fetches && i in Tasks(ev);
    StepCarries(specs, Tasks(ev), c.fetch, a, s');
    ReporterIsFinal(specs, c.fetch, a, i);
    DoneAnnounced(ev, c, OnDone(ev, c, i).(fetch := s'), i, c.fetch.fetches[i].content.status.value);
  }

  lemma OtherAnnounced(ev: Event, c: Join, c': Join, added: set<nat>, reported: Option<nat>)
    requires Announced(ev, c) && Carries(Tasks(ev), c.fetch, c'.fetch, added, reported)
    requires reported.Some? ==> reported.value !in Tasks(ev)
    requires || (c'.sent == c.sent && c'.started == c.started)
             || (c'.sent == c.sent + [Progress(Pending)] && c'.started == c.started + 1)
    ensures Announced(ev, c')
  {
    forall status: FetcherStatus { NoneReported(Tasks(ev), c.fetch, c'.fetch, added, reported, status); }
    forall status: EventStatus { CountAppend(c.sent, Progress(Pending), Progress(status)); }
    ProcessedAppend(c.sent, Pending);
  }

  lemma LoopAnnounced(ev: Event, c: Join)
    requires Announced(ev, c)
    ensures Announced(ev, Loop(c))
  {
  }

  lemma StepAnnounced(ev: Event, specs: seq<Spec>, c: Join, a: Action)
    requires EventInv(ev, specs, c) && AllAlone(ev, specs) && EventJoin.Enabled(ev, specs, c, a) && Announced(ev, c)
    ensures Announced(ev, EventJoin.Apply(ev, specs, c, a))
  {
    var c' := EventJoin.Core(ev, specs, c, a);
    if ReportedTask(ev, c, a).Some? {
      ReportAnnounced(ev, specs, c, a, ReportedTask(ev, c, a).value);
    } else {
      StepCarries(specs, Tasks(ev), c.fetch, a, c'.fetch);
      OtherAnnounced(ev, c, c', if a.Request? then {a.i} else {}, Reports(c.fetch, a));
    }
    LoopAnnounced(ev, c');
  }

  lemma BeginAnnounced(ev: Event)
    requires Tasks(ev) != []
    ensures Announced(ev, Begin(ev))
  {
    forall st: EventStatus { CountAppend([], Progress(Pending), Progress(st)); }
    ProcessedAppend([], Pending);
    assert [] + [Progress(Pending)] == [Progress(Pending)];
  }

  lemma {:induction false} RunAnnounced(ev: Event, specs: seq<Spec>, c: Join, acts: seq<Action>)
    requires EventInv(ev, specs, c) && AllAlone(ev, specs) && EventJoin.IsRun(ev, specs, c, acts) && Announced(ev, c)
    ensures Announced(ev, EventJoin.After(ev, specs, c, acts))
    decreases |acts|
  {
    if acts != [] {
      StepAnnounced(ev, specs, c, acts[0]);
      EventOutcome.StepKeepsInv(ev, specs, c, acts[0]);
      RunAnnounced(ev, specs, EventJoin.Apply(ev, specs, c, acts[0]), acts[1..]);
    }
  }

  /** In every run the messages about the tasks are exactly those expected, and the last one comes with the event. */
  lemma EachAnnouncedOnce(ev: Event, specs: seq<Spec>, c: Join, status: EventStatus)
    requires EventOk(ev, specs) && Tasks(ev) != [] && AllAlone(ev, specs) && Reaches(ev, specs, c)
    ensures Count(c.sent, Progress(status)) == Expected(ev, c, status)
    ensures Count(c.sent, AllProcessed) == Count(c.sent, Forward)
  {
    var acts :| EventJoin.IsRun(ev, specs, Begin(ev), acts) && EventJoin.After(ev, specs, Begin(ev), acts) == c;
    BeginKeepsInv(ev, specs);
    BeginAnnounced(ev);
    RunAnnounced(ev, specs, Begin(ev), acts);
  }
}
