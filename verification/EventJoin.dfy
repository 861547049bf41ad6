/** `FetcherEventHandler` on top of the fetch protocol: the fetches of an event are joined into one outcome.

    An event lists its contents as `datasets + models`.  The contents without a destination are its tasks;
    content `i` is fetched by fetch `i` of the protocol, and the fetches from `|contents|` on belong to other
    events.  A number stands for the identity of a content object, `Value` gives its current value.  The start
    loop calls `fetch` for one task after the other; an exception that leaves such a call ends the loop.
    `pending.remove` compares values and raises if none is equal. */
module EventJoin {
  import opened Options
  import opened Sequences
  import opened FetchStates
  import opened FetchProtocol

  datatype EventStatus = Pending | Running | Succeeded | Canceled | Failed | Error

  datatype Message =
    | Progress(status: EventStatus)     // what is sent along the way
    | NothingToFetch
    | Forward                           // the event itself, to the next service
    | AllProcessed
    | Aborting(status: EventStatus)

  // ---------------------------------------------------------------- pure parts

  function Statuses(cs: seq<Content>): set<Option<FetcherStatus>> {
    set i | 0 <= i < |cs| :: cs[i].status
  }

  function CollectStatus(cs: seq<Content>): EventStatus {
    var ss := Statuses(cs);
    if Some(CANCELED) in ss then Canceled
    else if Some(FAILED) in ss then Failed
    else if Some(PENDING) in ss then Pending
    else if Some(RUNNING) in ss then EventStatus.Running
    else Succeeded
  }

  function ProgressOf(status: Option<FetcherStatus>): EventStatus {
    match status
    case None => Error
    case Some(DONE) => Pending
    case Some(CANCELED) => Canceled
    case Some(FAILED) => Failed
    case Some(_) => Pending
  }

  function AllDoneMessages(datasets: seq<Content>): seq<Message> {
    var total := CollectStatus(datasets);
    if total == Succeeded then [Forward, AllProcessed]
    else if total == Canceled || total == Failed then [Aborting(total)]
    else []
  }

  predicate Sorted(ids: seq<nat>) {
    forall i, j :: 0 <= i < j < |ids| ==> ids[i] < ids[j]
  }

  /** The contents from `i` on that have no destination yet. */
  function TasksFrom(cs: seq<Content>, i: nat): (ts: seq<nat>)
    requires i <= |cs|
    ensures forall t :: t in ts <==> i <= t < |cs| && cs[t].dst.None?
    ensures forall k :: 0 <= k < |ts| ==> i <= ts[k] < |cs|
    ensures Sorted(ts)
    decreases |cs| - i
  {
    if i == |cs| then []
    else if cs[i].dst.None? then [i] + TasksFrom(cs, i + 1) else TasksFrom(cs, i + 1)
  }

  lemma WithoutMembers(ids: seq<nat>, k: nat)
    requires k < |ids| && Sorted(ids)
    ensures Sorted(Without(ids, k))
    ensures forall x :: x in Without(ids, k) <==> x in ids && x != ids[k]
  {
    assert ids == ids[..k] + [ids[k]] + ids[k + 1..];
  }

  predicate Within(cs: seq<Content>, ids: seq<nat>) {
    forall k :: 0 <= k < |ids| ==> ids[k] < |cs|
  }

  /** The position of the first object in `ids` whose value equals `c`. */
  function FirstEqual(cs: seq<Content>, ids: seq<nat>, c: Content): (k: Option<nat>)
    requires Within(cs, ids)
    ensures k.Some? ==> k.value < |ids| && cs[ids[k.value]] == c
    ensures k.Some? ==> forall j :: 0 <= j < k.value ==> cs[ids[j]] != c
    ensures k.None? ==> forall j :: 0 <= j < |ids| ==> cs[ids[j]] != c
  {
    if ids == [] then None
    else if cs[ids[0]] == c then Some(0)
    else
      var k := FirstEqual(cs, ids[1..], c);
      if k.Some? then Some(k.value + 1) else None
  }

  // ---------------------------------------------------------------- the handler of one event and all fetches

  datatype Event = Event(contents: seq<Content>, datasets: nat)

  function Tasks(ev: Event): seq<nat> { TasksFrom(ev.contents, 0) }

  /** The fetches of the tasks: one process, the content with its destination filled in, and a lock that
      depends on the source alone.  A content that is not a task only holds a place: its fetch is never
      requested, and its path is nobody else's. */
  predicate EventOk(ev: Event, specs: seq<Spec>) {
    && ev.datasets <= |ev.contents| <= |specs|
    && (forall t :: t in Tasks(ev) ==>
          specs[t].content.dst.Some? && specs[t].content == ev.contents[t].(dst := specs[t].content.dst))
    && (forall t, u :: t in Tasks(ev) && u in Tasks(ev) ==>
          && specs[t].session == specs[u].session
          && (ev.contents[t].src == ev.contents[u].src ==> specs[t].dir == specs[u].dir))
    && (forall k, u :: 0 <= k < |ev.contents| && ev.contents[k].dst.Some? && 0 <= u < |specs| && u != k ==>
          specs[k].path != specs[u].path)
  }

  /** The start loop has called `fetch` for `started` tasks; `calling` is the task whose call is under way, and
      `ended` says that an exception left such a call. */
  datatype Join = Join(
    fetch: State, started: nat, calling: Option<nat>, ended: bool,
    pending: seq<nat>, allDone: nat, raised: bool, sent: seq<Message>)

  function Value(ev: Event, s: State, i: nat): Content
    requires i < |ev.contents|
  {
    if i in s.fetches then s.fetches[i].content else ev.contents[i]
  }

  function Values(ev: Event, s: State): (cs: seq<Content>)
    ensures |cs| == |ev.contents| && forall i :: 0 <= i < |cs| ==> cs[i] == Value(ev, s, i)
  {
    seq(|ev.contents|, i requires 0 <= i < |ev.contents| => Value(ev, s, i))
  }

  /** The state when the start loop begins. */
  function Begin(ev: Event): Join {
    var tasks := Tasks(ev);
    Join(Init, 0, None, false, tasks, 0, false, if tasks == [] then [NothingToFetch, Forward] else [Progress(Pending)])
  }

  /** The task of this event that the step reports. */
  function ReportedTask(ev: Event, c: Join, a: Action): Option<nat> {
    match Reports(c.fetch, a)
    case Some(i) => if i < |ev.contents| then Some(i) else None
    case None => None
  }

  /** What `pending.remove` finds for content `i`. */
  function Found(ev: Event, c: Join, i: nat): Option<nat>
    requires i < |ev.contents| && Within(ev.contents, c.pending)
  {
    FirstEqual(Values(ev, c.fetch), c.pending, Value(ev, c.fetch, i))
  }

  predicate Aborts(a: Action) { a.AbortStart? || a.AbortCallback? }

  /** The start loop is about to call `fetch` for the next task. */
  predicate LoopGoesOn(ev: Event, c: Join) {
    c.started < |Tasks(ev)| && c.calling.None? && !c.ended
  }

  /** The call of `fetch` for this task returns or raises here: the lock is awaited, or the function that runs
      under the lock has come to its end.  What happens after a wait happens in the callback thread. */
  predicate AtReturn(s: State, t: nat) {
    && t in s.fetches
    && var f := s.fetches[t];
       || f.start == Start.Running || f.start == Ended || f.start == Raised
       || (f.req in s.lock.reqs && s.lock.reqs[f.req].phase.Waiting?)
  }

  /** The loop notices that its call has come back. */
  function Loop(c: Join): Join {
    if c.calling.Some? && AtReturn(c.fetch, c.calling.value)
    then c.(calling := None, ended := c.ended || c.fetch.fetches[c.calling.value].start == Raised) else c
  }

  predicate Enabled(ev: Event, specs: seq<Spec>, c: Join, a: Action) {
    && FetchProtocol.Enabled(specs, c.fetch, a)
    && (a.Request? && a.i < |ev.contents| ==> LoopGoesOn(ev, c) && a.i == Tasks(ev)[c.started])
    && (ReportedTask(ev, c, a).Some? ==>
          Within(ev.contents, c.pending) && (Aborts(a) <==> Found(ev, c, ReportedTask(ev, c, a).value).None?))
  }

  function OnDone(ev: Event, c: Join, i: nat): Join
    requires i < |ev.contents| && Within(ev.contents, c.pending)
  {
    var c1 := c.(sent := c.sent + [Progress(ProgressOf(Value(ev, c.fetch, i).status))]);
    var k := Found(ev, c, i);
    if k.None? then c1.(raised := true)
    else
      var c2 := c1.(pending := Without(c.pending, k.value));
      if c2.pending == [] && ev.datasets <= |ev.contents|
      then c2.(allDone := c2.allDone + 1, sent := c2.sent + AllDoneMessages(Values(ev, c.fetch)[..ev.datasets]))
      else c2
  }

  function Apply(ev: Event, specs: seq<Spec>, c: Join, a: Action): Join
    requires Enabled(ev, specs, c, a)
  {
    Loop(Core(ev, specs, c, a))
  }

  /** The step itself, and what the handler does in it. */
  function Core(ev: Event, specs: seq<Spec>, c: Join, a: Action): Join
    requires Enabled(ev, specs, c, a)
  {
    var task := ReportedTask(ev, c, a);
    var c' := if task.Some? then OnDone(ev, c, task.value)
              else if a.Request? && a.i < |ev.contents|
              then c.(started := c.started + 1, calling := Some(a.i), sent := c.sent + [Progress(Pending)])
              else c;
    c'.(fetch := FetchProtocol.Apply(specs, c.fetch, a))
  }

  /** What a step means for the start loop. */
  lemma CoreFields(ev: Event, specs: seq<Spec>, c: Join, a: Action)
    requires Enabled(ev, specs, c, a)
    ensures var c' := Core(ev, specs, c, a);
            && c'.ended == c.ended && c'.fetch == FetchProtocol.Apply(specs, c.fetch, a)
            && if a.Request? && a.i < |ev.contents|
               then c'.started == c.started + 1 <= |Tasks(ev)| && c'.calling == Some(a.i) && LoopGoesOn(ev, c)
               else c'.started == c.started && c'.calling == c.calling
  {
  }

  predicate IsRun(ev: Event, specs: seq<Spec>, c: Join, acts: seq<Action>)
    decreases |acts|
  {
    acts != [] ==> Enabled(ev, specs, c, acts[0]) && IsRun(ev, specs, Apply(ev, specs, c, acts[0]), acts[1..])
  }

  function After(ev: Event, specs: seq<Spec>, c: Join, acts: seq<Action>): Join
    requires IsRun(ev, specs, c, acts)
    decreases |acts|
  {
    if acts == [] then c else After(ev, specs, Apply(ev, specs, c, acts[0]), acts[1..])
  }

  ghost predicate Reaches(ev: Event, specs: seq<Spec>, c: Join) {
    exists acts :: IsRun(ev, specs, Begin(ev), acts) && After(ev, specs, Begin(ev), acts) == c
  }

  lemma {:induction false} RunAppend(ev: Event, specs: seq<Spec>, c: Join, acts: seq<Action>, a: Action)
    requires IsRun(ev, specs, c, acts) && Enabled(ev, specs, After(ev, specs, c, acts), a)
    ensures IsRun(ev, specs, c, acts + [a])
    ensures After(ev, specs, c, acts + [a]) == Apply(ev, specs, After(ev, specs, c, acts), a)
    decreases |acts|
  {
    if acts == [] {
      assert acts + [a] == [a] && [a][1..] == [];
      assert IsRun(ev, specs, Apply(ev, specs, c, a), []);
    } else {
      assert (acts + [a])[1..] == acts[1..] + [a];
      RunAppend(ev, specs, Apply(ev, specs, c, acts[0]), acts[1..], a);
    }
  }

  /** One more step. */
  lemma Go(ev: Event, specs: seq<Spec>, c: Join, a: Action) returns (c': Join)
    requires Reaches(ev, specs, c) && Enabled(ev, specs, c, a)
    ensures c' == Apply(ev, specs, c, a) && Reaches(ev, specs, c')
  {
    var acts :| IsRun(ev, specs, Begin(ev), acts) && After(ev, specs, Begin(ev), acts) == c;
    RunAppend(ev, specs, Begin(ev), acts, a);
    c' := Apply(ev, specs, c, a);
    assert After(ev, specs, Begin(ev), acts + [a]) == c';
  }

  /** A run of the event is a run of the fetch protocol. */
  lemma {:induction false} FetchRun(ev: Event, specs: seq<Spec>, c: Join, acts: seq<Action>)
    requires IsRun(ev, specs, c, acts)
    ensures FetchProtocol.IsRun(specs, c.fetch, acts)
    ensures FetchProtocol.After(specs, c.fetch, acts) == After(ev, specs, c, acts).fetch
    decreases |acts|
  {
    if acts != [] { FetchRun(ev, specs, Apply(ev, specs, c, acts[0]), acts[1..]); }
  }
}
