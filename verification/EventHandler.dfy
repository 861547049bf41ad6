/** The handler object of one event: what `handle_event` keeps in its closures, next to the shared state of
    all fetches. */
module EventHandler {
  import opened Options
  import opened Sequences
  import opened FetchStates
  import opened FetchProtocol
  import opened EventJoin
  import opened EventOutcome

  class Handler {
    const event: Event
    const specs: seq<Spec>
    const tasks: seq<nat>
    var zk: State
    var started: nat
    var calling: Option<nat>
    var ended: bool
    var pending: seq<nat>
    var allDone: nat
    var raised: bool
    var sent: seq<Message>

    ghost function Now(): Join
      reads this
    {
      Join(zk, started, calling, ended, pending, allDone, raised, sent)
    }

    ghost predicate Valid()
      reads this
    {
      tasks == Tasks(event) && Reaches(event, specs, Now())
    }

    /** `handle_event` up to the start loop. */
    constructor (event: Event, specs: seq<Spec>)
      ensures Valid() && Now() == Begin(event) && this.event == event && this.specs == specs
    {
      var todo := Tasks(event);
      this.event, this.specs, tasks := event, specs, todo;
      zk, started, calling, ended := Init, 0, None, false;
      pending, allDone, raised := todo, 0, false;
      sent := if todo == [] then [NothingToFetch, Forward] else [Progress(Pending)];
      new;
      assert EventJoin.IsRun(event, specs, Begin(event), []) &&
          EventJoin.After(event, specs, Begin(event), []) == Begin(event);
    }

    /** `pending.remove`: the first object with an equal value goes. */
    method RemovePending(cs: seq<Content>, c: Content) returns (found: bool)
      requires Within(cs, pending)
      modifies this`pending
      ensures found <==> FirstEqual(cs, old(pending), c).Some?
      ensures found ==> pending == Without(old(pending), FirstEqual(cs, old(pending), c).value)
      ensures !found ==> pending == old(pending)
    {
      var k := 0;
      while k < |pending| && cs[pending[k]] != c
        invariant k <= |pending|
        invariant forall j :: 0 <= j < k ==> cs[pending[j]] != c
      {
        k := k + 1;
      }
      found := k < |pending|;
      if found {
        pending := pending[..k] + pending[k + 1..];
      }
    }

    /** The `on_done` callback; an exception leaves it when nothing equal is pending. */
    method OnDone(i: nat)
      requires i < |event.contents| && Within(event.contents, pending)
      modifies this`sent, this`pending, this`raised, this`allDone
      ensures Now() == EventJoin.OnDone(event, old(Now()), i)
    {
      var values := Values(event, zk);
      sent := sent + [Progress(ProgressOf(values[i].status))];
      var found := RemovePending(values, values[i]);
      if !found {
        raised := true;
      } else if pending == [] && event.datasets <= |event.contents| {
        allDone := allDone + 1;
        sent := sent + AllDoneMessages(values[..event.datasets]);
      }
    }

    /** The handler's part of a step: it starts a task, or a task reports. */
    method Act(a: Action)
      requires EventJoin.Enabled(event, specs, Now(), a)
      modifies this
      ensures Now() == EventJoin.Core(event, specs, old(Now()), a)
    {
      var task := ReportedTask(event, Join(zk, started, calling, ended, pending, allDone, raised, sent), a);
      if task.Some? {
        OnDone(task.value);
      } else if a.Request? && a.i < |event.contents| {
        sent := sent + [Progress(Pending)];
        started, calling := started + 1, Some(a.i);
      }
      zk := FetchProtocol.Apply(specs, zk, a);
    }

    /** The start loop goes on when its call has returned, and ends when an exception left it. */
    method NoticeReturn()
      modifies this`calling, this`ended
      ensures Now() == Loop(old(Now()))
    {
      if calling.Some? && AtReturn(zk, calling.value) {
        calling, ended := None, ended || zk.fetches[calling.value].start == Raised;
      }
    }

    /** One step of anybody. */
    method Step(a: Action)
      requires Valid() && EventJoin.Enabled(event, specs, Now(), a)
      modifies this
      ensures Valid() && Now() == EventJoin.Apply(event, specs, old(Now()), a)
    {
      ghost var after := Go(event, specs, Now(), a);
      Act(a);
      NoticeReturn();
    }

    /** Any number of steps, by anybody and in any order.  If the tasks have status nodes of their own, no report
        raises, and once every task has reported the event has been decided exactly once. */
    method Run(steps: seq<Action>)
      requires Valid()
      modifies this
      ensures Valid()
      ensures EventOk(event, specs) && tasks != [] && AllAlone(event, specs) ==>
                && !raised
                && allDone == (if forall t :: t in tasks ==> !Open(zk, t) then 1 else 0)
                && Verdicts(sent) == (if allDone == 1 then VerdictOf(Values(event, zk)[..event.datasets]) else [])
    {
      for n := 0 to |steps|
        invariant Valid()
      {
        if EventJoin.Enabled(event, specs, Join(zk, started, calling, ended, pending, allDone, raised, sent),
            steps[n]) {
          Step(steps[n]);
        }
      }
      if EventOk(event, specs) && tasks != [] && AllAlone(event, specs) { OneOutcome(event, specs, Now()); }
    }
  }
}
