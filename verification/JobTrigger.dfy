/** The job status trigger: poll a job until a status decides whether the command runs. */
module JobTrigger {
  import opened Options

  datatype Status = NotFound | Succeeded | Failed | Other(name: string)

  /** One poll: a status with the clock reading taken in the callback, or an exception from the cluster. */
  datatype Observation = Polled(status: Status, now: real) | Raised

  datatype Config = Config(triggers: set<Status>, grace: int)

  datatype Reply = Stop | Continue | Error

  /** Python's `int` of a float: toward zero. */
  function Trunc(x: real): int {
    if x >= 0.0 then x.Floor else -((-x).Floor)
  }

  predicate Late(c: Config, start: int, now: real) {
    Trunc(now - start as real) >= c.grace
  }

  /** A not-found poll within the grace period. */
  predicate Waiting(c: Config, start: int, o: Observation) {
    o.Polled? && o.status == NotFound && !Late(c, start, o.now)
  }

  /** A poll that decides nothing once the job has been seen. */
  predicate Quiet(c: Config, o: Observation) {
    o.Polled? && o.status !in c.triggers && o.status != NotFound && o.status != Succeeded && o.status != Failed
  }

  /** The first `n` polls decide nothing: `k` early not-founds, then the job seen and quiet. */
  predicate Undecided(c: Config, start: int, trace: seq<Observation>, k: nat, n: nat) {
    && k <= n <= |trace|
    && (forall j :: 0 <= j < k ==> Waiting(c, start, trace[j]))
    && (forall j :: k <= j < n ==> Quiet(c, trace[j]))
  }

  predicate RunsAt(c: Config, start: int, trace: seq<Observation>, k: nat, n: nat) {
    && Undecided(c, start, trace, k, n) && n < |trace|
    && trace[n].Polled? && trace[n].status in c.triggers
    && (k == n ==> trace[n].status != NotFound)
  }

  predicate FailsAt(c: Config, start: int, trace: seq<Observation>, k: nat, n: nat) {
    && Undecided(c, start, trace, k, n) && n < |trace|
    && (trace[n].Polled? ==>
          if k == n && trace[n].status == NotFound then Late(c, start, trace[n].now)
          else trace[n].status !in c.triggers && trace[n].status in {NotFound, Succeeded, Failed})
  }

  /** The first decisive poll, once the job has been seen, has a trigger status. */
  ghost predicate Runs(c: Config, start: int, trace: seq<Observation>) {
    exists k, n :: RunsAt(c, start, trace, k, n)
  }

  /** The job stays unseen past the grace period, ends without a trigger status, or a poll raises. */
  ghost predicate Fails(c: Config, start: int, trace: seq<Observation>) {
    exists k, n :: FailsAt(c, start, trace, k, n)
  }

  ghost predicate Pending(c: Config, start: int, trace: seq<Observation>) {
    exists k :: Undecided(c, start, trace, k, |trace|)
  }

  class Trigger {
    const config: Config
    const startTime: int
    var jobSeen: bool

    constructor (config: Config, now: real)
      ensures this.config == config && startTime == Trunc(now) && !jobSeen
    {
      this.config, startTime, jobSeen := config, Trunc(now), false;
    }

    method Callback(status: Status, now: real) returns (r: Reply)
      modifies this`jobSeen
      ensures jobSeen <==> old(jobSeen) || status != NotFound
      ensures !jobSeen ==> r == if Late(config, startTime, now) then Error else Continue
      ensures jobSeen ==> (r == Stop <==> status in config.triggers)
      ensures jobSeen ==> (r == Continue <==> Quiet(config, Polled(status, now)))
    {
      if !jobSeen && status == NotFound {
        var elapsed := Trunc(now - startTime as real);
        if elapsed >= config.grace { return Error; }
        return Continue;
      } else {
        jobSeen := true;
      }
      if status in config.triggers && jobSeen { return Stop; }
      if status in {NotFound, Failed, Succeeded} { return Error; }
      return Continue;
    }
  }

  class JobWatcher {
    var success: Option<bool>

    /** The polling loop over what the cluster answers; `None` means it is still polling after these polls.

        The command is executed exactly when the result is `Some(true)`. */
    method ThreadRunLoop(t: Trigger, trace: seq<Observation>)
      requires !t.jobSeen && success == None
      modifies this, t
      ensures success == Some(true) <==> Runs(t.config, t.startTime, trace)
      ensures success == Some(false) <==> Fails(t.config, t.startTime, trace)
      ensures success == None <==> Pending(t.config, t.startTime, trace)
    {
      ghost var k := 0;
      var n := 0;
      while n < |trace|
        invariant Undecided(t.config, t.startTime, trace, k, n)
        invariant t.jobSeen <==> k < n
        invariant success == None
      {
        var o := trace[n];
        if o == Raised {
          success := Some(false);
          AtMostOne(t.config, t.startTime, trace, k, n);
          assert FailsAt(t.config, t.startTime, trace, k, n);
          return;
        }
        var r := t.Callback(o.status, o.now);
        if r == Stop {
          success := Some(true);
          AtMostOne(t.config, t.startTime, trace, k, n);
          assert RunsAt(t.config, t.startTime, trace, k, n);
          return;
        }
        if r == Error {
          success := Some(false);
          AtMostOne(t.config, t.startTime, trace, k, n);
          assert FailsAt(t.config, t.startTime, trace, k, n);
          return;
        }
        n := n + 1;
        if !t.jobSeen { k := n; }
      }
      AtMostOne(t.config, t.startTime, trace, k, n);
    }
  }

  /** Late means that the whole grace period has passed; a grace of zero or less ends up to a second earlier, because
      a fraction of a second counts as nothing. */
  lemma LateIff(c: Config, start: int, now: real)
    ensures Late(c, start, now) <==>
            if c.grace > 0 then now - start as real >= c.grace as real else now - start as real > (c.grace - 1) as real
  {
  }

  // ---------------------------------------------------------------- one outcome

  /** The undecided prefixes of a trace agree on when the job was first seen. */
  lemma SameSplit(c: Config, start: int, trace: seq<Observation>, k: nat, n: nat, k': nat, n': nat)
    requires Undecided(c, start, trace, k, n) && Undecided(c, start, trace, k', n') && n <= n'
    ensures k == if k' <= n then k' else n
  {
    var early := if k' < k then k' else k;
    assert early < n ==> early < k || Quiet(c, trace[early]);
    assert early < n ==> early < k' || Quiet(c, trace[early]);
  }

  /** Any two verdicts on a trace are the same verdict at the same poll. */
  lemma AtMostOne(c: Config, start: int, trace: seq<Observation>, k: nat, n: nat)
    requires Undecided(c, start, trace, k, n)
    requires n == |trace| || RunsAt(c, start, trace, k, n) || FailsAt(c, start, trace, k, n)
    ensures forall k', n' :: RunsAt(c, start, trace, k', n') ==> k' == k && n' == n
    ensures forall k', n' :: FailsAt(c, start, trace, k', n') ==> k' == k && n' == n
    ensures forall k' :: Undecided(c, start, trace, k', |trace|) ==> k' == k && n == |trace|
  {
    forall k', n' | Undecided(c, start, trace, k', n')
        && (n' == |trace| || RunsAt(c, start, trace, k', n') || FailsAt(c, start, trace, k', n'))
      ensures k' == k && n' == n
    {
      if n <= n' {
        SameSplit(c, start, trace, k, n, k', n');
      } else {
        SameSplit(c, start, trace, k', n', k, n);
      }
    }
  }

  /** Later polls change no verdict. */
  lemma VerdictIsFinal(c: Config, start: int, trace: seq<Observation>, more: seq<Observation>)
    ensures Runs(c, start, trace) ==> Runs(c, start, trace + more)
    ensures Fails(c, start, trace) ==> Fails(c, start, trace + more)
  {
    if Runs(c, start, trace) {
      var k: nat, n: nat :| RunsAt(c, start, trace, k, n);
      assert RunsAt(c, start, trace + more, k, n);
    }
    if Fails(c, start, trace) {
      var k: nat, n: nat :| FailsAt(c, start, trace, k, n);
      assert FailsAt(c, start, trace + more, k, n);
    }
  }

  /** Not-found runs the command only after the job was seen. */
  lemma NotFoundNeedsSeen(c: Config, start: int, trace: seq<Observation>, k: nat, n: nat)
    requires RunsAt(c, start, trace, k, n) && trace[n].status == NotFound
    ensures exists j :: 0 <= j < n && trace[j].Polled? && trace[j].status != NotFound
  {
    assert Quiet(c, trace[k]);
  }
}
