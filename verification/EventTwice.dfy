/** The exact condition under which no report of an event raises: no task shares its status node. */
module EventTwice {
  import opened Options
  import opened FetchStates
  import opened FetchProtocol
  import opened FetchOnce
  import opened EventJoin
  import opened EventOutcome
  import opened EventDecided
  import opened FetchTwice

  predicate FreshMessage(ev: Event, m: string) {
    forall i :: 0 <= i < |ev.contents| ==> ev.contents[i].message != Some(m)
  }

  function Length(m: Option<string>): nat { if m.Some? then |m.value| else 0 }

  lemma {:induction false} LongerThanAll(cs: seq<Content>) returns (m: string)
    ensures forall i :: 0 <= i < |cs| ==> Length(cs[i].message) < |m|
  {
    if cs == [] {
      m := "";
    } else {
      m := LongerThanAll(cs[1..]);
      if |m| <= Length(cs[0].message) { m := (if cs[0].message.Some? then cs[0].message.value else "") + "!"; }
      forall i | 0 <= i < |cs| ensures Length(cs[i].message) < |m| {
        if i > 0 { assert cs[i] == cs[1..][i - 1]; }
      }
    }
  }

  /** Everything pending still has the message it came with. */
  lemma NothingEqual(ev: Event, c: Join, i: nat, m: string)
    requires Within(ev.contents, c.pending) && FreshMessage(ev, m) && i < |ev.contents|
    requires Value(ev, c.fetch, i).message == Some(m)
    requires forall k :: 0 <= k < |c.pending| ==>
            Value(ev, c.fetch, c.pending[k]).message == ev.contents[c.pending[k]].message
    ensures Found(ev, c, i).None?
  {
  }

  lemma PositionOf(ev: Event, t: nat) returns (n: nat)
    requires t in Tasks(ev)
    ensures n < |Tasks(ev)| && Tasks(ev)[n] == t
  {
    n :| 0 <= n < |Tasks(ev)| && Tasks(ev)[n] == t;
  }

  /** Task `i` completes for the first time, after the tasks before it failed. */
  lemma CompleteTask(ev: Event, specs: seq<Spec>, i: nat) returns (c: Join, g: Fetch)
    requires EventOk(ev, specs) && i in Tasks(ev)
    ensures Reaches(ev, specs, c) && Between(ev, c) && Is(c, i, g) && g.spec == specs[i]
    ensures g.callback == Idle && g.armed == 0 && g.changed == 1 && g.doneCalls == 1
    ensures c.fetch.nodes == map[] && forall k :: k in c.fetch.fetches ==> k in Tasks(ev)
    ensures 0 < c.started && Tasks(ev)[c.started - 1] == i
  {
    var n := PositionOf(ev, i);
    BeginIsBetween(ev, specs);
    var c1 := FailUntil(ev, specs, Begin(ev), n);
    NextInLine(ev, c1);
    c, g := FirstCompletion(ev, specs, c1, i);
    StaysBetween(ev, c1, c);
  }

  /** Fetch `j` is next: a later task, after the tasks in between failed, or a fetch of another event. */
  lemma LetOtherAsk(ev: Event, specs: seq<Spec>, c: Join, i: nat, g: Fetch, j: nat) returns (c': Join)
    requires EventOk(ev, specs) && Reaches(ev, specs, c) && Between(ev, c) && Is(c, i, g) && c.fetch.nodes == map[]
    requires forall k :: k in c.fetch.fetches ==> k in Tasks(ev)
    requires 0 < c.started && Tasks(ev)[c.started - 1] == i
    requires |ev.contents| <= j || (j in Tasks(ev) && i < j)
    ensures Reaches(ev, specs, c') && Between(ev, c') && Is(c', i, g) && c'.fetch.nodes == map[]
    ensures MayRequest(ev, c', j)
  {
    if j < |ev.contents| {
      var n := PositionOf(ev, j);
      c' := FailUntil(ev, specs, c, n);
    } else {
      c' := c;
    }
  }

  /** What is pending when the late notification comes: fetch `j`, and tasks that have not been started. */
  lemma PendingIsFresh(ev: Event, specs: seq<Spec>, c: Join, j: nat, s': State)
    requires EventOk(ev, specs) && Between(ev, c) && j < |specs| && MayRequest(ev, c, j)
    requires s'.fetches.Keys == c.fetch.fetches.Keys + {j} && s'.fetches[j].content.message == specs[j].content.message
    ensures Within(ev.contents, c.pending)
    ensures forall k :: 0 <= k < |c.pending| ==>
            Value(ev, s', c.pending[k]).message == ev.contents[c.pending[k]].message
  {
    forall k | 0 <= k < |c.pending|
      ensures c.pending[k] < |ev.contents| && Value(ev, s', c.pending[k]).message == ev.contents[c.pending[k]].message
    {
      var t := Tasks(ev)[c.started + k];
      assert t == c.pending[k] && t in Tasks(ev) && t !in c.fetch.fetches;
    }
  }

  /** A task that shares its node with a later task or with a fetch of another event has a run in which its
      second report raises. */
  lemma SharedTaskRaises(ev: Event, specs: seq<Spec>, i: nat, j: nat) returns (c: Join)
    requires EventOk(ev, specs) && i in Tasks(ev) && j < |specs| && specs[j].path == specs[i].path
    requires |ev.contents| <= j || (j in Tasks(ev) && i < j)
    ensures Reaches(ev, specs, c) && c.raised && i in c.fetch.fetches && c.fetch.fetches[i].doneCalls == 2
  {
    var m := LongerThanAll(ev.contents);
    var c1, g := CompleteTask(ev, specs, i);
    var c2 := LetOtherAsk(ev, specs, c1, i, g, j);
    var c3 := OtherFails(ev, specs, c2, i, g, j, m);
    var c4, h := LateNotice(ev, specs, c3, i, g, m);
    PendingIsFresh(ev, specs, c2, j, c4.fetch);
    NothingEqual(ev, c4, i, m);
    c := Raise(ev, specs, c4, i, h);
  }

  ghost predicate NeverRaises(ev: Event, specs: seq<Spec>) {
    forall c :: Reaches(ev, specs, c) ==> !c.raised
  }

  ghost predicate AlwaysSound(ev: Event, specs: seq<Spec>)
    requires ev.datasets <= |ev.contents|
  {
    forall c :: Reaches(ev, specs, c) ==> Sound(ev, specs, c)
  }

  /** Every run of an event keeps all its promises if and only if no task shares its status node, and that is
      also the exact condition under which no report raises. */
  lemma SoundIffAlone(ev: Event, specs: seq<Spec>)
    requires EventOk(ev, specs) && Tasks(ev) != []
    ensures AlwaysSound(ev, specs) <==> AllAlone(ev, specs)
    ensures NeverRaises(ev, specs) <==> AllAlone(ev, specs)
  {
    if AllAlone(ev, specs) {
      forall c | Reaches(ev, specs, c) ensures Sound(ev, specs, c) { AloneIsSound(ev, specs, c); }
    } else {
      var t :| t in Tasks(ev) && !Alone(specs, t);
      var k :| 0 <= k < |specs| && k != t && specs[k].path == specs[t].path;
      var earlier := k < |ev.contents| && k < t;
      var c := SharedTaskRaises(ev, specs, if earlier then k else t, if earlier then t else k);
      assert !Sound(ev, specs, c);
    }
  }
}
