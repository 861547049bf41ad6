/** `DistributedRWLockManager` against a shared ensemble: the acquire loop as a loop, with arbitrary
    steps of everybody else between any two of its calls. */
module LockManager {
  import opened LockProtocol
  import opened Sequences

  ghost function Blockers(s: State, r: Req): set<Req> {
    set t | t in s.live && Blocks(t, r)
  }

  /** The steps that belong to request `r` itself, or end the process that runs it. */
  predicate Concerns(s: State, a: Action, r: Req) {
    match a
    case Create(_, _, _, _) => false
    case Scan(x, _) => x == r
    case Check(x) => x == r
    case Deliver(w) => w.watcher == r
    case Grant(x) => x == r
    case Release(x) => x == r
    case Crash(session) => r in s.reqs && s.reqs[r].session == session
  }

  /** Nothing anybody else does touches request `r` or puts a new node before it. */
  lemma OthersOnlyHelp(s: State, a: Action, r: Req)
    requires Inv(s) && Enabled(s, a) && !Concerns(s, a, r) && r in s.live
    ensures r in Apply(s, a).live && r in Apply(s, a).reqs && Apply(s, a).reqs[r] == s.reqs[r]
    ensures Blockers(Apply(s, a), r) <= Blockers(s, r)
  {
    assert RequestOk(s, r);
    if a.Create? {
      NewNodeIsFresh(s, Req(a.dir, a.kind, a.idx));
    }
  }

  class Ensemble {
    var zk: State
    ghost var log: seq<Action>

    ghost predicate Valid()
      reads this
    {
      IsRun(Init, log) && After(Init, log) == zk && Inv(zk)
    }

    constructor ()
      ensures Valid() && log == []
    {
      zk := Init;
      log := [];
    }

    method Do(a: Action)
      requires Valid() && Enabled(zk, a)
      modifies this
      ensures Valid() && zk == Apply(old(zk), a) && log == old(log) + [a]
    {
      RunAppend(Init, log, a);
      StepKeepsInv(zk, a);
      zk := Apply(zk, a);
      log := log + [a];
    }

    /** Whatever the other requests and processes do before the next call of request `r`. */
    method Interfere(r: Req)
      requires Valid() && r in zk.live
      modifies this
      ensures Valid() && old(log) <= log
      ensures r in zk.live && zk.reqs[r] == old(zk.reqs[r])
      ensures Blockers(zk, r) <= old(Blockers(zk, r))
    {
      var steps: seq<Action> := *;
      for i := 0 to |steps|
        invariant Valid() && old(log) <= log
        invariant r in zk.live && zk.reqs[r] == old(zk.reqs[r])
        invariant Blockers(zk, r) <= old(Blockers(zk, r))
      {
        if Enabled(zk, steps[i]) && !Concerns(zk, steps[i], r) {
          OthersOnlyHelp(zk, steps[i], r);
          Do(steps[i]);
        }
      }
    }

    /** The children of a directory, in no particular order. */
    method GetChildren(dir: Dir) returns (children: seq<Req>)
      ensures Lists(zk, dir, children)
    {
      children := [];
      var rest := set c | c in zk.live && c.dir == dir;
      while rest != {}
        invariant forall c :: c in zk.live && c.dir == dir <==> c in rest || c in children
        decreases rest
      {
        var c :| c in rest;
        children := children + [c];
        rest := rest - {c};
      }
    }

    /** get_children, and the incompatible nodes before `r` among them. */
    method ScanLocksBefore(r: Req) returns (before: seq<Req>)
      requires Valid() && InPhase(zk, r, Scanning)
      modifies this
      ensures Valid() && old(log) <= log && r in zk.live
      ensures zk.reqs[r].phase == if before == [] then Clear else Blocked(before)
      ensures zk.reqs[r].scans == old(zk.reqs[r].scans) + 1
      ensures Blockers(zk, r) <= old(Blockers(zk, r))
      ensures forall t :: t in before <==> t in Blockers(zk, r)
    {
      assert RequestOk(zk, r);
      Interfere(r);
      var children := GetChildren(r.dir);
      before := LocksBefore(r, children);
      Do(Scan(r, children));
    }

    /** exists, with the watch: it tells whether the node the request decided to wait for is there. */
    method WatchFirst(r: Req) returns (there: bool)
      requires Valid() && r in zk.live && zk.reqs[r].phase.Blocked? && zk.reqs[r].phase.before != []
      modifies this
      ensures Valid() && old(log) <= log && r in zk.live
      ensures Blockers(zk, r) <= old(Blockers(zk, r)) && zk.reqs[r].scans == old(zk.reqs[r].scans)
      ensures var t := old(zk.reqs[r].phase.before[0]);
              && there == (t in zk.live) && Watch(r, t) in zk.watches
              && zk.reqs[r].phase == if there then Waiting(t) else Scanning
    {
      Interfere(r);
      there := zk.reqs[r].phase.before[0] in zk.live;
      Do(Check(r));
    }

    /** `_acquire_lock_loop`.  It ends after finitely many rounds whatever the others do, because each
        further round finds one blocker fewer; it ends with the lock granted once, or with a watch on
        a live blocker and no grant. */
    method AcquireLockLoop(r: Req) returns (locked: bool)
      requires Valid() && InPhase(zk, r, Scanning)
      modifies this
      ensures Valid() && old(log) <= log && r in zk.live
      ensures locked ==> InPhase(zk, r, Holding) && Blockers(zk, r) == {}
      ensures !locked ==> zk.reqs[r].phase.Waiting? && zk.reqs[r].phase.target in Blockers(zk, r)
                          && Watch(r, zk.reqs[r].phase.target) in zk.watches
      ensures zk.reqs[r].grants == if locked then 1 else 0
      ensures zk.reqs[r].scans <= old(zk.reqs[r].scans) + |old(Blockers(zk, r))| + 1
    {
      assert RequestOk(zk, r);
      while true
        invariant Valid() && old(log) <= log && InPhase(zk, r, Scanning) && r in zk.live
        invariant zk.reqs[r].scans + |Blockers(zk, r)| <= old(zk.reqs[r].scans + |Blockers(zk, r)|)
        decreases |Blockers(zk, r)|
      {
        ghost var blockers := Blockers(zk, r);
        var before := ScanLocksBefore(r);
        if before != [] {
          assert before[0] in before;
          var there := WatchFirst(r);
          if there {
            assert RequestOk(zk, r);
            return false;
          }
          SubsetSize(Blockers(zk, r), blockers - {before[0]});
        } else {
          Interfere(r);
          Do(Grant(r));
          assert RequestOk(zk, r);
          return true;
        }
      }
    }
  }
}
