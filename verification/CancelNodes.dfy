/** Cancellation: the read / compare-and-set loop over the status nodes of an action, against other
    writers that may write, delete and create nodes between any two calls. */
module CancelNodes {
  import opened Options
  import opened FetchStates
  import opened StatusPaths

  /** A status node: a child of the node of its client and action. */
  datatype Key = Key(parent: string, child: string)

  function PathOfKey(k: Key): string { k.parent + "/" + k.child }

  datatype ZNode = ZNode(result: FetcherResult, version: nat)

  type Store = map<Key, ZNode>

  /** What others do.  A fetcher job and another cancellation only ever write final results. */
  datatype Other = Write(key: Key, res: FetcherResult) | Delete(key: Key) | Create(key: Key)

  /** One of our successful writes: the history index it produced, and the node. */
  datatype Move = Move(at: nat, key: Key)

  predicate Final(n: ZNode) { n.result.status.Final() }

  /** Every node starts at version 0 with the initial data, and every write makes it final. */
  predicate VersionsOk(nodes: Store) {
    forall k :: k in nodes ==> if nodes[k].version == 0 then nodes[k].result == InitialData else Final(nodes[k])
  }

  /** The node has finished or is gone. */
  predicate Settled(nodes: Store, key: Key) {
    key !in nodes || Final(nodes[key])
  }

  predicate IsMove(hist: seq<Store>, m: Move) {
    && 0 < m.at < |hist|
    && var before := hist[m.at - 1];
    && m.key in before && !Final(before[m.key])
    && hist[m.at] == before[m.key := ZNode(before[m.key].result.(status := CANCELED), before[m.key].version + 1)]
  }

  ghost function CountKey(keys: seq<Key>, key: Key): nat {
    if keys == [] then 0 else CountKey(keys[..|keys| - 1], key) + if keys[|keys| - 1] == key then 1 else 0
  }

  /** A finished or missing node can only become unfinished by being created again. */
  ghost predicate Reborn(before: Store, after: Store, created0: seq<Key>, created1: seq<Key>, key: Key) {
    && CountKey(created0, key) <= CountKey(created1, key)
    && (Settled(before, key) && !Settled(after, key) ==> CountKey(created0, key) < CountKey(created1, key))
  }

  function ApplyOther(nodes: Store, a: Other): Store {
    match a
    case Write(key, res) =>
      if key in nodes && res.status.Final() then nodes[key := ZNode(res, nodes[key].version + 1)] else nodes
    case Delete(key) => nodes - {key}
    case Create(key) => if key in nodes then nodes else nodes[key := ZNode(InitialData, 0)]
  }

  ghost function Births(nodes: Store, a: Other): seq<Key> {
    if a.Create? && a.key !in nodes then [a.key] else []
  }

  lemma OtherStep(nodes: Store, created: seq<Key>, a: Other, key: Key)
    ensures Reborn(nodes, ApplyOther(nodes, a), created, created + Births(nodes, a), key)
  {
    var created' := created + Births(nodes, a);
    if a.Create? && a.key !in nodes {
      assert created'[..|created'| - 1] == created;
    } else {
      assert created' == created;
    }
  }

  datatype SetResult = Ok | BadVersion | NoNode

  class StatusTree {
    var nodes: Store
    var parents: set<string>
    var others: seq<Other>          // what the others still do, in this order
    ghost var hist: seq<Store>      // every state of the store
    ghost var moves: seq<Move>      // our successful writes
    ghost var created: seq<Key>     // nodes created by others

    ghost predicate Valid()
      reads this
    {
      && hist != [] && hist[|hist| - 1] == nodes && VersionsOk(nodes)
      && (forall k :: k in nodes ==> k.parent in parents)
      && (forall m :: m in moves ==> IsMove(hist, m))
    }

    constructor (nodes: Store, parents: set<string>, others: seq<Other>)
      requires VersionsOk(nodes) && forall k :: k in nodes ==> k.parent in parents
      ensures Valid() && hist == [nodes] && moves == [] && created == []
    {
      this.nodes, this.parents, this.others := nodes, parents, others;
      hist, moves, created := [nodes], [], [];
    }

    /** The others take their next step. */
    method TakeTurn()
      requires Valid() && others != []
      modifies this
      ensures Valid() && old(hist) <= hist && moves == old(moves) && old(created) <= created
      ensures others == old(others)[1..]
      ensures forall key :: Reborn(old(nodes), nodes, old(created), created, key)
    {
      var a := others[0];
      others := others[1..];
      forall key ensures Reborn(nodes, ApplyOther(nodes, a), created, created + Births(nodes, a), key) {
        OtherStep(nodes, created, a, key);
      }
      created := created + Births(nodes, a);
      nodes := ApplyOther(nodes, a);
      parents := if a.Create? then parents + {a.key.parent} else parents;
      hist := hist + [nodes];
    }

    /** The others take some of their steps. */
    method Interfere()
      requires Valid()
      modifies this
      ensures Valid() && old(hist) <= hist && moves == old(moves) && old(created) <= created
      ensures |others| <= |old(others)| && (|others| == |old(others)| ==> nodes == old(nodes))
      ensures forall key :: Reborn(old(nodes), nodes, old(created), created, key)
    {
      var more: bool := *;
      while more && others != []
        invariant Valid() && old(hist) <= hist && moves == old(moves) && old(created) <= created
        invariant |others| <= |old(others)| && (|others| == |old(others)| ==> nodes == old(nodes))
        invariant forall key :: Reborn(old(nodes), nodes, old(created), created, key)
        decreases |others|
      {
        ghost var nodes1, created1 := nodes, created;
        assert forall key :: Reborn(old(nodes), nodes1, old(created), created1, key);
        TakeTurn();
        forall key ensures Reborn(old(nodes), nodes, old(created), created, key) {
          assert Reborn(old(nodes), nodes1, old(created), created1, key) &&
              Reborn(nodes1, nodes, created1, created, key);
        }
        more := *;
      }
    }

    method GetChildren(parent: string) returns (children: Option<seq<Key>>)
      ensures children.None? <==> parent !in parents
      ensures children.Some? ==> (forall k :: k in children.value <==> k in nodes && k.parent == parent)
      ensures children.Some? ==> forall i, j :: 0 <= i < j < |children.value| ==> children.value[i] != children.value[j]
    {
      if parent !in parents { return None; }
      var keys := [];
      var rest := set k | k in nodes && k.parent == parent;
      while rest != {}
        invariant forall k :: k in nodes && k.parent == parent <==> k in rest || k in keys
        invariant forall k :: k in keys ==> k !in rest
        invariant forall i, j :: 0 <= i < j < |keys| ==> keys[i] != keys[j]
        decreases rest
      {
        var k :| k in rest;
        keys := keys + [k];
        rest := rest - {k};
      }
      children := Some(keys);
    }

    /** `set` with a version: compare-and-set. */
    method SetVersioned(key: Key, res: FetcherResult, version: nat) returns (r: SetResult)
      requires Valid()
      requires key in nodes && nodes[key].version == version ==>
                 !Final(nodes[key]) && res == nodes[key].result.(status := CANCELED)
      modifies this`nodes, this`hist, this`moves
      ensures Valid() && old(hist) <= hist
      ensures r == if key !in old(nodes) then NoNode else if old(nodes)[key].version != version then BadVersion else Ok
      ensures r == Ok ==>
                moves == old(moves) + [Move(|old(hist)|, key)] && Settled(nodes, key) && hist == old(hist) + [nodes]
      ensures r != Ok ==> nodes == old(nodes) && moves == old(moves) && hist == old(hist)
    {
      if key !in nodes { return NoNode; }
      if nodes[key].version != version { return BadVersion; }
      nodes := nodes[key := ZNode(res, version + 1)];
      hist := hist + [nodes];
      moves := moves + [Move(|hist| - 1, key)];
      r := Ok;
    }

    /** The loop for one child.  `tries` counts how often its body runs. */
    method CancelChild(key: Key) returns (canceled: bool, ghost tries: nat)
      requires Valid()
      modifies this
      ensures Valid() && old(hist) <= hist && old(created) <= created
      ensures if canceled then |moves| == |old(moves)| + 1 && moves[..|old(moves)|] == old(moves) &&
              moves[|old(moves)|].key == key
              else moves == old(moves)
      ensures forall m :: m in moves[|old(moves)|..] ==> |old(hist)| <= m.at
      ensures exists k :: |old(hist)| - 1 <= k < |hist| && Settled(hist[k], key)
      ensures tries <= 2 + CountKey(created, key) - CountKey(old(created), key)
    {
      canceled, tries := false, 0;
      while true
        invariant Valid() && old(hist) <= hist && old(created) <= created && moves == old(moves) && !canceled
        invariant CountKey(old(created), key) <= CountKey(created, key)
        invariant tries > 0 ==> Settled(nodes, key) && tries <= 1 + CountKey(created, key) - CountKey(old(created), key)
        decreases |others|
      {
        ghost var nodes0, created0 := nodes, created;
        Interfere();
        assert Reborn(nodes0, nodes, created0, created, key);
        tries := tries + 1;
        if key !in nodes || Final(nodes[key]) {
          assert Settled(hist[|hist| - 1], key);
          return;
        }
        var data := nodes[key];
        ghost var nodes1, created1 := nodes, created;
        Interfere();
        assert Reborn(nodes1, nodes, created1, created, key);
        var r := SetVersioned(key, data.result.(status := CANCELED), data.version);
        if r != BadVersion {
          assert Settled(hist[|hist| - 1], key);
          canceled := r == Ok;
          return;
        }
      }
    }

    /** `_update_nodes_to_cancel`.  Each of our writes moved a non-final status of this client and action to CANCELED,
        the result counts them, and every child that was listed has, at some moment of the call, finished or gone. */
    method UpdateNodesToCancel(client: string, action: string) returns (updated: nat)
      requires Valid()
      modifies this
      ensures Valid() && old(hist) <= hist
      ensures old(moves) <= moves && updated == |moves| - |old(moves)|
      ensures forall m :: m in moves[|old(moves)|..] ==>
              m.key.parent == ActionPath(client, action) && IsMove(hist, m) && |old(hist)| <= m.at
      ensures forall a, b :: |old(moves)| <= a < b < |moves| ==>
              moves[a].at < moves[b].at && moves[a].key != moves[b].key
      ensures exists listed ::
                |old(hist)| - 1 <= listed < |hist| && ChildrenSettled(hist, listed, ActionPath(client, action))
    {
      var parent := ActionPath(client, action);
      updated := 0;
      Interfere();
      var children := GetChildren(parent);
      ghost var listed := |hist| - 1;
      if children.None? {
        assert ChildrenSettled(hist, listed, parent);
        return;
      }
      var keys := children.value;
      ghost var hist0, moves0 := hist, moves;
      for i := 0 to |keys|
        invariant Valid() && hist0 <= hist && moves0 <= moves && updated == |moves| - |moves0|
        invariant forall m :: m in moves[|moves0|..] ==> m.key.parent == parent && |old(hist)| <= m.at
        invariant forall a :: |moves0| <= a < |moves| ==> moves[a].at < |hist| && moves[a].key in keys[..i]
        invariant forall a, b :: |moves0| <= a < b < |moves| ==>
                moves[a].at < moves[b].at && moves[a].key != moves[b].key
        invariant forall j :: 0 <= j < i ==> SettledSince(hist, listed, keys[j])
      {
        ghost var hist1, moves1 := hist, moves;
        var canceled, _ := CancelChild(keys[i]);
        assert keys[..i + 1] == keys[..i] + [keys[i]];
        assert keys[i] !in keys[..i];
        if canceled {
          updated := updated + 1;
          assert moves == moves1 + [moves[|moves1|]];
          assert moves[|moves1|] in moves[|moves1|..] && moves[|moves1|] in moves;
          assert IsMove(hist, moves[|moves1|]);
        }
        forall j | 0 <= j <= i ensures SettledSince(hist, listed, keys[j]) {
          if j < i { SettledStays(hist1, hist, listed, keys[j]); }
        }
      }
      forall key | key in hist[listed] && key.parent == parent ensures SettledSince(hist, listed, key) {
        assert key in keys;
      }
      assert ChildrenSettled(hist, listed, parent);
    }
  }

  ghost predicate SettledSince(hist: seq<Store>, from: nat, key: Key) {
    exists k :: from <= k < |hist| && Settled(hist[k], key)
  }

  lemma SettledStays(h: seq<Store>, h': seq<Store>, from: nat, key: Key)
    requires h <= h' && SettledSince(h, from, key)
    ensures SettledSince(h', from, key)
  {
    var k :| from <= k < |h| && Settled(h[k], key);
    assert Settled(h'[k], key);
  }

  /** Every child present at history index `from` is settled then or later. */
  ghost predicate ChildrenSettled(hist: seq<Store>, from: nat, parent: string) {
    from < |hist| && forall key :: key in hist[from] && key.parent == parent ==> SettledSince(hist, from, key)
  }
}
