/** Removing the mounts of a volume with a loop that deletes from the list it walks over. */
module MountSweep {
  import opened DataMounts

  /** `list.remove`: the first equal element goes. */
  function RemoveFirst<T(==)>(s: seq<T>, x: T): (r: seq<T>)
    requires x in s
    ensures |r| == |s| - 1
  {
    if s[0] == x then s[1..] else [s[0]] + RemoveFirst(s[1..], x)
  }

  function Count(mounts: seq<Mount>, v: string): nat {
    if mounts == [] then 0 else (if mounts[0].volume == v then 1 else 0) + Count(mounts[1..], v)
  }

  function Others(mounts: seq<Mount>, v: string): seq<Mount> {
    if mounts == [] then [] else (if mounts[0].volume == v then [] else [mounts[0]]) + Others(mounts[1..], v)
  }

  /** How many mounts of `v` the loop steps over: after each deletion it skips one element. */
  function Survivors(mounts: seq<Mount>, v: string): nat {
    if mounts == [] then 0
    else if mounts[0].volume != v then Survivors(mounts[1..], v)
    else if |mounts| == 1 then 0
    else (if mounts[1].volume == v then 1 else 0) + Survivors(mounts[2..], v)
  }

  predicate Adjacent(mounts: seq<Mount>, v: string) {
    exists i :: 0 <= i < |mounts| - 1 && mounts[i].volume == v && mounts[i + 1].volume == v
  }

  /** The mounts the loop steps over or does not ask about, as they stand in the list. */
  function Kept(mounts: seq<Mount>, v: string): seq<Mount> {
    if mounts == [] then []
    else if mounts[0].volume != v then [mounts[0]] + Kept(mounts[1..], v)
    else if |mounts| == 1 then []
    else [mounts[1]] + Kept(mounts[2..], v)
  }

  /** What the loop leaves, with `kept` behind it and `rest` before it.  If an equal mount was stepped over
      earlier, that one is deleted and the mount at hand stays in its own place. */
  function Left(kept: seq<Mount>, rest: seq<Mount>, v: string): seq<Mount>
    decreases |rest|
  {
    if rest == [] then kept
    else if rest[0].volume != v then Left(kept + [rest[0]], rest[1..], v)
    else if |rest| == 1 then Dropped(kept, rest[0])
    else Left(Dropped(kept, rest[0]) + [rest[1]], rest[2..], v)
  }

  function Dropped(kept: seq<Mount>, x: Mount): seq<Mount> {
    if x in kept then RemoveFirst(kept, x) + [x] else kept
  }

  // ---------------------------------------------------------------- deleting one mount

  lemma {:induction false} RemoveInFront(a: seq<Mount>, b: seq<Mount>, x: Mount)
    requires x in a
    ensures RemoveFirst(a + b, x) == RemoveFirst(a, x) + b
  {
    assert (a + b)[1..] == a[1..] + b;
    if a[0] != x {
      RemoveInFront(a[1..], b, x);
      assert RemoveFirst(a, x) == [a[0]] + RemoveFirst(a[1..], x);
    }
  }

  lemma {:induction false} RemoveBehind(a: seq<Mount>, b: seq<Mount>, x: Mount)
    requires x !in a && b != [] && b[0] == x
    ensures RemoveFirst(a + b, x) == a + b[1..]
  {
    if a == [] {
      assert a + b == b;
    } else {
      assert (a + b)[1..] == a[1..] + b && (a + b)[0] == a[0];
      RemoveBehind(a[1..], b, x);
    }
  }

  /** Deleting the element between `a` and `c` by value. */
  lemma RemoveBetween(a: seq<Mount>, x: Mount, c: seq<Mount>)
    ensures RemoveFirst(a + ([x] + c), x) == Dropped(a, x) + c
  {
    if x in a {
      RemoveInFront(a, [x] + c, x);
      assert RemoveFirst(a, x) + ([x] + c) == RemoveFirst(a, x) + [x] + c;
    } else {
      RemoveBehind(a, [x] + c, x);
    }
  }

  lemma DroppedLength(kept: seq<Mount>, x: Mount)
    ensures |Dropped(kept, x)| == |kept|
  {
  }

  /** What is left if the loop goes on at position `i`; past the end, that is the list. */
  ghost function LeftFrom(s: seq<Mount>, i: nat, v: string): seq<Mount> {
    if i <= |s| then Left(s[..i], s[i..], v) else s
  }

  lemma LeftUnfold(kept: seq<Mount>, x: Mount, tail: seq<Mount>, v: string)
    requires x.volume == v
    ensures Left(kept, [x] + tail, v) == if tail == [] then Dropped(kept, x)
            else Left(Dropped(kept, x) + [tail[0]], tail[1..], v)
  {
    var rest := [x] + tail;
    assert rest[0] == x && (tail != [] ==> rest[1] == tail[0] && rest[2..] == tail[1..]);
  }

  lemma LeftFromSum(base: seq<Mount>, tail: seq<Mount>, v: string)
    ensures LeftFrom(base + tail, |base| + 1, v) == if tail == [] then base else Left(base + [tail[0]], tail[1..], v)
  {
    var s := base + tail;
    if tail == [] {
      assert s == base;
    } else {
      assert s[..|base| + 1] == base + [tail[0]] && s[|base| + 1..] == tail[1..];
    }
  }

  lemma DeleteBetween(kept: seq<Mount>, x: Mount, tail: seq<Mount>, v: string)
    requires x.volume == v
    ensures LeftFrom(RemoveFirst(kept + ([x] + tail), x), |kept| + 1, v) == Left(kept, [x] + tail, v)
  {
    RemoveBetween(kept, x, tail);
    DroppedLength(kept, x);
    LeftUnfold(kept, x, tail, v);
    LeftFromSum(Dropped(kept, x), tail, v);
  }

  lemma DeleteStep(s: seq<Mount>, i: nat, v: string)
    requires i < |s| && s[i].volume == v
    ensures LeftFrom(RemoveFirst(s, s[i]), i + 1, v) == LeftFrom(s, i, v)
  {
    DeleteBetween(s[..i], s[i], s[i + 1..], v);
    assert s[i..] == [s[i]] + s[i + 1..];
    assert s == s[..i] + s[i..];
  }

  lemma SkipStep(s: seq<Mount>, i: nat, v: string)
    requires i < |s| && s[i].volume != v
    ensures LeftFrom(s, i + 1, v) == LeftFrom(s, i, v)
  {
    assert s[..i + 1] == s[..i] + [s[i]] && s[i..][1..] == s[i + 1..];
  }

  /** The inner loop of `remove_volume`. */
  method SweepMounts(mounts: seq<Mount>, v: string) returns (s: seq<Mount>)
    ensures s == Left([], mounts, v)
  {
    s := mounts;
    var i := 0;
    assert mounts[..0] == [] && mounts[0..] == mounts;
    while i < |s|
      invariant i <= |s| + 1
      invariant LeftFrom(s, i, v) == Left([], mounts, v)
      decreases |s| - i
    {
      if s[i].volume == v {
        DeleteStep(s, i, v);
        s := RemoveFirst(s, s[i]);
      } else {
        SkipStep(s, i, v);
      }
      i := i + 1;
    }
    assert i == |s| ==> s[..i] == s && s[i..] == [];
  }

  lemma {:induction false} CountOfSum(a: seq<Mount>, b: seq<Mount>, v: string)
    ensures Count(a + b, v) == Count(a, v) + Count(b, v)
  {
    if a == [] {
      assert a + b == b;
    } else {
      assert (a + b)[1..] == a[1..] + b;
      CountOfSum(a[1..], b, v);
    }
  }

  lemma {:induction false} OthersOfSum(a: seq<Mount>, b: seq<Mount>, v: string)
    ensures Others(a + b, v) == Others(a, v) + Others(b, v)
  {
    if a == [] {
      assert a + b == b;
    } else {
      assert (a + b)[1..] == a[1..] + b && (a + b)[0] == a[0];
      OthersOfSum(a[1..], b, v);
      var first := if a[0].volume == v then [] else [a[0]];
      assert Others(a, v) == first + Others(a[1..], v);
      assert first + (Others(a[1..], v) + Others(b, v)) == first + Others(a[1..], v) + Others(b, v);
    }
  }

  lemma CountSplit(a: seq<Mount>, b: seq<Mount>, v: string)
    ensures Count(a + b, v) == Count(a, v) + Count(b, v) && Others(a + b, v) == Others(a, v) + Others(b, v)
  {
    CountOfSum(a, b, v);
    OthersOfSum(a, b, v);
  }

  lemma {:induction false} DroppedCounts(kept: seq<Mount>, x: Mount)
    ensures Count(Dropped(kept, x), x.volume) == Count(kept, x.volume)
    ensures Others(Dropped(kept, x), x.volume) == Others(kept, x.volume)
  {
    if x in kept {
      RemoveFirstMount(kept, x);
      CountSplit(RemoveFirst(kept, x), [x], x.volume);
    }
  }

  lemma {:induction false} RemoveFirstMount(s: seq<Mount>, x: Mount)
    requires x in s
    ensures Others(RemoveFirst(s, x), x.volume) == Others(s, x.volume)
    ensures Count(RemoveFirst(s, x), x.volume) == Count(s, x.volume) - 1
  {
    if s[0] != x { RemoveFirstMount(s[1..], x); }
  }

  /** All other mounts stay in order. */
  lemma {:induction false} LeftOthers(kept: seq<Mount>, rest: seq<Mount>, v: string)
    ensures Others(Left(kept, rest, v), v) == Others(kept, v) + Others(rest, v)
    decreases |rest|
  {
    if rest != [] && rest[0].volume != v {
      LeftOthers(kept + [rest[0]], rest[1..], v);
      CountSplit(kept, [rest[0]], v);
      assert Others([rest[0]], v) == [rest[0]];
    } else if |rest| == 1 {
      DroppedCounts(kept, rest[0]);
    } else if rest != [] {
      var base := Dropped(kept, rest[0]);
      DroppedCounts(kept, rest[0]);
      LeftOthers(base + [rest[1]], rest[2..], v);
      CountSplit(base, [rest[1]], v);
      CountSplit([rest[1]], rest[2..], v);
      assert rest[1..] == [rest[1]] + rest[2..];
    }
  }

  /** As many mounts of `v` are left as were stepped over. */
  lemma {:induction false} LeftCount(kept: seq<Mount>, rest: seq<Mount>, v: string)
    ensures Count(Left(kept, rest, v), v) == Count(kept, v) + Survivors(rest, v)
    decreases |rest|
  {
    if rest != [] && rest[0].volume != v {
      LeftCount(kept + [rest[0]], rest[1..], v);
      CountSplit(kept, [rest[0]], v);
    } else if |rest| == 1 {
      DroppedCounts(kept, rest[0]);
    } else if rest != [] {
      DroppedCounts(kept, rest[0]);
      LeftCount(Dropped(kept, rest[0]) + [rest[1]], rest[2..], v);
      CountSplit(Dropped(kept, rest[0]), [rest[1]], v);
    }
  }

  predicate NoEqualMounts(s: seq<Mount>, v: string) {
    forall i, j :: 0 <= i < j < |s| && s[i].volume == v ==> s[i] != s[j]
  }

  lemma DropFromMiddle(kept: seq<Mount>, rest: seq<Mount>, v: string)
    requires NoEqualMounts(kept + rest, v) && rest != [] && rest[0].volume == v
    ensures Dropped(kept, rest[0]) == kept && NoEqualMounts(kept + rest[1..], v)
  {
    var all, fewer := kept + rest, kept + rest[1..];
    forall k | 0 <= k < |kept| ensures kept[k] != rest[0] {
      assert all[k] == kept[k] && all[|kept|] == rest[0];
    }
    forall i, j | 0 <= i < j < |fewer| && fewer[i].volume == v ensures fewer[i] != fewer[j] {
      assert fewer[i] == all[if i < |kept| then i else i + 1] && fewer[j] == all[if j < |kept| then j else j + 1];
    }
  }

  /** Without equal mounts of `v` exactly the mounts stepped over are left, each in its place. */
  lemma {:induction false} LeftIsKept(kept: seq<Mount>, rest: seq<Mount>, v: string)
    requires NoEqualMounts(kept + rest, v)
    ensures Left(kept, rest, v) == kept + Kept(rest, v)
    decreases |rest|
  {
    if rest != [] && rest[0].volume != v {
      assert kept + [rest[0]] + rest[1..] == kept + rest;
      LeftIsKept(kept + [rest[0]], rest[1..], v);
    } else if rest != [] {
      DropFromMiddle(kept, rest, v);
      if |rest| > 1 {
        assert kept + [rest[1]] + rest[2..] == kept + rest[1..];
        LeftIsKept(kept + [rest[1]], rest[2..], v);
      }
    }
  }

  // ---------------------------------------------------------------- what is left

  lemma AdjacentTail(mounts: seq<Mount>, v: string)
    requires mounts != []
    ensures Adjacent(mounts, v) <==>
            (|mounts| > 1 && mounts[0].volume == v && mounts[1].volume == v) || Adjacent(mounts[1..], v)
  {
    var tail := mounts[1..];
    if Adjacent(tail, v) {
      var i :| 0 <= i < |tail| - 1 && tail[i].volume == v && tail[i + 1].volume == v;
      assert mounts[i + 1].volume == v && mounts[i + 1 + 1].volume == v;
    }
    if Adjacent(mounts, v) {
      var i :| 0 <= i < |mounts| - 1 && mounts[i].volume == v && mounts[i + 1].volume == v;
      if i > 0 { assert tail[i - 1].volume == v && tail[i - 1 + 1].volume == v; }
    }
  }

  /** The loop removes every mount of the volume if and only if no two of them are neighbours. */
  lemma {:induction false} CleanIffNotAdjacent(mounts: seq<Mount>, v: string)
    ensures Survivors(mounts, v) == 0 <==> !Adjacent(mounts, v)
  {
    if mounts != [] {
      AdjacentTail(mounts, v);
      if mounts[0].volume != v {
        CleanIffNotAdjacent(mounts[1..], v);
      } else if |mounts| > 1 {
        AdjacentTail(mounts[1..], v);
        assert mounts[1..][1..] == mounts[2..];
        CleanIffNotAdjacent(mounts[2..], v);
      }
    }
  }

  lemma {:induction false} CountZero(s: seq<Mount>, v: string)
    ensures Count(s, v) == 0 <==> forall m :: m in s ==> m.volume != v
  {
    if s != [] { CountZero(s[1..], v); assert s == [s[0]] + s[1..]; }
  }

  lemma {:induction false} OthersMembers(s: seq<Mount>, v: string, m: Mount)
    ensures m in Others(s, v) <==> m in s && m.volume != v
  {
    if s != [] { OthersMembers(s[1..], v, m); assert s == [s[0]] + s[1..]; }
  }
}
