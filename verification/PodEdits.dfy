/** The pod specification and the integrity of its mounts: every mount names a declared volume. */
module PodEdits {
  import opened DataMounts
  import opened EnvMerge
  import opened MountSweep
  import opened Options
  import opened Sequences

  datatype Volume = Volume(name: string, source: string)

  /** `mountable` says that there is a list of mounts to add to; an init container may lack it. */
  datatype Container = Container(name: string, mounts: seq<Mount>, mountable: bool, args: seq<string>, env: seq<EnvVar>)

  datatype PodSpec = PodSpec(volumes: seq<Volume>, containers: seq<Container>, initContainers: seq<Container>)

  /** A position in the containers, or in the init containers. */
  datatype Place = Place(init: bool, index: nat)

  predicate Declared(volumes: seq<Volume>, v: string) {
    exists i :: 0 <= i < |volumes| && volumes[i].name == v
  }

  predicate DeclaredTwice(volumes: seq<Volume>, v: string) {
    exists i, j :: 0 <= i < j < |volumes| && volumes[i].name == v && volumes[j].name == v
  }

  predicate MountsDeclared(mounts: seq<Mount>, volumes: seq<Volume>) {
    forall m :: m in mounts ==> Declared(volumes, m.volume)
  }

  predicate AllDeclared(cs: seq<Container>, volumes: seq<Volume>) {
    forall i :: 0 <= i < |cs| ==> MountsDeclared(cs[i].mounts, volumes)
  }

  predicate Integrity(pod: PodSpec) {
    AllDeclared(pod.containers, pod.volumes) && AllDeclared(pod.initContainers, pod.volumes)
  }

  function FirstNamed(cs: seq<Container>, name: string): (r: Option<nat>)
    ensures r.None? ==> forall i :: 0 <= i < |cs| ==> cs[i].name != name
    ensures r.Some? ==> r.value < |cs| && cs[r.value].name == name && forall i :: 0 <= i < r.value ==>
            cs[i].name != name
  {
    if cs == [] then None
    else if cs[0].name == name then Some(0)
    else
      var r := FirstNamed(cs[1..], name);
      if r.None? then None else Some(r.value + 1)
  }

  /** `find_container`: containers first, then init containers; `None` for ValueError. */
  function Find(pod: PodSpec, name: string): (p: Option<Place>)
    ensures p.Some? ==> Has(pod, p.value) && Get(pod, p.value).name == name
    ensures p.None? ==> (forall c :: c in pod.containers || c in pod.initContainers ==> c.name != name)
    ensures p.Some? ==> forall q :: Has(pod, q) && Get(pod, q).name == name ==>
              if p.value.init then q.init && p.value.index <= q.index else q.init || p.value.index <= q.index
  {
    var c, i := FirstNamed(pod.containers, name), FirstNamed(pod.initContainers, name);
    if c.Some? then Some(Place(false, c.value)) else if i.Some? then Some(Place(true, i.value)) else None
  }

  predicate Has(pod: PodSpec, p: Place) {
    p.index < |(if p.init then pod.initContainers else pod.containers)|
  }

  function Get(pod: PodSpec, p: Place): Container
    requires Has(pod, p)
  {
    if p.init then pod.initContainers[p.index] else pod.containers[p.index]
  }

  function Set(pod: PodSpec, p: Place, c: Container): PodSpec
    requires Has(pod, p)
  {
    if p.init then pod.(initContainers := pod.initContainers[p.index := c])
    else pod.(containers := pod.containers[p.index := c])
  }

  function WithoutContainer(pod: PodSpec, p: Place): PodSpec
    requires Has(pod, p)
  {
    if p.init then pod.(initContainers := Without(pod.initContainers, p.index))
    else pod.(containers := Without(pod.containers, p.index))
  }

  /** An edit of one container leaves volumes and all other containers alone. */
  lemma GetSet(pod: PodSpec, p: Place, c: Container, q: Place)
    requires Has(pod, p)
    ensures Set(pod, p, c).volumes == pod.volumes && (Has(Set(pod, p, c), q) <==> Has(pod, q))
    ensures Has(pod, q) ==> Get(Set(pod, p, c), q) == if q == p then c else Get(pod, q)
  {
  }

  predicate AnyAdjacent(cs: seq<Container>, v: string) {
    exists i :: 0 <= i < |cs| && Adjacent(cs[i].mounts, v)
  }

  /** Removing volume `v` will leave no dangling mount. */
  predicate SafeToRemove(pod: PodSpec, v: string) {
    DeclaredTwice(pod.volumes, v) || (!AnyAdjacent(pod.containers, v) && !AnyAdjacent(pod.initContainers, v))
  }

  /** The containers after the sweep: what the loop leaves of their mounts; only mounts of `v` are gone, all but those
      stepped over. */
  predicate Swept(before: seq<Container>, after: seq<Container>, v: string) {
    && |after| == |before|
    && forall i :: 0 <= i < |before| ==>
         && after[i] == before[i].(mounts := after[i].mounts)
         && after[i].mounts == Left([], before[i].mounts, v)
         && Others(after[i].mounts, v) == Others(before[i].mounts, v)
         && Count(after[i].mounts, v) == Survivors(before[i].mounts, v)
  }

  // ---------------------------------------------------------------- list.remove

  /** Removing the first equal element removes at the position found, if nothing before it is equal. */
  lemma {:induction false} RemoveFirstAt<T>(s: seq<T>, i: nat)
    requires i < |s| && forall j :: 0 <= j < i ==> s[j] != s[i]
    ensures RemoveFirst(s, s[i]) == Without(s, i)
  {
    if i > 0 {
      RemoveFirstAt(s[1..], i - 1);
      assert s[1..][i - 1] == s[i];
    }
  }

  // ---------------------------------------------------------------- steps that cannot break integrity

  lemma WithoutContainerKeeps(pod: PodSpec, p: Place)
    requires Integrity(pod) && Has(pod, p)
    ensures Integrity(WithoutContainer(pod, p))
  {
  }

  lemma DeclaredGrows(volumes: seq<Volume>, extra: Volume, v: string)
    ensures Declared(volumes + [extra], v) <==> Declared(volumes, v) || extra.name == v
  {
    var more := volumes + [extra];
    if Declared(volumes, v) {
      var i :| 0 <= i < |volumes| && volumes[i].name == v;
      assert more[i].name == v;
    }
    assert more[|volumes|] == extra;
  }

  lemma AddVolumeKeeps(pod: PodSpec, extra: Volume)
    requires Integrity(pod)
    ensures Integrity(pod.(volumes := pod.volumes + [extra]))
  {
    forall v ensures Declared(pod.volumes, v) ==> Declared(pod.volumes + [extra], v) {
      DeclaredGrows(pod.volumes, extra, v);
    }
  }

  /** Changing one container keeps integrity exactly when its own mounts are declared. */
  lemma SetKeeps(pod: PodSpec, p: Place, c: Container)
    requires Integrity(pod) && Has(pod, p)
    ensures Integrity(Set(pod, p, c)) <==> MountsDeclared(c.mounts, pod.volumes)
  {
    var pod' := Set(pod, p, c);
    assert Get(pod', p) == c;
  }

  // ---------------------------------------------------------------- removing a volume

  lemma DeclaredWithout(volumes: seq<Volume>, i: nat, v: string)
    requires i < |volumes| && forall j :: 0 <= j < i ==> volumes[j].name != volumes[i].name
    ensures Declared(Without(volumes, i), v) <==>
            if v == volumes[i].name then DeclaredTwice(volumes, v) else Declared(volumes, v)
  {
    var less := Without(volumes, i);
    if Declared(less, v) {
      var k :| 0 <= k < |less| && less[k].name == v;
      var k' := if k < i then k else k + 1;
      assert volumes[k'].name == v;
    }
    if v != volumes[i].name && Declared(volumes, v) {
      var k :| 0 <= k < |volumes| && volumes[k].name == v;
      assert less[if k < i then k else k - 1].name == v;
    }
    if v == volumes[i].name && DeclaredTwice(volumes, v) {
      var j, k :| 0 <= j < k < |volumes| && volumes[j].name == v && volumes[k].name == v;
      assert less[k - 1].name == v;
    }
  }

  lemma SweptMounts(before: seq<Mount>, after: seq<Mount>, volumes: seq<Volume>, i: nat)
    requires i < |volumes| && forall j :: 0 <= j < i ==> volumes[j].name != volumes[i].name
    requires MountsDeclared(before, volumes)
    requires var v := volumes[i].name; Others(after, v) == Others(before, v) && Count(after, v) == Survivors(before, v)
    ensures var v := volumes[i].name;
            MountsDeclared(after, Without(volumes, i)) <==> DeclaredTwice(volumes, v) || !Adjacent(before, v)
  {
    var v := volumes[i].name;
    CleanIffNotAdjacent(before, v);
    CountZero(after, v);
    DeclaredWithout(volumes, i, v);
    forall m | m in after && m.volume != v ensures Declared(Without(volumes, i), m.volume) {
      OthersMembers(after, v, m);
      OthersMembers(before, v, m);
      DeclaredWithout(volumes, i, m.volume);
    }
  }

  /** Removing a volume keeps integrity if and only if it is safe: the volume is declared again, or no container
      has two neighbouring mounts of it. */
  lemma RemoveVolumeIntegrity(pod: PodSpec, i: nat, pod': PodSpec)
    requires Integrity(pod) && i < |pod.volumes|
    requires forall j :: 0 <= j < i ==> pod.volumes[j].name != pod.volumes[i].name
    requires var v := pod.volumes[i].name;
             pod'.volumes == Without(pod.volumes, i) && Swept(pod.containers, pod'.containers, v)
             && Swept(pod.initContainers, pod'.initContainers, v)
    ensures Integrity(pod') <==> SafeToRemove(pod, pod.volumes[i].name)
  {
    SweptContainers(pod.containers, pod'.containers, pod.volumes, i);
    SweptContainers(pod.initContainers, pod'.initContainers, pod.volumes, i);
  }

  lemma SweptContainers(before: seq<Container>, after: seq<Container>, volumes: seq<Volume>, i: nat)
    requires i < |volumes| && forall j :: 0 <= j < i ==> volumes[j].name != volumes[i].name
    requires AllDeclared(before, volumes) && Swept(before, after, volumes[i].name)
    ensures var v := volumes[i].name;
            AllDeclared(after, Without(volumes, i)) <==> DeclaredTwice(volumes, v) || !AnyAdjacent(before, v)
  {
    forall k | 0 <= k < |before|
      ensures MountsDeclared(after[k].mounts, Without(volumes, i))
              <==> DeclaredTwice(volumes, volumes[i].name) || !Adjacent(before[k].mounts, volumes[i].name)
    {
      SweptMounts(before[k].mounts, after[k].mounts, volumes, i);
    }
  }

  const TWO_MOUNTS := PodSpec([Volume("v", "")],
                              [Container("c", [Mount("v", "/a", None), Mount("v", "/b", None)], true, [], [])], [])

  /** Two mounts of the removed volume side by side: whatever the removal leaves, one of them dangles. */
  lemma AdjacentMountsDangle(after: PodSpec)
    requires after.volumes == Without(TWO_MOUNTS.volumes, 0) && Swept(TWO_MOUNTS.containers, after.containers, "v")
    requires Swept(TWO_MOUNTS.initContainers, after.initContainers, "v")
    ensures Integrity(TWO_MOUNTS) && !Integrity(after)
  {
    var volumes, cs := TWO_MOUNTS.volumes, TWO_MOUNTS.containers;
    var mounts := cs[0].mounts;
    assert volumes[0].name == "v";
    assert mounts[0].volume == "v" && mounts[0 + 1].volume == "v";
    assert Adjacent(mounts, "v");
    assert AnyAdjacent(cs, "v");
    RemoveVolumeIntegrity(TWO_MOUNTS, 0, after);
  }
}
