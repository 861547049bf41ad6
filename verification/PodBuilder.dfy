/** The builder that edits a pod specification in place. */
module PodBuilder {
  import opened DataMounts
  import opened Decimals
  import opened EnvMerge
  import opened MountSweep
  import opened Options
  import opened PodEdits
  import opened PullerText
  import opened Sequences

  const DATA_PULLER := "data-puller"
  const SCRIPTS_VOLUME := "scripts-volume"
  const SCRIPT_PULLER := "script-puller"
  const SHARED_MEMORY := "dshm"
  const SHARED_MEMORY_MOUNT := Mount(SHARED_MEMORY, "/dev/shm", None)
  const SCRIPTS_VAR := "BAI_SCRIPTS_PATH"
  const SCRIPTS_PATH := "/bai/scripts"

  /** Finished, or the exception that ended the step. */
  datatype Outcome = Finished | ValueError | DescriptorError | TypeError

  datatype Script = Script(bucket: string, key: string)

  function ScriptEntry(s: Script, i: nat): seq<string> {
    [s.key, "777", SCRIPTS_PATH + "/s" + Decimal(i), "unpack_in_place"]
  }

  function ScriptEntries(scripts: seq<Script>): (es: seq<seq<string>>)
    ensures |es| == |scripts| && forall i :: 0 <= i < |es| ==> es[i] == ScriptEntry(scripts[i], i)
  {
    seq(|scripts|, i requires 0 <= i < |scripts| => ScriptEntry(scripts[i], i))
  }

  /** The pod as one removal leaves it. */
  ghost predicate VolumeRemoved(pod: PodSpec, pod': PodSpec, v: string) {
    exists i :: 0 <= i < |pod.volumes| && pod.volumes[i].name == v &&
        (forall j :: 0 <= j < i ==> pod.volumes[j].name != v)
      && pod'.volumes == Without(pod.volumes, i)
      && Swept(pod.containers, pod'.containers, v) && Swept(pod.initContainers, pod'.initContainers, v)
  }

  lemma VolumeRemovedIntegrity(pod: PodSpec, pod': PodSpec, v: string)
    requires Integrity(pod) && VolumeRemoved(pod, pod', v)
    ensures Integrity(pod') <==> SafeToRemove(pod, v)
  {
    var i :| 0 <= i < |pod.volumes| && pod.volumes[i].name == v && (forall j :: 0 <= j < i ==> pod.volumes[j].name != v)
      && pod'.volumes == Without(pod.volumes, i)
      && Swept(pod.containers, pod'.containers, v) && Swept(pod.initContainers, pod'.initContainers, v);
    RemoveVolumeIntegrity(pod, i, pod');
  }

  /** The pod without a puller that has nothing to do, and without its volume. */
  ghost predicate PullerRemoved(pod: PodSpec, pod': PodSpec, puller: string, v: string) {
    Find(pod, puller).Some? && VolumeRemoved(WithoutContainer(pod, Find(pod, puller).value), pod', v)
  }

  function WithShm(pod: PodSpec): PodSpec {
    pod.(volumes := pod.volumes + [Volume(SHARED_MEMORY, "Memory")])
  }

  function ShmOutcome(pod: PodSpec, container: string): Outcome {
    match Find(pod, container)
    case None => ValueError
    case Some(p) => if Get(pod, p).mountable then Finished else TypeError
  }

  ghost predicate SafeWithoutPuller(pod: PodSpec, puller: string, v: string) {
    Find(pod, puller).Some? ==> SafeToRemove(WithoutContainer(pod, Find(pod, puller).value), v)
  }

  /** The data puller's step succeeds. */
  ghost predicate PullerReady(pod: PodSpec, sources: seq<Source>) {
    && Find(pod, DATA_PULLER).Some?
    && if sources == [] then Declared(pod.volumes, DATASETS_VOLUME)
       else forall i :: 0 <= i < |sources| ==> IsS3(sources[i].scheme)
  }

  ghost function DataArgs(sources: seq<Source>, chmod: string, vols: seq<PathDir>): seq<string>
    requires sources != [] && AllMapped(sources, vols)
  {
    [sources[0].bucket, Format(Entries(sources, chmod, vols))]
  }

  /** The pod with new arguments for one container. */
  ghost function Told(pod: PodSpec, name: string, args: seq<string>): PodSpec
    requires Find(pod, name).Some?
  {
    var p := Find(pod, name).value;
    Set(pod, p, Get(pod, p).(args := args))
  }

  /** The pod with more mounts in one container. */
  ghost function Mounted(pod: PodSpec, p: Place, mounts: seq<Mount>): PodSpec
    requires Has(pod, p)
  {
    Set(pod, p, Get(pod, p).(mounts := Get(pod, p).mounts + mounts))
  }

  class Pod {
    var volumes: seq<Volume>
    var containers: seq<Container>
    var initContainers: seq<Container>
    var internalEnv: seq<EnvVar>

    ghost function Spec(): PodSpec
      reads this
    {
      PodSpec(volumes, containers, initContainers)
    }

    method FindContainer(name: string) returns (p: Option<Place>)
      ensures p == Find(Spec(), name)
    {
      p := Find(PodSpec(volumes, containers, initContainers), name);
    }

    method RemoveContainer(name: string) returns (ok: bool)
      modifies this`containers, this`initContainers
      ensures ok <==> Find(old(Spec()), name).Some?
      ensures Spec() == if ok then WithoutContainer(old(Spec()), Find(old(Spec()), name).value) else old(Spec())
      ensures old(Integrity(Spec())) ==> Integrity(Spec())
    {
      var c := FirstNamed(containers, name);
      var i := FirstNamed(initContainers, name);
      ghost var before := Spec();
      if c.Some? {
        RemoveFirstAt(containers, c.value);
        containers := RemoveFirst(containers, containers[c.value]);
      } else if i.Some? {
        RemoveFirstAt(initContainers, i.value);
        initContainers := RemoveFirst(initContainers, initContainers[i.value]);
      }
      ok := c.Some? || i.Some?;
      if ok && Integrity(before) { WithoutContainerKeeps(before, Find(before, name).value); }
    }

    method SweepContainers(cs: seq<Container>, v: string) returns (r: seq<Container>)
      ensures Swept(cs, r, v)
    {
      r := [];
      for k := 0 to |cs|
        invariant Swept(cs[..k], r, v)
      {
        var mounts := SweepMounts(cs[k].mounts, v);
        LeftOthers([], cs[k].mounts, v);
        LeftCount([], cs[k].mounts, v);
        r := r + [cs[k].(mounts := mounts)];
      }
      assert cs[..|cs|] == cs;
    }

    method RemoveVolume(v: string) returns (ok: bool)
      modifies this`volumes, this`containers, this`initContainers
      ensures ok <==> old(Declared(volumes, v))
      ensures !ok ==> Spec() == old(Spec())
      ensures ok ==> VolumeRemoved(old(Spec()), Spec(), v)
      ensures ok && old(Integrity(Spec())) ==> (Integrity(Spec()) <==> old(SafeToRemove(Spec(), v)))
    {
      ghost var before := Spec();
      ok := false;
      var i := 0;
      while i < |volumes| && volumes[i].name != v
        invariant i <= |volumes|
        invariant forall j :: 0 <= j < i ==> volumes[j].name != v
      {
        i := i + 1;
      }
      if i < |volumes| {
        ok := true;
        RemoveFirstAt(volumes, i);
        volumes := RemoveFirst(volumes, volumes[i]);
        containers := SweepContainers(containers, v);
        initContainers := SweepContainers(initContainers, v);
        assert VolumeRemoved(before, Spec(), v);
        if Integrity(before) { VolumeRemovedIntegrity(before, Spec(), v); }
      }
    }

    method SetContainer(p: Place, c: Container)
      requires Has(Spec(), p)
      modifies this`containers, this`initContainers
      ensures Spec() == Set(old(Spec()), p, c)
    {
      if p.init {
        initContainers := initContainers[p.index := c];
      } else {
        containers := containers[p.index := c];
      }
    }

    /** Shared memory: the volume comes before its mount, so integrity survives also when the mount cannot be added. */
    method AddExtendedShm(container: string) returns (r: Outcome)
      modifies this`volumes, this`containers, this`initContainers
      ensures r == ShmOutcome(old(Spec()), container)
      ensures r == ValueError ==> Spec() == old(Spec())
      ensures r == TypeError ==> Spec() == WithShm(old(Spec()))
      ensures r == Finished ==> Spec() == Mounted(WithShm(old(Spec())), Find(old(Spec()), container).value,
              [SHARED_MEMORY_MOUNT])
      ensures old(Integrity(Spec())) ==> Integrity(Spec())
    {
      ghost var before := Spec();
      var p := FindContainer(container);
      if p.None? { return ValueError; }
      volumes := volumes + [Volume(SHARED_MEMORY, "Memory")];
      ghost var grown := Spec();
      if Integrity(before) { AddVolumeKeeps(before, Volume(SHARED_MEMORY, "Memory")); }
      var c := Get(PodSpec(volumes, containers, initContainers), p.value);
      if !c.mountable { return TypeError; }
      SetContainer(p.value, c.(mounts := c.mounts + [SHARED_MEMORY_MOUNT]));
      r := Finished;
      if Integrity(before) {
        DeclaredGrows(before.volumes, Volume(SHARED_MEMORY, "Memory"), SHARED_MEMORY);
        SetKeeps(grown, p.value, c.(mounts := c.mounts + [SHARED_MEMORY_MOUNT]));
      }
    }

    /** A puller with nothing to pull goes, and then its volume; the second removal can fail on its own. */
    method RemovePuller(puller: string, v: string) returns (r: Outcome)
      modifies this`volumes, this`containers, this`initContainers
      ensures r == Finished <==> Find(old(Spec()), puller).Some? && old(Declared(volumes, v))
      ensures r == Finished || r == ValueError
      ensures r == Finished ==> PullerRemoved(old(Spec()), Spec(), puller, v)
      ensures r == ValueError ==> Spec() == if Find(old(Spec()), puller).None? then old(Spec())
                                            else WithoutContainer(old(Spec()), Find(old(Spec()), puller).value)
      ensures old(Integrity(Spec())) ==>
                (Integrity(Spec()) <==> r == ValueError || old(SafeWithoutPuller(Spec(), puller, v)))
    {
      var ok := RemoveContainer(puller);
      if !ok { return ValueError; }
      ok := RemoveVolume(v);
      r := if ok then Finished else ValueError;
    }

    /** The puller is told what to fetch, or goes when there is nothing to fetch. */
    method UpdateDataPuller(vols: seq<PathDir>, sources: seq<Source>, chmod: string) returns (r: Outcome)
      requires AllMapped(sources, vols)
      modifies this`volumes, this`containers, this`initContainers
      ensures r == Finished <==> old(PullerReady(Spec(), sources))
      ensures r != TypeError
      ensures r == Finished && sources == [] ==> PullerRemoved(old(Spec()), Spec(), DATA_PULLER, DATASETS_VOLUME)
      ensures r == Finished && sources != [] ==>
              Spec() == Told(old(Spec()), DATA_PULLER, DataArgs(sources, chmod, vols))
      ensures r != Finished && sources != [] ==> Spec() == old(Spec())
      ensures r == Finished && old(Integrity(Spec())) ==>
                (Integrity(Spec()) <==> sources != [] || old(SafeWithoutPuller(Spec(), DATA_PULLER, DATASETS_VOLUME)))
    {
      if sources == [] {
        r := RemovePuller(DATA_PULLER, DATASETS_VOLUME);
        return;
      }
      var p := FindContainer(DATA_PULLER);
      if p.None? { return ValueError; }
      var args := PullerArgs(sources, chmod, vols);
      if args.None? { return DescriptorError; }
      ghost var before := Spec();
      var c := Get(PodSpec(volumes, containers, initContainers), p.value);
      SetContainer(p.value, c.(args := args.value));
      if Integrity(before) { SetKeeps(before, p.value, c.(args := args.value)); }
      r := Finished;
    }

    /** The data mounts of one container, with the puller that fills them.

        `vols`, `firsts` and `mounts` show the plan the step carried out. */
    method AddDataVolumeMounts(sources: seq<Source>, container: string, chmod: string)
      returns (r: Outcome, ghost vols: seq<PathDir>, ghost firsts: seq<nat>, ghost mounts: seq<Mount>)
      modifies this`volumes, this`containers, this`initContainers
      ensures MountTable(sources, vols, firsts) && MountsOf(vols, mounts) && AllMapped(sources, vols)
      ensures r == Finished || r == TypeError <==>
              Find(old(Spec()), container).Some? && old(PullerReady(Spec(), sources))
      ensures r == Finished ==> Get(old(Spec()), Find(old(Spec()), container).value).mountable
      ensures r == TypeError ==> !Get(old(Spec()), Find(old(Spec()), container).value).mountable
      ensures (r == Finished || r == TypeError) && sources == [] ==>
              PullerRemoved(old(Spec()), Spec(), DATA_PULLER, DATASETS_VOLUME)
      ensures r == Finished && sources != [] ==>
                Spec() == Mounted(Told(old(Spec()), DATA_PULLER, DataArgs(sources, chmod, vols)),
                                  Find(old(Spec()), container).value, mounts)
      ensures r == TypeError && sources != [] ==>
              Spec() == Told(old(Spec()), DATA_PULLER, DataArgs(sources, chmod, vols))
      ensures r != Finished && r != TypeError && sources != [] ==> Spec() == old(Spec())
      ensures r == Finished && old(Integrity(Spec())) ==>
                (Integrity(Spec()) <==>
                 if sources != [] then old(Declared(volumes, DATASETS_VOLUME))
                 else old(SafeWithoutPuller(Spec(), DATA_PULLER, DATASETS_VOLUME)))
      ensures r == TypeError && old(Integrity(Spec())) ==>
                (Integrity(Spec()) <==> sources != [] || old(SafeWithoutPuller(Spec(), DATA_PULLER, DATASETS_VOLUME)))
    {
      var q := FindContainer(container);
      var dataVols, dataMounts;
      dataVols, firsts := GetDataMounts(sources);
      dataMounts := GetContainerVolumeMounts(dataVols);
      vols, mounts := dataVols, dataMounts;
      if q.None? { r := ValueError; return; }
      var mountable := Get(PodSpec(volumes, containers, initContainers), q.value).mountable;
      r := UpdateDataPuller(dataVols, sources, chmod);
      if r != Finished { return; }
      if !mountable { r := TypeError; return; }
      if sources != [] {
        ghost var told := Spec();
        var c := Get(PodSpec(volumes, containers, initContainers), q.value);
        SetContainer(q.value, c.(mounts := c.mounts + dataMounts));
        if Integrity(told) { MountedIntegrity(told, q.value, mounts); }
      }
    }

    method ScriptArgs(scripts: seq<Script>) returns (args: seq<string>)
      requires scripts != []
      ensures args == [scripts[0].bucket, Format(ScriptEntries(scripts))]
    {
      var texts := [];
      ghost var es := ScriptEntries(scripts);
      for i := 0 to |scripts|
        invariant texts == Texts(es[..i])
      {
        var e := ScriptEntry(scripts[i], i);
        TextsSnoc(es[..i], e);
        assert es[..i + 1] == es[..i] + [e];
        texts := texts + [Join(e, ',')];
      }
      assert es[..|scripts|] == es;
      args := [scripts[0].bucket, Join(texts, ':')];
    }

    /** Scripts need no mounts of their own: the puller and its volume stay, or both go. */
    method AddScripts(scripts: seq<Script>) returns (r: Outcome)
      modifies this
      ensures r == Finished <==>
                Find(old(Spec()), SCRIPT_PULLER).Some? && (scripts == [] ==> old(Declared(volumes, SCRIPTS_VOLUME)))
      ensures r == Finished && scripts == [] ==> PullerRemoved(old(Spec()), Spec(), SCRIPT_PULLER, SCRIPTS_VOLUME)
      ensures r == Finished && scripts != [] ==>
                Spec() == Told(old(Spec()), SCRIPT_PULLER, [scripts[0].bucket, Format(ScriptEntries(scripts))])
      ensures r != Finished && scripts != [] ==> Spec() == old(Spec())
      ensures internalEnv == if r == Finished && scripts != []
              then Put(old(internalEnv), EnvVar(SCRIPTS_VAR, Literal(SCRIPTS_PATH)))
                             else old(internalEnv)
      ensures r == Finished && old(Integrity(Spec())) ==>
                (Integrity(Spec()) <==> scripts != [] || old(SafeWithoutPuller(Spec(), SCRIPT_PULLER, SCRIPTS_VOLUME)))
    {
      ghost var before := Spec();
      if scripts == [] {
        r := RemovePuller(SCRIPT_PULLER, SCRIPTS_VOLUME);
        return;
      }
      var p := FindContainer(SCRIPT_PULLER);
      if p.None? { return ValueError; }
      var args := ScriptArgs(scripts);
      var c := Get(PodSpec(volumes, containers, initContainers), p.value);
      SetContainer(p.value, c.(args := args));
      internalEnv := Put(internalEnv, EnvVar(SCRIPTS_VAR, Literal(SCRIPTS_PATH)));
      r := Finished;
      if Integrity(before) { SetKeeps(before, p.value, c.(args := args)); }
    }

    /** Environment variables: nothing happens, not even the search, when there is nothing to add. */
    method AddEnvVars(container: string, env: seq<EnvVar>) returns (ok: bool)
      modifies this`containers, this`initContainers
      ensures ok <==> env == [] || Find(old(Spec()), container).Some?
      ensures env == [] || !ok ==> Spec() == old(Spec())
      ensures env != [] && ok ==>
                var p := Find(old(Spec()), container).value;
                Spec() == Set(old(Spec()), p, Get(old(Spec()), p).(env := Merge(Flat(Get(old(Spec()), p).env), env)))
      ensures old(Integrity(Spec())) ==> Integrity(Spec())
    {
      if env == [] { return true; }
      ghost var before := Spec();
      var p := FindContainer(container);
      if p.None? { return false; }
      var c := Get(PodSpec(volumes, containers, initContainers), p.value);
      SetContainer(p.value, c.(env := AddEnv(c.env, env)));
      ok := true;
      if Integrity(before) { SetKeeps(before, p.value, c.(env := AddEnv(c.env, env))); }
    }
  }

  /** Data mounts keep integrity exactly when the template declares the datasets volume. */
  lemma MountedIntegrity(pod: PodSpec, q: Place, mounts: seq<Mount>)
    requires Integrity(pod) && Has(pod, q)
    requires mounts != [] && forall k :: 0 <= k < |mounts| ==> mounts[k].volume == DATASETS_VOLUME
    ensures Integrity(Mounted(pod, q, mounts)) <==> Declared(pod.volumes, DATASETS_VOLUME)
  {
    var c := Get(pod, q);
    SetKeeps(pod, q, c.(mounts := c.mounts + mounts));
    assert mounts[0] in c.mounts + mounts;
    assert MountsDeclared(c.mounts, pod.volumes);
  }

  /** The puller reads back the script entries if and only if every key survives the shell's word splitting. */
  lemma ScriptsReadBack(scripts: seq<Script>)
    ensures Read(Format(ScriptEntries(scripts))) == ScriptEntries(scripts)
            <==> forall i :: 0 <= i < |scripts| ==> Plain(scripts[i].key)
  {
    var es := ScriptEntries(scripts);
    ReadFormat(es);
    forall i | 0 <= i < |es| ensures AllClean(es[i], BLANKS + {':', ','}) <==> Plain(scripts[i].key) {
      ScriptEntryPlain(scripts[i], i);
    }
  }

  /** Then it unpacks each script in a directory of its own, with the permissions for scripts. */
  lemma ScriptUnpacked(scripts: seq<Script>, i: nat)
    requires i < |scripts| && forall k :: 0 <= k < |scripts| ==> Plain(scripts[k].key)
    ensures var es := Read(Format(ScriptEntries(scripts)));
            && |es| == |scripts| && es[i] == [scripts[i].key, "777", ScriptDir(i), "unpack_in_place"]
    ensures forall j :: 0 <= j < |scripts| && j != i ==> ScriptDir(j) != ScriptDir(i)
  {
    ScriptsReadBack(scripts);
    assert SCRIPTS_PATH + "/s" == "/bai/scripts/s";
    assert ScriptEntries(scripts)[i] == ScriptEntry(scripts[i], i);
    forall j | 0 <= j < |scripts| && j != i ensures ScriptDir(j) != ScriptDir(i) { ScriptDirsDiffer(i, j); }
  }

  function ScriptDir(i: nat): string { "/bai/scripts/s" + Decimal(i) }

  lemma ScriptDirsDiffer(i: nat, j: nat)
    requires i != j
    ensures ScriptDir(i) != ScriptDir(j)
  {
    assert ScriptDir(i)[14..] == Decimal(i) && ScriptDir(j)[14..] == Decimal(j);
    ParseDecimal(i);
    ParseDecimal(j);
  }

  lemma ScriptEntryPlain(s: Script, i: nat)
    ensures AllClean(ScriptEntry(s, i), BLANKS + {':', ','}) <==> Plain(s.key)
  {
    var e := ScriptEntry(s, i);
    var dir := SCRIPTS_PATH + "/s" + Decimal(i);
    forall k | 0 <= k < |dir| ensures dir[k] !in BLANKS + {':', ','} {
      if k >= |SCRIPTS_PATH| + 2 {
        assert dir[k] == Decimal(i)[k - |SCRIPTS_PATH| - 2];
        assert IsDigit(dir[k]);
      }
    }
    assert e[0] == s.key && e[1] == "777" && e[2] == dir && e[3] == "unpack_in_place";
    assert Plain(e[1]) && Plain(e[2]) && Plain(e[3]);
  }
}
