/** Data sources of a benchmark: where the puller puts each of them and where the container mounts it. */
module DataMounts {
  import opened Decimals
  import opened Options
  import opened PullerText

  datatype Source = Source(path: string, scheme: string, bucket: string, key: string)

  /** A destination path and the puller's directory for it; a sequence of these is an ordered dict. */
  datatype PathDir = PathDir(path: string, name: string)

  datatype Mount = Mount(volume: string, mountPath: string, subPath: Option<string>)

  const DATASETS_VOLUME := "datasets-volume"

  predicate IsS3(scheme: string) { scheme == "s3" || scheme == "S3" }

  function Dir(index: nat): string { "p" + Decimal(index) }

  predicate HasPath(sources: seq<Source>, path: string) {
    exists i :: 0 <= i < |sources| && sources[i].path == path
  }

  /** The first source with this path. */
  predicate IsFirst(sources: seq<Source>, path: string, i: nat) {
    i < |sources| && sources[i].path == path && forall j :: 0 <= j < i ==> sources[j].path != path
  }

  /** Each distinct path once, in order of first use, under the number of its first use: `firsts` are those numbers. */
  predicate MountTable(sources: seq<Source>, vols: seq<PathDir>, firsts: seq<nat>) {
    && |vols| == |firsts|
    && (forall k {:trigger firsts[k]} :: 0 <= k < |vols| ==>
          IsFirst(sources, vols[k].path, firsts[k]) && vols[k].name == Dir(firsts[k]))
    && (forall k, l :: 0 <= k < l < |firsts| ==> firsts[k] < firsts[l])
    && AllMapped(sources, vols)
  }

  predicate HasDir(vols: seq<PathDir>, path: string) {
    exists k :: 0 <= k < |vols| && vols[k].path == path
  }

  predicate AllMapped(sources: seq<Source>, vols: seq<PathDir>) {
    forall i :: 0 <= i < |sources| ==> HasDir(vols, sources[i].path)
  }

  function DirOf(vols: seq<PathDir>, path: string): string
    requires HasDir(vols, path)
  {
    if vols[0].path == path then vols[0].name else DirOf(vols[1..], path)
  }

  method GetDataMounts(sources: seq<Source>) returns (vols: seq<PathDir>, ghost firsts: seq<nat>)
    ensures MountTable(sources, vols, firsts)
    ensures AllMapped(sources, vols) && forall k, l :: 0 <= k < l < |vols| ==> vols[k].path != vols[l].path
  {
    vols, firsts := [], [];
    for idx := 0 to |sources|
      invariant MountTable(sources[..idx], vols, firsts)
    {
      if HasDir(vols, sources[idx].path) {
        KnownPath(sources, idx, vols, firsts);
      } else {
        NewPath(sources, idx, vols, firsts);
        vols := vols + [PathDir(sources[idx].path, Dir(idx))];
        firsts := firsts + [idx];
      }
    }
    assert sources[..|sources|] == sources;
    forall k, l | 0 <= k < l < |vols| ensures vols[k].path != vols[l].path {
      assert IsFirst(sources, vols[k].path, firsts[k]) && IsFirst(sources, vols[l].path, firsts[l]);
    }
  }

  lemma FirstGrows(sources: seq<Source>, idx: nat, vols: seq<PathDir>, firsts: seq<nat>)
    requires idx < |sources| && MountTable(sources[..idx], vols, firsts)
    ensures forall k :: 0 <= k < |vols| ==> IsFirst(sources[..idx + 1], vols[k].path, firsts[k]) && firsts[k] < idx
  {
    var known := sources[..idx + 1];
    forall k | 0 <= k < |vols| ensures IsFirst(known, vols[k].path, firsts[k]) {
      assert IsFirst(sources[..idx], vols[k].path, firsts[k]);
      forall j | 0 <= j < firsts[k] ensures known[j].path != vols[k].path {
        assert sources[..idx][j].path != vols[k].path;
      }
    }
  }

  lemma KnownPath(sources: seq<Source>, idx: nat, vols: seq<PathDir>, firsts: seq<nat>)
    requires idx < |sources| && MountTable(sources[..idx], vols, firsts) && HasDir(vols, sources[idx].path)
    ensures MountTable(sources[..idx + 1], vols, firsts)
  {
    FirstGrows(sources, idx, vols, firsts);
    var known := sources[..idx + 1];
    forall i | 0 <= i < idx + 1 ensures HasDir(vols, known[i].path) {
      if i < idx { assert sources[..idx][i] == known[i]; }
    }
  }

  lemma NewPath(sources: seq<Source>, idx: nat, vols: seq<PathDir>, firsts: seq<nat>)
    requires idx < |sources| && MountTable(sources[..idx], vols, firsts) && !HasDir(vols, sources[idx].path)
    ensures MountTable(sources[..idx + 1], vols + [PathDir(sources[idx].path, Dir(idx))], firsts + [idx])
  {
    FirstGrows(sources, idx, vols, firsts);
    var vols', known := vols + [PathDir(sources[idx].path, Dir(idx))], sources[..idx + 1];
    forall j | 0 <= j < idx ensures known[j].path != sources[idx].path {
      assert sources[..idx][j] == known[j];
    }
    assert IsFirst(known, sources[idx].path, idx);
    forall i | 0 <= i < idx + 1 ensures HasDir(vols', known[i].path) {
      if i < idx {
        assert sources[..idx][i] == known[i];
        var k :| 0 <= k < |vols| && vols[k].path == known[i].path;
        assert vols'[k] == vols[k];
      } else {
        assert vols'[|vols|].path == known[i].path;
      }
    }
  }

  method GetContainerVolumeMounts(vols: seq<PathDir>) returns (mounts: seq<Mount>)
    ensures MountsOf(vols, mounts)
  {
    mounts := [];
    for k := 0 to |vols|
      invariant MountsOf(vols[..k], mounts)
    {
      mounts := mounts + [Mount(DATASETS_VOLUME, vols[k].path, Some(vols[k].name))];
    }
    assert vols[..|vols|] == vols;
  }

  predicate MountsOf(vols: seq<PathDir>, mounts: seq<Mount>) {
    && |mounts| == |vols|
    && forall k :: 0 <= k < |vols| ==> mounts[k] == Mount(DATASETS_VOLUME, vols[k].path, Some(vols[k].name))
  }

  // ---------------------------------------------------------------- mounts and puller agree

  lemma DirInjective(i: nat, j: nat)
    ensures Dir(i) == Dir(j) ==> i == j
  {
    ParseDecimal(i);
    ParseDecimal(j);
    assert Dir(i)[1..] == Decimal(i) && Dir(j)[1..] == Decimal(j);
  }

  lemma {:induction false} DirOfAt(vols: seq<PathDir>, path: string)
    requires HasDir(vols, path)
    ensures exists k :: 0 <= k < |vols| && vols[k] == PathDir(path, DirOf(vols, path))
  {
    if vols[0].path != path {
      var k :| 0 <= k < |vols| && vols[k].path == path;
      assert vols[1..][k - 1].path == path;
      DirOfAt(vols[1..], path);
      var l :| 0 <= l < |vols[1..]| && vols[1..][l] == PathDir(path, DirOf(vols[1..], path));
      assert vols[l + 1] == PathDir(path, DirOf(vols, path));
    }
  }

  /** Every source's path is mounted exactly once, from the directory the puller fills for that source. */
  lemma MountedOnce(sources: seq<Source>, vols: seq<PathDir>, firsts: seq<nat>, mounts: seq<Mount>, i: nat)
    requires MountTable(sources, vols, firsts) && MountsOf(vols, mounts) && i < |sources|
    ensures HasDir(vols, sources[i].path)
    ensures exists k :: 0 <= k < |mounts|
              && mounts[k] == Mount(DATASETS_VOLUME, sources[i].path, Some(DirOf(vols, sources[i].path)))
              && forall l :: 0 <= l < |mounts| && l != k ==> mounts[l].mountPath != sources[i].path
  {
    var path := sources[i].path;
    assert HasDir(vols, path);
    DirOfAt(vols, path);
    var k :| 0 <= k < |vols| && vols[k] == PathDir(path, DirOf(vols, path));
    assert mounts[k] == Mount(DATASETS_VOLUME, path, Some(DirOf(vols, path)));
    forall l | 0 <= l < |mounts| && l != k ensures mounts[l].mountPath != path {
      assert IsFirst(sources, path, firsts[k]);
      assert IsFirst(sources, vols[l].path, firsts[l]);
    }
  }

  /** Nothing but the sources' paths is mounted, and different mounts have different directories. */
  lemma MountsDistinct(sources: seq<Source>, vols: seq<PathDir>, firsts: seq<nat>, mounts: seq<Mount>)
    requires MountTable(sources, vols, firsts) && MountsOf(vols, mounts)
    ensures forall k :: 0 <= k < |mounts| ==> HasPath(sources, mounts[k].mountPath)
    ensures forall k, l :: 0 <= k < l < |mounts| ==> mounts[k].subPath != mounts[l].subPath
  {
    forall k | 0 <= k < |mounts| ensures HasPath(sources, mounts[k].mountPath) {
      assert IsFirst(sources, vols[k].path, firsts[k]);
    }
    forall k, l | 0 <= k < l < |mounts| ensures mounts[k].subPath != mounts[l].subPath {
      DirInjective(firsts[k], firsts[l]);
    }
  }

  // ---------------------------------------------------------------- the puller's argument

  /** What the puller is told about one source: object key, permissions, directory. */
  function Entry(s: Source, chmod: string, vols: seq<PathDir>): seq<string>
    requires HasDir(vols, s.path)
  {
    [s.key, chmod, DirOf(vols, s.path)]
  }

  function Entries(sources: seq<Source>, chmod: string, vols: seq<PathDir>): (es: seq<seq<string>>)
    requires AllMapped(sources, vols)
    ensures |es| == |sources| && forall i :: 0 <= i < |es| ==> es[i] == Entry(sources[i], chmod, vols)
  {
    if sources == [] then [] else [Entry(sources[0], chmod, vols)] + Entries(sources[1..], chmod, vols)
  }

  /** The texts of the first `n` sources, as the loop collects them. */
  function TextsBefore(sources: seq<Source>, chmod: string, vols: seq<PathDir>, n: nat): seq<string>
    requires n <= |sources| && AllMapped(sources, vols)
  {
    if n == 0 then []
    else
      var s := sources[n - 1];
      TextsBefore(sources, chmod, vols, n - 1) + [s.key + "," + chmod + "," + DirOf(vols, s.path)]
  }

  lemma EntriesSnoc(sources: seq<Source>, chmod: string, vols: seq<PathDir>, n: nat)
    requires n < |sources| && AllMapped(sources, vols)
    ensures Entries(sources[..n + 1], chmod, vols) ==
            Entries(sources[..n], chmod, vols) + [Entry(sources[n], chmod, vols)]
  {
  }

  lemma EntryText(s: Source, chmod: string, vols: seq<PathDir>)
    requires HasDir(vols, s.path)
    ensures Join(Entry(s, chmod, vols), ',') == s.key + "," + chmod + "," + DirOf(vols, s.path)
  {
    JoinThree(s.key, chmod, DirOf(vols, s.path));
  }

  lemma {:induction false} TextsOfEntries(sources: seq<Source>, chmod: string, vols: seq<PathDir>, n: nat)
    requires n <= |sources| && AllMapped(sources, vols)
    ensures TextsBefore(sources, chmod, vols, n) == Texts(Entries(sources[..n], chmod, vols))
  {
    if n > 0 {
      var s := sources[n - 1];
      TextsOfEntries(sources, chmod, vols, n - 1);
      EntriesSnoc(sources, chmod, vols, n - 1);
      TextsSnoc(Entries(sources[..n - 1], chmod, vols), Entry(s, chmod, vols));
      EntryText(s, chmod, vols);
    }
  }

  lemma TextsFormat(sources: seq<Source>, chmod: string, vols: seq<PathDir>)
    requires AllMapped(sources, vols)
    ensures Join(TextsBefore(sources, chmod, vols, |sources|), ':') == Format(Entries(sources, chmod, vols))
  {
    TextsOfEntries(sources, chmod, vols, |sources|);
    assert sources[..|sources|] == sources;
  }

  /** `None` where the original raises DescriptorError. */
  method PullerArgs(sources: seq<Source>, chmod: string, vols: seq<PathDir>) returns (args: Option<seq<string>>)
    requires sources != [] && AllMapped(sources, vols)
    ensures args.Some? <==> forall i :: 0 <= i < |sources| ==> sources[i].scheme in {"s3", "S3"}
    ensures args.Some? ==> args.value == [sources[0].bucket, Format(Entries(sources, chmod, vols))]
  {
    if !IsS3(sources[0].scheme) { return None; }
    var texts := [];
    for i := 0 to |sources|
      invariant forall j :: 0 <= j < i ==> IsS3(sources[j].scheme)
      invariant texts == TextsBefore(sources, chmod, vols, i)
    {
      if !IsS3(sources[i].scheme) { return None; }
      var s := sources[i];
      texts := texts + [s.key + "," + chmod + "," + DirOf(vols, s.path)];
    }
    TextsFormat(sources, chmod, vols);
    return Some([sources[0].bucket, Join(texts, ':')]);
  }

  predicate Plain(w: string) { Clean(w, BLANKS + {':', ','}) }

  lemma DirIsPlain(i: nat)
    ensures Plain(Dir(i))
  {
    var s := Dir(i);
    forall k | 0 <= k < |s| ensures s[k] !in BLANKS + {':', ','} {
      if k > 0 {
        assert s[k] == Decimal(i)[k - 1];
        assert IsDigit(Decimal(i)[k - 1]);
      }
    }
  }

  lemma EntryIsPlain(sources: seq<Source>, chmod: string, vols: seq<PathDir>, firsts: seq<nat>, i: nat)
    requires MountTable(sources, vols, firsts) && i < |sources| && HasDir(vols, sources[i].path)
    ensures AllClean(Entry(sources[i], chmod, vols), BLANKS + {':', ','}) <==> Plain(chmod) && Plain(sources[i].key)
  {
    var path := sources[i].path;
    DirOfAt(vols, path);
    var k :| 0 <= k < |vols| && vols[k] == PathDir(path, DirOf(vols, path));
    DirIsPlain(firsts[k]);
    ThreeClean(sources[i].key, chmod, DirOf(vols, path));
  }

  lemma ThreeClean(a: string, b: string, c: string)
    ensures AllClean([a, b, c], BLANKS + {':', ','}) <==> Plain(a) && Plain(b) && Plain(c)
  {
    var e := [a, b, c];
    assert e[0] == a && e[1] == b && e[2] == c;
  }

  /** The puller puts every object into the directory mounted at its path if and only if the permissions and all
      object names survive the shell's word splitting. */
  lemma PullerAgreesWithMounts(sources: seq<Source>, chmod: string, vols: seq<PathDir>, firsts: seq<nat>)
    requires sources != [] && MountTable(sources, vols, firsts)
    ensures AllMapped(sources, vols)
    ensures Read(Format(Entries(sources, chmod, vols))) == Entries(sources, chmod, vols)
            <==> Plain(chmod) && forall i :: 0 <= i < |sources| ==> Plain(sources[i].key)
  {
    var es := Entries(sources, chmod, vols);
    ReadFormat(es);
    forall i | 0 <= i < |sources| ensures AllClean(es[i], BLANKS + {':', ','}) <==>
        Plain(chmod) && Plain(sources[i].key) {
      EntryIsPlain(sources, chmod, vols, firsts, i);
    }
    assert AllPlain(es) ==> AllClean(es[0], BLANKS + {':', ','});
  }

  /** Then the puller puts the object of every source, with the permissions, into the directory that is mounted at the
      path of the source. */
  lemma PulledWhereMounted(sources: seq<Source>, chmod: string, vols: seq<PathDir>, firsts: seq<nat>,
      mounts: seq<Mount>, i: nat) returns (m: Mount)
    requires MountTable(sources, vols, firsts) && MountsOf(vols, mounts) && i < |sources|
    requires Plain(chmod) && forall k :: 0 <= k < |sources| ==> Plain(sources[k].key)
    ensures m in mounts && m.mountPath == sources[i].path && m.volume == DATASETS_VOLUME && m.subPath.Some?
    ensures AllMapped(sources, vols)
    ensures var es := Read(Format(Entries(sources, chmod, vols)));
            |es| == |sources| && es[i] == [sources[i].key, chmod, m.subPath.value]
  {
    PullerAgreesWithMounts(sources, chmod, vols, firsts);
    DirOfAt(vols, sources[i].path);
    var k :| 0 <= k < |vols| && vols[k] == PathDir(sources[i].path, DirOf(vols, sources[i].path));
    m := mounts[k];
  }
}
