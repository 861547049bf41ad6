/** Labelling a Kubernetes object: a worklist that edits nested dicts in place.

    A tree is the object as loaded; a node of the worklist is the path to a dict inside it, so an edit
    through a reference becomes an edit at a path. */
module LabelTree {
  import opened Options
  import opened Sequences

  datatype Tree = Leaf(text: string) | Dict(fields: map<string, Tree>) | List(items: seq<Tree>)

  type Path = seq<string>

  datatype Mark = Mark(key: string, value: string)

  const METADATA := "metadata"
  const LABELS := "labels"

  /** Python truth of a value; None, 0 and the empty string are empty leaves. */
  predicate Truthy(t: Tree) {
    match t
    case Leaf(text) => text != ""
    case Dict(fields) => fields != map[]
    case List(items) => items != []
  }

  predicate HasMetadata(fields: map<string, Tree>) {
    METADATA in fields && Truthy(fields[METADATA])
  }

  /** Non-empty metadata is a dict, and so are its labels unless they are empty. */
  predicate MetadataOk(m: Tree) {
    m.Dict? && (LABELS in m.fields && Truthy(m.fields[LABELS]) ==> m.fields[LABELS].Dict?)
  }

  /** The labeller meets no metadata it would fail on. */
  predicate Labelable(t: Tree) {
    t.Dict? ==>
      && (HasMetadata(t.fields) ==> MetadataOk(t.fields[METADATA]))
      && forall k :: k in t.fields ==> Labelable(t.fields[k])
  }

  function AddLabel(m: Tree, mark: Mark): Tree
    requires MetadataOk(m)
  {
    var labels := if LABELS in m.fields && Truthy(m.fields[LABELS]) then m.fields[LABELS].fields else map[];
    Dict(m.fields[LABELS := Dict(labels[mark.key := Leaf(mark.value)])])
  }

  /** One visit of the labeller: only the metadata of this dict. */
  function Visit(t: Tree, mark: Mark): Tree
    requires Labelable(t)
  {
    if t.Dict? && HasMetadata(t.fields) then Dict(t.fields[METADATA := AddLabel(t.fields[METADATA], mark)]) else t
  }

  /** The recursive definition: every dict reachable through dict values, lists not entered. */
  function Label(t: Tree, mark: Mark): (r: Tree)
    requires Labelable(t)
    ensures t.Dict? <==> r.Dict?
    ensures t.Dict? ==> r.fields.Keys == t.fields.Keys
    ensures !t.Dict? ==> r == t
    ensures Truthy(t) <==> Truthy(r)
    ensures MetadataOk(t) ==> MetadataOk(r)
  {
    match t
    case Leaf(_) => t
    case List(_) => t
    case Dict(fields) =>
      var below := map k | k in fields :: Label(fields[k], mark);
      assert below.Keys == fields.Keys;
      if HasMetadata(fields) then Dict(below[METADATA := AddLabel(below[METADATA], mark)]) else Dict(below)
  }

  // ---------------------------------------------------------------- visiting first or last

  function LabelsOf(m: Tree): map<string, Tree>
    requires MetadataOk(m)
  {
    if LABELS in m.fields && Truthy(m.fields[LABELS]) then m.fields[LABELS].fields else map[]
  }

  lemma AddLeaf(labels: map<string, Tree>, a: Mark, b: Mark)
    requires Labelable(Dict(labels)) && a.key != METADATA
    ensures Labelable(Dict(labels[a.key := Leaf(a.value)]))
    ensures Label(Dict(labels[a.key := Leaf(a.value)]), b) ==
            Dict(Label(Dict(labels), b).fields[a.key := Leaf(a.value)])
  {
    var fields := labels[a.key := Leaf(a.value)];
    forall k | k in fields ensures Labelable(fields[k]) {
      if k == a.key { assert Labelable(Leaf(a.value)); }
    }
    assert Labelable(Dict(fields));
  }

  lemma AddKeepsLabelable(m: Tree, a: Mark)
    requires Labelable(m) && MetadataOk(m) && a.key != METADATA
    ensures Labelable(Dict(LabelsOf(m))) && Labelable(AddLabel(m, a)) && MetadataOk(AddLabel(m, a))
  {
    assert Labelable(Dict(map[]));
    AddLeaf(LabelsOf(m), a, a);
    var fields := AddLabel(m, a).fields;
    forall k | k in fields ensures Labelable(fields[k]) { }
  }

  /** The value a labelled dict holds under one key. */
  lemma LabelAt(t: Tree, k: string, b: Mark)
    requires Labelable(t) && t.Dict? && k in t.fields
    ensures Label(t, b).fields[k] ==
            if k == METADATA && HasMetadata(t.fields) then AddLabel(Label(t.fields[k], b), b) else Label(t.fields[k], b)
  {
  }

  lemma LabelsAfterAdd(m: Tree, a: Mark, b: Mark)
    requires Labelable(m) && MetadataOk(m) && a.key != METADATA
    ensures Labelable(AddLabel(m, a).fields[LABELS])
    ensures Label(AddLabel(m, a).fields[LABELS], b) == AddLabel(Label(m, b), a).fields[LABELS]
  {
    AddKeepsLabelable(m, a);
    AddLeaf(LabelsOf(m), a, b);
    if LABELS in m.fields { LabelAt(m, LABELS, b); }
    assert Label(Dict(map[]), b) == Dict(map[]);
    assert Label(Dict(LabelsOf(m)), b).fields == LabelsOf(Label(m, b));
  }

  /** Adding a label before or after labelling what lies below gives the same metadata. */
  lemma LabelAfterAdd(m: Tree, a: Mark, b: Mark)
    requires Labelable(m) && MetadataOk(m) && a.key != METADATA
    ensures Labelable(AddLabel(m, a))
    ensures Label(AddLabel(m, a), b) == AddLabel(Label(m, b), a)
  {
    AddKeepsLabelable(m, a);
    var l, r := Label(AddLabel(m, a), b), AddLabel(Label(m, b), a);
    forall k | k in l.fields ensures l.fields[k] == r.fields[k] {
      LabelAt(AddLabel(m, a), k, b);
      if k == LABELS {
        LabelsAfterAdd(m, a, b);
      } else {
        LabelAt(m, k, b);
      }
    }
    assert l.fields.Keys == r.fields.Keys;
  }

  lemma VisitKeepsLabelable(t: Tree, mark: Mark)
    requires Labelable(t) && mark.key != METADATA
    ensures Labelable(Visit(t, mark))
  {
    if t.Dict? && HasMetadata(t.fields) {
      AddKeepsLabelable(t.fields[METADATA], mark);
      var fields := Visit(t, mark).fields;
      forall k | k in fields ensures Labelable(fields[k]) { }
    }
  }

  /** Visiting a dict and then labelling its values is labelling it. */
  lemma VisitThenBelow(t: Tree, mark: Mark)
    requires Labelable(t) && t.Dict? && mark.key != METADATA
    ensures Labelable(Visit(t, mark)) && Visit(t, mark).Dict?
    ensures Label(t, mark).fields.Keys == Visit(t, mark).fields.Keys
    ensures forall k :: k in Visit(t, mark).fields ==>
              Labelable(Visit(t, mark).fields[k]) && Label(t, mark).fields[k] == Label(Visit(t, mark).fields[k], mark)
  {
    VisitKeepsLabelable(t, mark);
    if HasMetadata(t.fields) { LabelAfterAdd(t.fields[METADATA], mark, mark); }
  }

  // ---------------------------------------------------------------- paths

  function Get(t: Tree, path: Path): Option<Tree> {
    if path == [] then Some(t)
    else if t.Dict? && path[0] in t.fields then Get(t.fields[path[0]], path[1..])
    else None
  }

  function Put(t: Tree, path: Path, sub: Tree): Tree
    requires Get(t, path).Some?
    decreases path
  {
    if path == [] then sub
    else Dict(t.fields[path[0] := Put(t.fields[path[0]], path[1..], sub)])
  }

  /** All paths of a tree. */
  ghost function Paths(t: Tree): set<Path> {
    match t
    case Leaf(_) => {[]}
    case List(_) => {[]}
    case Dict(fields) => {[]} + set k, p | k in fields && p in Paths(fields[k]) :: [k] + p
  }

  lemma {:induction false} PathsAreValid(t: Tree, path: Path)
    ensures path in Paths(t) <==> Get(t, path).Some?
    decreases path
  {
    if path != [] {
      assert path == [path[0]] + path[1..];
      if t.Dict? && path[0] in t.fields { PathsAreValid(t.fields[path[0]], path[1..]); }
      if path in Paths(t) {
        var k, p :| k in t.fields && p in Paths(t.fields[k]) && path == [k] + p;
        assert p == path[1..];
      }
    }
  }

  // ---------------------------------------------------------------- the state of the worklist

  /** `t` is the goal everywhere except at pending paths, whose subtrees still have to be labelled. */
  ghost predicate Done(t: Tree, goal: Tree, here: Path, nodes: set<Path>, mark: Mark) {
    if here in nodes then Labelable(t) && Label(t, mark) == goal
    else if t.Dict? then
      && goal.Dict? && goal.fields.Keys == t.fields.Keys
      && forall k :: k in t.fields ==> Done(t.fields[k], goal.fields[k], here + [k], nodes, mark)
    else t == goal
  }

  /** Only the pending paths below `here` matter. */
  lemma {:induction false} DoneFrame(t: Tree, goal: Tree, here: Path, nodes: set<Path>, nodes': set<Path>, mark: Mark)
    requires Done(t, goal, here, nodes, mark)
    requires forall p :: here <= p ==> (p in nodes <==> p in nodes')
    ensures Done(t, goal, here, nodes', mark)
    decreases t
  {
    if here !in nodes && t.Dict? {
      forall k | k in t.fields ensures Done(t.fields[k], goal.fields[k], here + [k], nodes', mark) {
        assert here <= here + [k];
        DoneFrame(t.fields[k], goal.fields[k], here + [k], nodes, nodes', mark);
      }
    }
  }

  lemma {:induction false} DoneAtEnd(t: Tree, goal: Tree, here: Path, mark: Mark)
    requires Done(t, goal, here, {}, mark)
    ensures t == goal
    decreases t
  {
    if t.Dict? {
      forall k | k in t.fields ensures t.fields[k] == goal.fields[k] {
        DoneAtEnd(t.fields[k], goal.fields[k], here + [k], mark);
      }
    }
  }

  predicate Antichain(nodes: seq<Path>) {
    forall i, j :: 0 <= i < |nodes| && 0 <= j < |nodes| && i != j ==> !(nodes[i] <= nodes[j])
  }

  ghost function AsSet(nodes: seq<Path>): set<Path> {
    set n | n in nodes
  }

  function Children(p: Path, t: Tree): set<Path> {
    if t.Dict? then set k | k in t.fields :: p + [k] else {}
  }

  /** A pending path leads to a subtree whose labelling is the goal there. */
  lemma {:induction false} PendingSubtree(t: Tree, goal: Tree, here: Path, p: Path, nodes: set<Path>, mark: Mark)
    requires Done(t, goal, here, nodes, mark) && Get(goal, p).Some? && here + p in nodes
    requires forall n :: n in nodes && n <= here + p ==> n == here + p
    ensures Get(t, p).Some? && Labelable(Get(t, p).value) && Label(Get(t, p).value, mark) == Get(goal, p).value
    decreases p
  {
    if p == [] {
      assert here + p == here;
    } else {
      assert here <= here + p && here != here + p;
      assert here + [p[0]] + p[1..] == here + p;
      PendingSubtree(t.fields[p[0]], goal.fields[p[0]], here + [p[0]], p[1..], nodes, mark);
    }
  }

  lemma DoneVisit(t: Tree, goal: Tree, here: Path, nodes: set<Path>, mark: Mark)
    requires mark.key != METADATA && Labelable(t) && Label(t, mark) == goal && here in nodes
    ensures var sub := Visit(t, mark); Done(sub, goal, here, nodes - {here} + Children(here, sub), mark)
  {
    var sub := Visit(t, mark);
    var next := nodes - {here} + Children(here, sub);
    if t.Dict? { VisitThenBelow(t, mark); }
    forall k | sub.Dict? && k in sub.fields ensures Done(sub.fields[k], goal.fields[k], here + [k], next, mark) {
      assert here + [k] in next;
    }
  }

  lemma NotBelow(here: Path, k: string, p: Path, sub: Tree, n: Path)
    requires p != [] && p[0] != k && here + [k] <= n
    ensures n != here + p && n !in Children(here + p, sub)
  {
    assert n[|here|] == (here + [k])[|here|] == k;
    assert (here + p)[|here|] == p[0];
    forall j ensures (here + p + [j])[|here|] == p[0] { }
  }

  /** Visiting a pending path and replacing it by its children keeps the rest on course for the goal. */
  lemma {:induction false} DoneStep(t: Tree, goal: Tree, here: Path, p: Path, nodes: set<Path>, mark: Mark)
    requires mark.key != METADATA
    requires Done(t, goal, here, nodes, mark) && here + p in nodes && Get(t, p).Some? && Labelable(Get(t, p).value)
    requires forall n :: n in nodes && (n <= here + p || here + p <= n) ==> n == here + p
    ensures var sub := Visit(Get(t, p).value, mark);
            Done(Put(t, p, sub), goal, here, nodes - {here + p} + Children(here + p, sub), mark)
    decreases p
  {
    var sub := Visit(Get(t, p).value, mark);
    var next := nodes - {here + p} + Children(here + p, sub);
    if p == [] {
      assert here + p == here;
      DoneVisit(t, goal, here, nodes, mark);
    } else {
      assert here <= here + p && here != here + p;
      var put := Put(t, p, sub);
      forall k | k in put.fields ensures Done(put.fields[k], goal.fields[k], here + [k], next, mark) {
        if k == p[0] {
          assert here + [k] + p[1..] == here + p;
          DoneStep(t.fields[k], goal.fields[k], here + [k], p[1..], nodes, mark);
        } else {
          forall n | here + [k] <= n ensures n in nodes <==> n in next { NotBelow(here, k, p, sub, n); }
          DoneFrame(t.fields[k], goal.fields[k], here + [k], nodes, next, mark);
        }
      }
      assert here !in next;
    }
  }

  /** The paths still to be visited. */
  ghost function Region(goal: Tree, nodes: seq<Path>): set<Path> {
    set q | q in Paths(goal) && exists i :: 0 <= i < |nodes| && nodes[i] <= q
  }

  lemma SmallerSet(a: set<Path>, b: set<Path>, x: Path)
    requires a <= b && x in b && x !in a
    ensures |a| < |b|
  {
    assert a <= b - {x};
    SubsetSize(a, b - {x});
  }

  lemma {:induction false} ChildrenInGoal(goal: Tree, p: Path, sub: Tree, mark: Mark)
    requires Labelable(sub) && mark.key != METADATA && Get(goal, p) == Some(Label(sub, mark))
    ensures forall n :: n in Children(p, Visit(sub, mark)) ==> Get(goal, n).Some? && p < n
  {
    forall n | n in Children(p, Visit(sub, mark)) ensures Get(goal, n).Some? {
      VisitThenBelow(sub, mark);
      var k :| k in Visit(sub, mark).fields && n == p + [k];
      GetChild(goal, p, k);
    }
  }

  lemma {:induction false} GetChild(t: Tree, p: Path, k: string)
    requires Get(t, p).Some? && Get(t, p).value.Dict? && k in Get(t, p).value.fields
    ensures Get(t, p + [k]) == Some(Get(t, p).value.fields[k])
    decreases p
  {
    if p != [] {
      assert (p + [k])[1..] == p[1..] + [k];
      GetChild(t.fields[p[0]], p[1..], k);
    }
  }

  lemma AntichainStep(nodes: seq<Path>, sub: Tree, more: seq<Path>)
    requires nodes != [] && Antichain(nodes)
    requires forall n :: n in more <==> n in Children(nodes[0], sub)
    requires forall i, j :: 0 <= i < j < |more| ==> more[i] != more[j]
    ensures Antichain(nodes[1..] + more)
    ensures AsSet(nodes[1..] + more) == AsSet(nodes) - {nodes[0]} + Children(nodes[0], sub)
  {
    var p, next := nodes[0], nodes[1..] + more;
    forall i, j | 0 <= i < |next| && 0 <= j < |next| && i != j ensures !(next[i] <= next[j]) {
      if i >= |nodes| - 1 { assert next[i] in more; }
      if j >= |nodes| - 1 { assert next[j] in more; }
    }
    forall n | n in AsSet(nodes) - {p} ensures n in next { }
  }

  lemma RegionShrinks(goal: Tree, nodes: seq<Path>, more: seq<Path>)
    requires nodes != [] && Antichain(nodes) && nodes[0] in Paths(goal)
    requires forall n :: n in more ==> nodes[0] < n
    ensures |Region(goal, nodes[1..] + more)| < |Region(goal, nodes)|
  {
    var next := nodes[1..] + more;
    var before, after := Region(goal, nodes), Region(goal, next);
    forall q | q in after ensures q in before && q != nodes[0] {
      var i :| 0 <= i < |next| && next[i] <= q;
      if i < |nodes| - 1 {
        assert next[i] == nodes[i + 1];
      } else {
        assert next[i] in more;
        assert nodes[0] <= q;
      }
    }
    assert nodes[0] in before;
    SmallerSet(after, before, nodes[0]);
  }

  method ChildPaths(p: Path, t: Tree) returns (paths: seq<Path>)
    ensures forall n :: n in paths <==> n in Children(p, t)
    ensures forall i, j :: 0 <= i < j < |paths| ==> paths[i] != paths[j]
  {
    paths := [];
    if t.Dict? {
      var keys := t.fields.Keys;
      while keys != {}
        invariant keys <= t.fields.Keys
        invariant forall n :: n in paths <==> exists k :: k in t.fields.Keys - keys && n == p + [k]
        invariant forall i, j :: 0 <= i < j < |paths| ==> paths[i] != paths[j]
      {
        var k :| k in keys;
        assert p + [k] !in paths by {
          forall k' | k' in t.fields.Keys - keys ensures p + [k'] != p + [k] {
            assert (p + [k'])[|p|] == k' && (p + [k])[|p|] == k;
          }
        }
        keys := keys - {k};
        paths := paths + [p + [k]];
      }
    }
  }

  /** The worklist is on course: it holds disjoint parts of the goal, and all outside them is finished. */
  ghost predicate OnCourse(t: Tree, goal: Tree, nodes: seq<Path>, mark: Mark) {
    && Done(t, goal, [], AsSet(nodes), mark)
    && Antichain(nodes)
    && forall n :: n in nodes ==> n in Paths(goal)
  }

  lemma FrontSubtree(t: Tree, goal: Tree, nodes: seq<Path>, mark: Mark)
    requires nodes != [] && OnCourse(t, goal, nodes, mark)
    ensures var sub := Get(t, nodes[0]);
            sub.Some? && Labelable(sub.value) && Get(goal, nodes[0]) == Some(Label(sub.value, mark))
  {
    var p := nodes[0];
    assert [] + p == p;
    assert p in nodes;
    PathsAreValid(goal, p);
    PendingSubtree(t, goal, [], p, AsSet(nodes), mark);
  }

  lemma StepOnCourse(t: Tree, goal: Tree, nodes: seq<Path>, mark: Mark, sub: Tree, more: seq<Path>)
    requires nodes != [] && OnCourse(t, goal, nodes, mark) && mark.key != METADATA
    requires Get(t, nodes[0]) == Some(sub) && Labelable(sub) && Get(goal, nodes[0]) == Some(Label(sub, mark))
    requires forall n :: n in more <==> n in Children(nodes[0], Visit(sub, mark))
    requires forall i, j :: 0 <= i < j < |more| ==> more[i] != more[j]
    ensures OnCourse(Put(t, nodes[0], Visit(sub, mark)), goal, nodes[1..] + more, mark)
    ensures |Region(goal, nodes[1..] + more)| < |Region(goal, nodes)|
  {
    var p := nodes[0];
    assert [] + p == p;
    assert p in nodes;
    DoneStep(t, goal, [], p, AsSet(nodes), mark);
    AntichainStep(nodes, Visit(sub, mark), more);
    ChildrenInGoal(goal, p, sub, mark);
    RegionShrinks(goal, nodes, more);
    forall n | n in nodes[1..] + more ensures n in Paths(goal) {
      PathsAreValid(goal, n);
    }
  }

  /** The labeller's loop: pop the front, label its metadata, append its values, in any order of the keys. */
  method AddLabelWorklist(root: Tree, mark: Mark) returns (t: Tree)
    requires Labelable(root) && mark.key != METADATA
    ensures t == Label(root, mark)
  {
    t := root;
    var nodes: seq<Path> := [[]];
    ghost var goal := Label(root, mark);
    while nodes != []
      invariant OnCourse(t, goal, nodes, mark)
      decreases |Region(goal, nodes)|
    {
      FrontSubtree(t, goal, nodes, mark);
      var p := nodes[0];
      var sub := Get(t, p).value;
      var more := ChildPaths(p, Visit(sub, mark));
      StepOnCourse(t, goal, nodes, mark, sub, more);
      t := Put(t, p, Visit(sub, mark));
      nodes := nodes[1..] + more;
    }
    assert AsSet(nodes) == {};
    DoneAtEnd(t, goal, [], mark);
  }

  // ---------------------------------------------------------------- what labelling means

  lemma {:induction false} LabelKeepsLabelable(t: Tree, mark: Mark)
    requires Labelable(t) && mark.key != METADATA
    ensures Labelable(Label(t, mark))
  {
    if t.Dict? {
      var r := Label(t, mark);
      forall k | k in r.fields ensures Labelable(r.fields[k]) {
        LabelAt(t, k, mark);
        LabelKeepsLabelable(t.fields[k], mark);
        if k == METADATA && HasMetadata(t.fields) { AddKeepsLabelable(Label(t.fields[k], mark), mark); }
      }
      if HasMetadata(t.fields) {
        LabelAt(t, METADATA, mark);
        LabelKeepsLabelable(t.fields[METADATA], mark);
        AddKeepsLabelable(Label(t.fields[METADATA], mark), mark);
      }
    }
  }

  /** Metadata the labeller can deal with: empty, or a dict whose labels are missing, empty or a dict. */
  predicate Fine(m: Tree) {
    || m == Leaf("") || m == List([])
    || (m.Dict? && (LABELS in m.fields ==> m.fields[LABELS] in {Leaf(""), List([])} || m.fields[LABELS].Dict?))
  }

  predicate FineAt(t: Tree, p: Path) {
    var d := Get(t, p);
    d.Some? && d.value.Dict? && METADATA in d.value.fields ==> Fine(d.value.fields[METADATA])
  }

  lemma {:induction false} LabelableAt(t: Tree, p: Path)
    requires Labelable(t)
    ensures FineAt(t, p)
    decreases p
  {
    if p != [] && t.Dict? && p[0] in t.fields { LabelableAt(t.fields[p[0]], p[1..]); }
  }

  lemma {:induction false} FineIsLabelable(t: Tree)
    requires forall p :: FineAt(t, p)
    ensures Labelable(t)
  {
    if t.Dict? {
      assert FineAt(t, []);
      forall k | k in t.fields ensures Labelable(t.fields[k]) {
        forall p ensures FineAt(t.fields[k], p) {
          assert FineAt(t, [k] + p) && ([k] + p)[1..] == p;
        }
        FineIsLabelable(t.fields[k]);
      }
    }
  }

  /** The labeller can deal with a tree if and only if it can with the metadata of every dict in it. */
  lemma LabelableIff(t: Tree)
    ensures Labelable(t) <==> forall p :: FineAt(t, p)
  {
    if Labelable(t) {
      forall p ensures FineAt(t, p) { LabelableAt(t, p); }
    } else if forall p :: FineAt(t, p) {
      FineIsLabelable(t);
    }
  }

  /** Every dict of the result whose metadata is not empty carries the label. */
  lemma {:induction false} EveryMetadataLabelled(t: Tree, mark: Mark, p: Path)
    requires Labelable(t) && mark.key != METADATA
    requires var d := Get(Label(t, mark), p); d.Some? && d.value.Dict? && HasMetadata(d.value.fields)
    ensures var m := Get(Label(t, mark), p).value.fields[METADATA];
            MetadataOk(m) && mark.key in LabelsOf(m) && LabelsOf(m)[mark.key] == Leaf(mark.value)
    decreases p
  {
    if p == [] {
      LabelAt(t, METADATA, mark);
    } else {
      VisitThenBelow(t, mark);
      EveryMetadataLabelled(Visit(t, mark).fields[p[0]], mark, p[1..]);
    }
  }

  /** The path is a labels entry of some metadata, or lies in the value of this label. */
  predicate LabelSpot(p: Path, key: string) {
    exists i :: 0 <= i < |p| - 1 && p[i] == METADATA && p[i + 1] == LABELS && (i + 2 < |p| ==> p[i + 2] == key)
  }

  predicate SameShape(a: Option<Tree>, b: Option<Tree>) {
    a == b || (a.Some? && b.Some? && a.value.Dict? && b.value.Dict?)
  }

  lemma VisitFrame(t: Tree, mark: Mark, p: Path)
    requires Labelable(t) && !LabelSpot(p, mark.key)
    ensures SameShape(Get(t, p), Get(Visit(t, mark), p))
  {
    if t.Dict? && HasMetadata(t.fields) && |p| >= 2 && p[0] == METADATA {
      var m := t.fields[METADATA];
      assert Get(t, p) == Get(m, p[1..]);
      assert Get(Visit(t, mark), p) == Get(AddLabel(m, mark), p[1..]);
      if p[1] == LABELS {
        assert |p| > 2 && p[2] != mark.key;
        assert p[1..][1..] == p[2..];
        assert Get(AddLabel(m, mark), p[1..]) == Get(AddLabel(m, mark).fields[LABELS], p[2..]);
      }
    }
  }

  lemma SpotBelow(p: Path, key: string)
    requires p != [] && !LabelSpot(p, key)
    ensures !LabelSpot(p[1..], key)
  {
    if LabelSpot(p[1..], key) {
      var i :| 0 <= i < |p[1..]| - 1 && p[1..][i] == METADATA && p[1..][i + 1] == LABELS &&
          (i + 2 < |p[1..]| ==> p[1..][i + 2] == key);
    }
  }

  /** Nothing else moves: away from the label spots the result has the same leaves, lists and keys. */
  lemma {:induction false} OnlyLabelsChange(t: Tree, mark: Mark, p: Path)
    requires Labelable(t) && mark.key != METADATA && !LabelSpot(p, mark.key)
    ensures SameShape(Get(t, p), Get(Label(t, mark), p))
    decreases p
  {
    if p != [] && t.Dict? {
      VisitThenBelow(t, mark);
      VisitFrame(t, mark, p);
      if p[0] in t.fields {
        SpotBelow(p, mark.key);
        OnlyLabelsChange(Visit(t, mark).fields[p[0]], mark, p[1..]);
      }
    }
  }

  /** One more label does not show away from the labels. */
  lemma AddLabelFrame(m: Tree, mark: Mark, q: Path)
    requires MetadataOk(m) && q != [] && (q[0] == LABELS ==> |q| > 1 && q[1] != mark.key)
    ensures Get(AddLabel(m, mark), q) == Get(m, q)
  {
    if q[0] == LABELS {
      var labels := AddLabel(m, mark).fields[LABELS];
      assert Get(AddLabel(m, mark), q) == Get(labels, q[1..]);
      if LABELS in m.fields { assert Get(m, q) == Get(m.fields[LABELS], q[1..]); }
    }
  }

  /** The metadata of a dict of the input gets the label unless it is empty: an empty dict, list or text stays. */
  lemma {:induction false} LabelledIff(t: Tree, mark: Mark, p: Path)
    requires Labelable(t) && !LabelSpot(p, mark.key)
    requires var d := Get(t, p); d.Some? && d.value.Dict? && METADATA in d.value.fields
    ensures var m := Get(t, p).value.fields[METADATA];
            var r := Get(Label(t, mark), p + [METADATA]);
            r.Some? && if m == Dict(map[]) || m == List([]) || m == Leaf("") then r.value == m
                       else r.value.Dict? && LABELS in r.value.fields && r.value.fields[LABELS].Dict?
                            && mark.key in r.value.fields[LABELS].fields
                            && r.value.fields[LABELS].fields[mark.key] == Leaf(mark.value)
    decreases p
  {
    var q := p + [METADATA];
    if p == [] {
      LabelAt(t, METADATA, mark);
      assert Get(Label(t, mark), q) == Get(Label(t, mark).fields[METADATA], []) by { assert q[1..] == []; }
    } else {
      LabelAt(t, p[0], mark);
      assert q[0] == p[0] && q[1..] == p[1..] + [METADATA];
      var below := Label(t.fields[p[0]], mark);
      if p[0] == METADATA && HasMetadata(t.fields) {
        assert |p| > 1 && p[1] == LABELS ==> |p| > 2 && p[2] != mark.key;
        AddLabelFrame(below, mark, q[1..]);
      }
      assert Get(Label(t, mark), q) == Get(below, q[1..]);
      SpotBelow(p, mark.key);
      LabelledIff(t.fields[p[0]], mark, p[1..]);
    }
  }

  // ---------------------------------------------------------------- several labels

  /** Labelling again with the same key is labelling once with the later value. */
  lemma {:induction false} LaterValueWins(t: Tree, a: Mark, b: Mark)
    requires Labelable(t) && a.key == b.key != METADATA
    ensures Labelable(Label(t, a)) && Label(Label(t, a), b) == Label(t, b)
  {
    LabelKeepsLabelable(t, a);
    if t.Dict? {
      var l, r := Label(Label(t, a), b), Label(t, b);
      forall k | k in l.fields ensures l.fields[k] == r.fields[k] {
        LabelAt(t, k, a);
        LabelAt(t, k, b);
        LabelAt(Label(t, a), k, b);
        LaterValueWins(t.fields[k], a, b);
        if k == METADATA && HasMetadata(t.fields) {
          var m := t.fields[METADATA];
          LabelAfterAdd(Label(m, a), a, b);
          AddTwice(Label(m, b), a, b);
        }
      }
    }
  }

  lemma AddTwice(m: Tree, a: Mark, b: Mark)
    requires MetadataOk(m)
    ensures MetadataOk(AddLabel(m, a)) && MetadataOk(AddLabel(m, b))
    ensures a.key == b.key ==> AddLabel(AddLabel(m, a), b) == AddLabel(m, b)
    ensures a.key != b.key ==> AddLabel(AddLabel(m, a), b) == AddLabel(AddLabel(m, b), a)
  {
    var l := LabelsOf(m);
    assert LabelsOf(AddLabel(m, a)) == l[a.key := Leaf(a.value)];
    assert LabelsOf(AddLabel(m, b)) == l[b.key := Leaf(b.value)];
    if a.key == b.key {
      assert l[a.key := Leaf(a.value)][b.key := Leaf(b.value)] == l[b.key := Leaf(b.value)];
    } else {
      assert l[a.key := Leaf(a.value)][b.key := Leaf(b.value)] == l[b.key := Leaf(b.value)][a.key := Leaf(a.value)];
    }
  }

  /** Labels with different keys can be added in either order. */
  lemma {:induction false} LabelsCommute(t: Tree, a: Mark, b: Mark)
    requires Labelable(t) && a.key != b.key && a.key != METADATA && b.key != METADATA
    ensures Labelable(Label(t, a)) && Labelable(Label(t, b))
    ensures Label(Label(t, a), b) == Label(Label(t, b), a)
  {
    LabelKeepsLabelable(t, a);
    LabelKeepsLabelable(t, b);
    if t.Dict? {
      var l, r := Label(Label(t, a), b), Label(Label(t, b), a);
      forall k | k in l.fields ensures l.fields[k] == r.fields[k] {
        LabelAt(t, k, a);
        LabelAt(t, k, b);
        LabelAt(Label(t, a), k, b);
        LabelAt(Label(t, b), k, a);
        LabelsCommute(t.fields[k], a, b);
        if k == METADATA && HasMetadata(t.fields) {
          var m := t.fields[METADATA];
          LabelAfterAdd(Label(m, a), a, b);
          LabelAfterAdd(Label(m, b), b, a);
          AddTwice(Label(Label(m, a), b), a, b);
        }
      }
    }
  }
}
