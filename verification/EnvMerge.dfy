/** Environment variables of a container.  An insertion-ordered dict is a sequence built by `Put`. */
module EnvMerge {
  import opened Options

  /** The value of a variable: a text; another scalar, which prints as `printed`; null; or no value at all, with or
      without a reference (`valueFrom`) to a secret, a config map or a field. */
  datatype EnvValue = Literal(text: string) | Scalar(printed: string) | Null | NoValue(reference: Option<string>)

  datatype EnvVar = EnvVar(name: string, value: EnvValue)

  /** Assignment to a dict key: an old key keeps its place, a new one goes to the end. */
  function Put(d: seq<EnvVar>, x: EnvVar): (r: seq<EnvVar>)
    ensures r != []
  {
    if d == [] then [x]
    else if d[0].name == x.name then [x] + d[1..]
    else [d[0]] + Put(d[1..], x)
  }

  function PutAll(d: seq<EnvVar>, s: seq<EnvVar>): seq<EnvVar> {
    if s == [] then d else Put(PutAll(d, s[..|s| - 1]), s[|s| - 1])
  }

  /** Two dicts merged, the second winning. */
  function Merge(a: seq<EnvVar>, b: seq<EnvVar>): seq<EnvVar> {
    PutAll(PutAll([], a), b)
  }

  /** `str(var.value)`: where there is no value, `var.value` is an empty dict. */
  function FlatValue(v: EnvValue): EnvValue {
    match v
    case Literal(_) => v
    case Scalar(printed) => Literal(printed)
    case Null => Literal("None")
    case NoValue(_) => Literal("{}")
  }

  function Flat(env: seq<EnvVar>): (r: seq<EnvVar>)
    ensures |r| == |env| && forall i {:trigger r[i]} :: 0 <= i < |r| ==>
            r[i] == env[i].(value := FlatValue(env[i].value))
  {
    seq(|env|, i requires 0 <= i < |env| => env[i].(value := FlatValue(env[i].value)))
  }

  function AddEnv(env: seq<EnvVar>, more: seq<EnvVar>): seq<EnvVar> {
    if more == [] then env else Merge(Flat(env), more)
  }

  predicate AllLiteral(env: seq<EnvVar>) {
    forall i :: 0 <= i < |env| ==> env[i].value.Literal?
  }

  function Names(d: seq<EnvVar>): (ns: seq<string>)
    ensures |ns| == |d| && forall i {:trigger ns[i]} :: 0 <= i < |ns| ==> ns[i] == d[i].name
  {
    seq(|d|, i requires 0 <= i < |d| => d[i].name)
  }

  /** Names in order of first use. */
  function FirstUses(ns: seq<string>): seq<string> {
    if ns == [] then []
    else
      var init, last := FirstUses(ns[..|ns| - 1]), ns[|ns| - 1];
      if last in init then init else init + [last]
  }

  predicate Distinct(ns: seq<string>) {
    forall i, j :: 0 <= i < j < |ns| ==> ns[i] != ns[j]
  }

  /** The value assigned last. */
  function LastValue(s: seq<EnvVar>, name: string): Option<EnvValue> {
    if s == [] then None
    else if s[|s| - 1].name == name then Some(s[|s| - 1].value)
    else LastValue(s[..|s| - 1], name)
  }

  // ---------------------------------------------------------------- one assignment

  lemma NamesHead(d: seq<EnvVar>)
    requires d != []
    ensures Names(d) == [d[0].name] + Names(d[1..])
  {
    var tail := d[1..];
    forall i | 0 <= i < |tail| ensures Names(d)[i + 1] == Names(tail)[i] { assert tail[i] == d[i + 1]; }
  }

  lemma {:induction false} PutSnoc(d: seq<EnvVar>, y: EnvVar, x: EnvVar)
    ensures Put(d + [y], x) ==
            if x.name in Names(d) then Put(d, x) + [y] else if y.name == x.name then d + [x] else d + [y, x]
  {
    if d != [] {
      assert (d + [y])[1..] == d[1..] + [y];
      NamesHead(d);
      PutSnoc(d[1..], y, x);
    }
  }

  lemma {:induction false} PutNames(d: seq<EnvVar>, x: EnvVar)
    ensures Names(Put(d, x)) == if x.name in Names(d) then Names(d) else Names(d) + [x.name]
  {
    NamesHead(Put(d, x));
    if d != [] {
      NamesHead(d);
      PutNames(d[1..], x);
      var rest := if d[0].name == x.name then d[1..] else Put(d[1..], x);
      assert Put(d, x)[1..] == rest;
    }
  }

  lemma {:induction false} PutOverwrites(d: seq<EnvVar>, y: EnvVar, x: EnvVar)
    requires x.name == y.name
    ensures Put(Put(d, y), x) == Put(d, x)
  {
    if d != [] { PutOverwrites(d[1..], y, x); }
  }

  lemma {:induction false} PutsCommute(d: seq<EnvVar>, y: EnvVar, x: EnvVar)
    requires x.name != y.name && x.name in Names(d)
    ensures Put(Put(d, y), x) == Put(Put(d, x), y)
  {
    NamesHead(d);
    if d[0].name != x.name { PutsCommute(d[1..], y, x); }
  }

  lemma {:induction false} PutLastValue(d: seq<EnvVar>, x: EnvVar, name: string)
    requires Distinct(Names(d))
    ensures LastValue(Put(d, x), name) == if name == x.name then Some(x.value) else LastValue(d, name)
  {
    if d != [] {
      var init, y := d[..|d| - 1], d[|d| - 1];
      assert d == init + [y];
      PutSnoc(init, y, x);
      NamesInit(d);
      assert y.name !in Names(init);
      PutLastValue(init, x, name);
      LastValueSnoc(init, y, name);
      LastValueSnoc(Put(init, x), y, name);
      LastValueSnoc(init, x, name);
      assert init + [y, x] == d + [x];
      LastValueSnoc(d, x, name);
    }
  }

  lemma LastValueSnoc(d: seq<EnvVar>, y: EnvVar, name: string)
    ensures LastValue(d + [y], name) == if y.name == name then Some(y.value) else LastValue(d, name)
  {
    assert (d + [y])[..|d|] == d;
  }

  // ---------------------------------------------------------------- many assignments

  lemma {:induction false} PutAllAppend(d: seq<EnvVar>, a: seq<EnvVar>, b: seq<EnvVar>)
    ensures PutAll(d, a + b) == PutAll(PutAll(d, a), b)
  {
    if b == [] {
      assert a + b == a;
    } else {
      assert (a + b)[..|a + b| - 1] == a + b[..|b| - 1];
      PutAllAppend(d, a, b[..|b| - 1]);
    }
  }

  lemma NamesInit(s: seq<EnvVar>)
    requires s != []
    ensures Names(s[..|s| - 1]) == Names(s)[..|s| - 1] && Names(s)[|s| - 1] == s[|s| - 1].name
  {
    var a, b := Names(s[..|s| - 1]), Names(s)[..|s| - 1];
    assert |a| == |b|;
    forall i | 0 <= i < |a| ensures a[i] == b[i] { }
  }

  lemma {:induction false} PutAllFirstUses(s: seq<EnvVar>)
    ensures Names(PutAll([], s)) == FirstUses(Names(s))
  {
    if s != [] {
      NamesInit(s);
      PutAllFirstUses(s[..|s| - 1]);
      PutNames(PutAll([], s[..|s| - 1]), s[|s| - 1]);
    }
  }

  lemma {:induction false} FirstUsesDistinct(ns: seq<string>)
    ensures Distinct(FirstUses(ns))
  {
    if ns != [] { FirstUsesDistinct(ns[..|ns| - 1]); }
  }

  /** Each name once, in order of first use, with the value assigned last. */
  lemma {:induction false} PutAllMeaning(s: seq<EnvVar>, name: string)
    ensures Names(PutAll([], s)) == FirstUses(Names(s)) && Distinct(Names(PutAll([], s)))
    ensures LastValue(PutAll([], s), name) == LastValue(s, name)
  {
    PutAllFirstUses(s);
    FirstUsesDistinct(Names(s));
    if s != [] {
      PutAllMeaning(s[..|s| - 1], name);
      PutLastValue(PutAll([], s[..|s| - 1]), s[|s| - 1], name);
    }
  }

  lemma MergeMeaning(a: seq<EnvVar>, b: seq<EnvVar>, name: string)
    ensures Distinct(Names(Merge(a, b)))
    ensures Names(Merge(a, b)) == FirstUses(Names(a + b))
    ensures LastValue(Merge(a, b), name) == LastValue(a + b, name)
  {
    PutAllAppend([], a, b);
    PutAllMeaning(a + b, name);
  }

  /** An override: the second wins where it has the name, the first is kept elsewhere. */
  lemma {:induction false} LastValueAppend(a: seq<EnvVar>, b: seq<EnvVar>, name: string)
    ensures LastValue(a + b, name) == if LastValue(b, name).Some? then LastValue(b, name) else LastValue(a, name)
  {
    if b == [] {
      assert a + b == a;
    } else {
      assert (a + b)[..|a + b| - 1] == a + b[..|b| - 1];
      LastValueAppend(a, b[..|b| - 1], name);
    }
  }

  lemma {:induction false} PutInside(d: seq<EnvVar>, c: seq<EnvVar>, x: EnvVar)
    requires Distinct(Names(c))
    ensures PutAll(d, Put(c, x)) == Put(PutAll(d, c), x)
  {
    if c == [] {
      assert [x][..0] == [];
    } else {
      var init, y := c[..|c| - 1], c[|c| - 1];
      assert c == init + [y];
      PutSnoc(init, y, x);
      NamesInit(c);
      PutInside(d, init, x);
      if x.name in Names(init) {
        PutAllAppend(d, Put(init, x), [y]);
        PutAllNames(d, init, x.name);
        PutsCommute(PutAll(d, init), y, x);
      } else if y.name == x.name {
        PutAllAppend(d, init, [x]);
        PutOverwrites(PutAll(d, init), y, x);
      } else {
        assert Put(c, x) == c + [x];
        PutAllAppend(d, c, [x]);
      }
    }
  }

  lemma {:induction false} PutAllNames(d: seq<EnvVar>, s: seq<EnvVar>, name: string)
    requires name in Names(s)
    ensures name in Names(PutAll(d, s))
  {
    var init, x := s[..|s| - 1], s[|s| - 1];
    PutNames(PutAll(d, init), x);
    if x.name != name {
      NamesInit(s);
      var i :| 0 <= i < |s| && Names(s)[i] == name;
      assert Names(init)[i] == name;
      PutAllNames(d, init, name);
    }
  }

  lemma {:induction false} PutAllOnce(d: seq<EnvVar>, s: seq<EnvVar>)
    ensures PutAll(d, PutAll([], s)) == PutAll(d, s)
  {
    if s != [] {
      var init, x := s[..|s| - 1], s[|s| - 1];
      PutAllOnce(d, init);
      PutAllMeaning(init, x.name);
      PutInside(d, PutAll([], init), x);
    }
  }

  // ---------------------------------------------------------------- adding variables

  lemma FlatInit(env: seq<EnvVar>)
    requires env != []
    ensures Flat(env[..|env| - 1]) == Flat(env)[..|env| - 1]
  {
    var a, b := Flat(env[..|env| - 1]), Flat(env)[..|env| - 1];
    assert |a| == |b|;
    forall i | 0 <= i < |a| ensures a[i] == b[i] { }
  }

  lemma {:induction false} FlatLastValue(env: seq<EnvVar>, name: string)
    ensures LastValue(Flat(env), name) ==
            match LastValue(env, name) { case None => None case Some(v) => Some(FlatValue(v)) }
  {
    if env != [] {
      var n := |env| - 1;
      FlatInit(env);
      FlatLastValue(env[..n], name);
      assert Flat(env)[n] == env[n].(value := FlatValue(env[n].value));
    }
  }

  lemma NotAdded(more: seq<EnvVar>, name: string)
    requires name !in Names(more)
    ensures LastValue(more, name).None?
    decreases |more|
  {
    if more != [] {
      NamesInit(more);
      assert forall x :: x in Names(more[..|more| - 1]) ==> x in Names(more);
      assert Names(more)[|more| - 1] in Names(more);
      NotAdded(more[..|more| - 1], name);
    }
  }

  /** What a variable ends as when others are added: its text, its scalar as printed, a null as "None", and the text of
      an empty dict where there is no value. */
  lemma PrintedAs(env: seq<EnvVar>, more: seq<EnvVar>, name: string)
    requires more != [] && name !in Names(more)
    ensures LastValue(AddEnv(env, more), name) ==
            match LastValue(env, name)
            case None => None
            case Some(Literal(text)) => Some(Literal(text))
            case Some(Scalar(printed)) => Some(Literal(printed))
            case Some(Null) => Some(Literal("None"))
            case Some(NoValue(_)) => Some(Literal("{}"))
  {
    MergeMeaning(Flat(env), more, name);
    LastValueAppend(Flat(env), more, name);
    NotAdded(more, name);
    FlatLastValue(env, name);
  }

  /** Adding variables keeps a variable of another name if and only if its value is a text. */
  lemma KeptIffLiteral(env: seq<EnvVar>, more: seq<EnvVar>, name: string)
    requires more != [] && name !in Names(more)
    ensures LastValue(AddEnv(env, more), name) == LastValue(env, name)
            <==> (LastValue(env, name).Some? ==> LastValue(env, name).value.Literal?)
  {
    PrintedAs(env, more, name);
  }

  /** A variable without a value of its own, with or without a reference, and an unrelated addition. */
  lemma ReferenceIsLost(reference: Option<string>)
    ensures AddEnv([EnvVar("a", NoValue(reference))], [EnvVar("b", Literal("1"))])
            == [EnvVar("a", Literal("{}")), EnvVar("b", Literal("1"))]
  {
    var a, b := EnvVar("a", Literal("{}")), EnvVar("b", Literal("1"));
    assert Flat([EnvVar("a", NoValue(reference))]) == [a];
    assert [a][..0] == [] && [b][..0] == [];
    assert PutAll([], [a]) == Put(PutAll([], []), a) == [a];
    assert Put([a], b) == [a] + Put([a][1..], b) && [a][1..] == [];
    assert PutAll([a], [b]) == Put(PutAll([a], []), b);
  }

  lemma FlatIsLiteral(env: seq<EnvVar>)
    ensures AllLiteral(Flat(env))
    ensures AllLiteral(env) ==> Flat(env) == env
  {
  }

  lemma {:induction false} PutLiteral(d: seq<EnvVar>, x: EnvVar)
    requires AllLiteral(d) && x.value.Literal?
    ensures AllLiteral(Put(d, x))
  {
    if d != [] && d[0].name != x.name { PutLiteral(d[1..], x); }
  }

  lemma {:induction false} PutAllLiteral(d: seq<EnvVar>, s: seq<EnvVar>)
    requires AllLiteral(d) && AllLiteral(s)
    ensures AllLiteral(PutAll(d, s))
  {
    if s != [] {
      PutAllLiteral(d, s[..|s| - 1]);
      PutLiteral(PutAll(d, s[..|s| - 1]), s[|s| - 1]);
    }
  }

  /** Adding A and then B is adding A overridden by B, also when one of them is empty. */
  lemma AddTwice(env: seq<EnvVar>, a: seq<EnvVar>, b: seq<EnvVar>)
    requires AllLiteral(a)
    ensures AddEnv(AddEnv(env, a), b) == AddEnv(env, Merge(a, b))
  {
    var flat := Flat(env);
    PutAllAppend([], a, b);
    PutAllMeaning(a + b, "");
    PutAllOnce(PutAll([], flat), a + b);
    PutAllAppend(PutAll([], flat), a, b);
    if a != [] && b != [] {
      FlatIsLiteral(env);
      PutAllLiteral([], flat);
      PutAllLiteral(PutAll([], flat), a);
      FlatIsLiteral(Merge(flat, a));
      PutAllOnce([], flat + a);
      PutAllAppend([], flat, a);
    }
    if a + b != [] { NonEmpty(a + b); }
  }

  lemma NonEmpty(s: seq<EnvVar>)
    requires s != []
    ensures PutAll([], s) != []
  {
    PutNames(PutAll([], s[..|s| - 1]), s[|s| - 1]);
  }
}
