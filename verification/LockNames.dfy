/** Node names.  The lock manager recovers kind and sequence number from the text of a path; here the
    text-level test is shown to select the same nodes as the protocol's `LocksBefore`. */
module LockNames {
  import opened Decimals
  import opened LockProtocol
  import opened Options

  const READLOCK_SUFFIX := "readlock-"
  const WRITELOCK_SUFFIX := "writelock-"
  const SEQUENCE_DIGITS := 10

  function Suffix(kind: Kind): string {
    match kind
    case Read => READLOCK_SUFFIX
    case Write => WRITELOCK_SUFFIX
  }

  function Zeros(n: nat): (s: string)
    ensures AllDigits(s)
  {
    if n == 0 then "" else "0" + Zeros(n - 1)
  }

  /** ZooKeeper appends the sequence number padded with zeros. */
  function Padded(n: nat): (s: string)
    ensures AllDigits(s) && s != ""
  {
    var d := Decimal(n);
    if |d| < SEQUENCE_DIGITS then Zeros(SEQUENCE_DIGITS - |d|) + d else d
  }

  function NodeName(r: Req): string {
    Suffix(r.kind) + Padded(r.idx)
  }

  function AbsPath(parent: string, child: string): string {
    parent + "/" + child
  }

  /** The position of the last '-', as `rindex` finds it. */
  function LastDash(path: string): (i: Option<nat>)
    ensures i.Some? ==> i.value < |path| && path[i.value] == '-'
                        && forall j :: i.value < j < |path| ==> path[j] != '-'
    ensures i.None? ==> '-' !in path
  {
    if path == "" then None
    else if path[|path| - 1] == '-' then Some(|path| - 1)
    else LastDash(path[..|path| - 1])
  }

  /** `get_sequence_index`; `None` where the original raises ValueError. */
  function SequenceIndex(path: string): Option<nat> {
    var dash := LastDash(path);
    if dash.None? then None
    else
      var tail := path[dash.value + 1..];
      if tail != "" && AllDigits(tail) then Some(ParseDigits(tail)) else None
  }

  predicate OccursAt(text: string, word: string, i: nat) {
    i + |word| <= |text| && text[i..i + |word|] == word
  }

  predicate Contains(text: string, word: string) {
    exists i: nat :: i <= |text| && OccursAt(text, word, i)
  }

  predicate NameIncompatible(mine: Kind, name: string) {
    match mine
    case Read => Contains(name, WRITELOCK_SUFFIX)
    case Write => true
  }

  /** The list comprehension over child names. */
  function NamesBefore(kind: Kind, myIndex: nat, names: seq<string>): seq<string> {
    if names == [] then []
    else
      var idx := SequenceIndex(names[0]);
      (if idx.Some? && idx.value < myIndex && NameIncompatible(kind, names[0]) then [names[0]] else [])
      + NamesBefore(kind, myIndex, names[1..])
  }

  function Names(rs: seq<Req>): seq<string> {
    if rs == [] then [] else [NodeName(rs[0])] + Names(rs[1..])
  }

  // ---------------------------------------------------------------- reading back what was written

  lemma {:induction false} LeadingZeros(k: nat, d: string)
    requires AllDigits(d)
    ensures ParseDigits(Zeros(k) + d) == ParseDigits(d)
    decreases |d|, k
  {
    var s := Zeros(k) + d;
    if d == "" {
      if k > 0 {
        LastZero(k);
        LeadingZeros(k - 1, d);
        assert s == Zeros(k) && s[..|s| - 1] == Zeros(k - 1) + d;
      }
    } else {
      assert s[..|s| - 1] == Zeros(k) + d[..|d| - 1];
      LeadingZeros(k, d[..|d| - 1]);
    }
  }

  lemma {:induction false} LastZero(k: nat)
    requires k > 0
    ensures Zeros(k) == Zeros(k - 1) + "0"
  {
    if k > 1 { LastZero(k - 1); }
  }

  lemma ParsePadded(n: nat)
    ensures ParseDigits(Padded(n)) == n
  {
    ParseDecimal(n);
    var d := Decimal(n);
    if |d| < SEQUENCE_DIGITS { LeadingZeros(SEQUENCE_DIGITS - |d|, d); }
  }

  /** The number ZooKeeper put into a name is read back from any path that ends in that name,
      whatever dashes the directory part contains. */
  lemma SequenceIndexOfName(prefix: string, r: Req)
    ensures SequenceIndex(prefix + NodeName(r)) == Some(r.idx)
  {
    var head := prefix + Suffix(r.kind);
    var path := head + Padded(r.idx);
    assert prefix + NodeName(r) == path;
    assert path[|head| - 1] == '-';
    var i := LastDash(path).value;
    assert forall j :: |head| <= j < |path| ==> path[j] == Padded(r.idx)[j - |head|];
    assert i == |head| - 1;
    assert path[i + 1..] == Padded(r.idx);
    ParsePadded(r.idx);
  }

  /** "writelock-" occurs in a child name exactly when the child is a write lock. */
  lemma KindOfName(r: Req)
    ensures Contains(NodeName(r), WRITELOCK_SUFFIX) <==> r.kind == Write
  {
    var name := NodeName(r);
    if r.kind == Write {
      assert OccursAt(name, WRITELOCK_SUFFIX, 0);
    } else {
      assert forall i :: 0 <= i < |name| ==> name[i] != 'w';
      forall i: nat | i <= |name| ensures !OccursAt(name, WRITELOCK_SUFFIX, i) {
        if i + |WRITELOCK_SUFFIX| <= |name| {
          assert name[i..i + |WRITELOCK_SUFFIX|][0] == name[i] != WRITELOCK_SUFFIX[0];
        }
      }
    }
  }

  /** Filtering the names of a directory's children by text gives the names of the nodes that the
      protocol calls incompatible predecessors, in the same order. */
  lemma {:induction false} NamesBeforeAgrees(r: Req, children: seq<Req>)
    requires forall c :: c in children ==> c.dir == r.dir
    ensures SequenceIndex(AbsPath(r.dir.path, NodeName(r))) == Some(r.idx)
    ensures NamesBefore(r.kind, r.idx, Names(children)) == Names(LocksBefore(r, children))
  {
    assert AbsPath(r.dir.path, NodeName(r)) == (r.dir.path + "/") + NodeName(r);
    SequenceIndexOfName(r.dir.path + "/", r);
    if children != [] {
      var c, rest := children[0], children[1..];
      assert "" + NodeName(c) == NodeName(c);
      SequenceIndexOfName("", c);
      KindOfName(c);
      NamesBeforeAgrees(r, rest);
      assert Names(children) == [NodeName(c)] + Names(rest);
      assert Names(children)[1..] == Names(rest);
      var before := LocksBefore(r, rest);
      if Blocks(c, r) {
        assert ([c] + before)[1..] == before;
      } else {
        assert [] + before == before;
      }
    }
  }
}
