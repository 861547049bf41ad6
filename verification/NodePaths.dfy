/** Which fetches share a status node, a lock directory or a cancellation.  `md5` stands for the hash and `text` for
    the string form of a content; both are parameters, and each statement names the collisions it excludes. */
module NodePaths {
  import opened Options
  import opened FetchStates
  import opened FetchProtocol
  import opened FetchSafety
  import opened StatusPaths
  import CancelNodes
  import L = LockProtocol

  function LockDir(md5: string -> string, prefix: string, c: Content): L.Dir {
    L.Dir(prefix + "/" + md5(c.src))
  }

  /** The hash separates the two texts, and equal texts come from equal sources. */
  predicate Separates(md5: string -> string, text: Content -> string, c: Content, d: Content) {
    && (md5(text(c)) == md5(text(d)) ==> text(c) == text(d))
    && (text(c) == text(d) ==> c.src == d.src)
  }

  /** Equal status paths come from equal sources, whatever slashes the client and action ids contain, unless an
      action id is empty. */
  lemma PathDeterminesSource(
    md5: string -> string, text: Content -> string,
    client: string, action: string, c: Content, client': string, action': string, d: Content)
    requires HexDigest(md5) && Separates(md5, text, c, d)
    requires StatusPath(md5, text, client, action, c) == StatusPath(md5, text, client', action', d)
    ensures c.src == d.src || action == "" || action' == ""
  {
    var p := StatusPath(md5, text, client, action, c);
    var q := StatusPath(md5, text, client', action', d);
    if action != "" && action' != "" {
      assert p[|p| - HEX_DIGITS..] == md5(text(c));
      assert q[|q| - HEX_DIGITS..] == md5(text(d));
    }
  }

  /** Two contents of one action share a status path if and only if the action id is empty or they have the same
      text; equal contents always do. */
  lemma SharedPathIff(md5: string -> string, text: Content -> string, client: string, action: string, c: Content,
      d: Content)
    requires HexDigest(md5) && Separates(md5, text, c, d)
    ensures StatusPath(md5, text, client, action, c) == StatusPath(md5, text, client, action, d) <==>
            action == "" || text(c) == text(d)
  {
    var p := StatusPath(md5, text, client, action, c);
    var q := StatusPath(md5, text, client, action, d);
    if action != "" {
      assert p[|p| - HEX_DIGITS..] == md5(text(c));
      assert q[|q| - HEX_DIGITS..] == md5(text(d));
    }
  }

  /** `size` is what the estimate under the lock fills in, before the path is computed. */
  datatype FetchRequest = FetchRequest(session: nat, client: string, action: string, content: Content, size: SizeInfo)

  function Measured(q: FetchRequest): Content { q.content.(sizeInfo := Some(q.size)) }

  function SpecOf(md5: string -> string, text: Content -> string, prefix: string, q: FetchRequest): Spec {
    Spec(q.session, LockDir(md5, prefix, q.content), NodePath(StatusPath(md5, text, q.client, q.action, Measured(q))),
        q.content)
  }

  /** Requests with an empty action id share a status path only with requests of the same lock. */
  predicate EmptyActionsAgree(qs: seq<FetchRequest>, specs: seq<Spec>)
    requires |specs| == |qs|
  {
    forall i, j :: 0 <= i < |qs| && 0 <= j < |qs| && qs[i].action == "" && specs[i].path == specs[j].path ==>
      specs[i].dir == specs[j].dir
  }

  /** Fetches that share a status node share the lock, which is what the composition of lock and node needs, if and
      only if those with an empty action id do; so it holds for all requests with action ids. */
  lemma UnderLockIff(md5: string -> string, text: Content -> string, prefix: string, qs: seq<FetchRequest>,
      specs: seq<Spec>)
    requires HexDigest(md5) && |specs| == |qs|
    requires forall i :: 0 <= i < |qs| ==> specs[i] == SpecOf(md5, text, prefix, qs[i])
    requires forall i, j :: 0 <= i < |qs| && 0 <= j < |qs| ==> Separates(md5, text, Measured(qs[i]), Measured(qs[j]))
    ensures PathsUnderLock(specs) <==> EmptyActionsAgree(qs, specs)
  {
    if EmptyActionsAgree(qs, specs) {
      forall i, j | 0 <= i < |specs| && 0 <= j < |specs| && specs[i].path == specs[j].path
        ensures specs[i].dir == specs[j].dir
      {
        var p, q := qs[i], qs[j];
        PathDeterminesSource(md5, text, p.client, p.action, Measured(p), q.client, q.action, Measured(q));
      }
    }
  }

  /** Two requests of one client without action id, for sources with different locks: one status node, two locks. */
  lemma EmptyActionsCollide(md5: string -> string, text: Content -> string, prefix: string, p: FetchRequest,
      q: FetchRequest)
    requires p.action == "" && q.action == "" && p.client == q.client && md5(p.content.src) != md5(q.content.src)
    ensures !PathsUnderLock([SpecOf(md5, text, prefix, p), SpecOf(md5, text, prefix, q)])
  {
    var specs := [SpecOf(md5, text, prefix, p), SpecOf(md5, text, prefix, q)];
    var a, b := prefix + "/" + md5(p.content.src), prefix + "/" + md5(q.content.src);
    assert a[|prefix| + 1..] == md5(p.content.src) && b[|prefix| + 1..] == md5(q.content.src);
    assert specs[0].path == specs[1].path && specs[0].dir != specs[1].dir;
  }

  /** The status node of a request, as the cancellation addresses it. */
  function NodeKey(md5: string -> string, text: Content -> string, q: FetchRequest): CancelNodes.Key {
    CancelNodes.Key(ActionPath(q.client, q.action), md5(text(Measured(q))))
  }

  /** For ids without slashes: a cancellation of a client and an action lists the status node of a request, and
      addresses it by its path, if and only if the request has this client and this action id. */
  lemma CanceledIff(md5: string -> string, text: Content -> string, prefix: string, q: FetchRequest,
      client: string, action: string)
    requires HexDigest(md5) && SlashFree(q.client, q.action) && SlashFree(client, action) && q.action != ""
    ensures CancelNodes.PathOfKey(NodeKey(md5, text, q)) == SpecOf(md5, text, prefix, q).path.text
    ensures NodeKey(md5, text, q).parent == ActionPath(client, action) <==> q.client == client && q.action == action
    ensures IsChild(ActionPath(client, action), SpecOf(md5, text, prefix, q).path.text) <==>
            q.client == client && q.action == action
  {
    OwnChild(q.client, q.action, md5(text(Measured(q))));
    SameParentIff(client, action, q.client, q.action);
    ListedIff(client, action, q.client, q.action, md5(text(Measured(q))));
  }
}
