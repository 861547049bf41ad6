/** The paths of status nodes.  `md5` stands for the hash and `text` for the string form of a content; both are
    parameters. */
module StatusPaths {
  import opened Options
  import opened FetchStates

  const HEX_DIGITS := 32

  ghost predicate HexDigest(md5: string -> string) {
    forall x :: |md5(x)| == HEX_DIGITS && '/' !in md5(x)
  }

  /** `__get_node_path`, given the hash of the content if there is one; an empty action id is falsy, and then the
      content is ignored. */
  function PathOf(client: string, action: string, hash: Option<string>): string {
    "/downloads/" + client + if action == "" then "" else "/" + action + if hash.None? then "" else "/" + hash.value
  }

  /** Where the status of a fetch is kept. */
  function StatusPath(md5: string -> string, text: Content -> string, client: string, action: string,
      c: Content): string {
    PathOf(client, action, Some(md5(text(c))))
  }

  /** The node whose children a cancellation lists. */
  function ActionPath(client: string, action: string): string {
    PathOf(client, action, None)
  }

  predicate SlashFree(client: string, action: string) {
    '/' !in client && '/' !in action
  }

  // ---------------------------------------------------------------- cutting at slashes

  lemma CutAtFirst(a: string, b: string, x: string, y: string)
    requires '/' !in a && '/' !in x && a + "/" + b == x + "/" + y
    ensures a == x && b == y
  {
    var s := a + "/" + b;
    assert s[|a|] == '/' && s[|x|] == '/';
    assert |a| == |x|;
    assert s[..|a|] == a && s[..|x|] == x && s[|a| + 1..] == b && s[|x| + 1..] == y;
  }

  lemma CutAtLast(a: string, b: string, x: string, y: string)
    requires '/' !in b && '/' !in y && a + "/" + b == x + "/" + y
    ensures a == x && b == y
  {
    var s := a + "/" + b;
    assert s[|a|] == '/' && s[|x|] == '/';
    assert |a| == |x|;
    assert s[..|a|] == a && s[..|x|] == x && s[|a| + 1..] == b && s[|x| + 1..] == y;
  }

  lemma HasSlash(x: string, y: string)
    ensures '/' in x + "/" + y
  {
    assert (x + "/" + y)[|x|] == '/';
  }

  /** What follows the common root. */
  function Below(client: string, action: string, hash: Option<string>): string {
    if action == "" then client
    else if hash.None? then client + "/" + action
    else client + "/" + (action + "/" + hash.value)
  }

  lemma BelowRoot(client: string, action: string, hash: Option<string>)
    ensures PathOf(client, action, hash) == "/downloads/" + Below(client, action, hash)
  {
  }

  lemma SameBelow(x: string, y: string)
    requires "/downloads/" + x == "/downloads/" + y
    ensures x == y
  {
    assert ("/downloads/" + x)[11..] == x && ("/downloads/" + y)[11..] == y;
  }

  // ---------------------------------------------------------------- who shares a path, and who is listed

  /** For ids without slashes: two paths agree if and only if client and action agree and the action id is empty or the
      hashes agree. */
  lemma SamePathIff(client: string, action: string, hash: string, client': string, action': string, hash': string)
    requires SlashFree(client, action) && SlashFree(client', action')
    ensures PathOf(client, action, Some(hash)) == PathOf(client', action', Some(hash')) <==>
            client == client' && action == action' && (action == "" || hash == hash')
  {
    BelowRoot(client, action, Some(hash));
    BelowRoot(client', action', Some(hash'));
    if PathOf(client, action, Some(hash)) == PathOf(client', action', Some(hash')) {
      SameBelow(Below(client, action, Some(hash)), Below(client', action', Some(hash')));
      HasSlash(client, action + "/" + hash);
      HasSlash(client', action' + "/" + hash');
      if action != "" {
        CutAtFirst(client, action + "/" + hash, client', action' + "/" + hash');
        CutAtFirst(action, hash, action', hash');
      }
    }
  }

  /** For ids without slashes: cancellations of different clients or actions list the children of different nodes. */
  lemma SameParentIff(client: string, action: string, client': string, action': string)
    requires SlashFree(client, action) && SlashFree(client', action')
    ensures ActionPath(client, action) == ActionPath(client', action') <==> client == client' && action == action'
  {
    BelowRoot(client, action, None);
    BelowRoot(client', action', None);
    if ActionPath(client, action) == ActionPath(client', action') {
      SameBelow(Below(client, action, None), Below(client', action', None));
      HasSlash(client, action);
      HasSlash(client', action');
      if action != "" { CutAtFirst(client, action, client', action'); }
    }
  }

  predicate Names(parent: string, path: string, name: string) {
    name != "" && '/' !in name && path == parent + "/" + name
  }

  /** A direct child in the tree of nodes. */
  ghost predicate IsChild(parent: string, path: string) {
    exists name :: Names(parent, path, name)
  }

  /** With an action id the status node is the child named by the hash; without one it is the listed node itself. */
  lemma OwnChild(client: string, action: string, hash: string)
    requires hash != "" && '/' !in hash
    ensures action != "" ==> Names(ActionPath(client, action), PathOf(client, action, Some(hash)), hash)
    ensures action == "" ==> PathOf(client, action, Some(hash)) == ActionPath(client, action)
  {
  }

  /** For ids without slashes: a cancellation lists the status node of a fetch if and only if the fetch has an action id
      and client and action are those of the cancellation. */
  lemma ListedIff(client: string, action: string, client': string, action': string, hash: string)
    requires SlashFree(client, action) && SlashFree(client', action') && hash != "" && '/' !in hash
    ensures IsChild(ActionPath(client, action), PathOf(client', action', Some(hash))) <==>
            action != "" && client == client' && action == action'
  {
    var parent, path := ActionPath(client, action), PathOf(client', action', Some(hash));
    OwnChild(client', action', hash);
    SameParentIff(client, action, client', action');
    if IsChild(parent, path) {
      var name :| Names(parent, path, name);
      if action' == "" {
        BelowRoot(client, action, None);
        BelowRoot(client', action', Some(hash));
        assert path == "/downloads/" + (Below(client, action, None) + "/" + name);
        SameBelow(client', Below(client, action, None) + "/" + name);
        HasSlash(Below(client, action, None), name);
      } else {
        CutAtLast(parent, name, ActionPath(client', action'), hash);
      }
    }
  }
}
