/** The templates of one mode: the trie of direct patterns, the list of the others, and the lookup. */
module Templates {
  import opened Wrappers
  import opened TemplatePatterns

  /** `chain` is the compiled pattern; its length is the expression weight. */
  datatype Template = Template(pattern: string, chain: seq<Step>, content: nat)

  datatype TrieNode = TrieNode(t: Option<nat>, children: map<string, nat>)

  // ---------- the trie as a map of paths ----------

  function Init<T>(s: seq<T>): seq<T>
    requires |s| > 0
  {
    s[..|s| - 1]
  }

  function Last<T>(s: seq<T>): T
    requires |s| > 0
  {
    s[|s| - 1]
  }

  /** The child of node i under a key. */
  function Kid(trie: seq<TrieNode>, i: nat, k: string): Option<nat> {
    if i < |trie| && k in trie[i].children then Some(trie[i].children[k]) else None
  }

  /** Path j goes one key further than path i. */
  ghost predicate Above(paths: seq<seq<string>>, i: nat, j: nat) {
    i < |paths| && j < |paths| && |paths[j]| > 0 && Init(paths[j]) == paths[i]
  }

  ghost predicate Hangs(paths: seq<seq<string>>, j: nat) {
    exists i: nat :: Above(paths, i, j)
  }

  ghost predicate Same(paths: seq<seq<string>>, i: nat, j: nat) {
    i < |paths| && j < |paths| && paths[i] == paths[j]
  }

  /** Node i stands at `paths[i]`; children stand one key further, and every node but the first is a child. */
  ghost predicate IsTrie(trie: seq<TrieNode>, paths: seq<seq<string>>) {
    && |paths| == |trie| && (|trie| > 0 ==> paths[0] == [])
    && (forall i: nat, j: nat {:trigger Same(paths, i, j)} :: Same(paths, i, j) ==> i == j)
    && (forall i: nat, k: string {:trigger Kid(trie, i, k)} :: Kid(trie, i, k).Some? ==>
          Kid(trie, i, k).value < |trie| && paths[Kid(trie, i, k).value] == paths[i] + [k])
    && (forall i: nat {:trigger Hangs(paths, i)} :: 0 < i < |trie| ==> Hangs(paths, i))
    && (forall i: nat, j: nat {:trigger Above(paths, i, j)} :: Above(paths, i, j) ==>
        Kid(trie, i, Last(paths[j])) == Some(j))
  }

  /** Where the lookup ends: as deep as the key leads. */
  ghost function Deepest(trie: seq<TrieNode>, i: nat, key: seq<string>): nat
    decreases |key|
  {
    if |key| == 0 || Kid(trie, i, key[0]).None? then i else Deepest(trie, Kid(trie, i, key[0]).value, key[1..])
  }

  lemma {:induction false} DeepestPath(trie: seq<TrieNode>, paths: seq<seq<string>>, i: nat, key: seq<string>)
    requires IsTrie(trie, paths) && i < |trie|
    ensures var d := Deepest(trie, i, key); d < |trie| && paths[i] <= paths[d] <= paths[i] + key
    decreases |key|
  {
    if |key| > 0 && Kid(trie, i, key[0]).Some? {
      var c := Kid(trie, i, key[0]).value;
      DeepestPath(trie, paths, c, key[1..]);
      assert paths[c] + key[1..] == paths[i] + key;
    }
  }

  /** Every path that the key goes along is on the way to where the lookup ends. */
  lemma {:induction false} DeepestIsLongest(trie: seq<TrieNode>, paths: seq<seq<string>>, i: nat, key: seq<string>,
      j: nat)
    requires IsTrie(trie, paths) && i < |trie| && j < |trie| && paths[j] <= paths[i] + key
    ensures Deepest(trie, i, key) < |trie| && |paths[j]| <= |paths[Deepest(trie, i, key)]|
    decreases |key|
  {
    DeepestPath(trie, paths, i, key);
    if |paths[j]| > |paths[i]| {
      var k := OnTheWay(trie, paths, j, |paths[i]| + 1);
      assert paths[k] == (paths[i] + key)[..|paths[i]| + 1] == paths[i] + [key[0]];
      assert Above(paths, i, k);
      assert paths[k] + key[1..] == paths[i] + key;
      DeepestIsLongest(trie, paths, k, key[1..], j);
    }
  }

  /** The beginnings of a path are paths. */
  lemma {:induction false} OnTheWay(trie: seq<TrieNode>, paths: seq<seq<string>>, j: nat, n: nat) returns (k: nat)
    requires IsTrie(trie, paths) && j < |trie| && n <= |paths[j]|
    ensures k < |trie| && paths[k] == paths[j][..n]
    decreases |paths[j]|
  {
    if n == |paths[j]| {
      k := j;
    } else {
      assert j > 0 && Hangs(paths, j);
      var p :| Above(paths, p, j);
      k := OnTheWay(trie, paths, p, n);
    }
  }

  /** A new child keeps the trie a trie. */
  lemma AddChild(trie: seq<TrieNode>, paths: seq<seq<string>>, node: nat, name: string, trie2: seq<TrieNode>,
      paths2: seq<seq<string>>)
    requires IsTrie(trie, paths) && node < |trie| && Kid(trie, node, name).None?
    requires trie2 == trie[node := trie[node].(children := trie[node].children[name := |trie|])] + [TrieNode(None,
      map[])]
    requires paths2 == paths + [paths[node] + [name]]
    ensures IsTrie(trie2, paths2)
  {
    var n := |trie|;
    assert forall i :: 0 <= i < n ==> paths2[i] == paths[i];
    assert Init(paths2[n]) == paths[node] && Last(paths2[n]) == name;
    forall i: nat, j: nat | Same(paths2, i, j) ensures i == j {
      if i < n && j < n {
        assert Same(paths, i, j);
      } else if i < n {
        assert Above(paths, node, i);
      } else if j < n {
        assert Above(paths, node, j);
      }
    }
    forall i: nat, k: string | Kid(trie2, i, k).Some?
      ensures Kid(trie2, i, k).value < |trie2| && paths2[Kid(trie2, i, k).value] == paths2[i] + [k]
    {
      if i == node && k == name {
        assert Kid(trie2, i, k).value == n;
      } else {
        assert i < n;
        assert Kid(trie2, i, k) == Kid(trie, i, k);
      }
    }
    forall i: nat | 0 < i < |trie2| ensures Hangs(paths2, i) {
      if i < n {
        assert Hangs(paths, i);
        var p :| Above(paths, p, i);
        assert Above(paths2, p, i);
      } else {
        assert Above(paths2, node, i);
      }
    }
    forall i: nat, j: nat | Above(paths2, i, j) ensures Kid(trie2, i, Last(paths2[j])) == Some(j) {
      if i == n {
        NothingBelow(trie, paths, node, name, paths2, j);
      } else if j < n {
        assert Above(paths, i, j);
      } else {
        assert Same(paths, i, node);
      }
    }
  }

  /** Nothing hangs below a path that was not there. */
  lemma NothingBelow(trie: seq<TrieNode>, paths: seq<seq<string>>, node: nat, name: string,
      paths2: seq<seq<string>>, j: nat)
    requires IsTrie(trie, paths) && node < |trie| && Kid(trie, node, name).None?
      && paths2 == paths + [paths[node] + [name]]
    ensures !Above(paths2, |trie|, j)
  {
    if Above(paths2, |trie|, j) {
      if j < |trie| {
        assert Hangs(paths, j);
        var p: nat :| Above(paths, p, j);
        assert paths2[j] == paths[j];
        assert paths[p] == paths[node] + [name];
        assert Init(paths[p]) == paths[node] && Last(paths[p]) == name;
        assert Above(paths, node, p);
      }
    }
  }

  // ---------- registrations ----------

  /** The template registered last under a path. */
  ghost function LastAt(templates: seq<Template>, direct: seq<nat>, path: seq<string>): Option<nat>
    decreases |direct|
  {
    if |direct| == 0 then None
    else
      var d := direct[|direct| - 1];
      if d < |templates| && Key(templates[d].chain) == path then Some(d)
          else LastAt(templates, direct[..|direct| - 1], path)
  }

  lemma {:induction false} LastAtSame(t1: seq<Template>, t2: seq<Template>, direct: seq<nat>, path: seq<string>)
    requires forall i :: 0 <= i < |direct| ==>
      direct[i] < |t1| && direct[i] < |t2| && t1[direct[i]].chain == t2[direct[i]].chain
    ensures LastAt(t1, direct, path) == LastAt(t2, direct, path)
    decreases |direct|
  {
    if |direct| > 0 {
      LastAtSame(t1, t2, direct[..|direct| - 1], path);
    }
  }

  lemma {:induction false} LastAtKey(templates: seq<Template>, direct: seq<nat>, path: seq<string>)
    requires forall i :: 0 <= i < |direct| ==> direct[i] < |templates|
    ensures match LastAt(templates, direct, path)
      case Some(d) => d in direct && Key(templates[d].chain) == path
      case None => forall i :: 0 <= i < |direct| ==> Key(templates[direct[i]].chain) != path
    decreases |direct|
  {
    if |direct| > 0 {
      LastAtKey(templates, direct[..|direct| - 1], path);
    }
  }

  /** Some registered key begins with the path. */
  ghost predicate Begins(templates: seq<Template>, direct: seq<nat>, path: seq<string>) {
    exists i :: 0 <= i < |direct| && direct[i] < |templates| && path <= Key(templates[direct[i]].chain)
  }

  /** The path is a registered key. */
  ghost predicate IsKey(templates: seq<Template>, direct: seq<nat>, path: seq<string>) {
    exists i :: 0 <= i < |direct| && direct[i] < |templates| && Key(templates[direct[i]].chain) == path
  }

  /** How far the key can be followed along registered keys, at most n steps. */
  ghost function Followed(templates: seq<Template>, direct: seq<nat>, key: seq<string>, n: nat): (r: nat)
    requires n <= |key|
    ensures r <= n && (r == 0 || Begins(templates, direct, key[..r]))
    ensures forall m :: r < m <= n ==> !Begins(templates, direct, key[..m])
  {
    if n == 0 || Begins(templates, direct, key[..n]) then n else Followed(templates, direct, key, n - 1)
  }

  /** The trie holds, at every path, the template registered there last. */
  ghost predicate Indexed(templates: seq<Template>, direct: seq<nat>, trie: seq<TrieNode>, paths: seq<seq<string>>) {
    && IsTrie(trie, paths) && (|direct| > 0 ==> |trie| > 0)
    && (forall i :: 0 <= i < |direct| ==> direct[i] < |templates| && IsDirect(templates[direct[i]].chain))
    && (forall i :: 0 <= i < |direct| ==> Key(templates[direct[i]].chain) in paths)
    && (forall i :: 0 <= i < |trie| ==> trie[i].t == LastAt(templates, direct, paths[i]))
    && (forall i :: 0 <= i < |trie| && trie[i].t.Some? ==> trie[i].t.value < |templates|)
  }

  ghost predicate LeadsOn(templates: seq<Template>, direct: seq<nat>, paths: seq<seq<string>>, i: nat) {
    i < |paths| ==> Begins(templates, direct, paths[i])
  }

  /** Every path but the empty one leads to a registered key. */
  ghost predicate AllLeadOn(templates: seq<Template>, direct: seq<nat>, paths: seq<seq<string>>) {
    forall i: nat {:trigger LeadsOn(templates, direct, paths, i)} :: i > 0 ==> LeadsOn(templates, direct, paths, i)
  }

  lemma SomeKey(templates: seq<Template>, direct: seq<nat>, key: seq<string>, i: nat)
    requires i < |direct| && direct[i] < |templates| && Key(templates[direct[i]].chain) <= key
    ensures exists n :: 0 <= n <= |key| && IsKey(templates, direct, key[..n])
  {
    var n := |Key(templates[direct[i]].chain)|;
    assert key[..n] == Key(templates[direct[i]].chain);
    assert IsKey(templates, direct, key[..n]);
  }

  lemma HoldsKey(templates: seq<Template>, direct: seq<nat>, key: seq<string>, n: nat) returns (i: nat)
    requires n <= |key| && IsKey(templates, direct, key[..n])
    ensures i < |direct| && direct[i] < |templates| && Key(templates[direct[i]].chain) <= key
  {
    i :| i < |direct| && direct[i] < |templates| && Key(templates[direct[i]].chain) == key[..n];
  }

  /** A beginning of a registered key is a path. */
  lemma BeginningIsPath(templates: seq<Template>, direct: seq<nat>, trie: seq<TrieNode>, paths: seq<seq<string>>,
      path: seq<string>)
    returns (k: nat)
    requires Indexed(templates, direct, trie, paths) && Begins(templates, direct, path)
    ensures k < |trie| && paths[k] == path
  {
    var i :| 0 <= i < |direct| && direct[i] < |templates| && path <= Key(templates[direct[i]].chain);
    var j: nat :| j < |paths| && paths[j] == Key(templates[direct[i]].chain);
    k := OnTheWay(trie, paths, j, |path|);
  }

  lemma BeginsStill(was: seq<Template>, now: seq<Template>, direct: seq<nat>, direct2: seq<nat>, path: seq<string>)
    requires |was| <= |now| && (forall i :: 0 <= i < |was| ==> was[i].chain == now[i].chain) && direct <= direct2
    requires Begins(was, direct, path)
    ensures Begins(now, direct2, path)
  {
    var i :| 0 <= i < |direct| && direct[i] < |was| && path <= Key(was[direct[i]].chain);
    assert direct2[i] == direct[i];
  }

  lemma AllLeadOnStill(was: seq<Template>, now: seq<Template>, direct: seq<nat>, paths: seq<seq<string>>)
    requires |was| <= |now| && (forall i :: 0 <= i < |was| ==> was[i].chain == now[i].chain)
    requires AllLeadOn(was, direct, paths)
    ensures AllLeadOn(now, direct, paths)
  {
    forall i: nat | i > 0 ensures LeadsOn(now, direct, paths, i) {
      assert LeadsOn(was, direct, paths, i);
      if i < |paths| {
        BeginsStill(was, now, direct, direct, paths[i]);
      }
    }
  }

  /** The paths to a new template lead on to it. */
  lemma AllLeadOnMore(templates: seq<Template>, direct: seq<nat>, t: nat, paths0: seq<seq<string>>,
      paths: seq<seq<string>>)
    requires AllLeadOn(templates, direct, paths0) && paths0 <= paths && t < |templates|
    requires forall i :: |paths0| <= i < |paths| ==> paths[i] <= Key(templates[t].chain)
    ensures AllLeadOn(templates, direct + [t], paths)
  {
    forall i: nat | i > 0 ensures LeadsOn(templates, direct + [t], paths, i) {
      if i < |paths0| {
        assert LeadsOn(templates, direct, paths0, i);
        BeginsStill(templates, templates, direct, direct + [t], paths[i]);
      } else if i < |paths| {
        assert (direct + [t])[|direct|] == t;
      }
    }
  }

  /** The templates of one mode. */
  class Entry {
    /** All templates, in the order of their creation. */
    var templates: seq<Template>
    /** The templates matched one by one, the newest first. */
    var list: seq<nat>
    var root: Option<nat>
    var always: Option<nat>
    /** The trie; node 0 is its head, and new nodes go to the end. */
    var trie: seq<TrieNode>
    ghost var paths: seq<seq<string>>
    /** The direct templates in the order of their registration. */
    ghost var direct: seq<nat>

    ghost predicate Valid()
      reads this
    {
      && Indexed(templates, direct, trie, paths) && AllLeadOn(templates, direct, paths)
      && (forall i :: 0 <= i < |list| ==> list[i] < |templates|)
      && (root.Some? ==> root.value < |templates|) && (always.Some? ==> always.value < |templates|)
    }

    constructor ()
      ensures Valid() && templates == [] && list == [] && direct == [] && root == None && always == None
    {
      templates, list, root, always, trie, paths, direct := [], [], None, None, [], [], [];
    }

    /** `template_map_find_template` */
    method FindPattern(pattern: string) returns (r: Option<nat>)
      requires Valid()
      ensures r.Some? ==> r.value < |templates| && templates[r.value].pattern == pattern
      ensures r.Some? ==> r.value in list || exists i :: 0 <= i < |trie| && trie[i].t == r
      ensures r.None? ==> forall i :: 0 <= i < |list| ==> templates[list[i]].pattern != pattern
      ensures r.None? ==> forall i :: 0 <= i < |trie| && trie[i].t.Some? ==>
        templates[trie[i].t.value].pattern != pattern
    {
      var i := 0;
      while i < |list|
        invariant i <= |list| && forall j :: 0 <= j < i ==> templates[list[j]].pattern != pattern
      {
        if templates[list[i]].pattern == pattern {
          return Some(list[i]);
        }
        i := i + 1;
      }
      i := 0;
      while i < |trie|
        invariant i <= |trie| && forall j :: 0 <= j < i && trie[j].t.Some? ==>
          templates[trie[j].t.value].pattern != pattern
      {
        LastAtKey(templates, direct, paths[i]);
        if trie[i].t.Some? && templates[trie[i].t.value].pattern == pattern {
          return trie[i].t;
        }
        i := i + 1;
      }
      return None;
    }

    /** The child under a name, added where it is missing. */
    method Enter(node: nat, name: string) returns (child: nat)
      requires IsTrie(trie, paths) && node < |trie|
      modifies this`trie, this`paths
      ensures IsTrie(trie, paths) && child < |trie| && paths[child] == old(paths)[node] + [name]
      ensures old(paths) <= paths && |paths| <= |old(paths)| + 1
      ensures |paths| > |old(paths)| ==> paths[|old(paths)|] == old(paths)[node] + [name]
      ensures forall i :: 0 <= i < |trie| ==> trie[i].t == if i < |old(trie)| then old(trie)[i].t else None
    {
      if name in trie[node].children {
        assert Kid(trie, node, name).Some?;
        child := trie[node].children[name];
      } else {
        child := |trie|;
        var grown := trie[node := trie[node].(children := trie[node].children[name := child])]
          + [TrieNode(None, map[])];
        AddChild(trie, paths, node, name, grown, paths + [paths[node] + [name]]);
        trie := grown;
        paths := paths + [paths[node] + [name]];
      }
    }

    /** The way of a chain through the trie; nodes that are missing are added. */
    method Grow(chain: seq<Step>) returns (node: nat)
      requires IsTrie(trie, paths) && |trie| > 0
      modifies this`trie, this`paths
      ensures IsTrie(trie, paths) && node < |trie| && paths[node] == Key(chain)
      ensures old(paths) <= paths && forall i :: |old(paths)| <= i < |paths| ==> paths[i] <= Key(chain)
      ensures forall i :: 0 <= i < |trie| ==> trie[i].t == if i < |old(trie)| then old(trie)[i].t else None
    {
      node := 0;
      var n := 0;
      while n < |chain|
        invariant n <= |chain| && IsTrie(trie, paths) && node < |trie| && paths[node] + Key(chain[n..]) == Key(chain)
        invariant old(paths) <= paths && forall i :: |old(paths)| <= i < |paths| ==> paths[i] <= Key(chain)
        invariant forall i :: 0 <= i < |trie| ==> trie[i].t == if i < |old(trie)| then old(trie)[i].t else None
      {
        assert chain[n..][1..] == chain[n + 1..];
        if chain[n].Select? || chain[n].Root? {
          var name := if chain[n].Select? then chain[n].name else SLASH;
          assert paths[node] + ([name] + Key(chain[n + 1..])) == (paths[node] + [name]) + Key(chain[n + 1..]);
          node := Enter(node, name);
        }
        n := n + 1;
      }
    }

    /** A template with this pattern that a lookup can still find. */
    ghost predicate Known(pattern: string)
      requires Valid()
      reads this
    {
      || (exists i :: 0 <= i < |list| && templates[list[i]].pattern == pattern)
      || (exists i :: 0 <= i < |trie| && trie[i].t.Some? && templates[trie[i].t.value].pattern == pattern)
    }

    lemma NotKnown(pattern: string)
      requires Valid() && (forall i :: 0 <= i < |list| ==> templates[list[i]].pattern != pattern)
      requires forall i :: 0 <= i < |direct| ==> templates[direct[i]].pattern != pattern
      ensures !Known(pattern)
    {
      forall i | 0 <= i < |trie| && trie[i].t.Some? ensures templates[trie[i].t.value].pattern != pattern {
        LastAtKey(templates, direct, paths[i]);
      }
    }

    /** `add_templ_match` on a trimmed pattern; `expr` is the compiler. */
    method Add(pattern: string, expr: string -> seq<Step>, content: nat) returns (ghost e: nat)
      requires Valid()
      modifies this
      ensures Valid()
      ensures old(Known(pattern)) ==>
        && e < |old(templates)| && old(templates)[e].pattern == pattern
        && templates == old(templates)[e := old(templates)[e].(content := content)]
        && list == old(list) && direct == old(direct) && root == old(root) && always == old(always)
      ensures !old(Known(pattern)) ==>
        && e == |old(templates)| && root == (if pattern == "/" then Some(e) else old(root))
        && always == (if pattern == "*" then Some(e) else old(always))
        && (if pattern == "/" || pattern == "*" then templates == old(templates) + [Template(pattern, [], content)]
            && list == old(list) && direct == old(direct)
            else
              && templates == old(templates) + [Template(pattern, expr(pattern), content)]
              && direct == (if IsDirect(expr(pattern)) then old(direct) + [e] else old(direct))
              && list == (if IsDirect(expr(pattern)) then old(list) else [e] + old(list)))
    {
      var known := FindPattern(pattern);
      if known.Some? {
        e := known.value;
        var was := templates;
        templates := templates[known.value := templates[known.value].(content := content)];
        SameChains(was);
        return;
      }
      e := Create(pattern, expr, content);
    }

    /** A direct pattern that no template has. */
    method AddNew(pattern: string, expr: string -> seq<Step>, content: nat)
      requires Valid() && list == [] && pattern != "/" && pattern != "*" && IsDirect(expr(pattern))
      requires forall i :: 0 <= i < |direct| ==> templates[direct[i]].pattern != pattern
      modifies this
      ensures Valid() && list == [] && direct == old(direct) + [|old(templates)|]
      ensures templates == old(templates) + [Template(pattern, expr(pattern), content)]
    {
      NotKnown(pattern);
      ghost var e := Add(pattern, expr, content);
    }

    method Create(pattern: string, expr: string -> seq<Step>, content: nat) returns (ghost e: nat)
      requires Valid()
      modifies this
      ensures Valid()
      ensures e == |old(templates)| && root == (if pattern == "/" then Some(e) else old(root))
      ensures always == (if pattern == "*" then Some(e) else old(always))
      ensures if pattern == "/" || pattern == "*" then
        templates == old(templates) + [Template(pattern, [], content)] && list == old(list) && direct == old(direct)
        else
          && templates == old(templates) + [Template(pattern, expr(pattern), content)]
          && direct == (if IsDirect(expr(pattern)) then old(direct) + [e] else old(direct))
          && list == (if IsDirect(expr(pattern)) then old(list) else [e] + old(list))
    {
      e := |templates|;
      var t, was := |templates|, templates;
      if pattern == "/" {
        templates := templates + [Template(pattern, [], content)];
        root := Some(t);
        SameChains(was);
      } else if pattern == "*" {
        templates := templates + [Template(pattern, [], content)];
        always := Some(t);
        SameChains(was);
      } else {
        var chain := expr(pattern);
        templates := templates + [Template(pattern, chain, content)];
        SameChains(was);
        if IsDirect(chain) {
          Register(t);
        } else {
          list := [t] + list;
        }
      }
    }

    /** Other contents and more templates leave the trie as it is. */
    lemma SameChains(was: seq<Template>)
      requires |was| <= |templates| && forall i :: 0 <= i < |was| ==> was[i].chain == templates[i].chain
      requires forall i :: 0 <= i < |direct| ==> direct[i] < |was|
      ensures forall i :: 0 <= i < |trie| && i < |paths| ==>
        LastAt(templates, direct, paths[i]) == LastAt(was, direct, paths[i])
      ensures AllLeadOn(was, direct, paths) ==> AllLeadOn(templates, direct, paths)
    {
      if AllLeadOn(was, direct, paths) {
        AllLeadOnStill(was, templates, direct, paths);
      }
      forall i | 0 <= i < |trie| && i < |paths| ensures LastAt(templates, direct, paths[i]) ==
          LastAt(was, direct, paths[i]) {
        LastAtSame(was, templates, direct, paths[i]);
      }
    }

    /** The head of the trie. */
    method Start()
      requires Valid() && |trie| == 0
      modifies this`trie, this`paths
      ensures Valid() && |trie| == 1
    {
      trie := [TrieNode(None, map[])];
      paths := [[]];
      assert forall i: nat, j: nat {:trigger Above(paths, i, j)} :: !Above(paths, i, j);
      assert forall i: nat, k: string {:trigger Kid(trie, i, k)} :: Kid(trie, i, k).None?;
    }

    /** A direct template takes its place in the trie. */
    method Register(t: nat)
      requires Valid() && t < |templates| && IsDirect(templates[t].chain)
      modifies this`trie, this`paths, this`direct
      ensures Valid() && direct == old(direct) + [t]
    {
      if |trie| == 0 {
        Start();
      }
      ghost var trie0, paths0 := trie, paths;
      var node := Grow(templates[t].chain);
      Registered(templates, direct, t, trie0, paths0, trie, paths, node);
      AllLeadOnMore(templates, direct, t, paths0, paths);
      trie := trie[node := trie[node].(t := Some(t))];
      direct := direct + [t];
    }

    /** The first part of `find_select_template`: down the trie, up the document. */
    method Descend(node: Node) returns (d: nat)
      requires Valid() && |trie| > 0
      ensures d == Deepest(trie, 0, NodeKey(node)) && d < |trie|
    {
      d := 0;
      var n := Some(node);
      while n.Some?
        invariant d < |trie|
        invariant Deepest(trie, d, if n.Some? then NodeKey(n.value) else []) == Deepest(trie, 0, NodeKey(node))
        decreases n
      {
        var name := if n.value.element && n.value.name.Some? then n.value.name.value else SLASH;
        ghost var up := if n.value.parent.Some? then NodeKey(n.value.parent.value) else [];
        assert NodeKey(n.value) == [name] + up && NodeKey(n.value)[1..] == up;
        if name !in trie[d].children {
          break;
        }
        assert Kid(trie, d, name).Some?;
        d := trie[d].children[name];
        n := n.value.parent;
      }
    }

    /** The template the trie gives, if it holds one where the lookup ends. */
    ghost function FromTrie(node: Node): (r: Option<nat>)
      requires Valid()
      reads this
      ensures r.Some? ==> r.value < |templates|
    {
      if |trie| == 0 then None
      else DeepestPath(trie, paths, 0, NodeKey(node)); trie[Deepest(trie, 0, NodeKey(node))].t
    }

    ghost predicate Accepts(t: nat, root_: Node, holds: (nat, Node) -> bool, node: Node)
      requires t < |templates|
      reads this
    {
      SelectMatch(root_, holds, Some(node), templates[t].chain)
    }

    function Weight(t: nat): nat
      requires t < |templates|
      reads this
    {
      |templates[t].chain|
    }

    // ---------- the trie against matching one by one ----------

    ghost predicate AllPure()
      requires Valid()
      reads this
    {
      forall i :: 0 <= i < |direct| ==> IsPure(templates[direct[i]].chain)
    }

    /** No pattern has a step to the node itself, as in `b/.` */
    ghost predicate NoneSelf()
      requires Valid()
      reads this
    {
      forall i :: 0 <= i < |direct| ==> NoSelf(templates[direct[i]].chain)
    }

    ghost function KeyOf(t: nat): seq<string>
      requires t < |templates|
      reads this
    {
      Key(templates[t].chain)
    }

    /**
     What the trie gives accepts the node, and every direct pattern that does has a key that begins
     its key; so none is heavier, unless the weight counts steps to the node itself.
     */
    lemma TrieIsBest(root_: Node, holds: (nat, Node) -> bool, node: Node)
      requires Valid() && AllPure() && InDocument(root_, node) && FromTrie(node).Some?
      ensures FromTrie(node).value in direct && Accepts(FromTrie(node).value, root_, holds, node)
      ensures forall i :: 0 <= i < |direct| ==>
        (Accepts(direct[i], root_, holds, node) <==> KeyOf(direct[i]) <= KeyOf(FromTrie(node).value))
      ensures NoneSelf() ==> forall i :: 0 <= i < |direct| && Accepts(direct[i], root_, holds, node) ==>
        Weight(direct[i]) <= Weight(FromTrie(node).value)
    {
      var key := NodeKey(node);
      DeepestPath(trie, paths, 0, key);
      var d := Deepest(trie, 0, key);
      assert paths[0] + key == key;
      LastAtKey(templates, direct, paths[d]);
      var t := FromTrie(node).value;
      AcceptsIffPrefix(root_, holds, node, templates[t].chain);
      forall i | 0 <= i < |direct|
        ensures Accepts(direct[i], root_, holds, node) <==> KeyOf(direct[i]) <= KeyOf(t)
        ensures NoneSelf() && Accepts(direct[i], root_, holds, node) ==> Weight(direct[i]) <= Weight(t)
      {
        AcceptsIffPrefix(root_, holds, node, templates[direct[i]].chain);
        if KeyOf(direct[i]) <= key {
          NoLonger(key, d, t, direct[i]);
          if NoneSelf() {
            NoHeavier(t, direct[i]);
          }
        }
      }
    }

    lemma NoLonger(key: seq<string>, d: nat, t: nat, r: nat)
      requires Valid() && |trie| > 0 && d == Deepest(trie, 0, key) < |trie| && t < |templates| && r < |templates|
      requires KeyOf(t) == paths[d] <= key && KeyOf(r) in paths && KeyOf(r) <= key
      ensures KeyOf(r) <= KeyOf(t)
    {
      var j: nat :| j < |paths| && paths[j] == KeyOf(r);
      assert paths[0] + key == key;
      DeepestIsLongest(trie, paths, 0, key, j);
    }

    lemma NoHeavier(t: nat, r: nat)
      requires t < |templates| && r < |templates| && IsPure(templates[t].chain) && IsPure(templates[r].chain)
      requires NoSelf(templates[t].chain) && NoSelf(templates[r].chain) && KeyOf(r) <= KeyOf(t)
      ensures Weight(r) <= Weight(t)
    {
      WeightSplits(templates[r].chain);
      WeightSplits(templates[t].chain);
      if |KeyOf(r)| == |KeyOf(t)| {
        KeyInjective(templates[r].chain, templates[t].chain);
      }
    }

    /** The longest beginning of the node's key that begins a registered key. */
    ghost function Reach(node: Node): (r: nat)
      requires Valid()
      reads this
      ensures r <= |NodeKey(node)|
    {
      Followed(templates, direct, NodeKey(node), |NodeKey(node)|)
    }

    /** The lookup gets just as far as the registered keys lead, */
    lemma DeepestIsReach(node: Node)
      requires Valid() && |direct| > 0
      ensures Deepest(trie, 0, NodeKey(node)) < |trie|
      ensures paths[Deepest(trie, 0, NodeKey(node))] == NodeKey(node)[..Reach(node)]
    {
      var key := NodeKey(node);
      DeepestPath(trie, paths, 0, key);
      assert paths[0] + key == key;
      var d, r := Deepest(trie, 0, key), Reach(node);
      assert paths[d] == key[..|paths[d]|];
      if d > 0 {
        assert LeadsOn(templates, direct, paths, d);
        assert Begins(templates, direct, key[..|paths[d]|]);
      }
      if r > 0 {
        var k := BeginningIsPath(templates, direct, trie, paths, key[..r]);
        DeepestIsLongest(trie, paths, 0, key, k);
      }
    }

    /** and gives a template if and only if that is a registered key. */
    lemma FoundIff(node: Node)
      requires Valid()
      ensures FromTrie(node).Some? <==> IsKey(templates, direct, NodeKey(node)[..Reach(node)])
    {
      var path := NodeKey(node)[..Reach(node)];
      LastAtKey(templates, direct, path);
      if |direct| > 0 {
        DeepestIsReach(node);
        if FromTrie(node).Some? {
          var i: nat :| i < |direct| && direct[i] == FromTrie(node).value;
          assert Key(templates[direct[i]].chain) == path;
        }
      } else if |trie| > 0 {
        DeepestPath(trie, paths, 0, NodeKey(node));
      }
    }

    /** Some direct pattern accepts a node if and only if a beginning of the node's key is registered. */
    lemma AcceptedIff(root_: Node, holds: (nat, Node) -> bool, node: Node)
      requires Valid() && AllPure() && InDocument(root_, node)
      ensures (exists i :: 0 <= i < |direct| && Accepts(direct[i], root_, holds, node))
        <==> exists n :: 0 <= n <= |NodeKey(node)| && IsKey(templates, direct, NodeKey(node)[..n])
    {
      if exists i :: 0 <= i < |direct| && Accepts(direct[i], root_, holds, node) {
        var i :| 0 <= i < |direct| && Accepts(direct[i], root_, holds, node);
        AcceptsIffPrefix(root_, holds, node, templates[direct[i]].chain);
        SomeKey(templates, direct, NodeKey(node), i);
      }
      if exists n :: 0 <= n <= |NodeKey(node)| && IsKey(templates, direct, NodeKey(node)[..n]) {
        var n :| 0 <= n <= |NodeKey(node)| && IsKey(templates, direct, NodeKey(node)[..n]);
        var i := HoldsKey(templates, direct, NodeKey(node), n);
        AcceptsIffPrefix(root_, holds, node, templates[direct[i]].chain);
        assert Accepts(direct[i], root_, holds, node);
      }
    }

    /** That part of the node's key, */
    ghost function Path(node: Node): seq<string>
      requires Valid()
      reads this
    {
      NodeKey(node)[..Reach(node)]
    }

    /** and what is registered there last: that is what the trie gives. */
    lemma GivesReached(node: Node)
      requires Valid()
      ensures FromTrie(node) == LastAt(templates, direct, Path(node))
    {
      if |direct| > 0 {
        DeepestIsReach(node);
      } else if |trie| > 0 {
        DeepestPath(trie, paths, 0, NodeKey(node));
      }
    }

    /** The template registered last under a key. */
    ghost function Holder(path: seq<string>): (t: nat)
      requires Valid() && IsKey(templates, direct, path)
      reads this
      ensures t < |templates| && KeyOf(t) == path
    {
      LastAtKey(templates, direct, path);
      LastAt(templates, direct, path).value
    }

    /** No pattern whose key begins the path has more steps to the node itself than the longer key makes up for. */
    ghost predicate Outweighs(path: seq<string>)
      requires Valid() && IsKey(templates, direct, path)
      reads this
    {
      forall i :: 0 <= i < |direct| && KeyOf(direct[i]) <= path ==>
        Untraced(templates[direct[i]].chain) <= |path| - |KeyOf(direct[i])| + Untraced(templates[Holder(path)].chain)
    }

    /**
     With such steps, whether a heavier pattern accepts the node can be told from the registered
     patterns and the node, before the lookup.
     */
    lemma HeaviestIff(root_: Node, holds: (nat, Node) -> bool, node: Node)
      requires Valid() && AllPure() && InDocument(root_, node) && IsKey(templates, direct, Path(node))
      ensures FromTrie(node) == Some(Holder(Path(node)))
      ensures (forall i :: 0 <= i < |direct| && Accepts(direct[i], root_, holds, node) ==>
          Weight(direct[i]) <= Weight(Holder(Path(node))))
        <==> Outweighs(Path(node))
      ensures NoneSelf() ==> Outweighs(Path(node))
    {
      LastAtKey(templates, direct, Path(node));
      GivesReached(node);
      TrieIsBest(root_, holds, node);
      var t := Holder(Path(node));
      WeightSplits(templates[t].chain);
      forall i | 0 <= i < |direct| ensures Weight(direct[i]) ==
          |KeyOf(direct[i])| + Untraced(templates[direct[i]].chain) {
        WeightSplits(templates[direct[i]].chain);
      }
    }

    /** Where the longer of two keys leads on, but is not reached, the shorter one is passed. */
    lemma GoesPast(root_: Node, holds: (nat, Node) -> bool, node: Node)
      requires Valid() && |direct| == 2 && IsPure(templates[direct[0]].chain) && InDocument(root_, node)
      requires KeyOf(direct[0]) <= NodeKey(node) && |NodeKey(node)| >= 2
      requires |KeyOf(direct[0])| == 1 && |KeyOf(direct[1])| == 3 && KeyOf(direct[1])[..2] == NodeKey(node)[..2]
      requires !(KeyOf(direct[1]) <= NodeKey(node))
      ensures Accepts(direct[0], root_, holds, node) && FromTrie(node) == None
    {
      AcceptsIffPrefix(root_, holds, node, templates[direct[0]].chain);
      var key, r := NodeKey(node), Reach(node);
      assert direct[1] < |templates| && key[..2] <= KeyOf(direct[1]);
      assert Begins(templates, direct, key[..2]);
      assert r >= 2;
      assert !IsKey(templates, direct, key[..r]);
      FoundIff(node);
    }

    /** Of two templates with the same key the trie gives the later one. */
    lemma SameKeys(root_: Node, holds: (nat, Node) -> bool, node: Node)
      requires Valid() && |direct| == 2 && AllPure() && InDocument(root_, node)
      requires KeyOf(direct[0]) == KeyOf(direct[1]) == NodeKey(node)[..|NodeKey(node)| - 1]
      ensures Accepts(direct[0], root_, holds, node) && FromTrie(node) == Some(direct[1])
    {
      AcceptsIffPrefix(root_, holds, node, templates[direct[0]].chain);
      var key, n := NodeKey(node), |NodeKey(node)| - 1;
      assert !Begins(templates, direct, key[..n + 1]);
      assert Begins(templates, direct, key[..n]);
      GivesReached(node);
    }

    /**
     So the trie agrees with matching one by one on a node if and only if the longest beginning of
     the node's key that begins a registered key is registered itself, or no beginning is.
     */
    lemma TrieAgreesIff(root_: Node, holds: (nat, Node) -> bool, node: Node)
      requires Valid() && AllPure() && InDocument(root_, node)
      ensures (FromTrie(node).Some? <==> exists i :: 0 <= i < |direct| && Accepts(direct[i], root_, holds, node))
        <==>
        (IsKey(templates, direct, NodeKey(node)[..Reach(node)])
        || forall n :: 0 <= n <= |NodeKey(node)| ==> !IsKey(templates, direct, NodeKey(node)[..n]))
    {
      FoundIff(node);
      AcceptedIff(root_, holds, node);
    }

    // ---------- the lookup ----------

    /** The key of the node decides well: the holder of its path is the heaviest, or nothing direct accepts it. */
    ghost predicate IsFair(node: Node)
      requires Valid()
      reads this
    {
      if IsKey(templates, direct, Path(node)) then Outweighs(Path(node))
      else forall n :: 0 <= n <= |NodeKey(node)| ==> !IsKey(templates, direct, NodeKey(node)[..n])
    }

    /** A template that accepts the node, and none that does is heavier. */
    ghost predicate IsHeaviest(result: Option<nat>, root_: Node, holds: (nat, Node) -> bool, node: Node)
      requires Valid() && (result.Some? ==> result.value < |templates|)
      reads this
    {
      && (result.Some? ==> Accepts(result.value, root_, holds, node))
      && (forall i :: 0 <= i < |direct| && Accepts(direct[i], root_, holds, node) ==>
            result.Some? && Weight(direct[i]) <= Weight(result.value))
      && (forall i :: 0 <= i < |list| && Accepts(list[i], root_, holds, node) && Weight(list[i]) > 0 ==>
            result.Some? && Weight(list[i]) <= Weight(result.value))
    }

    /** No direct template whose key begins the node's is heavier. */
    ghost predicate AtLeastDirect(weight: nat, node: Node)
      requires Valid()
      reads this
    {
      forall i :: 0 <= i < |direct| && KeyOf(direct[i]) <= NodeKey(node) ==> Weight(direct[i]) <= weight
    }

    /** A listed template that accepts the node and outweighs those direct ones. */
    ghost predicate ListedLeads(root_: Node, holds: (nat, Node) -> bool, node: Node)
      requires Valid()
      reads this
    {
      exists j :: 0 <= j < |list| && Accepts(list[j], root_, holds, node) && AtLeastDirect(Weight(list[j]), node)
    }

    /** The same of those that accept the node. */
    ghost predicate AtLeastAccepting(weight: nat, root_: Node, holds: (nat, Node) -> bool, node: Node)
      requires Valid()
      reads this
    {
      forall i :: 0 <= i < |direct| && Accepts(direct[i], root_, holds, node) ==> Weight(direct[i]) <= weight
    }

    ghost predicate ListedOutweighs(root_: Node, holds: (nat, Node) -> bool, node: Node)
      requires Valid()
      reads this
    {
      exists j :: 0 <= j < |list| && Accepts(list[j], root_, holds, node)
        && AtLeastAccepting(Weight(list[j]), root_, holds, node)
    }

    lemma AtLeastIff(weight: nat, root_: Node, holds: (nat, Node) -> bool, node: Node)
      requires Valid() && AllPure() && InDocument(root_, node)
      ensures AtLeastDirect(weight, node) <==> AtLeastAccepting(weight, root_, holds, node)
    {
      forall i | 0 <= i < |direct|
        ensures Accepts(direct[i], root_, holds, node) <==> KeyOf(direct[i]) <= NodeKey(node)
      {
        AcceptsIffPrefix(root_, holds, node, templates[direct[i]].chain);
      }
    }

    lemma ListedIff(root_: Node, holds: (nat, Node) -> bool, node: Node)
      requires Valid() && AllPure() && InDocument(root_, node)
      ensures ListedLeads(root_, holds, node) <==> ListedOutweighs(root_, holds, node)
    {
      forall j | 0 <= j < |list|
        ensures AtLeastDirect(Weight(list[j]), node) <==> AtLeastAccepting(Weight(list[j]), root_, holds, node)
      {
        AtLeastIff(Weight(list[j]), root_, holds, node);
      }
    }

    /** The key decides well if and only if what the trie gives is the heaviest of the direct ones. */
    lemma FairIff(root_: Node, holds: (nat, Node) -> bool, node: Node)
      requires Valid() && AllPure() && InDocument(root_, node)
      ensures FromTrie(node).Some? ==> Accepts(FromTrie(node).value, root_, holds, node)
      ensures IsFair(node) <==>
        if FromTrie(node).Some? then AtLeastAccepting(Weight(FromTrie(node).value), root_, holds, node)
        else !exists i :: 0 <= i < |direct| && Accepts(direct[i], root_, holds, node)
    {
      FoundIff(node);
      if FromTrie(node).Some? {
        TrieIsBest(root_, holds, node);
        HeaviestIff(root_, holds, node);
      } else {
        AcceptedIff(root_, holds, node);
      }
    }

    /**
     The heavier of what the trie gives and the heaviest listed template is the heaviest of all if and only
     if the key of the node decides well, or a listed one outweighs every direct one anyway.
     */
    lemma BestIff(result: Option<nat>, root_: Node, holds: (nat, Node) -> bool, node: Node)
      requires Valid() && AllPure() && InDocument(root_, node) && (result.Some? ==> result.value < |templates|)
      requires result.Some? ==>
        result == FromTrie(node) || (result.value in list && Accepts(result.value, root_, holds, node))
      requires FromTrie(node).Some? ==> result.Some? && Weight(FromTrie(node).value) <= Weight(result.value)
      requires result.Some? && FromTrie(node).Some? && Weight(FromTrie(node).value) == Weight(result.value) ==>
        result == FromTrie(node)
      requires forall i :: 0 <= i < |list| && Accepts(list[i], root_, holds, node) && Weight(list[i]) > 0 ==>
        result.Some? && Weight(list[i]) <= Weight(result.value)
      ensures IsHeaviest(result, root_, holds, node) <==> IsFair(node) || ListedOutweighs(root_, holds, node)
    {
      FairIff(root_, holds, node);
      if ListedOutweighs(root_, holds, node) {
        forall i | 0 <= i < |direct| && Accepts(direct[i], root_, holds, node)
          ensures result.Some? && Weight(direct[i]) <= Weight(result.value)
        {
          assert Weight(direct[i]) > 0;
        }
      }
      if IsHeaviest(result, root_, holds, node) && !IsFair(node) {
        assert result != FromTrie(node);
        var j :| 0 <= j < |list| && list[j] == result.value;
        assert AtLeastAccepting(Weight(list[j]), root_, holds, node);
      }
    }

    /** `find_select_template` */
    method FindSelect(root_: Node, holds: (nat, Node) -> bool, node: Node) returns (result: Option<nat>)
      requires Valid()
      ensures result.Some? ==> result.value < |templates|
      ensures result.Some? ==>
        result == FromTrie(node) || (result.value in list && Accepts(result.value, root_, holds, node))
      ensures FromTrie(node).Some? ==> result.Some? && Weight(FromTrie(node).value) <= Weight(result.value)
      ensures result.Some? && FromTrie(node).Some? && Weight(FromTrie(node).value) == Weight(result.value) ==>
        result == FromTrie(node)
      ensures forall i :: 0 <= i < |list| && Accepts(list[i], root_, holds, node) && Weight(list[i]) > 0 ==>
        result.Some? && Weight(list[i]) <= Weight(result.value)
      ensures result.Some? && result != FromTrie(node) ==> IsNewest(result.value, root_, holds, node)
      ensures AllPure() && InDocument(root_, node) ==>
        (IsHeaviest(result, root_, holds, node) <==> IsFair(node) || ListedLeads(root_, holds, node))
    {
      result := None;
      if |trie| > 0 {
        var parent := Descend(node);
        result := trie[parent].t;
      }
      result := SearchList(result, root_, holds, node);
      if AllPure() && InDocument(root_, node) {
        BestIff(result, root_, holds, node);
        ListedIff(root_, holds, node);
      }
    }

    /** The loop over the listed templates, beginning with what the trie gave. */
    method SearchList(first: Option<nat>, root_: Node, holds: (nat, Node) -> bool, node: Node)
        returns (result: Option<nat>)
      requires Valid() && (first.Some? ==> first.value < |templates|)
      ensures result.Some? ==> result.value < |templates|
      ensures Leads(result, if result.None? then 0 else |templates[result.value].chain|, first, root_, holds, node)
      ensures forall i :: 0 <= i < |list| && Accepts(list[i], root_, holds, node) && Weight(list[i]) > 0 ==>
        result.Some? && Weight(list[i]) <= Weight(result.value)
      ensures result.Some? && result != first ==> IsNewest(result.value, root_, holds, node)
    {
      result := first;
      var weight: nat := if first.None? then 0 else |templates[first.value].chain|;
      var i := 0;
      while i < |list|
        invariant i <= |list| && Leads(result, weight, first, root_, holds, node)
        invariant forall j :: 0 <= j < i && Accepts(list[j], root_, holds, node) ==> Weight(list[j]) <= weight
        invariant result != first ==> IsNewest(result.value, root_, holds, node)
      {
        if SelectMatch(root_, holds, Some(node), templates[list[i]].chain) {
          if |templates[list[i]].chain| > weight {
            weight := |templates[list[i]].chain|;
            result := Some(list[i]);
            assert LeadsUpTo(i, weight, root_, holds, node);
          }
        }
        i := i + 1;
      }
    }

    /** Those before it in the list that accept the node are lighter. */
    ghost predicate LeadsUpTo(i: nat, weight: nat, root_: Node, holds: (nat, Node) -> bool, node: Node)
      requires Valid() && i <= |list|
      reads this
    {
      forall j :: 0 <= j < i && Accepts(list[j], root_, holds, node) ==> Weight(list[j]) < weight
    }

    /** Of the listed templates of this weight that accept the node it comes first, so it was registered last. */
    ghost predicate IsNewest(t: nat, root_: Node, holds: (nat, Node) -> bool, node: Node)
      requires Valid() && t < |templates|
      reads this
    {
      exists i: nat :: i < |list| && list[i] == t && LeadsUpTo(i, Weight(t), root_, holds, node)
    }

    /** The best so far: what the trie gave, or a heavier template of the list. */
    ghost predicate Leads(result: Option<nat>, weight: nat, first: Option<nat>, root_: Node,
        holds: (nat, Node) -> bool, node: Node)
      reads this
    {
      && (if result.None? then weight == 0 && first.None?
          else result.value < |templates| && weight == Weight(result.value))
      && (result.Some? && result != first ==> result.value in list && Accepts(result.value, root_, holds, node))
      && (first.Some? ==> first.value < |templates| && (result == first || Weight(first.value) < weight))
    }
  }

  lemma ThreeNames(a: string, b: string, x: string)
    requires a != SLASH && b != SLASH && x != SLASH
    ensures Key([Select(b), Context]) == [b] && IsPure([Select(b), Context])
    ensures Key([Select(b), Select(a), Select(x), Context]) == [b, a, x]
      && IsPure([Select(b), Select(a), Select(x), Context])
    ensures InDocument(Top, Tower([b, a])) && NodeKey(Tower([b, a])) == [b, a, SLASH]
  {
    TowerStands([b, a]);
    var c1, c2, c3, c4 := [Select(b), Select(a), Select(x), Context], [Select(a), Select(x), Context],
        [Select(x), Context], [Context];
    assert c1[1..] == c2 && c2[1..] == c3 && c3[1..] == c4 && c4[1..] == [];
    assert [Select(b), Context][1..] == c4;
    assert Key(c4) == [] && PureTail(c4);
    assert Key(c3) == [x] && PureTail(c3);
    assert Key(c2) == [a, x] && PureTail(c2);
  }

  /**
   The patterns b and x/a/b on an element b below an element a below the root, whatever the names:
   the lookup goes along the longer pattern, ends where no template is, and the one that matches
   is not found.
   */
  method ShorterIsMissed(holds: (nat, Node) -> bool, a: string, b: string, x: string, short: string, long: string,
      expr: string -> seq<Step>)
    returns (entry: Entry, node: Node, found: Option<nat>)
    requires a != SLASH && b != SLASH && x != SLASH && short != long
    requires short != "/" && short != "*" && long != "/" && long != "*"
    requires expr(short) == [Select(b), Context] && expr(long) == [Select(b), Select(a), Select(x), Context]
    ensures entry.Valid() && entry.AllPure() && InDocument(Top, node) && found == None
    ensures entry.direct == [0, 1] && entry.Accepts(0, Top, holds, node)
  {
    ThreeNames(a, b, x);
    entry := TwoPatterns(short, long, expr);
    node := Tower([b, a]);
    assert [b, a, x][2] != [b, a, SLASH][2];
    entry.GoesPast(Top, holds, node);
    found := entry.FindSelect(Top, holds, node);
  }

  lemma StepToSelf(a: string, b: string)
    requires a != SLASH && b != SLASH
    ensures var long, short := [Select(b), Self, Select(a), Context], [Select(b), Select(a), Context];
      Key(long) == [b, a] == Key(short) && IsPure(long) && IsPure(short)
    ensures InDocument(Top, Tower([b, a])) && NodeKey(Tower([b, a])) == [b, a, SLASH]
  {
    TowerStands([b, a]);
    var c1, c2, c3, c4 := [Select(b), Self, Select(a), Context], [Self, Select(a), Context], [Select(a), Context],
        [Context];
    assert c1[1..] == c2 && c2[1..] == c3 && c3[1..] == c4 && c4[1..] == [];
    assert [Select(b), Select(a), Context][1..] == c3;
    assert Key(c4) == [] && PureTail(c4);
    assert Key(c3) == [a] && PureTail(c3);
    assert Key(c2) == [a] && PureTail(c2);
  }

  /**
   The pattern a/./b and then a/b, whatever the names, on an element b below an element a below the
   root: the lookup gives the second, although the first matches and is heavier.
   */
  method HeavierIsMissed(holds: (nat, Node) -> bool, a: string, b: string, long: string, short: string,
      expr: string -> seq<Step>)
    returns (entry: Entry, node: Node, found: Option<nat>)
    requires a != SLASH && b != SLASH && short != long
    requires short != "/" && short != "*" && long != "/" && long != "*"
    requires expr(long) == [Select(b), Self, Select(a), Context] && expr(short) == [Select(b), Select(a), Context]
    ensures entry.Valid() && entry.AllPure() && InDocument(Top, node) && found == Some(1)
    ensures entry.direct == [0, 1] && entry.Accepts(0, Top, holds, node) && entry.Weight(0) > entry.Weight(1)
  {
    StepToSelf(a, b);
    entry := TwoPatterns(long, short, expr);
    node := Tower([b, a]);
    entry.SameKeys(Top, holds, node);
    found := entry.FindSelect(Top, holds, node);
  }

  method TwoPatterns(first: string, second: string, expr: string -> seq<Step>) returns (entry: Entry)
    requires first != second && first != "/" && first != "*" && second != "/" && second != "*"
    requires IsDirect(expr(first)) && IsDirect(expr(second))
    ensures entry.Valid() && entry.direct == [0, 1] && entry.list == []
    ensures |entry.templates| == 2 && entry.templates[0].chain == expr(first)
      && entry.templates[1].chain == expr(second)
  {
    entry := new Entry();
    entry.AddNew(first, expr, 0);
    entry.AddNew(second, expr, 1);
  }

  /** The trie with a template put at a node, after new nodes from n on. */
  lemma Placed(templates: seq<Template>, direct: seq<nat>, t: nat, trie: seq<TrieNode>, paths: seq<seq<string>>,
      n: nat, node: nat)
    requires IsTrie(trie, paths) && n <= |trie| && node < |trie| && t < |templates|
      && paths[node] == Key(templates[t].chain)
    requires forall i :: 0 <= i < |direct| ==> direct[i] < |templates| && Key(templates[direct[i]].chain) in paths[..n]
    requires forall i :: 0 <= i < |trie| ==> trie[i].t == if i < n then LastAt(templates, direct, paths[i]) else None
    ensures var trie2 := trie[node := trie[node].(t := Some(t))];
      IsTrie(trie2, paths) && forall i :: 0 <= i < |trie| ==>
          trie2[i].t == LastAt(templates, direct + [t], paths[i]) && (trie2[i].t.Some? ==>
          trie2[i].t.value < |templates|)
  {
    var trie2 := trie[node := trie[node].(t := Some(t))];
    assert forall i: nat, k: string {:trigger Kid(trie2, i, k)} :: Kid(trie2, i, k) == Kid(trie, i, k);
    assert (direct + [t])[..|direct|] == direct;
    forall i: nat | i < |trie| ensures trie2[i].t == LastAt(templates, direct + [t], paths[i])
        && (trie2[i].t.Some? ==> trie2[i].t.value < |templates|) {
      assert Same(paths, i, node) ==> i == node;
      LastAtKey(templates, direct, paths[i]);
      if i >= n && LastAt(templates, direct, paths[i]).Some? {
        var j: nat :| j < n && paths[j] == paths[i];
        assert Same(paths, j, i);
      }
    }
  }

  lemma Registered(templates: seq<Template>, direct: seq<nat>, t: nat, trie0: seq<TrieNode>, paths0: seq<seq<string>>,
      trie: seq<TrieNode>, paths: seq<seq<string>>, node: nat)
    requires Indexed(templates, direct, trie0, paths0) && t < |templates| && IsDirect(templates[t].chain)
    requires IsTrie(trie, paths) && node < |trie| && paths[node] == Key(templates[t].chain) && paths0 <= paths
    requires forall i :: 0 <= i < |trie| ==> trie[i].t == if i < |trie0| then trie0[i].t else None
    ensures Indexed(templates, direct + [t], trie[node := trie[node].(t := Some(t))], paths)
  {
    assert paths[..|paths0|] == paths0;
    Placed(templates, direct, t, trie, paths, |trie0|, node);
    var trie2, direct2 := trie[node := trie[node].(t := Some(t))], direct + [t];
    forall i | 0 <= i < |direct2| ensures Key(templates[direct2[i]].chain) in paths {
      if i < |direct| {
        assert Key(templates[direct[i]].chain) in paths0;
      } else {
        assert paths[node] in paths;
      }
    }
  }
}
