/** `ls`, `ls_nodes` and `find`: what they collect, and why the two listings agree. */
module VfsListing {
  import opened Base
  import opened Text
  import opened Paths
  import opened VfsTree
  import opened VfsLaws

  predicate Below(dir: string, key: string) {
    key != dir && StartsWith(key, DirPrefix(dir)) && |key| > |DirPrefix(dir)|
  }

  function Remainder(dir: string, key: string): string
    requires Below(dir, key)
  {
    key[|DirPrefix(dir)|..]
  }

  /** What `ls` collects: the first component of every descendant. */
  ghost function EntryNames(m: Tree, dir: string): set<string> {
    set key | key in m && Below(dir, key) :: Split(Remainder(dir, key))[0]
  }

  /** The same, gathered along a walk. */
  function Gathered(dir: string, walk: seq<string>): set<string> {
    if walk == [] then {}
    else
      var key := walk[|walk| - 1];
      Gathered(dir, walk[..|walk| - 1]) + (if Below(dir, key) then {Split(Remainder(dir, key))[0]} else {})
  }

  predicate IsChild(dir: string, key: string) {
    Below(dir, key) && '/' !in Remainder(dir, key)
  }

  function ChildTest(dir: string): string -> bool {
    key => IsChild(dir, key)
  }

  /** The keys `ls_nodes` keeps: the descendants with one component more. */
  ghost function ChildKeys(m: Tree, dir: string): set<string> {
    set key | key in m && IsChild(dir, key)
  }

  function NodesAt(m: Tree, keys: seq<string>): seq<Node>
    requires forall key | key in keys :: key in m
  {
    seq(|keys|, i requires 0 <= i < |keys| => m[keys[i]])
  }

  ghost function LsOp(m: Tree, cwd: string, path: Option<string>): Outcome<seq<string>> {
    match Normalize(cwd, path.GetOr("."))
    case Err(e) => Err(e)
    case Ok(target) =>
      if target !in m then Err(NotFound(target))
      else if m[target].kind == File then Ok([target])
      else Ok(Sorted(EntryNames(m, target)))
  }

  ghost function LsNodesOp(m: Tree, cwd: string, path: Option<string>): Outcome<seq<Node>> {
    match Normalize(cwd, path.GetOr("."))
    case Err(e) => Err(e)
    case Ok(target) =>
      if target !in m then Err(NotFound(target))
      else if m[target].kind == File then Ok([m[target]])
      else Ok(NodesAt(m, Sorted(ChildKeys(m, target))))
  }

  /** The last component of a path: `path.rsplit('/').next()`. */
  function BaseName(path: string): string {
    path[LastSlash(path) + 1..]
  }

  function LastName(names: seq<string>): string {
    if names == [] then "" else names[|names| - 1]
  }

  /** What `find` keeps. A name pattern is a test on base names. */
  predicate IsFound(top: string, pattern: Option<string -> bool>, key: string) {
    (key == top || StartsWith(key, DirPrefix(top))) && (pattern.Some? ==> pattern.value(BaseName(key)))
  }

  function FoundTest(top: string, pattern: Option<string -> bool>): string -> bool {
    key => IsFound(top, pattern, key)
  }

  ghost function FindOp(m: Tree, cwd: string, root: string, pattern: Option<string -> bool>): Outcome<seq<string>> {
    match Normalize(cwd, root)
    case Err(e) => Err(e)
    case Ok(top) =>
      if top !in m then Err(NotFound(top))
      else Ok(Sorted(set key | key in m && IsFound(top, pattern, key)))
  }

  function BaseNames(nodes: seq<Node>): seq<string> {
    seq(|nodes|, i requires 0 <= i < |nodes| => BaseName(nodes[i].path))
  }

  // Agreement

  lemma JoinOne(front: seq<string>, name: string)
    requires ValidNames(front)
    ensures Render(front + [name]) == DirPrefix(Render(front)) + name
  {
    if front == [] {
      assert front + [name] == [name];
    } else {
      RenderConcat(front, [name]);
      RenderNotRoot(front);
    }
  }

  lemma ChildKeyIsEntry(m: Tree, dir: string, key: string)
    requires WellFormed(m) && dir in m && key in ChildKeys(m, dir)
    ensures Remainder(dir, key) in EntryNames(m, dir)
    ensures key == DirPrefix(dir) + Remainder(dir, key)
  {
    SplitUnbroken(Remainder(dir, key));
  }

  lemma FirstOfJoin(names: seq<string>)
    requires ValidNames(names) && names != []
    ensures Split(Join(names))[0] == names[0]
  {
    SplitJoin(names);
  }

  /** Parent closure at work: the step from `dir` towards any descendant is itself a key. */
  lemma StepTowards(m: Tree, dir: seq<string>, names: seq<string>)
    requires WellFormed(m) && ValidNames(names) && Render(names) in m && dir < names
    ensures DirPrefix(Render(dir)) + names[|dir|] in m
  {
    var step := names[..|dir| + 1];
    assert step == dir + [names[|dir|]];
    JoinOne(dir, names[|dir|]);
    if step == names {
    } else {
      AncestorsAreDirs(m, names, |dir| + 1);
    }
  }

  /** What a descendant contributes to the entry names: its next component below `dir`. */
  lemma EntryOfDescendant(dir: string, key: string)
    requires Normal(dir) && Normal(key) && Below(dir, key)
    ensures ValidNames(Names(key)) && Names(dir) < Names(key)
    ensures Split(Remainder(dir, key))[0] == Names(key)[|Names(dir)|]
  {
    DirPrefixIsAncestor(dir, key);
    NormalNames(key);
    var rest := Names(key)[|Names(dir)|..];
    assert Remainder(dir, key) == Join(rest);
    FirstOfJoin(rest);
  }

  /** The first component of any descendant is itself a child. */
  lemma EntryIsChildKey(m: Tree, dir: string, name: string)
    requires WellFormed(m) && dir in m && name in EntryNames(m, dir)
    ensures DirPrefix(dir) + name in ChildKeys(m, dir)
    ensures name != "" && '/' !in name
  {
    var key :| key in m && Below(dir, key) && name == Split(Remainder(dir, key))[0];
    assert KeyOk(m, dir) && KeyOk(m, key);
    EntryOfDescendant(dir, key);
    StepTowards(m, Names(dir), Names(key));
    assert ValidName(name);
    assert Remainder(dir, DirPrefix(dir) + name) == name;
  }

  function Prefixed(prefix: string, names: seq<string>): seq<string> {
    seq(|names|, i requires 0 <= i < |names| => prefix + names[i])
  }

  lemma PrefixedSorted(prefix: string, names: seq<string>)
    requires StrictlySorted(names)
    ensures StrictlySorted(Prefixed(prefix, names))
  {
    forall i, j | 0 <= i < j < |names|
      ensures Less(prefix + names[i], prefix + names[j])
    {
      LeqCommonPrefix(prefix, names[i], names[j]);
      assert (prefix + names[i])[|prefix|..] == names[i];
      assert (prefix + names[j])[|prefix|..] == names[j];
    }
  }

  /** The children's keys, in key order, are the entry names, in name order, below `dir`. */
  lemma ChildKeysPrefixed(m: Tree, dir: string)
    requires WellFormed(m) && dir in m
    ensures Sorted(ChildKeys(m, dir)) == Prefixed(DirPrefix(dir), Sorted(EntryNames(m, dir)))
  {
    var names := Sorted(EntryNames(m, dir));
    var keys := Prefixed(DirPrefix(dir), names);
    PrefixedSorted(DirPrefix(dir), names);
    forall key
      ensures key in keys <==> key in ChildKeys(m, dir)
    {
      if key in ChildKeys(m, dir) {
        ChildKeyIsEntry(m, dir, key);
        var i :| 0 <= i < |names| && names[i] == Remainder(dir, key);
        assert keys[i] == key;
      }
      if key in keys {
        var i :| 0 <= i < |keys| && keys[i] == key;
        EntryIsChildKey(m, dir, names[i]);
      }
    }
    SortedUnique(Sorted(ChildKeys(m, dir)), keys);
  }

  lemma BaseNameOfChild(dir: string, name: string)
    requires '/' !in name
    ensures BaseName(DirPrefix(dir) + name) == name
  {
    if dir == "/" {
      LastSlashAt("", name);
      assert "" + "/" + name == DirPrefix(dir) + name;
    } else {
      LastSlashAt(dir, name);
    }
  }

  lemma {:induction false} GatheredFrom(dir: string, walk: seq<string>, name: string)
    ensures name in Gathered(dir, walk) <==>
            exists i :: 0 <= i < |walk| && Below(dir, walk[i]) && Split(Remainder(dir, walk[i]))[0] == name
    decreases |walk|
  {
    if walk != [] {
      var init := walk[..|walk| - 1];
      GatheredFrom(dir, init, name);
      if name in Gathered(dir, init) {
        var i :| 0 <= i < |init| && Below(dir, init[i]) && Split(Remainder(dir, init[i]))[0] == name;
        assert walk[i] == init[i];
      }
      forall i | 0 <= i < |init|
        ensures init[i] == walk[i]
      {
      }
    }
  }

  lemma GatheredAll(m: Tree, dir: string)
    ensures Gathered(dir, Sorted(m.Keys)) == EntryNames(m, dir)
  {
    var walk := Sorted(m.Keys);
    forall name
      ensures name in Gathered(dir, walk) <==> name in EntryNames(m, dir)
    {
      GatheredFrom(dir, walk, name);
      if name in EntryNames(m, dir) {
        var key :| key in m && Below(dir, key) && Split(Remainder(dir, key))[0] == name;
        assert key in walk;
      }
    }
  }

  lemma ChildStep(m: Tree, dir: string, walk: seq<string>, i: nat)
    requires i < |walk| && forall j | 0 <= j < |walk| :: walk[j] in m
    requires forall key | key in Keep(walk[..i], ChildTest(dir)) :: key in m
    ensures forall key | key in Keep(walk[..i + 1], ChildTest(dir)) :: key in m
    ensures NodesAt(m, Keep(walk[..i + 1], ChildTest(dir)))
         == NodesAt(m, Keep(walk[..i], ChildTest(dir))) + (if IsChild(dir, walk[i]) then [m[walk[i]]] else [])
  {
    hide Keep, IsChild;
    KeepStep(walk, i, ChildTest(dir));
  }

  lemma KeptChildren(m: Tree, dir: string)
    ensures Keep(Sorted(m.Keys), ChildTest(dir)) == Sorted(ChildKeys(m, dir))
  {
    hide IsChild;
    KeepOfSorted(m.Keys, ChildTest(dir));
    assert ChildKeys(m, dir) == set key | key in m.Keys && ChildTest(dir)(key);
  }

  lemma KeptFinds(m: Tree, top: string, pattern: Option<string -> bool>)
    ensures Keep(Sorted(m.Keys), FoundTest(top, pattern))
         == Sorted(set key | key in m && IsFound(top, pattern, key))
  {
    hide IsFound;
    KeepOfSorted(m.Keys, FoundTest(top, pattern));
    assert (set key | key in m && IsFound(top, pattern, key))
        == set key | key in m.Keys && FoundTest(top, pattern)(key);
  }

  /** In a well-formed tree, wherever a working directory and a path lead to a directory, the
      names `ls` shows are the base names of the nodes `ls_nodes` returns, in the same order,
      the root included. */
  lemma LsAgreesWithLsNodes(m: Tree, cwd: string, path: Option<string>)
    requires WellFormed(m)
    requires var target := Normalize(cwd, path.GetOr("."));
             target.Ok? && target.value in m && m[target.value].kind == Dir
    ensures LsOp(m, cwd, path).Ok? && LsNodesOp(m, cwd, path).Ok?
    ensures LsOp(m, cwd, path).value == BaseNames(LsNodesOp(m, cwd, path).value)
  {
    var dir := Normalize(cwd, path.GetOr(".")).value;
    assert KeyOk(m, dir);
    ChildKeysPrefixed(m, dir);
    var names, keys := Sorted(EntryNames(m, dir)), Sorted(ChildKeys(m, dir));
    var nodes := NodesAt(m, keys);
    forall i | 0 <= i < |names|
      ensures BaseName(nodes[i].path) == names[i]
    {
      assert keys[i] == DirPrefix(dir) + names[i];
      assert keys[i] in ChildKeys(m, dir) && KeyOk(m, keys[i]);
      EntryIsChildKey(m, dir, names[i]);
      BaseNameOfChild(dir, names[i]);
    }
    assert names == BaseNames(nodes);
  }

  // The listings in terms of components

  /** The keys one component below a directory. */
  ghost function ChildrenOf(m: Tree, dir: string): set<string> {
    set key | key in m && |Names(key)| == |Names(dir)| + 1 && Names(dir) < Names(key)
  }

  lemma SlashesInJoin(names: seq<string>)
    requires ValidNames(names) && names != []
    ensures '/' !in Join(names) <==> |names| == 1
  {
    assert ValidName(names[0]);
    if |names| > 1 {
      assert (names[0] + "/" + Join(names[1..]))[|names[0]|] == '/';
    }
  }

  lemma ChildIffOneMore(dir: string, key: string)
    requires Normal(dir) && Normal(key)
    ensures IsChild(dir, key) <==> |Names(key)| == |Names(dir)| + 1 && Names(dir) < Names(key)
  {
    DirPrefixIsAncestor(dir, key);
    NormalNames(key);
    if Names(dir) < Names(key) {
      var rest := Names(key)[|Names(dir)|..];
      assert forall n | n in rest :: n in Names(key);
      JoinNotEmpty(rest);
      SlashesInJoin(rest);
      assert Remainder(dir, key) == Join(rest);
    }
  }

  lemma JoinNotEmpty(names: seq<string>)
    requires ValidNames(names) && names != []
    ensures Join(names) != ""
  {
    assert ValidName(names[0]);
  }

  lemma ChildKeysAreChildren(m: Tree, dir: string)
    requires WellFormed(m) && dir in m
    ensures ChildKeys(m, dir) == ChildrenOf(m, dir)
  {
    hide IsChild, Names;
    forall key | key in m
      ensures key in ChildKeys(m, dir) <==> key in ChildrenOf(m, dir)
    {
      assert KeyOk(m, dir) && KeyOk(m, key);
      ChildIffOneMore(dir, key);
    }
  }

  /** The tree holds something by that name right below the directory. */
  ghost predicate HasChild(m: Tree, dir: string, name: string) {
    exists key :: key in m && Names(key) == Names(dir) + [name]
  }

  lemma OneComponentMore(dir: string, name: string)
    requires Normal(dir) && Normal(DirPrefix(dir) + name) && IsChild(dir, DirPrefix(dir) + name)
    ensures Names(DirPrefix(dir) + name) == Names(dir) + [name]
  {
    hide Names, Split, Normal, StartsWith;
    var key := DirPrefix(dir) + name;
    assert Remainder(dir, key) == name;
    hide IsChild, Below, DirPrefix, Remainder;
    SplitUnbroken(name);
    EntryOfDescendant(dir, key);
    ChildIffOneMore(dir, key);
    assert Names(key) == Names(dir) + Names(key)[|Names(dir)|..];
  }

  lemma EntryIsThere(m: Tree, dir: string, name: string)
    requires WellFormed(m) && dir in m && name in EntryNames(m, dir)
    ensures HasChild(m, dir, name)
  {
    var key := DirPrefix(dir) + name;
    EntryIsChildKey(m, dir, name);
    assert KeyOk(m, dir) && KeyOk(m, key);
    hide Names, Split, EntryNames, WellFormed;
    OneComponentMore(dir, name);
  }

  lemma ThereIsEntry(m: Tree, dir: string, name: string)
    requires WellFormed(m) && dir in m && HasChild(m, dir, name)
    ensures name in EntryNames(m, dir)
  {
    var key :| key in m && Names(key) == Names(dir) + [name];
    hide Names, Split;
    assert KeyOk(m, dir) && KeyOk(m, key);
    ChildIffOneMore(dir, key);
    EntryOfDescendant(dir, key);
    assert Names(key)[|Names(dir)|] == name;
  }

  /** Where a working directory and a path lead to a directory. */
  ghost predicate LeadsToDir(m: Tree, cwd: string, path: Option<string>) {
    var target := Normalize(cwd, path.GetOr("."));
    target.Ok? && target.value in m && m[target.value].kind == Dir
  }

  /** In a well-formed tree, `ls` of a directory gives exactly the names right below it, sorted
      and once each. */
  lemma LsExact(m: Tree, cwd: string, path: Option<string>)
    requires WellFormed(m) && LeadsToDir(m, cwd, path)
    ensures LsOp(m, cwd, path).Ok?
    ensures var dir, names := Normalize(cwd, path.GetOr(".")).value, LsOp(m, cwd, path).value;
            StrictlySorted(names) && forall name :: name in names <==> HasChild(m, dir, name)
  {
    hide WellFormed, Names, EntryNames, HasChild;
    var dir := Normalize(cwd, path.GetOr(".")).value;
    forall name
      ensures name in EntryNames(m, dir) <==> HasChild(m, dir, name)
    {
      if name in EntryNames(m, dir) {
        EntryIsThere(m, dir, name);
      }
      if HasChild(m, dir, name) {
        ThereIsEntry(m, dir, name);
      }
    }
  }

  /** And `ls_nodes` gives exactly the nodes one component below it, once each, in key order. */
  lemma LsNodesExact(m: Tree, cwd: string, path: Option<string>)
    requires WellFormed(m) && LeadsToDir(m, cwd, path)
    ensures LsNodesOp(m, cwd, path).Ok?
    ensures var dir, nodes := Normalize(cwd, path.GetOr(".")).value, LsNodesOp(m, cwd, path).value;
            var keys := Sorted(ChildrenOf(m, dir));
            |nodes| == |keys| && forall i | 0 <= i < |keys| :: keys[i] in m && nodes[i] == m[keys[i]]
  {
    hide WellFormed, Names, StrictlySorted;
    var dir := Normalize(cwd, path.GetOr(".")).value;
    ChildKeysAreChildren(m, dir);
    var keys := Sorted(ChildrenOf(m, dir));
    forall i | 0 <= i < |keys|
      ensures keys[i] in m
    {
      assert keys[i] in ChildrenOf(m, dir);
    }
  }

  /** Of a file, both list the file itself; of nothing, both say what is missing. */
  lemma ListingOfFile(m: Tree, cwd: string, path: Option<string>)
    requires Normalize(cwd, path.GetOr(".")).Ok?
    ensures var target := Normalize(cwd, path.GetOr(".")).value;
            && (target !in m ==>
                  LsOp(m, cwd, path) == Err(NotFound(target)) && LsNodesOp(m, cwd, path) == Err(NotFound(target)))
            && (target in m && m[target].kind == File ==>
                  LsOp(m, cwd, path) == Ok([target]) && LsNodesOp(m, cwd, path) == Ok([m[target]]))
  {
  }

  /** `find` returns each key of the component-wise subtree whose last component passes the
      pattern, once, in key order. */
  lemma FindExact(m: Tree, cwd: string, root: string, pattern: Option<string -> bool>)
    requires WellFormed(m) && FindOp(m, cwd, root, pattern).Ok?
    ensures var top := Normalize(cwd, root).value;
            var found := FindOp(m, cwd, root, pattern).value;
            && StrictlySorted(found)
            && forall key :: key in found <==>
                 && key in m && Names(top) <= Names(key)
                 && (pattern.Some? ==> pattern.value(LastName(Names(key))))
  {
    var top := Normalize(cwd, root).value;
    forall key | key in m
      ensures key == top || StartsWith(key, DirPrefix(top)) <==> Names(top) <= Names(key)
      ensures BaseName(key) == LastName(Names(key))
    {
      assert KeyOk(m, top) && KeyOk(m, key);
      DirPrefixIsAncestor(top, key);
      BaseNameIsLast(key);
      if Names(top) == Names(key) {
        NormalInjective(top, key);
      }
    }
  }

  lemma BaseNameIsLast(key: string)
    requires Normal(key)
    ensures BaseName(key) == LastName(Names(key))
  {
    NamesRender([]);
    NormalNames(key);
    if key != "/" {
      var names := Names(key);
      var init, name := names[..|names| - 1], names[|names| - 1];
      assert names == init + [name];
      assert ValidName(names[|names| - 1]);
      JoinOne(init, name);
      NamesRender(init);
      BaseNameOfChild(Render(init), name);
    }
  }
}
