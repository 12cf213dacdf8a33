/** What the tree operations keep and what they do exactly, on well-formed trees. */
module VfsLaws {
  import opened Base
  import opened Text
  import opened Paths
  import opened VfsTree

  // Ancestors

  lemma TakeTake(names: seq<string>, n: nat, k: nat)
    requires n <= k <= |names|
    ensures names[..k][..n] == names[..n]
  {
  }

  lemma RenderNotRoot(names: seq<string>)
    requires ValidNames(names) && names != []
    ensures Render(names) != "/"
  {
    NamesRender(names);
    NamesRender([]);
  }

  /** Parent closure, followed to the top: every proper ancestor of a key is a directory. */
  lemma {:induction false} AncestorsAreDirs(m: Tree, names: seq<string>, n: nat)
    requires WellFormed(m) && ValidNames(names) && Render(names) in m
    requires n < |names|
    ensures Render(names[..n]) in m
    ensures m[Render(names[..n])].kind == Dir
    decreases |names|
  {
    hide Resolve, Split, Join, LastSlash;
    assert KeyOk(m, Render(names));
    RenderNotRoot(names);
    ParentRender(names);
    TakeTake(names, n, |names| - 1);
    if n < |names| - 1 {
      AncestorsAreDirs(m, names[..|names| - 1], n);
    }
  }

  lemma DescendantsNeedDirs(m: Tree, root: string, key: string)
    requires WellFormed(m) && key in m
    requires Normal(root) && Names(root) < Names(key)
    ensures root in m && m[root].kind == Dir
  {
    assert KeyOk(m, key);
    NamesValid(key);
    AncestorsAreDirs(m, Names(key), |Names(root)|);
    assert Names(key)[..|Names(root)|] == Names(root);
  }

  lemma AddedNode(m: Tree, key: string, node: Node)
    requires WellFormed(m) && Normal(key) && key !in m
    requires node.path == key && ParentProblem(m, key).None?
    ensures WellFormed(m[key := node])
  {
    var m' := m[key := node];
    forall k | k in m'
      ensures KeyOk(m', k)
    {
      assert k in m ==> KeyOk(m, k);
    }
  }

  lemma ReplacedNode(m: Tree, key: string, node: Node)
    requires WellFormed(m) && key in m
    requires node.path == key && node.kind == m[key].kind
    ensures WellFormed(m[key := node])
  {
    var m' := m[key := node];
    forall k | k in m'
      ensures KeyOk(m', k)
    {
      assert KeyOk(m, k);
    }
  }

  // The invariant over every run

  datatype Call =
    | EnsureDir(path: string, owner: string)
    | MkdirP(cwd: string, path: string, owner: string)
    | Touch(cwd: string, path: string, owner: string)
    | WriteFile(cwd: string, path: string, data: string, append: bool, owner: string)
    | Remove(cwd: string, path: string)
    | Copy(cwd: string, src: string, dst: string)
    | Mv(cwd: string, src: string, dst: string)
    | Chmod(cwd: string, path: string, mode: nat)

  /** The map after a call, whether it succeeded or failed. */
  function Apply(m: Tree, call: Call): Tree {
    match call
    case EnsureDir(path, owner) => EnsureDirOp(m, path, owner).0
    case MkdirP(cwd, path, owner) => MkdirPOp(m, cwd, path, owner).0
    case Touch(cwd, path, owner) => TouchOp(m, cwd, path, owner).0
    case WriteFile(cwd, path, data, append, owner) => WriteOp(m, cwd, path, data, append, owner).0
    case Remove(cwd, path) => RemoveOp(m, cwd, path).0
    case Copy(cwd, src, dst) => CopyOp(m, cwd, src, dst).0
    case Mv(cwd, src, dst) => MvOp(m, cwd, src, dst).0
    case Chmod(cwd, path, mode) => ChmodOp(m, cwd, path, mode).0
  }

  function Run(m: Tree, calls: seq<Call>): Tree
    decreases |calls|
  {
    if calls == [] then m else Run(Apply(m, calls[0]), calls[1..])
  }

  lemma EnsureDirKeeps(m: Tree, key: string, owner: string)
    requires WellFormed(m) && Normal(key)
    ensures WellFormed(EnsureDirKey(m, key, owner).0)
  {
    if key !in m && ParentProblem(m, key).None? {
      AddedNode(m, key, NewDir(key, owner));
    }
  }

  lemma {:induction false} MkdirStepsKeep(m: Tree, done: seq<string>, todo: seq<string>, owner: string)
    requires WellFormed(m) && ValidNames(done + todo)
    ensures WellFormed(MkdirSteps(m, done, todo, owner).0)
    decreases |todo|
  {
    if todo != [] {
      var next := done + [todo[0]];
      assert next + todo[1..] == done + todo;
      assert forall n | n in next :: n in done + todo;
      NamesRender(next);
      EnsureDirKeeps(m, Render(next), owner);
      MkdirStepsKeep(EnsureDirKey(m, Render(next), owner).0, next, todo[1..], owner);
    }
  }

  lemma WriteKeyKeeps(m: Tree, key: string, data: string, append: bool, owner: string)
    requires WellFormed(m) && Normal(key)
    ensures WellFormed(TouchKey(m, key, owner).0)
    ensures WellFormed(WriteKey(m, key, data, append, owner).0)
  {
    if key !in m && ParentProblem(m, key).None? {
      AddedNode(m, key, NewFile(key, owner));
    }
    var m' := TouchKey(m, key, owner).0;
    if key in m' {
      assert KeyOk(m', key);
      ReplacedNode(m', key, Written(m'[key], data, append));
    }
  }

  lemma WithoutSubtreeKeeps(m: Tree, root: string)
    requires WellFormed(m) && Normal(root) && root != "/"
    ensures WellFormed(WithoutSubtree(m, root))
  {
    var m' := WithoutSubtree(m, root);
    NormalNames(root);
    assert "/" in m' by {
      NamesRender([]);
      PrefixIsAncestor(root, "/");
    }
    forall key | key in m'
      ensures KeyOk(m', key)
    {
      assert KeyOk(m, key);
      if key != "/" {
        ParentNames(key);
        PrefixIsAncestor(root, key);
        PrefixIsAncestor(root, ParentPath(key));
      }
    }
  }

  lemma CopyKeyKeeps(m: Tree, src: string, dst: string)
    requires WellFormed(m) && Normal(dst)
    ensures WellFormed(CopyKey(m, src, dst).0)
  {
    NormalizeFixpoint("/", dst);
    if src in m {
      WriteKeyKeeps(m, dst, ContentOf(m[src]), false, "system");
    }
  }

  lemma CopyKeeps(m: Tree, cwd: string, src: string, dst: string)
    requires WellFormed(m)
    ensures WellFormed(CopyOp(m, cwd, src, dst).0)
  {
    if src != "" && dst != "" {
      NormalizeIsNormal(cwd, dst);
      CopyKeyKeeps(m, Normalize(cwd, src).value, Normalize(cwd, dst).value);
    }
  }

  lemma RemoveKeeps(m: Tree, cwd: string, path: string)
    requires WellFormed(m)
    ensures WellFormed(RemoveOp(m, cwd, path).0)
  {
    if path != "" {
      NormalizeIsNormal(cwd, path);
      if Normalize(cwd, path).value != "/" {
        WithoutSubtreeKeeps(m, Normalize(cwd, path).value);
      }
    }
  }

  /** Every call keeps the invariant, on every argument, whether it succeeds or fails. */
  lemma ApplyKeepsWellFormed(m: Tree, call: Call)
    requires WellFormed(m)
    ensures WellFormed(Apply(m, call))
  {
    hide Resolve, Split, Join, LastSlash;
    match call
    case EnsureDir(path, owner) =>
      if path != "" {
        NormalizeIsNormal("/", path);
        EnsureDirKeeps(m, Normalize("/", path).value, owner);
      }
    case MkdirP(cwd, path, owner) =>
      if path != "" {
        NormalizeIsNormal(cwd, path);
        var names := Names(Normalize(cwd, path).value);
        assert [] + names == names;
        MkdirStepsKeep(m, [], names, owner);
      }
    case Touch(cwd, path, owner) =>
      if path != "" {
        NormalizeIsNormal(cwd, path);
        WriteKeyKeeps(m, Normalize(cwd, path).value, "", false, owner);
      }
    case WriteFile(cwd, path, data, append, owner) =>
      if path != "" {
        NormalizeIsNormal(cwd, path);
        WriteKeyKeeps(m, Normalize(cwd, path).value, data, append, owner);
      }
    case Remove(cwd, path) =>
      RemoveKeeps(m, cwd, path);
    case Copy(cwd, src, dst) =>
      CopyKeeps(m, cwd, src, dst);
    case Mv(cwd, src, dst) =>
      CopyKeeps(m, cwd, src, dst);
      RemoveKeeps(CopyOp(m, cwd, src, dst).0, cwd, src);
    case Chmod(cwd, path, mode) =>
      if path != "" && Normalize(cwd, path).value in m {
        var key := Normalize(cwd, path).value;
        assert KeyOk(m, key);
        ReplacedNode(m, key, m[key].(meta := m[key].meta.(mode := mode)));
      }
  }

  lemma EmptyTreeWellFormed()
    ensures WellFormed(EMPTY_TREE)
  {
    NamesRender([]);
    assert KeyOk(EMPTY_TREE, "/");
  }

  lemma {:induction false} RunKeepsWellFormed(m: Tree, calls: seq<Call>)
    requires WellFormed(m)
    ensures WellFormed(Run(m, calls))
    decreases |calls|
  {
    if calls != [] {
      ApplyKeepsWellFormed(m, calls[0]);
      RunKeepsWellFormed(Apply(m, calls[0]), calls[1..]);
    }
  }

  /** Every tree reachable from the empty one is well-formed. */
  lemma ReachableWellFormed(calls: seq<Call>)
    ensures WellFormed(Run(EMPTY_TREE, calls))
  {
    EmptyTreeWellFormed();
    RunKeepsWellFormed(EMPTY_TREE, calls);
  }

  // remove

  /** `remove` succeeds exactly on an existing key other than the root, and then drops exactly
      the component-wise subtree: a sibling that merely shares the string prefix survives. */
  lemma RemoveExact(m: Tree, cwd: string, path: string)
    requires WellFormed(m) && path != ""
    ensures var (m', r) := RemoveOp(m, cwd, path);
            var root := Normalize(cwd, path).value;
            && (r.Ok? <==> root in m && root != "/")
            && (r.Err? ==> m' == m)
            && (r.Ok? ==>
                  && (forall key :: key in m' <==> key in m && !(Names(root) <= Names(key)))
                  && (forall key | key in m' :: m'[key] == m[key])
                  && (forall tail | root + tail in m && tail != "" && tail[0] != '/' ::
                        root + tail in m'))
  {
    NormalizeIsNormal(cwd, path);
    var root := Normalize(cwd, path).value;
    if root in m && root != "/" {
      var m' := WithoutSubtree(m, root);
      forall key | key in m
        ensures key in m' <==> !(Names(root) <= Names(key))
      {
        assert KeyOk(m, key);
        PrefixIsAncestor(root, key);
      }
      forall tail | root + tail in m && tail != "" && tail[0] != '/'
        ensures root + tail in m'
      {
        assert (root + tail)[|root|] == tail[0];
        assert (root + "/")[|root|] == '/';
      }
    }
  }

  // Concrete trees

  lemma TopLevel(name: string)
    requires ValidName(name)
    ensures Normal("/" + name) && Names("/" + name) == [name]
    ensures ParentPath("/" + name) == "/"
    ensures forall cwd :: Normalize(cwd, "/" + name) == Ok("/" + name)
  {
    assert Render([name]) == "/" + name;
    NamesRender([name]);
    ParentRender([name]);
    assert [name][..0] == [];
    forall cwd
      ensures Normalize(cwd, "/" + name) == Ok("/" + name)
    {
      NormalizeFixpoint(cwd, "/" + name);
    }
  }

  /** A reachable tree with a file where `mkdir_p` then reports success, changing nothing. */
  lemma MkdirPAcceptsFile()
    ensures var m := Run(EMPTY_TREE, [Touch("/", "/f", "u")]);
            && "/f" in m && m["/f"].kind == File
            && MkdirPOp(m, "/", "/f", "u") == (m, Ok("/f"))
  {
    hide Resolve, Split, Join, LastSlash;
    assert ValidName("f") && "/" + "f" == "/f";
    TopLevel("f");
    var touch := Touch("/", "/f", "u");
    var m := Apply(EMPTY_TREE, touch);
    assert [touch][1..] == [];
    assert Run(EMPTY_TREE, [touch]) == m;
    assert MkdirSteps(m, [], ["f"], "u") == (m, Ok(())) by {
      assert [] + ["f"] == ["f"] && Render(["f"]) == "/f" && ["f"][1..] == [];
    }
  }

  // mkdir_p

  ghost predicate NoFileOnTheWay(m: Tree, names: seq<string>, start: nat) {
    forall n | start <= n < |names| && Render(names[..n]) in m :: m[Render(names[..n])].kind == Dir
  }

  ghost function PrefixKeys(names: seq<string>, start: nat): set<string> {
    set n | start <= n <= |names| :: Render(names[..n])
  }

  /** `m'` is `m` with fresh directories at the missing prefixes of `names`, and no more. */
  ghost predicate MissingMade(m: Tree, m': Tree, names: seq<string>, start: nat, owner: string) {
    && m'.Keys == m.Keys + PrefixKeys(names, start)
    && forall key | key in m' :: m'[key] == if key in m then m[key] else NewDir(key, owner)
  }

  lemma PrefixValid(names: seq<string>, n: nat)
    requires ValidNames(names) && n <= |names|
    ensures ValidNames(names[..n])
    ensures Names(Render(names[..n])) == names[..n] && Normal(Render(names[..n]))
  {
    NamesRender(names[..n]);
  }

  lemma ParentOfStep(names: seq<string>, at: nat)
    requires ValidNames(names) && at < |names|
    ensures ParentPath(Render(names[..at + 1])) == Render(names[..at])
    ensures Render(names[..at + 1]) != "/"
  {
    PrefixValid(names, at + 1);
    NormalNames(Render(names[..at + 1]));
    ParentRender(names[..at + 1]);
    TakeTake(names, at, at + 1);
  }

  /** A file is no parent: the very next step fails, before anything was made. */
  lemma StepsStopAtFile(m: Tree, names: seq<string>, at: nat, owner: string)
    requires WellFormed(m) && ValidNames(names) && at < |names|
    requires Render(names[..at]) in m && m[Render(names[..at])].kind == File
    ensures MkdirSteps(m, names[..at], names[at..], owner)
         == (m, Err(NotDirectory(Render(names[..at]))))
  {
    PrefixValid(names, at);
    PrefixValid(names, at + 1);
    var done, todo, next := names[..at], names[at..], names[..at + 1];
    assert done + [todo[0]] == next;
    ParentOfStep(names, at);
    if Render(next) in m {
      DescendantsNeedDirs(m, Render(done), Render(next));
    }
    assert EnsureDirKey(m, Render(next), owner) == (m, Err(NotDirectory(Render(done))));
  }

  lemma MkdirStep(m: Tree, names: seq<string>, at: nat, owner: string)
    requires at < |names|
    ensures MkdirSteps(m, names[..at], names[at..], owner) == (
              var (m1, r) := EnsureDirKey(m, Render(names[..at + 1]), owner);
              if r.Err? then (m1, r) else MkdirSteps(m1, names[..at + 1], names[at + 1..], owner))
  {
    assert names[..at] + [names[at..][0]] == names[..at + 1];
    assert names[at..][1..] == names[at + 1..];
  }

  lemma {:induction false} StepsFate(m: Tree, names: seq<string>, at: nat, owner: string)
    requires WellFormed(m) && ValidNames(names) && at <= |names|
    requires Render(names[..at]) in m
    ensures var (m', r) := MkdirSteps(m, names[..at], names[at..], owner);
            && (r.Ok? <==> NoFileOnTheWay(m, names, at))
            && (r.Err? ==> m' == m)
            && (r.Ok? ==> MissingMade(m, m', names, at, owner))
    decreases |names| - at
  {
    if at == |names| {
      PrefixKeysEnd(names);
    } else if m[Render(names[..at])].kind == File {
      StepsStopAtFile(m, names, at, owner);
    } else if Render(names[..at + 1]) in m {
      MkdirStep(m, names, at, owner);
      StepsFate(m, names, at + 1, owner);
      PresentStep(m, MkdirSteps(m, names[..at], names[at..], owner).0, names, at, owner);
    } else {
      StepsMakeTheRest(m, names, at, owner);
    }
  }

  lemma PresentStep(m: Tree, m': Tree, names: seq<string>, at: nat, owner: string)
    requires at < |names| && Render(names[..at]) in m
    ensures MissingMade(m, m', names, at + 1, owner) ==> MissingMade(m, m', names, at, owner)
  {
    PrefixKeysStep(names, at);
  }

  lemma MissingBelow(m: Tree, names: seq<string>, at: nat, n: nat)
    requires WellFormed(m) && ValidNames(names) && at <= n <= |names|
    requires Render(names[..at]) !in m
    ensures Render(names[..n]) !in m
  {
    PrefixValid(names, at);
    PrefixValid(names, n);
    if n > at && Render(names[..n]) in m {
      assert names[..at] < names[..n];
      DescendantsNeedDirs(m, Render(names[..at]), Render(names[..n]));
    }
  }

  lemma PrefixKeysStep(names: seq<string>, at: nat)
    requires at < |names|
    ensures PrefixKeys(names, at) == {Render(names[..at])} + PrefixKeys(names, at + 1)
    ensures Render(names[..at + 1]) in PrefixKeys(names, at + 1)
  {
  }

  lemma PrefixKeysEnd(names: seq<string>)
    ensures PrefixKeys(names, |names|) == {Render(names)}
    ensures names[..|names|] == names && names[|names|..] == []
  {
    assert names[..|names|] == names;
  }

  /** Making the first missing directory moves the whole situation one step on. */
  lemma FirstMissing(m: Tree, names: seq<string>, at: nat, owner: string)
    requires WellFormed(m) && ValidNames(names) && at < |names|
    requires Render(names[..at]) in m && m[Render(names[..at])].kind == Dir
    requires Render(names[..at + 1]) !in m
    ensures var key := Render(names[..at + 1]);
            var m1 := m[key := NewDir(key, owner)];
            && WellFormed(m1)
            && EnsureDirKey(m, key, owner) == (m1, Ok(()))
            && (at + 1 < |names| ==> Render(names[..at + 2]) !in m1)
  {
    var key := Render(names[..at + 1]);
    PrefixValid(names, at + 1);
    ParentOfStep(names, at);
    AddedNode(m, key, NewDir(key, owner));
    if at + 1 < |names| {
      PrefixValid(names, at + 2);
      MissingBelow(m, names, at + 1, at + 2);
    }
  }

  /** From the first missing prefix on, everything is missing, so nothing can go wrong. */
  lemma {:induction false} StepsMakeTheRest(m: Tree, names: seq<string>, at: nat, owner: string)
    requires WellFormed(m) && ValidNames(names) && at < |names|
    requires Render(names[..at]) in m && m[Render(names[..at])].kind == Dir
    requires Render(names[..at + 1]) !in m
    ensures NoFileOnTheWay(m, names, at)
    ensures MkdirSteps(m, names[..at], names[at..], owner).1.Ok?
    ensures MissingMade(m, MkdirSteps(m, names[..at], names[at..], owner).0, names, at, owner)
    decreases |names| - at
  {
    hide Render, EnsureDirKey, Names, WellFormed;
    var key := Render(names[..at + 1]);
    var m1 := m[key := NewDir(key, owner)];
    FirstMissing(m, names, at, owner);
    MkdirStep(m, names, at, owner);
    if at + 1 < |names| {
      StepsMakeTheRest(m1, names, at + 1, owner);
    } else {
      PrefixKeysEnd(names);
    }
  }

  /** `mkdir_p` is all or nothing: it succeeds exactly when no proper ancestor of the target
      is a file; on failure the tree is unchanged, on success the missing prefixes, and only
      they, have become directories. */
  lemma MkdirPAllOrNothing(m: Tree, cwd: string, path: string, owner: string)
    requires WellFormed(m)
    ensures var (m', r) := MkdirPOp(m, cwd, path, owner);
            var names := Names(Source(cwd, path));
            && (r.Ok? <==> path != "" && NoFileOnTheWay(m, names, 0))
            && (r.Err? ==> m' == m)
            && (r.Ok? ==> r.value == Render(names) && MissingMade(m, m', names, 0, owner))
  {
    if path != "" {
      NormalizeIsNormal(cwd, path);
      var names := Names(Source(cwd, path));
      assert names[..0] == [] && names[0..] == names;
      StepsFate(m, names, 0, owner);
      assert MkdirSteps(m, [], names, owner) == MkdirSteps(m, names[..0], names[0..], owner);
    }
  }

  /** After success every proper prefix is a directory; the target itself may be an old file. */
  lemma MkdirPLeavesDirs(m: Tree, cwd: string, path: string, owner: string, n: nat)
    requires WellFormed(m)
    requires MkdirPOp(m, cwd, path, owner).1.Ok?
    requires n < |Names(Source(cwd, path))|
    ensures var (m', r) := MkdirPOp(m, cwd, path, owner);
            var prefix := Render(Names(Source(cwd, path))[..n]);
            prefix in m' && m'[prefix].kind == Dir
  {
    MkdirPAllOrNothing(m, cwd, path, owner);
    var names := Names(Source(cwd, path));
    var prefix := Render(names[..n]);
    assert prefix in PrefixKeys(names, 0);
    if prefix in m {
      assert m[prefix].kind == Dir;
    }
  }

  /** And the target is a directory exactly when it was not a file before. */
  lemma MkdirPMakesDirIff(m: Tree, cwd: string, path: string, owner: string)
    requires WellFormed(m) && MkdirPOp(m, cwd, path, owner).1.Ok?
    ensures var (m', r) := MkdirPOp(m, cwd, path, owner);
            && r.value in m'
            && (m'[r.value].kind == Dir <==> (r.value in m ==> m[r.value].kind == Dir))
  {
    MkdirPAllOrNothing(m, cwd, path, owner);
    var names := Names(Source(cwd, path));
    assert names[..|names|] == names;
    assert Render(names) in PrefixKeys(names, 0);
  }

  // copy and mv

  /** Where `write_file` succeeds: on an old file, or where a node can be created. */
  predicate Writable(m: Tree, key: string) {
    if key in m then m[key].kind == File else ParentProblem(m, key).None?
  }

  lemma CopyFate(m: Tree, src: string, dst: string)
    requires WellFormed(m) && Normal(src) && Normal(dst)
    ensures var (m', r) := CopyKey(m, src, dst);
            && (r.Ok? <==> src in m && m[src].kind == File && Writable(m, dst))
            && (r.Err? ==> m' == m)
            && (r.Ok? ==>
                  && m'.Keys == m.Keys + {dst}
                  && m'[dst].kind == File && ContentOf(m'[dst]) == ContentOf(m[src])
                  && forall key | key in m && key != dst :: m'[key] == m[key])
  {
    NormalizeFixpoint("/", dst);
  }

  /** A file is never above a place that can be written. */
  lemma FileNotAbove(m: Tree, file: string, dst: string)
    requires WellFormed(m) && file in m && m[file].kind == File
    requires Normal(dst) && Writable(m, dst)
    ensures !(Names(file) < Names(dst))
  {
    assert KeyOk(m, file);
    if Names(file) < Names(dst) {
      if dst in m {
        DescendantsNeedDirs(m, file, dst);
      } else {
        NormalNames(dst);
        NamesRender([]);
        ParentNames(dst);
        var parent := ParentPath(dst);
        if Names(file) == Names(parent) {
          NormalInjective(file, parent);
        } else {
          DescendantsNeedDirs(m, file, parent);
        }
      }
    }
  }

  /** After a copy out of file `src`, removing `src` removes that one key. */
  lemma RemoveCopiedFile(m: Tree, m1: Tree, src: string, dst: string)
    requires WellFormed(m) && src in m && m[src].kind == File
    requires Normal(dst) && Writable(m, dst) && m1.Keys == m.Keys + {dst}
    ensures src != "/"
    ensures WithoutSubtree(m1, src) == m1 - {src}
  {
    assert KeyOk(m, src);
    forall key | key in m1
      ensures InSubtree(src, key) <==> key == src
    {
      assert key != dst ==> KeyOk(m, key);
      PrefixIsAncestor(src, key);
      if Names(src) < Names(key) {
        if key == dst {
          FileNotAbove(m, src, dst);
        } else {
          DescendantsNeedDirs(m, src, key);
        }
      }
    }
  }

  /** `mv` fails without effect or succeeds; a success moves the file, and nothing else
      changes, exactly when source and destination are different keys. Onto itself it deletes
      the file. */
  lemma MvExact(m: Tree, cwd: string, src: string, dst: string)
    requires WellFormed(m) && src != "" && dst != ""
    ensures var (m', r) := MvOp(m, cwd, src, dst);
            var s, d := Normalize(cwd, src).value, Normalize(cwd, dst).value;
            && (r.Ok? <==> s in m && m[s].kind == File && Writable(m, d))
            && (r.Err? ==> m' == m)
            && (r.Ok? ==>
                  && m'.Keys == m.Keys + {d} - {s}
                  && (forall key | key in m' && key != d :: m'[key] == m[key])
                  && (d in m' <==> s != d)
                  && (s != d ==> ReadKey(m', d) == ReadKey(m, s)))
  {
    var s, d := Normalize(cwd, src).value, Normalize(cwd, dst).value;
    NormalizeIsNormal(cwd, src);
    NormalizeIsNormal(cwd, dst);
    CopyFate(m, s, d);
    var (m1, r1) := CopyOp(m, cwd, src, dst);
    assert (m1, r1) == CopyKey(m, s, d);
    if r1.Ok? {
      RemoveCopiedFile(m, m1, s, d);
      assert MvOp(m, cwd, src, dst) == (m1 - {s}, Ok(()));
    }
  }

  /** A reachable tree from which `mv` of a file onto itself deletes it. */
  lemma MvOntoItselfDeletes()
    ensures var m := Run(EMPTY_TREE, [Touch("/", "/f", "u")]);
            && "/f" in m && m["/f"].kind == File
            && MvOp(m, "/", "/f", "/f").1.Ok? && "/f" !in MvOp(m, "/", "/f", "/f").0
  {
    hide Resolve, Split, Join, LastSlash, MvOp, MkdirPOp;
    MkdirPAcceptsFile();
    var touch := Touch("/", "/f", "u");
    var m := Run(EMPTY_TREE, [touch]);
    ReachableWellFormed([touch]);
    assert ValidName("f") && "/" + "f" == "/f";
    TopLevel("f");
    MvExact(m, "/", "/f", "/f");
  }
}
