/** `copy_tree`: exactly what it copies, and exactly when it keeps the tree well-formed. */
module VfsCopyTree {
  import opened Base
  import opened Text
  import opened Paths
  import opened VfsTree
  import opened VfsLaws

  /** The key in the source subtree that `key`, at or below `dst`, would be a copy of. */
  function Counterpart(src: string, dst: string, key: string): string
    requires |Names(dst)| <= |Names(key)|
  {
    Render(Names(src) + Names(key)[|Names(dst)|..])
  }

  function Suffix(rest: seq<string>): string {
    if rest == [] then "" else Render(rest)
  }

  lemma RenderSuffix(front: seq<string>, rest: seq<string>)
    requires front != []
    ensures Render(front + rest) == Render(front) + Suffix(rest)
  {
    if rest == [] {
      assert front + rest == front;
    } else {
      RenderConcat(front, rest);
    }
  }

  /** A key below `src` and the key it is copied to differ in the front components only. */
  lemma TargetNames(src: string, dst: string, key: string)
    requires Normal(src) && Normal(dst) && Normal(key) && src != "/" && dst != "/"
    requires Names(src) <= Names(key)
    ensures |src| <= |key|
    ensures var target := Target(src, dst, key);
            && Normal(target)
            && Names(target) == Names(dst) + Names(key)[|Names(src)|..]
            && |dst| <= |target| && Target(dst, src, target) == key
            && Counterpart(src, dst, target) == key
  {
    NormalNames(src);
    NormalNames(dst);
    NormalNames(key);
    var s, d, rest := Names(src), Names(dst), Names(key)[|Names(src)|..];
    assert Names(key) == s + rest;
    RenderSuffix(s, rest);
    RenderSuffix(d, rest);
    assert key[|src|..] == Suffix(rest);
    NamesRender(d + rest);
    assert (d + rest)[|d|..] == rest;
    assert (dst + Suffix(rest))[|dst|..] == Suffix(rest);
  }

  /** A key is a copy exactly when it is at or below `dst` and its counterpart exists, and the
      copy is its counterpart's node under its own path. */
  lemma CopyExact(m: Tree, src: string, dst: string, key: string)
    requires WellFormed(m) && src in m && Normal(dst) && src != "/" && dst != "/"
    ensures key in Copies(m, src, dst) <==>
            Normal(key) && Names(dst) <= Names(key) && Counterpart(src, dst, key) in m
    ensures key in Copies(m, src, dst) ==>
            Copies(m, src, dst)[key] == m[Counterpart(src, dst, key)].(path := key)
  {
    assert KeyOk(m, src);
    if key in Copies(m, src, dst) {
      var k :| k in Subtree(m, src) && key == Target(src, dst, k);
      assert KeyOk(m, k);
      PrefixIsAncestor(src, k);
      TargetNames(src, dst, k);
    }
    if Normal(key) && Names(dst) <= Names(key) && Counterpart(src, dst, key) in m {
      CounterpartIsSource(m, src, dst, key);
    }
  }

  lemma CopiesExact(m: Tree, src: string, dst: string)
    requires WellFormed(m) && src in m && Normal(dst) && src != "/" && dst != "/"
    ensures forall key :: key in Copies(m, src, dst) <==>
              Normal(key) && Names(dst) <= Names(key) && Counterpart(src, dst, key) in m
    ensures forall key | key in Copies(m, src, dst) ::
              Copies(m, src, dst)[key] == m[Counterpart(src, dst, key)].(path := key)
  {
    forall key
      ensures key in Copies(m, src, dst) <==>
              Normal(key) && Names(dst) <= Names(key) && Counterpart(src, dst, key) in m
      ensures key in Copies(m, src, dst) ==>
              Copies(m, src, dst)[key] == m[Counterpart(src, dst, key)].(path := key)
    {
      CopyExact(m, src, dst, key);
    }
  }

  lemma CounterpartIsSource(m: Tree, src: string, dst: string, key: string)
    requires WellFormed(m) && src in m && Normal(dst) && src != "/" && dst != "/"
    requires Normal(key) && Names(dst) <= Names(key) && Counterpart(src, dst, key) in m
    ensures var k := Counterpart(src, dst, key);
            && k in Subtree(m, src)
            && Names(src) <= Names(k)
            && Target(src, dst, k) == key
            && key in Copies(m, src, dst)
  {
    assert KeyOk(m, src);
    NormalNames(src);
    NormalNames(key);
    var k := Counterpart(src, dst, key);
    var rest := Names(key)[|Names(dst)|..];
    NamesRender(Names(src) + rest);
    assert (Names(src) + rest)[|Names(src)|..] == rest;
    PrefixIsAncestor(src, k);
    TargetNames(src, dst, k);
    assert Names(key) == Names(dst) + rest;
    NormalInjective(Target(src, dst, k), key);
  }

  // When the tree invariant survives

  /** What a caller can check beforehand: the destination has a directory as its parent, no
      file lands on a non-empty directory, and only an empty directory is copied onto "/". */
  ghost predicate CopyTreeSafe(m: Tree, src: string, dst: string) {
    if src == "/" then dst == "/" || ParentProblem(m, dst).None?
    else if dst == "/" then forall key | key in m :: !StartsWith(key, src + "/")
    else
      && ParentProblem(m, dst).None?
      && forall key, prior | key in Subtree(m, src) && m[key].kind == File && prior in m ::
           !StartsWith(prior, Target(src, dst, key) + "/")
  }

  lemma ParentNotCopied(m: Tree, src: string, dst: string)
    requires WellFormed(m) && src in m && Normal(dst) && src != "/" && dst != "/"
    ensures ParentPath(dst) !in Copies(m, src, dst)
  {
    CopyExact(m, src, dst, ParentPath(dst));
    ParentNames(dst);
  }

  lemma SafeIsNeeded(m: Tree, src: string, dst: string)
    requires WellFormed(m) && src in m && Normal(dst) && src != "/" && dst != "/"
    requires WellFormed(m + Copies(m, src, dst))
    ensures CopyTreeSafe(m, src, dst)
  {
    var m' := m + Copies(m, src, dst);
    assert KeyOk(m, src);
    TargetNames(src, dst, src);
    CopiesExact(m, src, dst);
    assert Target(src, dst, src) == dst;
    assert dst in m' && KeyOk(m', dst);
    ParentNotCopied(m, src, dst);
    forall key, prior | key in Subtree(m, src) && m[key].kind == File && prior in m
      ensures !StartsWith(prior, Target(src, dst, key) + "/")
    {
      assert KeyOk(m, key) && KeyOk(m, prior);
      PrefixIsAncestor(src, key);
      TargetNames(src, dst, key);
      var target := Target(src, dst, key);
      assert target in Copies(m, src, dst) && m'[target].kind == File;
      if StartsWith(prior, target + "/") {
        assert |target| > 1;
        PrefixIsAncestor(target, prior);
        DescendantsNeedDirs(m', target, prior);
      }
    }
  }

  lemma DropLast(front: seq<string>, rest: seq<string>)
    requires rest != []
    ensures (front + rest)[..|front + rest| - 1] == front + rest[..|rest| - 1]
  {
  }

  lemma ParentOfCounterpart(src: string, dst: string, key: string)
    requires Normal(src) && Normal(dst) && Normal(key) && Names(dst) < Names(key)
    ensures Normal(ParentPath(key)) && Names(dst) <= Names(ParentPath(key))
    ensures Normal(Counterpart(src, dst, key)) && Counterpart(src, dst, key) != "/"
    ensures Counterpart(src, dst, ParentPath(key)) == ParentPath(Counterpart(src, dst, key))
  {
    hide Resolve, Split, LastSlash, Join;
    NormalNames(src);
    NormalNames(key);
    ParentNames(key);
    var s, d, rest := Names(src), Names(dst), Names(key)[|Names(dst)|..];
    assert Names(key) == d + rest;
    DropLast(d, rest);
    DropLast(s, rest);
    assert (d + rest[..|rest| - 1])[|d|..] == rest[..|rest| - 1];
    NamesRender(s + rest);
    RenderNotRoot(s + rest);
    ParentRender(s + rest);
  }

  lemma CopiedKeyOk(m: Tree, src: string, dst: string, key: string)
    requires WellFormed(m) && src in m && Normal(dst) && src != "/" && dst != "/"
    requires m[src].kind == Dir && ParentProblem(m, dst).None?
    requires key in Copies(m, src, dst)
    ensures KeyOk(m + Copies(m, src, dst), key)
  {
    hide Resolve, Split, Join, LastSlash;
    CopyExact(m, src, dst, key);
    if Names(key) == Names(dst) {
      NormalInjective(key, dst);
      ParentNotCopied(m, src, dst);
    } else {
      assert KeyOk(m, src);
      ParentOfCounterpart(src, dst, key);
      assert KeyOk(m, Counterpart(src, dst, key));
      CopyExact(m, src, dst, ParentPath(key));
    }
  }

  lemma SafeSuffices(m: Tree, src: string, dst: string)
    requires WellFormed(m) && src in m && Normal(dst) && src != "/" && dst != "/"
    requires m[src].kind == Dir && CopyTreeSafe(m, src, dst)
    ensures WellFormed(m + Copies(m, src, dst))
  {
    hide Resolve, Split, Join, LastSlash;
    var copies := Copies(m, src, dst);
    var m' := m + copies;
    CopiesExact(m, src, dst);
    NormalNames(dst);
    NamesRender([]);
    assert "/" !in copies;
    forall key | key in m'
      ensures KeyOk(m', key)
    {
      if key in copies {
        CopiedKeyOk(m, src, dst, key);
      } else {
        assert KeyOk(m, key);
        if key != "/" && ParentPath(key) in copies {
          ParentNames(key);
          var parent := ParentPath(key);
          CounterpartIsSource(m, src, dst, parent);
          PrefixIsAncestor(parent, key);
          var k := Counterpart(src, dst, parent);
          assert StartsWith(key, Target(src, dst, k) + "/");
          assert m[k].kind == Dir;
        }
      }
    }
  }

  lemma RootSourceCopiesRoot(m: Tree, dst: string)
    requires WellFormed(m) && Normal(dst)
    ensures Copies(m, "/", dst) == map[dst := m["/"].(path := dst)]
  {
    forall key | key in Subtree(m, "/")
      ensures key == "/"
    {
      assert KeyOk(m, key);
      RootPrefix(key);
    }
    assert Subtree(m, "/") == {"/"};
    assert Target("/", dst, "/") == dst && Target(dst, "/", dst) == "/";
    assert Targets(m, "/", dst) == {dst};
  }

  lemma DirOverKey(m: Tree, key: string, node: Node)
    requires WellFormed(m) && Normal(key) && node.path == key && node.kind == Dir
    ensures WellFormed(m[key := node]) <==> key == "/" || ParentProblem(m, key).None?
  {
    var m' := m[key := node];
    if key != "/" && WellFormed(m') {
      assert KeyOk(m', key);
      ParentNames(key);
      assert ParentPath(key) != key;
    }
    if key == "/" || ParentProblem(m, key).None? {
      forall k | k in m'
        ensures KeyOk(m', k)
      {
        assert k in m ==> KeyOk(m, k);
      }
    }
  }

  /** Copying a non-empty directory onto "/" makes a key starting with "//". */
  lemma DoubledSlash(m: Tree, src: string, key: string)
    requires src in m && key in m && StartsWith(key, src + "/")
    ensures !WellFormed(m + Copies(m, src, "/"))
  {
    var m' := m + Copies(m, src, "/");
    var target := Target(src, "/", key);
    assert target[0] == '/' && target[1] == key[|src|] == '/';
    assert Target("/", src, target) == key;
    assert target in Targets(m, src, "/");
    if WellFormed(m') {
      assert KeyOk(m', target);
      RootPrefix(target);
    }
  }

  lemma RootDestination(m: Tree, src: string)
    requires WellFormed(m) && src in m && m[src].kind == Dir && src != "/"
    ensures WellFormed(m + Copies(m, src, "/")) <==> CopyTreeSafe(m, src, "/")
  {
    if CopyTreeSafe(m, src, "/") {
      assert Subtree(m, src) == {src};
      assert Target(src, "/", src) == "/" && Target("/", src, "/") == src;
      assert Targets(m, src, "/") == {"/"};
      assert Copies(m, src, "/") == map["/" := m[src].(path := "/")];
      NamesRender([]);
      DirOverKey(m, "/", m[src].(path := "/"));
      assert m + Copies(m, src, "/") == m["/" := m[src].(path := "/")];
    } else {
      var key :| key in m && StartsWith(key, src + "/");
      DoubledSlash(m, src, key);
    }
  }

  /** `copy_tree` of a directory keeps the tree well-formed exactly under `CopyTreeSafe`. */
  lemma CopyTreeKeepsIffSafe(m: Tree, src: string, dst: string)
    requires WellFormed(m) && src in m && m[src].kind == Dir && Normal(dst)
    ensures WellFormed(CopyTreeKeys(m, src, dst).0) <==> CopyTreeSafe(m, src, dst)
  {
    if src == "/" {
      RootSourceCopiesRoot(m, dst);
      DirOverKey(m, dst, m["/"].(path := dst));
      assert m + Copies(m, "/", dst) == m[dst := m["/"].(path := dst)];
    } else if dst == "/" {
      RootDestination(m, src);
    } else {
      if CopyTreeSafe(m, src, dst) {
        SafeSuffices(m, src, dst);
      }
      if WellFormed(m + Copies(m, src, dst)) {
        SafeIsNeeded(m, src, dst);
      }
    }
  }

  /** What a caller can check before any `copy_tree`: it fails or copies a file, neither of which
      does harm, or it copies a directory safely. */
  ghost predicate CopyTreeSafeFor(m: Tree, cwd: string, src: string, dst: string) {
    var s, d := Normalize(cwd, src), Normalize(cwd, dst);
    s.Err? || d.Err? || s.value !in m || m[s.value].kind == File || CopyTreeSafe(m, s.value, d.value)
  }

  /** On every argument, `copy_tree` keeps the tree well-formed if and only if it is safe. */
  lemma CopyTreeKeepsIffSafeFor(m: Tree, cwd: string, src: string, dst: string)
    requires WellFormed(m)
    ensures WellFormed(CopyTreeOp(m, cwd, src, dst).0) <==> CopyTreeSafeFor(m, cwd, src, dst)
  {
    if src != "" && dst != "" {
      hide CopyTreeSafe;
      NormalizeIsNormal(cwd, src);
      NormalizeIsNormal(cwd, dst);
      var s, d := Normalize(cwd, src).value, Normalize(cwd, dst).value;
      if s in m && m[s].kind == Dir {
        CopyTreeKeepsIffSafe(m, s, d);
      } else {
        CopyKeyKeeps(m, s, d);
      }
    }
  }

  /** The node that a copy puts at a key, if it puts one there. */
  ghost predicate CopiedTo(m: Tree, src: string, dst: string, tail: string) {
    (tail == "" || tail[0] == '/') && src + tail in m
  }

  lemma CopyAtTail(m: Tree, src: string, dst: string, tail: string)
    requires CopiedTo(m, src, dst, tail)
    ensures dst + tail in Copies(m, src, dst)
    ensures Copies(m, src, dst)[dst + tail] == m[src + tail].(path := dst + tail)
  {
    var key := src + tail;
    assert key[..|src|] == src && key[|src|..] == tail;
    assert tail != "" ==> key[..|src| + 1] == src + "/";
    assert key in Subtree(m, src) && Target(src, dst, key) == dst + tail;
    assert (dst + tail)[|dst|..] == tail && Target(dst, src, dst + tail) == key;
  }

  lemma OnlyTailsCopied(m: Tree, src: string, dst: string, key: string)
    requires key in Copies(m, src, dst)
    ensures exists tail :: key == dst + tail && CopiedTo(m, src, dst, tail)
  {
    var from :| from in Subtree(m, src) && key == Target(src, dst, from);
    var tail := from[|src|..];
    if from != src {
      assert (src + "/")[|src|] == '/' && from[|src|] == '/';
    }
    assert from == src + tail && CopiedTo(m, src, dst, tail);
  }

  /** Whatever stands at the destination: `copy_tree` of a directory puts each node of its subtree
      where the destination's path replaces its own, over what is there, and changes nothing
      else; of a file it is `copy`. */
  lemma CopyTreeMerges(m: Tree, cwd: string, src: string, dst: string)
    requires src != "" && dst != ""
    ensures var (m', r) := CopyTreeOp(m, cwd, src, dst);
            var s, d := Normalize(cwd, src).value, Normalize(cwd, dst).value;
            if s !in m then m' == m && r == Err(NotFound(s))
            else if m[s].kind == File then (m', r) == CopyOp(m, cwd, src, dst)
            else
              && r == Ok(())
              && (forall tail | CopiedTo(m, s, d, tail) ::
                    d + tail in m' && m'[d + tail] == m[s + tail].(path := d + tail))
              && (forall key | !exists tail :: key == d + tail && CopiedTo(m, s, d, tail) ::
                    (key in m' <==> key in m) && (key in m' ==> m'[key] == m[key]))
  {
    var s, d := Normalize(cwd, src).value, Normalize(cwd, dst).value;
    if s in m && m[s].kind == Dir {
      hide Copies;
      forall tail | CopiedTo(m, s, d, tail)
        ensures d + tail in Copies(m, s, d) && Copies(m, s, d)[d + tail] == m[s + tail].(path := d + tail)
      {
        CopyAtTail(m, s, d, tail);
      }
      forall key | key in Copies(m, s, d)
        ensures exists tail :: key == d + tail && CopiedTo(m, s, d, tail)
      {
        OnlyTailsCopied(m, s, d, key);
      }
    }
  }

  // Runs with tree copies

  datatype TreeCall = Plain(call: Call) | CopyTree(cwd: string, src: string, dst: string)

  function ApplyAny(m: Tree, c: TreeCall): Tree {
    match c
    case Plain(call) => Apply(m, call)
    case CopyTree(cwd, src, dst) => CopyTreeOp(m, cwd, src, dst).0
  }

  function RunAny(m: Tree, calls: seq<TreeCall>): Tree
    decreases |calls|
  {
    if calls == [] then m else ApplyAny(RunAny(m, calls[..|calls| - 1]), calls[|calls| - 1])
  }

  ghost predicate SafeCall(m: Tree, c: TreeCall) {
    c.CopyTree? ==> CopyTreeSafeFor(m, c.cwd, c.src, c.dst)
  }

  ghost predicate AllTreesWellFormed(calls: seq<TreeCall>) {
    forall n | 0 <= n <= |calls| :: WellFormed(RunAny(EMPTY_TREE, calls[..n]))
  }

  ghost predicate AllCallsSafe(calls: seq<TreeCall>) {
    forall n | 0 <= n < |calls| :: SafeCall(RunAny(EMPTY_TREE, calls[..n]), calls[n])
  }

  lemma StepKeepsIffSafe(calls: seq<TreeCall>, n: nat)
    requires n < |calls| && WellFormed(RunAny(EMPTY_TREE, calls[..n]))
    ensures WellFormed(RunAny(EMPTY_TREE, calls[..n + 1])) <==> SafeCall(RunAny(EMPTY_TREE, calls[..n]), calls[n])
  {
    hide WellFormed, CopyTreeSafeFor, CopyTreeOp, Apply;
    var m := RunAny(EMPTY_TREE, calls[..n]);
    assert calls[..n + 1][..n] == calls[..n];
    match calls[n]
    case Plain(call) => ApplyKeepsWellFormed(m, call);
    case CopyTree(cwd, src, dst) => CopyTreeKeepsIffSafeFor(m, cwd, src, dst);
  }

  lemma {:induction false} SafeSoFar(calls: seq<TreeCall>, n: nat)
    requires n <= |calls| && AllCallsSafe(calls)
    ensures WellFormed(RunAny(EMPTY_TREE, calls[..n]))
  {
    hide WellFormed, SafeCall;
    if n == 0 {
      EmptyTreeWellFormed();
    } else {
      SafeSoFar(calls, n - 1);
      StepKeepsIffSafe(calls, n - 1);
    }
  }

  /** Over any run of calls, tree copies included, every tree passed through is well-formed if and
      only if every `copy_tree` was safe when it was made. */
  lemma RunKeepsIffSafe(calls: seq<TreeCall>)
    ensures AllTreesWellFormed(calls) <==> AllCallsSafe(calls)
  {
    hide WellFormed, SafeCall, RunAny;
    if AllCallsSafe(calls) {
      forall n | 0 <= n <= |calls|
        ensures WellFormed(RunAny(EMPTY_TREE, calls[..n]))
      {
        SafeSoFar(calls, n);
      }
    }
    if AllTreesWellFormed(calls) {
      forall n | 0 <= n < |calls|
        ensures SafeCall(RunAny(EMPTY_TREE, calls[..n]), calls[n])
      {
        assert WellFormed(RunAny(EMPTY_TREE, calls[..n + 1]));
        StepKeepsIffSafe(calls, n);
      }
    }
  }

  /** A reachable tree that `copy_tree` breaks: the copy lands below a directory that is not
      there. */
  lemma CopyTreeOrphans()
    ensures var m := Run(EMPTY_TREE, [EnsureDir("/a", "u")]);
            WellFormed(m) && !WellFormed(CopyTreeOp(m, "/", "/a", "/x/y").0)
  {
    hide Resolve, Split, Join, LastSlash;
    var call := EnsureDir("/a", "u");
    var m := Apply(EMPTY_TREE, call);
    assert [call][1..] == [];
    assert Run(EMPTY_TREE, [call]) == m;
    ReachableWellFormed([call]);
    assert ValidName("a") && "/" + "a" == "/a";
    TopLevel("a");
    BelowMissing();
    assert m == map["/" := NewDir("/", "root"), "/a" := NewDir("/a", "u")];
    assert "/x"[1] != "/a"[1] && |"/x"| != |"/"|;
    CopyTreeKeepsIffSafe(m, "/a", "/x/y");
  }

  lemma BelowMissing()
    ensures Normal("/x/y") && Normalize("/", "/x/y") == Ok("/x/y") && ParentPath("/x/y") == "/x"
  {
    var names := ["x", "y"];
    assert ValidName("x") && ValidName("y");
    assert names[..1] == ["x"] && names[1..] == ["y"];
    assert Join(["y"]) == "y" && Join(names) == "x" + "/" + "y";
    assert Render(names) == "/x/y" && Render(["x"]) == "/x";
    NamesRender(names);
    ParentRender(names);
    NormalizeFixpoint("/", "/x/y");
  }

  // Exactness

  /** The situation the operation is meant for. */
  ghost predicate FreshCopy(m: Tree, src: string, dst: string) {
    && WellFormed(m)
    && src in m && m[src].kind == Dir && src != "/"
    && Normal(dst) && dst !in m && ParentProblem(m, dst).None?
  }

  lemma NothingBelowAbsent(m: Tree, dst: string, key: string)
    requires WellFormed(m) && Normal(dst) && dst !in m && key in m
    ensures !(Names(dst) <= Names(key))
  {
    assert KeyOk(m, key);
    if Names(dst) < Names(key) {
      DescendantsNeedDirs(m, dst, key);
    } else if Names(dst) == Names(key) {
      NormalInjective(dst, key);
    }
  }

  lemma FreshCopySafe(m: Tree, src: string, dst: string)
    requires FreshCopy(m, src, dst)
    ensures dst != "/" && CopyTreeSafe(m, src, dst)
  {
    assert KeyOk(m, src);
    forall key, prior | key in Subtree(m, src) && prior in m
      ensures !StartsWith(prior, Target(src, dst, key) + "/")
    {
      assert KeyOk(m, key) && KeyOk(m, prior);
      PrefixIsAncestor(src, key);
      TargetNames(src, dst, key);
      NothingBelowAbsent(m, dst, prior);
      NormalNames(Target(src, dst, key));
      PrefixIsAncestor(Target(src, dst, key), prior);
    }
  }

  /** Into a fresh place, the subtree at `dst` is node for node the old subtree at `src`, the
      rest is unchanged, and the invariant holds, even when `dst` lies inside `src`. */
  lemma CopyTreeExact(m: Tree, src: string, dst: string)
    requires FreshCopy(m, src, dst)
    ensures var (m', r) := CopyTreeKeys(m, src, dst);
            && r.Ok? && WellFormed(m')
            && (forall key | Normal(key) && Names(dst) <= Names(key) ::
                  && (key in m' <==> Counterpart(src, dst, key) in m)
                  && (key in m' ==> m'[key] == m[Counterpart(src, dst, key)].(path := key)))
            && (forall key | !(Names(dst) <= Names(key)) ::
                  && (key in m' <==> key in m)
                  && (key in m' ==> m'[key] == m[key]))
  {
    FreshCopySafe(m, src, dst);
    CopyTreeKeepsIffSafe(m, src, dst);
    CopiesExact(m, src, dst);
    forall key | key in m
      ensures !(Names(dst) <= Names(key))
    {
      NothingBelowAbsent(m, dst, key);
    }
  }

  /** With `dst` outside `src`, a following `remove(src)` makes the copy an exact tree move. */
  lemma CopyThenRemoveMoves(m: Tree, src: string, dst: string)
    requires FreshCopy(m, src, dst) && !(Names(src) <= Names(dst))
    ensures var m1 := CopyTreeKeys(m, src, dst).0;
            var (m2, r) := RemoveOp(m1, "/", src);
            && r.Ok? && WellFormed(m2)
            && (forall key | Normal(key) && Names(dst) <= Names(key) ::
                  && (key in m2 <==> Counterpart(src, dst, key) in m)
                  && (key in m2 ==> m2[key] == m[Counterpart(src, dst, key)].(path := key)))
            && (forall key | !(Names(dst) <= Names(key)) ::
                  && (key in m2 <==> key in m && !(Names(src) <= Names(key)))
                  && (key in m2 ==> m2[key] == m[key]))
  {
    CopyTreeExact(m, src, dst);
    NothingBelowAbsent(m, dst, src);
    var m1 := CopyTreeKeys(m, src, dst).0;
    assert KeyOk(m, src);
    NormalNames(src);
    NormalizeFixpoint("/", src);
    RemoveExact(m1, "/", src);
    RemoveKeeps(m1, "/", src);
    forall key | Names(dst) <= Names(key)
      ensures !(Names(src) <= Names(key))
    {
      if Names(src) <= Names(key) {
        PrefixesComparable(Names(src), Names(dst), Names(key));
      }
    }
  }

  lemma PrefixesComparable(a: seq<string>, b: seq<string>, whole: seq<string>)
    requires a <= whole && b <= whole
    ensures a <= b || b <= a
  {
    if |a| <= |b| {
      assert a == b[..|a|];
    } else {
      assert b == a[..|b|];
    }
  }
}
