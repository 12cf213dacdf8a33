/** The `Vfs` object: its map of nodes, edited in place by every operation. Each method is
    proved against the operation on maps of the same name. */
module VfsStore {
  import opened Base
  import opened Text
  import opened Paths
  import opened VfsTree
  import opened VfsLaws
  import opened VfsCopyTree
  import opened VfsListing

  class Vfs {
    var nodes: Tree

    constructor ()
      ensures nodes == EMPTY_TREE
      ensures WellFormed(nodes)
    {
      nodes := map["/" := NewDir("/", "root")];
      EmptyTreeWellFormed();
    }

    method EnsureDir(path: string, owner: string) returns (r: Outcome<()>)
      modifies this
      ensures (nodes, r) == EnsureDirOp(old(nodes), path, owner)
      ensures old(WellFormed(nodes)) ==> WellFormed(nodes)
    {
      ApplyKeepsWellFormedIf(nodes, VfsLaws.EnsureDir(path, owner));
      var normalized := NormalizePath("/", path);
      if normalized.Err? {
        return Err(normalized.error);
      }
      var key := normalized.value;
      if key in nodes {
        return Ok(());
      }
      var parent := ParentPath(key);
      if parent !in nodes {
        return Err(NotFound(parent));
      }
      if nodes[parent].kind != Dir {
        return Err(NotDirectory(parent));
      }
      nodes := nodes[key := NewDir(key, owner)];
      r := Ok(());
    }

    method MkdirP(cwd: string, path: string, owner: string) returns (r: Outcome<string>)
      modifies this
      ensures (nodes, r) == MkdirPOp(old(nodes), cwd, path, owner)
      ensures old(WellFormed(nodes)) ==> WellFormed(nodes)
    {
      ApplyKeepsWellFormedIf(nodes, VfsLaws.MkdirP(cwd, path, owner));
      var normalized := NormalizePath(cwd, path);
      if normalized.Err? {
        return Err(normalized.error);
      }
      NormalizeIsNormal(cwd, path);
      NamesRender([]);
      var key := normalized.value;
      if key == "/" {
        return Ok(key);
      }
      SplitRender(Names(key));
      var made := MakeEach(Split(key), Names(key), owner);
      r := if made.Err? then Err(made.error) else Ok(key);
    }

    /** The loop of `mkdir_p`: one directory for every non-empty segment. */
    method MakeEach(segments: seq<string>, ghost names: seq<string>, owner: string)
        returns (r: Outcome<()>)
      requires segments == [""] + names && ValidNames(names)
      modifies this
      ensures (nodes, r) == MkdirSteps(old(nodes), [], names, owner)
    {
      ghost var at := 0;
      ghost var all := MkdirSteps(old(nodes), [], names, owner);
      assert names[..0] == [] && names[0..] == names;
      var cur := "/";
      for i := 0 to |segments|
        invariant at == (if i == 0 then 0 else i - 1)
        invariant cur == Render(names[..at])
        invariant all == MkdirSteps(nodes, names[..at], names[at..], owner)
      {
        var segment := segments[i];
        if segment != "" {
          MkdirStep(nodes, names, at, owner);
          cur, r := MakeNext(cur, segment, names, at, owner);
          if r.Err? {
            return;
          }
          at := at + 1;
        } else {
          assert i > 0 ==> ValidName(names[i - 1]);
        }
      }
      PrefixKeysEnd(names);
      r := Ok(());
    }

    method MakeNext(cur: string, segment: string, ghost names: seq<string>, ghost at: nat, owner: string)
        returns (next: string, r: Outcome<()>)
      requires ValidNames(names) && at < |names|
      requires cur == Render(names[..at]) && segment == names[at]
      modifies this
      ensures next == Render(names[..at + 1])
      ensures (nodes, r) == EnsureDirKey(old(nodes), next, owner)
    {
      NextDirectory(names, at);
      next := cur;
      if next != "/" {
        next := next + "/";
      }
      next := next + segment;
      r := EnsureDir(next, owner);
    }

    method Touch(cwd: string, path: string, owner: string) returns (r: Outcome<string>)
      modifies this
      ensures (nodes, r) == TouchOp(old(nodes), cwd, path, owner)
      ensures old(WellFormed(nodes)) ==> WellFormed(nodes)
    {
      ApplyKeepsWellFormedIf(nodes, VfsLaws.Touch(cwd, path, owner));
      var normalized := NormalizePath(cwd, path);
      if normalized.Err? {
        return Err(normalized.error);
      }
      var key := normalized.value;
      if key in nodes {
        return Ok(key);
      }
      var parent := ParentPath(key);
      if parent !in nodes {
        return Err(NotFound(parent));
      }
      if nodes[parent].kind != Dir {
        return Err(NotDirectory(parent));
      }
      nodes := nodes[key := NewFile(key, owner)];
      r := Ok(key);
    }

    method WriteFile(cwd: string, path: string, data: string, append: bool, owner: string)
        returns (r: Outcome<string>)
      modifies this
      ensures (nodes, r) == WriteOp(old(nodes), cwd, path, data, append, owner)
      ensures old(WellFormed(nodes)) ==> WellFormed(nodes)
    {
      ApplyKeepsWellFormedIf(nodes, VfsLaws.WriteFile(cwd, path, data, append, owner));
      var touched := Touch(cwd, path, owner);
      if touched.Err? {
        return touched;
      }
      var key := touched.value;
      if key !in nodes {
        return Err(NotFound(key));
      }
      if nodes[key].kind != File {
        return Err(NotFile(key));
      }
      var content := ContentOf(nodes[key]);
      if append {
        content := content + data;
      } else {
        content := data;
      }
      nodes := nodes[key := nodes[key].(content := Some(content))];
      r := Ok(nodes[key].path);
    }

    method ReadFile(cwd: string, path: string) returns (r: Outcome<string>)
      ensures r == ReadOp(nodes, cwd, path)
    {
      var normalized := NormalizePath(cwd, path);
      if normalized.Err? {
        return Err(normalized.error);
      }
      var key := normalized.value;
      if key !in nodes {
        return Err(NotFound(key));
      }
      if nodes[key].kind != File {
        return Err(NotFile(key));
      }
      r := Ok(ContentOf(nodes[key]));
    }

    method Remove(cwd: string, path: string) returns (r: Outcome<()>)
      modifies this
      ensures (nodes, r) == RemoveOp(old(nodes), cwd, path)
      ensures old(WellFormed(nodes)) ==> WellFormed(nodes)
    {
      ApplyKeepsWellFormedIf(nodes, VfsLaws.Remove(cwd, path));
      var normalized := NormalizePath(cwd, path);
      if normalized.Err? {
        return Err(normalized.error);
      }
      var root := normalized.value;
      if root == "/" {
        return Err(RemoveRoot);
      }
      if root !in nodes {
        return Err(NotFound(root));
      }
      var prefix := root + "/";
      nodes := map key | key in nodes && key != root && !StartsWith(key, prefix) :: nodes[key];
      assert nodes == WithoutSubtree(old(nodes), root);
      r := Ok(());
    }

    method Copy(cwd: string, src: string, dst: string) returns (r: Outcome<()>)
      modifies this
      ensures (nodes, r) == CopyOp(old(nodes), cwd, src, dst)
      ensures old(WellFormed(nodes)) ==> WellFormed(nodes)
    {
      ApplyKeepsWellFormedIf(nodes, VfsLaws.Copy(cwd, src, dst));
      var from := NormalizePath(cwd, src);
      if from.Err? {
        return Err(from.error);
      }
      var to := NormalizePath(cwd, dst);
      if to.Err? {
        return Err(to.error);
      }
      if from.value !in nodes {
        return Err(NotFound(from.value));
      }
      var node := nodes[from.value];
      if node.kind != File {
        return Err(NotFile(from.value));
      }
      var written := WriteFile("/", to.value, ContentOf(node), false, "system");
      r := if written.Err? then Err(written.error) else Ok(());
    }

    method Mv(cwd: string, src: string, dst: string) returns (r: Outcome<()>)
      modifies this
      ensures (nodes, r) == MvOp(old(nodes), cwd, src, dst)
      ensures old(WellFormed(nodes)) ==> WellFormed(nodes)
    {
      r := Copy(cwd, src, dst);
      if r.Ok? {
        r := Remove(cwd, src);
      }
    }

    /** The snapshot is inserted key by key; no insertion is overwritten by a later one. */
    method CopyTree(cwd: string, src: string, dst: string) returns (r: Outcome<()>)
      modifies this
      ensures (nodes, r) == CopyTreeOp(old(nodes), cwd, src, dst)
    {
      var from := NormalizePath(cwd, src);
      if from.Err? {
        return Err(from.error);
      }
      var to := NormalizePath(cwd, dst);
      if to.Err? {
        return Err(to.error);
      }
      var s, d := from.value, to.value;
      if s !in nodes {
        return Err(NotFound(s));
      }
      if nodes[s].kind == File {
        r := Copy(cwd, src, dst);
        return;
      }
      var before := nodes;
      var prefix := s + "/";
      var toCopy := set key | key in nodes && (key == s || StartsWith(key, prefix));
      assert toCopy == Subtree(before, s);
      var keys := SortedElements(toCopy);
      InsertCopies(s, d, keys);
      CopiesOfAll(before, s, d, keys);
      r := Ok(());
    }

    /** The insertion loop of `copy_tree`, over a snapshot taken before it. */
    method InsertCopies(src: string, dst: string, keys: seq<string>)
      requires forall i | 0 <= i < |keys| :: keys[i] in Subtree(nodes, src)
      modifies this
      ensures nodes == old(nodes) + CopiesOf(old(nodes), src, dst, keys)
    {
      var before := nodes;
      for i := 0 to |keys|
        invariant nodes == before + CopiesOf(before, src, dst, keys[..i])
      {
        var path := keys[i];
        var relative := if path == src then "" else path[|src|..];
        var newPath := dst + relative;
        nodes := nodes[newPath := before[path].(path := newPath)];
        CopiesOfStep(before, src, dst, keys, i);
      }
      assert keys[..|keys|] == keys;
    }

    method Chmod(cwd: string, path: string, mode: nat) returns (r: Outcome<()>)
      modifies this
      ensures (nodes, r) == ChmodOp(old(nodes), cwd, path, mode)
      ensures old(WellFormed(nodes)) ==> WellFormed(nodes)
    {
      ApplyKeepsWellFormedIf(nodes, VfsLaws.Chmod(cwd, path, mode));
      var normalized := NormalizePath(cwd, path);
      if normalized.Err? {
        return Err(normalized.error);
      }
      var key := normalized.value;
      if key !in nodes {
        return Err(NotFound(key));
      }
      var meta := nodes[key].meta.(mode := mode);
      nodes := nodes[key := nodes[key].(meta := meta)];
      r := Ok(());
    }

    method Ls(cwd: string, path: Option<string>) returns (r: Outcome<seq<string>>)
      ensures r == LsOp(nodes, cwd, path)
    {
      hide Names, Render, Resolve, Split;
      var normalized := NormalizePath(cwd, path.GetOr("."));
      if normalized.Err? {
        return Err(normalized.error);
      }
      var target := normalized.value;
      if target !in nodes {
        return Err(NotFound(target));
      }
      if nodes[target].kind == File {
        return Ok([target]);
      }
      var entries: set<string> := {};
      var prefix := if target == "/" then "/" else target + "/";
      var keys := SortedElements(nodes.Keys);
      for i := 0 to |keys|
        invariant entries == Gathered(target, keys[..i])
      {
        var key := keys[i];
        assert keys[..i + 1][..i] == keys[..i];
        if StartsWith(key, prefix) && key != target {
          var remain := key[|prefix|..];
          if remain != "" {
            entries := entries + {Split(remain)[0]};
          }
        }
      }
      assert keys[..|keys|] == keys;
      GatheredAll(nodes, target);
      var sorted := SortedElements(entries);
      r := Ok(sorted);
    }

    method LsNodes(cwd: string, path: Option<string>) returns (r: Outcome<seq<Node>>)
      ensures r == LsNodesOp(nodes, cwd, path)
    {
      hide Names, Render, Resolve, Split, Keep;
      var normalized := NormalizePath(cwd, path.GetOr("."));
      if normalized.Err? {
        return Err(normalized.error);
      }
      var target := normalized.value;
      if target !in nodes {
        return Err(NotFound(target));
      }
      if nodes[target].kind == File {
        return Ok([nodes[target]]);
      }
      var prefix := if target == "/" then "/" else target + "/";
      var result: seq<Node> := [];
      var keys := SortedElements(nodes.Keys);
      ghost var child := ChildTest(target);
      KeepNone(child);
      assert forall j | 0 <= j < |keys| :: keys[j] in nodes.Keys;
      for i := 0 to |keys|
        invariant forall key | key in Keep(keys[..i], child) :: key in nodes
        invariant result == NodesAt(nodes, Keep(keys[..i], child))
      {
        var key := keys[i];
        ChildStep(nodes, target, keys, i);
        if key != target && StartsWith(key, prefix) {
          var remain := key[|prefix|..];
          if !(remain == "" || '/' in remain) {
            result := result + [nodes[key]];
          }
        }
      }
      assert keys[..|keys|] == keys;
      KeptChildren(nodes, target);
      r := Ok(result);
    }

    method Find(cwd: string, root: string, pattern: Option<string -> bool>) returns (r: Outcome<seq<string>>)
      ensures r == FindOp(nodes, cwd, root, pattern)
    {
      hide Names, Render, Resolve, Split, Keep;
      var normalized := NormalizePath(cwd, root);
      if normalized.Err? {
        return Err(normalized.error);
      }
      var top := normalized.value;
      if top !in nodes {
        return Err(NotFound(top));
      }
      var prefix := if top == "/" then "/" else top + "/";
      var out: seq<string> := [];
      var keys := SortedElements(nodes.Keys);
      ghost var found := FoundTest(top, pattern);
      KeepNone(found);
      for i := 0 to |keys|
        invariant out == Keep(keys[..i], found)
      {
        var key := keys[i];
        KeepStep(keys, i, found);
        if key == top || StartsWith(key, prefix) {
          if pattern.Some? {
            if pattern.value(BaseName(key)) {
              out := out + [key];
            }
          } else {
            out := out + [key];
          }
        }
      }
      assert keys[..|keys|] == keys;
      KeptFinds(nodes, top, pattern);
      r := Ok(out);
    }
  }

  lemma ApplyKeepsWellFormedIf(m: Tree, call: Call)
    ensures WellFormed(m) ==> WellFormed(Apply(m, call))
  {
    if WellFormed(m) {
      ApplyKeepsWellFormed(m, call);
    }
  }

  /** The path built up segment by segment is the rendering of the components so far. */
  lemma NextDirectory(names: seq<string>, at: nat)
    requires ValidNames(names) && at < |names|
    ensures Render(names[..at + 1]) == DirPrefix(Render(names[..at])) + names[at]
    ensures Normalize("/", Render(names[..at + 1])) == Ok(Render(names[..at + 1]))
  {
    assert names[..at + 1] == names[..at] + [names[at]];
    JoinOne(names[..at], names[at]);
    PrefixValid(names, at + 1);
    NormalizeFixpoint("/", Render(names[..at + 1]));
  }

  // The copies made after some of the keys

  ghost function CopiesOf(m: Tree, src: string, dst: string, keys: seq<string>): Tree
    requires forall i | 0 <= i < |keys| :: keys[i] in Subtree(m, src)
    decreases |keys|
  {
    if keys == [] then map[]
    else
      var key := keys[|keys| - 1];
      assert key in Subtree(m, src);
      CopiesOf(m, src, dst, keys[..|keys| - 1])
        [Target(src, dst, key) := m[key].(path := Target(src, dst, key))]
  }

  lemma CopiesOfStep(m: Tree, src: string, dst: string, keys: seq<string>, i: nat)
    requires i < |keys| && forall j | 0 <= j < |keys| :: keys[j] in Subtree(m, src)
    ensures CopiesOf(m, src, dst, keys[..i + 1])
         == CopiesOf(m, src, dst, keys[..i])
              [Target(src, dst, keys[i]) := m[keys[i]].(path := Target(src, dst, keys[i]))]
  {
    assert keys[..i + 1][..i] == keys[..i];
  }

  lemma TargetBack(src: string, dst: string, key: string)
    requires InSubtree(src, key)
    ensures |src| <= |key| && |dst| <= |Target(src, dst, key)|
    ensures Target(dst, src, Target(src, dst, key)) == key
  {
    assert key[..|src|] == src;
    assert Target(src, dst, key)[|dst|..] == key[|src|..];
  }

  lemma {:induction false} CopiesOfAt(m: Tree, src: string, dst: string, keys: seq<string>)
    requires forall i | 0 <= i < |keys| :: keys[i] in Subtree(m, src)
    ensures CopiesOf(m, src, dst, keys).Keys == set key | key in keys :: Target(src, dst, key)
    ensures forall key | key in keys ::
              CopiesOf(m, src, dst, keys)[Target(src, dst, key)] == m[key].(path := Target(src, dst, key))
    decreases |keys|
  {
    if keys != [] {
      var init, last := keys[..|keys| - 1], keys[|keys| - 1];
      assert keys == init + [last];
      CopiesOfAt(m, src, dst, init);
      assert last in keys;
      TargetBack(src, dst, last);
      forall key | key in init
        ensures Target(src, dst, key) == Target(src, dst, last) ==> key == last
      {
        TargetBack(src, dst, key);
      }
    }
  }

  lemma CopiesOfAll(m: Tree, src: string, dst: string, keys: seq<string>)
    requires forall key :: key in keys <==> key in Subtree(m, src)
    ensures CopiesOf(m, src, dst, keys) == Copies(m, src, dst)
  {
    CopiesOfAt(m, src, dst, keys);
    forall key | key in Subtree(m, src)
      ensures Target(src, dst, key) in Copies(m, src, dst)
      ensures Copies(m, src, dst)[Target(src, dst, key)] == m[key].(path := Target(src, dst, key))
    {
      TargetBack(src, dst, key);
    }
  }
}
