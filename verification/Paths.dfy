/** Absolute paths: `normalize_path` and `parent_path`, and the component lists behind them. */
module Paths {
  import opened Base
  import opened Text

  datatype VfsError =
    | NotFound(path: string)
    | NotDirectory(path: string)
    | NotFile(path: string)
    | RemoveRoot
    | InvalidPath

  /** A component that may appear in a normalised path. */
  predicate ValidName(name: string) {
    name != "" && name != "." && name != ".." && '/' !in name
  }

  ghost predicate ValidNames(names: seq<string>) {
    forall n | n in names :: ValidName(n)
  }

  /** The string form of a component list. */
  function Render(names: seq<string>): string {
    if names == [] then "/" else "/" + Join(names)
  }

  /** One piece of the source path applied to the stack of components. */
  function Push(stack: seq<string>, piece: string): seq<string> {
    if piece == "" || piece == "." then stack
    else if piece == ".." then (if stack == [] then stack else stack[..|stack| - 1])
    else stack + [piece]
  }

  function Resolve(stack: seq<string>, pieces: seq<string>): seq<string>
    decreases |pieces|
  {
    if pieces == [] then stack else Resolve(Push(stack, pieces[0]), pieces[1..])
  }

  /** The text that is split: the path itself when absolute, else below `cwd`. */
  function Source(cwd: string, path: string): string {
    if StartsWith(path, "/") then path
    else if cwd == "/" then "/" + path
    else cwd + "/" + path
  }

  /** The components a path denotes; for a normalised path, its own components. */
  function Names(path: string): seq<string> {
    Resolve([], Split(path))
  }

  /** `normalize_path` as a function. */
  function Normalize(cwd: string, path: string): Result<string, VfsError> {
    if path == "" then Err(InvalidPath) else Ok(Render(Names(Source(cwd, path))))
  }

  /** A key in normal form. */
  predicate Normal(path: string) {
    path == Render(Names(path))
  }

  method NormalizePath(cwd: string, path: string) returns (r: Result<string, VfsError>)
    ensures r == Normalize(cwd, path)
  {
    if path == "" {
      return Err(InvalidPath);
    }
    var parts: seq<string> := [];
    var source :=
      if StartsWith(path, "/") then path
      else if cwd == "/" then "/" + path
      else cwd + "/" + path;
    var pieces := Split(source);
    for i := 0 to |pieces|
      invariant Resolve(parts, pieces[i..]) == Resolve([], pieces)
    {
      assert pieces[i..][1..] == pieces[i + 1..];
      var part := pieces[i];
      if part == "" || part == "." {
      } else if part == ".." {
        if parts != [] {
          parts := parts[..|parts| - 1];
        }
      } else {
        parts := parts + [part];
      }
    }
    assert pieces[|pieces|..] == [];
    if parts == [] {
      r := Ok("/");
    } else {
      r := Ok("/" + Join(parts));
    }
  }

  // Resolution

  lemma {:induction false} ResolveConcat(stack: seq<string>, a: seq<string>, b: seq<string>)
    ensures Resolve(stack, a + b) == Resolve(Resolve(stack, a), b)
    decreases |a|
  {
    if a == [] {
      assert a + b == b;
    } else {
      assert (a + b)[1..] == a[1..] + b;
      ResolveConcat(Push(stack, a[0]), a[1..], b);
    }
  }

  lemma {:induction false} ResolveValid(stack: seq<string>, pieces: seq<string>)
    requires ValidNames(stack)
    requires forall p | p in pieces :: '/' !in p
    ensures ValidNames(Resolve(stack, pieces))
    decreases |pieces|
  {
    if pieces != [] {
      ResolveValid(Push(stack, pieces[0]), pieces[1..]);
    }
  }

  lemma {:induction false} ResolveNames(stack: seq<string>, names: seq<string>)
    requires ValidNames(names)
    ensures Resolve(stack, names) == stack + names
    decreases |names|
  {
    if names == [] {
      assert stack + names == stack;
    } else {
      assert ValidName(names[0]);
      ResolveNames(stack + [names[0]], names[1..]);
      assert stack + names == (stack + [names[0]]) + names[1..];
    }
  }

  /** Every path denotes a list of valid components. */
  lemma NamesValid(path: string)
    ensures ValidNames(Names(path))
  {
    ResolveValid([], Split(path));
  }

  lemma SplitRender(names: seq<string>)
    requires ValidNames(names) && names != []
    ensures Split(Render(names)) == [""] + names
  {
    SplitAtSlash("", Join(names));
    assert "" + "/" + Join(names) == Render(names);
    SplitJoin(names);
  }

  /** Normalised paths and component lists are in bijection. */
  lemma NamesRender(names: seq<string>)
    requires ValidNames(names)
    ensures Names(Render(names)) == names
    ensures Normal(Render(names))
  {
    if names == [] {
      assert Split("/") == ["", ""] by {
        SplitAtSlash("", "");
        assert "" + "/" + "" == "/";
      }
      assert Resolve([], ["", ""]) == Resolve([], [""]) == [];
    } else {
      SplitRender(names);
      ResolveConcat([], [""], names);
      assert Resolve([], [""]) == [];
      ResolveNames([], names);
      assert [] + names == names;
    }
  }

  lemma NormalNames(path: string)
    requires Normal(path)
    ensures ValidNames(Names(path))
    ensures path != "" && path[0] == '/'
    ensures path == "/" <==> Names(path) == []
  {
    NamesValid(path);
    NamesRender([]);
  }

  /** Equal component lists mean equal normalised paths. */
  lemma NormalInjective(a: string, b: string)
    requires Normal(a) && Normal(b) && Names(a) == Names(b)
    ensures a == b
  {
  }

  // Laws of normalize_path

  /** The result is absolute, with no empty, "." or ".." component. */
  lemma NormalizeIsNormal(cwd: string, path: string)
    requires path != ""
    ensures Normal(Normalize(cwd, path).value)
    ensures ValidNames(Names(Normalize(cwd, path).value))
    ensures Names(Normalize(cwd, path).value) == Names(Source(cwd, path))
  {
    NamesValid(Source(cwd, path));
    NamesRender(Names(Source(cwd, path)));
  }

  /** A normalised path is its own normal form, whatever the working directory. */
  lemma NormalizeFixpoint(cwd: string, path: string)
    requires Normal(path)
    ensures Normalize(cwd, path) == Ok(path)
  {
    NormalNames(path);
  }

  /** Normalising twice changes nothing: only the exact fixed points are normal. */
  lemma NormalizeIdempotent(cwd: string, other: string, path: string)
    requires path != ""
    ensures Normalize(other, Normalize(cwd, path).value) == Normalize(cwd, path)
    ensures Normalize(cwd, path) == Ok(path) <==> Normal(path)
  {
    NormalizeIsNormal(cwd, path);
    NormalizeFixpoint(other, Normalize(cwd, path).value);
    if Normal(path) {
      NormalizeFixpoint(cwd, path);
    }
  }

  lemma NamesBelow(base: string, q: string)
    ensures Names(base + "/" + q) == Resolve(Names(base), Split(q))
  {
    SplitAtSlash(base, q);
    ResolveConcat([], Split(base), Split(q));
  }

  /** A relative path is resolved component by component from the directory it is taken in. */
  lemma NamesOfSource(cwd: string, q: string)
    requires !StartsWith(q, "/")
    ensures Names(Source(cwd, q)) == Resolve(Names(cwd), Split(q))
  {
    if cwd == "/" {
      NamesBelow("", q);
      assert "" + "/" + q == "/" + q;
      assert Names("") == [];
      NamesRender([]);
    } else {
      NamesBelow(cwd, q);
    }
  }

  lemma SourceBelow(cwd: string, p: string, q: string)
    requires p != ""
    ensures Source(cwd, p + "/" + q) == Source(cwd, p) + "/" + q
  {
    var whole := p + "/" + q;
    assert whole[0] == p[0];
    assert "/" + whole == ("/" + p) + "/" + q;
    assert cwd + "/" + whole == (cwd + "/" + p) + "/" + q;
  }

  /** Resolving `q` from the normal form of `p` is resolving `p/q` at once. */
  lemma NormalizeComposes(cwd: string, p: string, q: string)
    requires p != "" && q != "" && !StartsWith(q, "/")
    ensures Normalize(Normalize(cwd, p).value, q) == Normalize(cwd, p + "/" + q)
  {
    NormalizeIsNormal(cwd, p);
    NamesOfSource(Normalize(cwd, p).value, q);
    SourceBelow(cwd, p, q);
    NamesBelow(Source(cwd, p), q);
  }

  lemma RelativeNames(cwd: string, q: string)
    requires Normal(cwd) && q != "" && '/' !in q
    ensures Normalize(cwd, q) == Ok(Render(Push(Names(cwd), q)))
  {
    NamesOfSource(cwd, q);
    SplitUnbroken(q);
    assert [q][1..] == [];
    assert Resolve(Names(cwd), [q]) == Resolve(Push(Names(cwd), q), []);
  }

  /** One component at a time, which with composition says what every path means: a name leads
      one level down, `..` one level up except from the root, `.` nowhere, and an absolute path
      away from the directory. */
  lemma NormalizeMoves(cwd: string, name: string, q: string)
    requires Normal(cwd)
    ensures Normalize(cwd, ".") == Ok(cwd)
    ensures Normalize(cwd, "..").Ok?
    ensures Names(Normalize(cwd, "..").value)
         == if Names(cwd) == [] then [] else Names(cwd)[..|Names(cwd)| - 1]
    ensures ValidName(name) ==> Normalize(cwd, name).Ok? && Names(Normalize(cwd, name).value) == Names(cwd) + [name]
    ensures Normalize(cwd, "/" + q) == Normalize("/", "/" + q)
  {
    NormalNames(cwd);
    RelativeNames(cwd, ".");
    RelativeNames(cwd, "..");
    NamesRender(Push(Names(cwd), ".."));
    if ValidName(name) {
      RelativeNames(cwd, name);
      NamesRender(Names(cwd) + [name]);
    }
  }

  // parent_path

  /** `path.rfind('/')`, or -1. */
  function LastSlash(path: string): (at: int)
    ensures -1 <= at < |path|
    ensures at >= 0 ==> path[at] == '/'
    ensures forall i | at < i < |path| :: path[i] != '/'
  {
    if path == "" then -1
    else if path[|path| - 1] == '/' then |path| - 1
    else LastSlash(path[..|path| - 1])
  }

  function ParentPath(path: string): string {
    var at := LastSlash(path);
    if at <= 0 then "/" else path[..at]
  }

  lemma NoSlashAfter(front: string, name: string)
    requires '/' !in name
    ensures var path := front + "/" + name;
            path[|front|] == '/' && forall i | |front| < i < |path| :: path[i] != '/'
  {
    var path := front + "/" + name;
    assert forall i | |front| < i < |path| :: path[i] == name[i - |front| - 1];
  }

  lemma LastSlashAt(front: string, name: string)
    requires '/' !in name
    ensures LastSlash(front + "/" + name) == |front|
    ensures ParentPath(front + "/" + name) == if front == "" then "/" else front
  {
    hide LastSlash;
    var path := front + "/" + name;
    NoSlashAfter(front, name);
    assert LastSlash(path) == |front|;
    assert path[..|front|] == front;
  }

  /** The parent of a normalised path drops its last component. */
  lemma ParentRender(names: seq<string>)
    requires ValidNames(names) && names != []
    ensures ParentPath(Render(names)) == Render(names[..|names| - 1])
  {
    var init, name := names[..|names| - 1], names[|names| - 1];
    assert names == init + [name];
    assert ValidName(name);
    if init == [] {
      LastSlashAt("", name);
      assert "" + "/" + name == Render(names);
    } else {
      LastSlashAt(Render(init), name);
      RenderConcat(init, [name]);
    }
  }

  lemma ParentNames(path: string)
    requires Normal(path) && path != "/"
    ensures Names(path) != []
    ensures Normal(ParentPath(path))
    ensures Names(ParentPath(path)) == Names(path)[..|Names(path)| - 1]
  {
    NormalNames(path);
    var names := Names(path);
    ParentRender(names);
    NamesRender(names[..|names| - 1]);
  }

  // String prefixes and component ancestors

  /** The key test behind every tree operation: the path itself, or a key below it. */
  predicate InSubtree(root: string, key: string) {
    key == root || StartsWith(key, root + "/")
  }

  lemma RenderConcat(a: seq<string>, b: seq<string>)
    requires a != [] && b != []
    ensures Render(a + b) == Render(a) + "/" + Join(b)
    ensures Render(a + b) == Render(a) + Render(b)
  {
    hide Join;
    JoinConcat(a, b);
    assert a + b != [];
    assert "/" + (Join(a) + "/" + Join(b)) == ("/" + Join(a)) + "/" + Join(b);
    assert ("/" + Join(a)) + ("/" + Join(b)) == ("/" + Join(a)) + "/" + Join(b);
  }

  lemma AncestorIsPrefix(r: seq<string>, k: seq<string>)
    requires r != [] && r < k
    ensures Render(k) == Render(r) + "/" + Join(k[|r|..])
    ensures StartsWith(Render(k), Render(r) + "/")
  {
    assert k == r + k[|r|..];
    RenderConcat(r, k[|r|..]);
  }

  lemma PrefixGivesAncestor(r: seq<string>, k: seq<string>, tail: string)
    requires ValidNames(r) && ValidNames(k) && r != [] && k != []
    requires Render(k) == Render(r) + "/" + tail
    ensures k == r + Split(tail)
  {
    SplitAtSlash(Render(r), tail);
    SplitRender(r);
    SplitRender(k);
    DropFirst("", k, r, Split(tail));
  }

  lemma DropFirst(x: string, whole: seq<string>, front: seq<string>, back: seq<string>)
    requires [x] + whole == [x] + front + back
    ensures whole == front + back
  {
    assert [x] + front + back == [x] + (front + back);
    assert ([x] + whole)[1..] == whole;
    assert ([x] + (front + back))[1..] == front + back;
  }

  /** "The string prefix plus a slash" is exactly "a component-wise descendant". */
  lemma PrefixIsAncestor(root: string, key: string)
    requires Normal(root) && Normal(key) && root != "/"
    ensures StartsWith(key, root + "/") <==> Names(root) < Names(key)
    ensures InSubtree(root, key) <==> Names(root) <= Names(key)
  {
    NormalNames(root);
    NormalNames(key);
    var r, k := Names(root), Names(key);
    if r < k {
      AncestorIsPrefix(r, k);
    }
    if StartsWith(key, root + "/") {
      var tail := key[|root| + 1..];
      assert key == root + "/" + tail;
      assert |key| > |root| >= 1;
      PrefixGivesAncestor(r, k, tail);
    }
    if r == k {
      NormalInjective(root, key);
    }
  }

  /** No normalised key other than "/" lies below "/" in the sense of the doubled slash. */
  lemma RootPrefix(key: string)
    requires Normal(key)
    ensures !StartsWith(key, "/" + "/")
    ensures StartsWith(key, "/")
  {
    NormalNames(key);
    var k := Names(key);
    if k != [] {
      assert ValidName(k[0]);
      assert Join(k)[0] == k[0][0] != '/';
      assert key[1] == Join(k)[0];
    }
  }

  /** The prefix that listing uses: "/" for the root, else the path plus a slash. */
  function DirPrefix(dir: string): string {
    if dir == "/" then "/" else dir + "/"
  }

  lemma DirPrefixIsAncestor(dir: string, key: string)
    requires Normal(dir) && Normal(key)
    ensures key != dir && StartsWith(key, DirPrefix(dir)) <==> Names(dir) < Names(key)
    ensures Names(dir) < Names(key) ==>
              key == DirPrefix(dir) + Join(Names(key)[|Names(dir)|..])
  {
    NormalNames(dir);
    NormalNames(key);
    var d, k := Names(dir), Names(key);
    if dir == "/" {
      RootPrefix(key);
      assert k[|d|..] == k;
      NamesRender([]);
    } else {
      PrefixIsAncestor(dir, key);
      if d < k {
        assert k == d + k[|d|..];
        RenderConcat(d, k[|d|..]);
      }
    }
  }
}
