/** The filesystem state, a flat map from absolute path to node, and each operation of `Vfs`
    as a function from the old map to the new one. */
module VfsTree {
  import opened Base
  import opened Text
  import opened Paths

  datatype Kind = Dir | File

  datatype Meta = Meta(owner: string, group: string, mode: nat)

  datatype Node = Node(path: string, kind: Kind, meta: Meta, content: Option<string>)

  type Tree = map<string, Node>

  type Outcome<T> = Result<T, VfsError>

  function NewMeta(owner: string, isDir: bool): Meta {
    Meta(owner, owner, if isDir then 0x1ED else 0x1A4)  // 0o755, 0o644
  }

  function NewDir(path: string, owner: string): Node {
    Node(path, Dir, NewMeta(owner, true), None)
  }

  function NewFile(path: string, owner: string): Node {
    Node(path, File, NewMeta(owner, false), Some(""))
  }

  const EMPTY_TREE: Tree := map["/" := NewDir("/", "root")]

  // The invariant no line of the code states

  ghost predicate KeyOk(m: Tree, key: string)
    requires key in m
  {
    && Normal(key)
    && m[key].path == key
    && (key != "/" ==> ParentPath(key) in m && m[ParentPath(key)].kind == Dir)
  }

  /** Keys are normalised, the root is a directory, every other key has a directory as its
      parent, and every node knows its key. */
  ghost predicate WellFormed(m: Tree) {
    && "/" in m && m["/"].kind == Dir
    && forall key {:trigger KeyOk(m, key)} | key in m :: KeyOk(m, key)
  }

  // Creation

  /** Why no node can be created at `key`, if so. */
  function ParentProblem(m: Tree, key: string): Option<VfsError> {
    var parent := ParentPath(key);
    if parent !in m then Some(NotFound(parent))
    else if m[parent].kind != Dir then Some(NotDirectory(parent))
    else None
  }

  function EnsureDirKey(m: Tree, key: string, owner: string): (Tree, Outcome<()>) {
    if key in m then (m, Ok(()))
    else
      var problem := ParentProblem(m, key);
      if problem.Some? then (m, Err(problem.value))
      else (m[key := NewDir(key, owner)], Ok(()))
  }

  function EnsureDirOp(m: Tree, path: string, owner: string): (Tree, Outcome<()>) {
    match Normalize("/", path)
    case Err(e) => (m, Err(e))
    case Ok(key) => EnsureDirKey(m, key, owner)
  }

  /** Directories for `done + todo[..1]`, `done + todo[..2]`, ... until one cannot be made. */
  function MkdirSteps(m: Tree, done: seq<string>, todo: seq<string>, owner: string)
      : (Tree, Outcome<()>)
    decreases |todo|
  {
    if todo == [] then (m, Ok(()))
    else
      var next := done + [todo[0]];
      var (m', r) := EnsureDirKey(m, Render(next), owner);
      if r.Err? then (m', r) else MkdirSteps(m', next, todo[1..], owner)
  }

  function MkdirPOp(m: Tree, cwd: string, path: string, owner: string): (Tree, Outcome<string>) {
    match Normalize(cwd, path)
    case Err(e) => (m, Err(e))
    case Ok(key) =>
      var (m', r) := MkdirSteps(m, [], Names(key), owner);
      (m', if r.Err? then Err(r.error) else Ok(key))
  }

  function TouchKey(m: Tree, key: string, owner: string): (Tree, Outcome<string>) {
    if key in m then (m, Ok(key))
    else
      var problem := ParentProblem(m, key);
      if problem.Some? then (m, Err(problem.value))
      else (m[key := NewFile(key, owner)], Ok(key))
  }

  function TouchOp(m: Tree, cwd: string, path: string, owner: string): (Tree, Outcome<string>) {
    match Normalize(cwd, path)
    case Err(e) => (m, Err(e))
    case Ok(key) => TouchKey(m, key, owner)
  }

  // Contents

  function ContentOf(node: Node): string {
    if node.content.Some? then node.content.value else ""
  }

  function Written(node: Node, data: string, append: bool): Node {
    node.(content := Some(if append then ContentOf(node) + data else data))
  }

  function WriteKey(m: Tree, key: string, data: string, append: bool, owner: string)
      : (Tree, Outcome<string>)
  {
    var (m', r) := TouchKey(m, key, owner);
    if r.Err? then (m', r)
    else if key !in m' then (m', Err(NotFound(key)))
    else if m'[key].kind != File then (m', Err(NotFile(key)))
    else (m'[key := Written(m'[key], data, append)], Ok(m'[key].path))
  }

  function WriteOp(m: Tree, cwd: string, path: string, data: string, append: bool, owner: string)
      : (Tree, Outcome<string>)
  {
    match Normalize(cwd, path)
    case Err(e) => (m, Err(e))
    case Ok(key) => WriteKey(m, key, data, append, owner)
  }

  function ReadKey(m: Tree, key: string): Outcome<string> {
    if key !in m then Err(NotFound(key))
    else if m[key].kind != File then Err(NotFile(key))
    else Ok(ContentOf(m[key]))
  }

  function ReadOp(m: Tree, cwd: string, path: string): Outcome<string> {
    match Normalize(cwd, path)
    case Err(e) => Err(e)
    case Ok(key) => ReadKey(m, key)
  }

  // Removal, copying, moving

  function WithoutSubtree(m: Tree, root: string): Tree {
    map key | key in m && !InSubtree(root, key) :: m[key]
  }

  function RemoveOp(m: Tree, cwd: string, path: string): (Tree, Outcome<()>) {
    match Normalize(cwd, path)
    case Err(e) => (m, Err(e))
    case Ok(key) =>
      if key == "/" then (m, Err(RemoveRoot))
      else if key !in m then (m, Err(NotFound(key)))
      else (WithoutSubtree(m, key), Ok(()))
  }

  function CopyKey(m: Tree, src: string, dst: string): (Tree, Outcome<()>) {
    if src !in m then (m, Err(NotFound(src)))
    else if m[src].kind != File then (m, Err(NotFile(src)))
    else
      var (m', r) := WriteOp(m, "/", dst, ContentOf(m[src]), false, "system");
      (m', if r.Err? then Err(r.error) else Ok(()))
  }

  function CopyOp(m: Tree, cwd: string, src: string, dst: string): (Tree, Outcome<()>) {
    var s, d := Normalize(cwd, src), Normalize(cwd, dst);
    if s.Err? then (m, Err(s.error))
    else if d.Err? then (m, Err(d.error))
    else CopyKey(m, s.value, d.value)
  }

  function MvOp(m: Tree, cwd: string, src: string, dst: string): (Tree, Outcome<()>) {
    var (m', r) := CopyOp(m, cwd, src, dst);
    if r.Err? then (m', r) else RemoveOp(m', cwd, src)
  }

  function Subtree(m: Tree, root: string): set<string> {
    set key | key in m && InSubtree(root, key)
  }

  /** The key that `key`, in the subtree of `src`, is copied to. */
  function Target(src: string, dst: string, key: string): string
    requires |src| <= |key|
  {
    dst + key[|src|..]
  }

  function Targets(m: Tree, src: string, dst: string): set<string> {
    set key | key in Subtree(m, src) :: Target(src, dst, key)
  }

  /** The copied nodes: at `dst + rest`, the node of `src + rest` with its path rewritten. */
  function Copies(m: Tree, src: string, dst: string): Tree {
    map key | key in Targets(m, src, dst) && |dst| <= |key| && Target(dst, src, key) in m ::
      m[Target(dst, src, key)].(path := key)
  }

  function CopyTreeKeys(m: Tree, src: string, dst: string): (Tree, Outcome<()>) {
    if src !in m then (m, Err(NotFound(src)))
    else if m[src].kind == File then CopyKey(m, src, dst)
    else (m + Copies(m, src, dst), Ok(()))
  }

  function CopyTreeOp(m: Tree, cwd: string, src: string, dst: string): (Tree, Outcome<()>) {
    var s, d := Normalize(cwd, src), Normalize(cwd, dst);
    if s.Err? then (m, Err(s.error))
    else if d.Err? then (m, Err(d.error))
    else CopyTreeKeys(m, s.value, d.value)
  }

  // Metadata

  function ChmodOp(m: Tree, cwd: string, path: string, mode: nat): (Tree, Outcome<()>) {
    match Normalize(cwd, path)
    case Err(e) => (m, Err(e))
    case Ok(key) =>
      if key !in m then (m, Err(NotFound(key)))
      else (m[key := m[key].(meta := m[key].meta.(mode := mode))], Ok(()))
  }
}
