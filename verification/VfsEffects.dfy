/** What reads and writes do exactly, and what reads see after writes. */
module VfsEffects {
  import opened Base
  import opened Text
  import opened Paths
  import opened VfsTree
  import opened VfsLaws

  /** Why a file cannot be written there, if so: what stands there is no file, or what should
      hold it is missing or no directory. */
  function WriteProblem(m: Tree, key: string): Option<VfsError> {
    var parent := ParentPath(key);
    if key in m then (if m[key].kind == File then None else Some(NotFile(key)))
    else if parent !in m then Some(NotFound(parent))
    else if m[parent].kind == Dir then None
    else Some(NotDirectory(parent))
  }

  /** What a file holds before a write: nothing if it is not there yet. */
  function Held(m: Tree, key: string): string {
    if key in m && m[key].content.Some? then m[key].content.value else ""
  }

  /** A write succeeds if and only if nothing is in the way, and then puts the data after the old
      content or in place of it; a new file belongs to the writer, and nothing else changes. */
  lemma WriteExact(m: Tree, cwd: string, path: string, data: string, append: bool, owner: string)
    requires WellFormed(m) && path != ""
    ensures var (m', r) := WriteOp(m, cwd, path, data, append, owner);
            var key := Normalize(cwd, path).value;
            match WriteProblem(m, key)
            case Some(e) => m' == m && r == Err(e)
            case None =>
              && r == Ok(key) && m'.Keys == m.Keys + {key}
              && (forall other | other in m && other != key :: m'[other] == m[other])
              && m'[key] ==
                   var content := Some((if append then Held(m, key) else "") + data);
                   if key in m then m[key].(content := content)
                   else Node(key, File, Meta(owner, owner, 0x1A4), content)
  {
    var key := Normalize(cwd, path).value;
    assert key in m ==> KeyOk(m, key);
    assert "" + data == data;
  }

  /** A read gives what the file at the path holds. */
  lemma ReadExact(m: Tree, cwd: string, path: string)
    requires path != ""
    ensures var key := Normalize(cwd, path).value;
            ReadOp(m, cwd, path) ==
              if key in m && m[key].kind == File then Ok(Held(m, key))
              else if key in m then Err(NotFile(key))
              else Err(NotFound(key))
  {
  }

  /** After a successful write, reading the file gives the old content and the data, or the data
      alone, and reading any other path gives what it gave. */
  lemma ReadAfterWrite(m: Tree, cwd: string, path: string, data: string, append: bool, owner: string,
                       cwd': string, path': string)
    requires WellFormed(m) && path != "" && path' != ""
    requires WriteOp(m, cwd, path, data, append, owner).1.Ok?
    ensures var m' := WriteOp(m, cwd, path, data, append, owner).0;
            var key, key' := Normalize(cwd, path).value, Normalize(cwd', path').value;
            ReadOp(m', cwd', path') ==
              if key' == key then Ok((if append then Held(m, key) else "") + data) else ReadOp(m, cwd', path')
  {
    hide Names, Render, WellFormed, WriteOp, ReadOp, Source;
    WriteExact(m, cwd, path, data, append, owner);
    ReadExact(m, cwd', path');
    ReadExact(WriteOp(m, cwd, path, data, append, owner).0, cwd', path');
  }

  /** `copy` is a write of what the file holds, by the system; the errors are those of the source
      and then those of the destination. */
  lemma CopyWrites(m: Tree, cwd: string, src: string, dst: string)
    requires WellFormed(m) && src != "" && dst != ""
    ensures var (m', r) := CopyOp(m, cwd, src, dst);
            var s, d := Normalize(cwd, src).value, Normalize(cwd, dst).value;
            if s !in m then m' == m && r == Err(NotFound(s))
            else if m[s].kind != File then m' == m && r == Err(NotFile(s))
            else match WriteProblem(m, d)
                 case Some(e) => m' == m && r == Err(e)
                 case None =>
                   && r == Ok(()) && m'.Keys == m.Keys + {d}
                   && (forall other | other in m && other != d :: m'[other] == m[other])
                   && m'[d] == if d in m then m[d].(content := Some(Held(m, s)))
                               else Node(d, File, Meta("system", "system", 0x1A4), Some(Held(m, s)))
  {
    var s, d := Normalize(cwd, src).value, Normalize(cwd, dst).value;
    NormalizeIsNormal(cwd, dst);
    NormalizeFixpoint("/", d);
    hide Names, Render, WellFormed, WriteOp, Source, WriteProblem;
    if s in m && m[s].kind == File {
      WriteExact(m, "/", d, Held(m, s), false, "system");
      assert "" + Held(m, s) == Held(m, s);
      NormalNames(d);
    }
  }

  function Concat(pieces: seq<string>): string {
    if pieces == [] then "" else pieces[0] + Concat(pieces[1..])
  }

  /** The tree after one append after the other. */
  function Appended(m: Tree, cwd: string, path: string, pieces: seq<string>, owner: string): Tree
    decreases |pieces|
  {
    if pieces == [] then m
    else Appended(WriteOp(m, cwd, path, pieces[0], true, owner).0, cwd, path, pieces[1..], owner)
  }

  /** Appends add up: a file that can be written holds its old content and then every piece. */
  lemma {:induction false} AppendsAddUp(m: Tree, cwd: string, path: string, pieces: seq<string>, owner: string)
    requires WellFormed(m) && path != "" && pieces != []
    requires WriteProblem(m, Normalize(cwd, path).value).None?
    ensures ReadOp(Appended(m, cwd, path, pieces, owner), cwd, path)
         == Ok(Held(m, Normalize(cwd, path).value) + Concat(pieces))
    decreases |pieces|
  {
    hide Names, Render, WellFormed, WriteOp, ReadOp, Source;
    var key := Normalize(cwd, path).value;
    var m' := WriteOp(m, cwd, path, pieces[0], true, owner).0;
    WriteExact(m, cwd, path, pieces[0], true, owner);
    ReadAfterWrite(m, cwd, path, pieces[0], true, owner, cwd, path);
    ApplyKeepsWellFormed(m, WriteFile(cwd, path, pieces[0], true, owner));
    assert Apply(m, WriteFile(cwd, path, pieces[0], true, owner)) == m';
    assert Held(m', key) == Held(m, key) + pieces[0];
    assert Appended(m, cwd, path, pieces, owner) == Appended(m', cwd, path, pieces[1..], owner);
    assert Held(m, key) + pieces[0] + Concat(pieces[1..]) == Held(m, key) + Concat(pieces);
    if |pieces| == 1 {
      assert Concat(pieces[1..]) == "" && Held(m', key) + "" == Held(m', key);
    } else {
      AppendsAddUp(m', cwd, path, pieces[1..], owner);
    }
  }

  /** `touch` makes an empty file of the caller's, or leaves what is there alone. */
  lemma TouchExact(m: Tree, cwd: string, path: string, owner: string)
    requires path != ""
    ensures var (m', r) := TouchOp(m, cwd, path, owner);
            var key := Normalize(cwd, path).value;
            if key in m then m' == m && r == Ok(key)
            else match WriteProblem(m, key)
                 case Some(e) => m' == m && r == Err(e)
                 case None => r == Ok(key) && m' == m[key := Node(key, File, Meta(owner, owner, 0x1A4), Some(""))]
  {
  }

  /** `ensure_dir` makes a directory of the caller's under the same condition. */
  lemma EnsureDirExact(m: Tree, path: string, owner: string)
    requires path != ""
    ensures var (m', r) := EnsureDirOp(m, path, owner);
            var key := Normalize("/", path).value;
            if key in m then m' == m && r == Ok(())
            else match WriteProblem(m, key)
                 case Some(e) => m' == m && r == Err(e)
                 case None => r == Ok(()) && m' == m[key := Node(key, Dir, Meta(owner, owner, 0x1ED), None)]
  {
  }

  /** `chmod` changes the mode of what is there, and nothing else. */
  lemma ChmodExact(m: Tree, cwd: string, path: string, mode: nat)
    requires path != ""
    ensures var (m', r) := ChmodOp(m, cwd, path, mode);
            var key := Normalize(cwd, path).value;
            && (r.Ok? <==> key in m)
            && (r.Err? ==> m' == m && r.error == NotFound(key))
            && (r.Ok? ==>
                  && m'.Keys == m.Keys && m'[key].meta.mode == mode
                  && m'[key].(meta := m[key].meta) == m[key]
                  && m'[key].meta.(mode := m[key].meta.mode) == m[key].meta
                  && forall other | other in m && other != key :: m'[other] == m[other])
  {
  }

  /** No operation accepts the empty path. */
  lemma EmptyPathRefused(m: Tree, cwd: string, data: string, append: bool, owner: string, mode: nat)
    ensures WriteOp(m, cwd, "", data, append, owner) == (m, Err(InvalidPath))
    ensures TouchOp(m, cwd, "", owner) == MkdirPOp(m, cwd, "", owner) == (m, Err(InvalidPath))
    ensures EnsureDirOp(m, "", owner) == ChmodOp(m, cwd, "", mode) == RemoveOp(m, cwd, "") == (m, Err(InvalidPath))
    ensures ReadOp(m, cwd, "") == Err(InvalidPath)
    ensures forall other :: CopyOp(m, cwd, "", other) == MvOp(m, cwd, "", other) == CopyTreeOp(m, cwd, "", other)
                         == (m, Err(InvalidPath))
    ensures forall other | other != "" ::
              CopyOp(m, cwd, other, "") == MvOp(m, cwd, other, "") == CopyTreeOp(m, cwd, other, "")
              == (m, Err(InvalidPath))
  {
  }
}
