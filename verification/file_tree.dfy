/** The part of the file system the tools touch: regular files with text
    content and directories, both keyed by relative paths. The empty path is
    the working directory, which always exists. */
module FileTree {
  import opened Paths

  datatype Tree = Tree(files: map<Path, string>, dirs: set<Path>)

  /** An OS call either succeeds or raises an `OSError` about `path`. */
  datatype IoResult<T> = IoOk(value: T) | IoError(path: Path)

  predicate IsDir(t: Tree, p: Path) {
    p == [] || p in t.dirs
  }

  /** `path.exists()`: a file or a directory. */
  predicate Exists(t: Tree, p: Path) {
    IsDir(t, p) || p in t.files
  }

  /** Files and directories are disjoint and everything sits in an existing
      directory: the shape every real file system has. */
  predicate WellFormed(t: Tree) {
    && [] !in t.dirs
    && (forall p :: p in t.files ==> p != [] && p !in t.dirs && IsDir(t, Parent(p)))
    && (forall d :: d in t.dirs ==> IsDir(t, Parent(d)))
  }

  /** The non-empty prefixes of `p`, `p` itself included. */
  function Ancestors(p: Path): set<Path> {
    set i | 1 <= i <= |p| :: p[..i]
  }

  /** `path.mkdir(parents=True, exist_ok=True)`: creates every missing
      directory on the way; raises when any prefix of the path is a file. */
  function MakeDirs(t: Tree, p: Path): IoResult<Tree> {
    if exists i :: 1 <= i <= |p| && p[..i] in t.files then IoError(p)
    else IoOk(t.(dirs := t.dirs + Ancestors(p)))
  }

  /** `path.mkdir(exist_ok=True)`: raises when the parent is missing or the
      path is a file; an existing directory is fine. */
  function MakeDir(t: Tree, p: Path): IoResult<Tree> {
    if p == [] then IoOk(t)
    else if p in t.files || !IsDir(t, Parent(p)) then IoError(p)
    else IoOk(t.(dirs := t.dirs + {p}))
  }

  /** `path.write_text(content)`: replaces the whole file, creating it when
      missing; raises when the path is a directory or its parent is not one. */
  function WriteText(t: Tree, p: Path, content: string): IoResult<Tree> {
    if IsDir(t, p) || !IsDir(t, Parent(p)) then IoError(p)
    else IoOk(t.(files := t.files[p := content]))
  }

  /** `path.read_text()`: raises unless the path is a file. */
  function ReadText(t: Tree, p: Path): IoResult<string> {
    if p in t.files then IoOk(t.files[p]) else IoError(p)
  }

  // ------------------------------------------------------------------ lemmas

  /** After `mkdir(parents=True)` the directory and all its ancestors exist,
      the files are untouched, and a well-formed tree stays well-formed. */
  lemma MakeDirsSpec(t: Tree, p: Path)
    requires MakeDirs(t, p).IoOk?
    ensures var t' := MakeDirs(t, p).value;
      && t'.files == t.files
      && t.dirs <= t'.dirs
      && IsDir(t', p)
      && (forall i :: 0 <= i <= |p| ==> IsDir(t', p[..i]))
      && (WellFormed(t) ==> WellFormed(t'))
  {
    var t' := MakeDirs(t, p).value;
    forall i | 0 <= i <= |p| ensures IsDir(t', p[..i]) {
      if i > 0 {
        assert p[..i] in Ancestors(p);
      }
    }
    assert p[..|p|] == p;
    if WellFormed(t) {
      forall d | d in t'.dirs ensures IsDir(t', Parent(d)) {
        if d !in t.dirs {
          var i :| 1 <= i <= |p| && d == p[..i];
          assert Parent(d) == p[..i - 1];
        }
      }
    }
  }

  /** Making the parent and then writing the file succeeds exactly when no
      proper prefix of the path is a file and the path is not a directory. */
  lemma MakeParentThenWrite(t: Tree, p: Path, content: string)
    requires |p| > 0
    ensures (MakeDirs(t, Parent(p)).IoOk? && WriteText(MakeDirs(t, Parent(p)).value, p, content).IoOk?) <==>
      (forall i :: 1 <= i < |p| ==> p[..i] !in t.files) && !IsDir(t, p)
  {
    var par := Parent(p);
    assert forall i :: 1 <= i <= |par| ==> par[..i] == p[..i];
    if MakeDirs(t, par).IoOk? {
      MakeDirsSpec(t, par);
      assert forall x :: x in Ancestors(par) ==> |x| <= |par|;
      assert IsDir(MakeDirs(t, par).value, p) <==> IsDir(t, p);
    }
  }

  /** `mkdir(parents=True, exist_ok=True)` twice is the same as once. */
  lemma MakeDirsIdempotent(t: Tree, p: Path)
    requires MakeDirs(t, p).IoOk?
    ensures MakeDirs(MakeDirs(t, p).value, p) == MakeDirs(t, p)
  {
  }

  /** A failing `mkdir(parents=True)` names a path one of whose prefixes is a file. */
  lemma MakeDirsFails(t: Tree, p: Path)
    requires MakeDirs(t, p).IoError?
    ensures exists i :: 1 <= i <= |p| && p[..i] in t.files
  {
  }

  /** `write_text` replaces exactly one file's content and leaves the rest alone. */
  lemma WriteTextSpec(t: Tree, p: Path, content: string)
    requires WriteText(t, p, content).IoOk?
    ensures var t' := WriteText(t, p, content).value;
      && t'.files[p] == content
      && t'.dirs == t.dirs
      && t'.files.Keys == t.files.Keys + {p}
      && (forall q :: q in t.files && q != p ==> t'.files[q] == t.files[q])
      && (WellFormed(t) ==> WellFormed(t'))
  {
  }

  /** Writing the same content twice leaves the tree as one write does. */
  lemma WriteTextIdempotent(t: Tree, p: Path, content: string)
    requires WriteText(t, p, content).IoOk?
    ensures WriteText(WriteText(t, p, content).value, p, content) == WriteText(t, p, content)
  {
    var t' := WriteText(t, p, content).value;
    assert t'.files[p := content] == t'.files;
  }

  /** An existing file can always be overwritten: its parent is a directory and
      it is not one itself. */
  lemma WriteExistingFile(t: Tree, p: Path, content: string)
    requires WellFormed(t) && p in t.files
    ensures WriteText(t, p, content).IoOk?
  {
  }
}
