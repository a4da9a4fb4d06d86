/**
 * The filesystem as the staging handler sees it: a table from path to entry,
 * where an entry is a regular file with its bytes or a symbolic link with its
 * target.  Directories are not part of this model.  Paths are compared as
 * strings, as the script compares them: a relative path is a key of its own,
 * read from the working directory, and a relative link target is resolved
 * from the directory holding the link, as Linux does.
 */
module FileSystem {
  import opened Wrappers

  newtype byte = x: int | 0 <= x < 256

  type Bytes = seq<byte>

  type Path = string

  datatype Entry = File(data: Bytes) | Link(target: Path)

  type Fs = map<Path, Entry>

  /** Linux follows at most 40 symbolic links while resolving one path
      (MAXSYMLINKS); a longer chain, or a loop, fails with ELOOP. */
  const MaxSymlinkHops: nat := 40

  /** The directory part of `p`: everything up to and including its last
      `/`, or "" when it has none. */
  function DirPrefix(p: Path): (r: Path)
    ensures r <= p
    ensures r == "" || r[|r| - 1] == '/'
    ensures forall i :: |r| <= i < |p| ==> p[i] != '/'
    decreases |p|
  {
    if |p| == 0 then ""
    else if p[|p| - 1] == '/' then p
    else DirPrefix(p[..|p| - 1])
  }

  /** A link to `name` placed in `dir`: its directory part is `dir + "/"`. */
  lemma DirPrefixOfChild(dir: Path, name: string)
    requires '/' !in name
    ensures DirPrefix(dir + "/" + name) == dir + "/"
  {
    var p := dir + "/" + name;
    var r := DirPrefix(p);
    assert p[|dir|] == '/';
    assert |r| > |dir|;
    assert forall i :: |dir| < i < |p| ==> p[i] == name[i - |dir| - 1];
    assert |r| == |dir| + 1;
  }

  /** Where a symbolic link at `link` with target `t` leads: an absolute
      target as written, a relative one from the directory holding the link
      (without resolving `.` or `..`). */
  function Resolve(link: Path, t: Path): Path
  {
    if |t| > 0 && t[0] == '/' then t else DirPrefix(link) + t
  }

  /** A link leads to a path ending in its target: the target itself when it
      is absolute, and an absolute path whenever the link's own path is. */
  lemma ResolveShape(link: Path, t: Path)
    ensures var r := Resolve(link, t);
            && |r| >= |t| && r[|r| - |t|..] == t
            && (|t| > 0 && t[0] == '/' ==> r == t)
            && (|link| > 0 && link[0] == '/' && |t| > 0 ==> r[0] == '/')
  {
    if !(|t| > 0 && t[0] == '/') && |link| > 0 && link[0] == '/' {
      assert DirPrefix(link) != "";
    }
  }

  /** Resolution stops at `p`: nothing is there, or a regular file is. */
  predicate EndsHere(fs: Fs, p: Path)
  {
    p !in fs || fs[p].File?
  }

  /** Where following `p` through at most `hops` symbolic links ends: at a
      regular file or at a path where nothing exists.  None when the chain is
      longer than that. */
  function Final(fs: Fs, p: Path, hops: nat): (r: Option<Path>)
    ensures r.Some? ==> EndsHere(fs, r.value)
    ensures EndsHere(fs, p) ==> r == Some(p)
    decreases hops
  {
    if p !in fs then Some(p)
    else match fs[p]
      case File(_) => Some(p)
      case Link(t) => if hops == 0 then None else Final(fs, Resolve(p, t), hops - 1)
  }

  /** The bytes read when `p` is opened, following symbolic links; None when
      nothing can be opened there (missing path, dangling link, ELOOP). */
  function Content(fs: Fs, p: Path): (r: Option<Bytes>)
    ensures r.Some? ==> p in fs
    ensures p in fs && fs[p].File? ==> r == Some(fs[p].data)
  {
    match Final(fs, p, MaxSymlinkHops)
    case Some(q) => if q in fs then Some(fs[q].data) else None
    case None => None
  }

  /** `os.path.exists(p)`, which follows symbolic links: false for a dangling
      link.  With no directories in the model it is also `os.path.isfile`. */
  predicate Exists(fs: Fs, p: Path)
    ensures Exists(fs, p) ==> p in fs
  {
    Content(fs, p).Some?
  }

  /** `os.path.samefile(a, b)`: both exist and lead to the same file. */
  predicate SameFile(fs: Fs, a: Path, b: Path)
  {
    Exists(fs, a) && Exists(fs, b) && Final(fs, a, MaxSymlinkHops) == Final(fs, b, MaxSymlinkHops)
  }

  /** Why an operation raised. */
  datatype OsError = SameFileError | OpenFailed(path: Path)

  /** The filesystem after an operation, and the exception it raised, if any
      (an exception leaves the filesystem as it was when it was raised). */
  datatype Outcome = Outcome(fs: Fs, error: Option<OsError>)

  /** `shutil.copyfile(src, dst)`: refuses when both name the same file;
      reads `src` through its links; opens `dst` for writing, which also
      follows links, so a dangling link at `dst` makes the copy create the
      link's final target. */
  function CopyFile(fs: Fs, src: Path, dst: Path): (r: Outcome)
    ensures r.error.None? <==>
              !SameFile(fs, src, dst) && Exists(fs, src) && Final(fs, dst, MaxSymlinkHops).Some?
    ensures r.error.Some? ==> r.fs == fs
    ensures r.error.None? ==> Content(r.fs, dst) == Content(fs, src)
    ensures r.error.None? ==> Content(r.fs, src) == Content(fs, src)
    ensures r.error.None? ==>
              var q := Final(fs, dst, MaxSymlinkHops).value;
              EndsHere(fs, q) && q in r.fs && r.fs == fs[q := r.fs[q]]
  {
    if SameFile(fs, src, dst) then Outcome(fs, Some(SameFileError))
    else match Content(fs, src)
      case None => Outcome(fs, Some(OpenFailed(src)))
      case Some(data) =>
        match Final(fs, dst, MaxSymlinkHops)
        case None => Outcome(fs, Some(OpenFailed(dst)))
        case Some(q) =>
          var fs' := fs[q := File(data)];
          WriteThrough(fs, dst, MaxSymlinkHops, data);
          ContentUnchangedByNonLink(fs, src, q, File(data));
          Outcome(fs', None)
  }

  /** Writing a regular file where `p` leads makes `p` read that file. */
  lemma {:induction false} WriteThrough(fs: Fs, p: Path, hops: nat, data: Bytes)
    requires Final(fs, p, hops).Some?
    ensures var q := Final(fs, p, hops).value;
            Final(fs[q := File(data)], p, hops) == Some(q)
    decreases hops
  {
    var q := Final(fs, p, hops).value;
    if p in fs && fs[p].Link? {
      WriteThrough(fs, Resolve(p, fs[p].target), hops - 1, data);
    }
  }

  /** Replacing an entry that is not a symbolic link does not change where a
      chain leads, unless the chain ends there. */
  lemma {:induction false} FinalUnchangedByNonLink(fs: Fs, p: Path, hops: nat, k: Path, e: Entry)
    requires EndsHere(fs, k)
    requires Final(fs, p, hops) != Some(k)
    ensures Final(fs[k := e], p, hops) == Final(fs, p, hops)
    decreases hops
  {
    if p in fs && fs[p].Link? && hops > 0 {
      FinalUnchangedByNonLink(fs, Resolve(p, fs[p].target), hops - 1, k, e);
    }
  }

  lemma ContentUnchangedByNonLink(fs: Fs, p: Path, k: Path, e: Entry)
    requires EndsHere(fs, k)
    requires Final(fs, p, MaxSymlinkHops) != Some(k)
    ensures Content(fs[k := e], p) == Content(fs, p)
  {
    FinalUnchangedByNonLink(fs, p, MaxSymlinkHops, k, e);
  }

  /** No symbolic link of `fs` points at a path of `d`. */
  ghost predicate NoLinkInto(fs: Fs, d: set<Path>)
  {
    forall p :: p in fs && fs[p].Link? ==> Resolve(p, fs[p].target) !in d
  }

  /** When no link points into `d`, a chain that starts outside a path `k` of
      `d` never reaches `k`: changing or removing the entry at `k` does not
      change where it leads. */
  lemma {:induction false} FinalAvoids(fs: Fs, d: set<Path>, k: Path, e: Entry, p: Path, hops: nat)
    requires NoLinkInto(fs, d) && k in d && p != k
    ensures Final(fs[k := e], p, hops) == Final(fs, p, hops)
    ensures Final(fs - {k}, p, hops) == Final(fs, p, hops)
    ensures Final(fs, p, hops) != Some(k)
    decreases hops
  {
    if p in fs && fs[p].Link? && hops > 0 {
      FinalAvoids(fs, d, k, e, Resolve(p, fs[p].target), hops - 1);
    }
  }

  /** What a path outside `k` reads is unaffected by changing or removing the
      entry at `k`, when no link points into a set holding `k`. */
  lemma ContentAvoids(fs: Fs, d: set<Path>, k: Path, e: Entry, p: Path)
    requires NoLinkInto(fs, d) && k in d && p != k
    ensures Content(fs[k := e], p) == Content(fs, p)
    ensures Content(fs - {k}, p) == Content(fs, p)
  {
    FinalAvoids(fs, d, k, e, p, MaxSymlinkHops);
  }
}
