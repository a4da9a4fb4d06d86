/**
 * The parts of Python's `posixpath` the staging handler uses to build its
 * paths: `basename`, `join` of two paths, `normpath` and `abspath` on
 * absolute paths.  The working directory that `abspath` consults is a
 * parameter.
 */
module PosixPath {
  import opened PyStr

  predicate IsAbs(p: string) { |p| > 0 && p[0] == '/' }

  /** `posixpath.basename(p)`: what follows the last `/` of `p` (all of `p`
      when it has none, "" when it ends in `/`).  Equivalently the longest
      suffix of `p` that holds no `/`. */
  function Basename(p: string): (r: string)
    ensures '/' !in r
    decreases |p|
  {
    if |p| == 0 then ""
    else if p[|p| - 1] == '/' then ""
    else Basename(p[..|p| - 1]) + [p[|p| - 1]]
  }

  /** The basename is a suffix of the path, and either all of it or preceded
      by a `/`. */
  lemma {:induction false} BasenameIsLastComponent(p: string)
    ensures var r := Basename(p);
            |r| <= |p| && r == p[|p| - |r|..] && (|r| < |p| ==> p[|p| - |r| - 1] == '/')
    decreases |p|
  {
    if |p| > 0 && p[|p| - 1] != '/' {
      var q := p[..|p| - 1];
      BasenameIsLastComponent(q);
      var r := Basename(q);
      assert Basename(p) == r + [p[|p| - 1]];
      assert q[|q| - |r|..] + [p[|p| - 1]] == p[|p| - |r| - 1..];
    }
  }

  /** The basename of `dir + "/" + name` is `name` when `name` holds no `/`:
      the staged path keeps the source's file name. */
  lemma {:induction false} BasenameOfChild(dir: string, name: string)
    requires '/' !in name
    ensures Basename(dir + "/" + name) == name
    decreases |name|
  {
    var p := dir + "/" + name;
    if |name| > 0 {
      var init := name[..|name| - 1];
      assert p[..|p| - 1] == dir + "/" + init;
      BasenameOfChild(dir, init);
      assert name == init + [name[|name| - 1]];
    }
  }

  /** `posixpath.join(a, b)` for two arguments. */
  function JoinPath(a: string, b: string): (r: string)
    ensures IsAbs(a) || IsAbs(b) ==> IsAbs(r)
  {
    if IsAbs(b) then b
    else if a == "" || a[|a| - 1] == '/' then a + b
    else a + "/" + b
  }

  /** A component that survives normalisation unchanged. */
  predicate IsCleanComponent(c: string)
  {
    c != "" && c != "." && c != ".." && '/' !in c
  }

  predicate AllClean(cs: seq<string>)
  {
    forall i :: 0 <= i < |cs| ==> IsCleanComponent(cs[i])
  }

  /** One component of the `normpath` loop for an absolute path: empty and
      "." components vanish, ".." drops the previous component (and is
      dropped itself at the root), anything else is kept. */
  function Step(acc: seq<string>, c: string): seq<string>
  {
    if c == "" || c == "." then acc
    else if c == ".." then (if |acc| > 0 then acc[..|acc| - 1] else acc)
    else acc + [c]
  }

  /** The `normpath` loop over all components. */
  function Walk(acc: seq<string>, cs: seq<string>): seq<string>
    decreases |cs|
  {
    if |cs| == 0 then acc else Walk(Step(acc, cs[0]), cs[1..])
  }

  /** The leading slashes `normpath` keeps: two exactly when the path begins
      with two and not three, as POSIX leaves "//" implementation-defined. */
  function LeadingSlashes(p: string): string
  {
    if |p| >= 2 && p[..2] == "//" && !(|p| >= 3 && p[2] == '/') then "//" else "/"
  }

  function NormComponents(p: string): seq<string>
  {
    Walk([], Split(p, '/'))
  }

  /** `posixpath.normpath` of an absolute path. */
  function Normpath(p: string): (r: string)
    requires IsAbs(p)
    ensures IsAbs(r)
  {
    LeadingSlashes(p) + Join(NormComponents(p), '/')
  }

  /** `posixpath.abspath(p)` with `cwd` standing for `os.getcwd()`. */
  function Abspath(cwd: string, p: string): (r: string)
    requires IsAbs(cwd)
    ensures IsAbs(r)
  {
    if IsAbs(p) then Normpath(p) else Normpath(JoinPath(cwd, p))
  }

  lemma {:induction false} WalkKeepsClean(acc: seq<string>, cs: seq<string>)
    requires AllClean(acc)
    requires forall i :: 0 <= i < |cs| ==> '/' !in cs[i]
    ensures AllClean(Walk(acc, cs))
    decreases |cs|
  {
    if |cs| > 0 {
      WalkKeepsClean(Step(acc, cs[0]), cs[1..]);
    }
  }

  lemma {:induction false} WalkOfClean(acc: seq<string>, cs: seq<string>)
    requires AllClean(cs)
    ensures Walk(acc, cs) == acc + cs
    decreases |cs|
  {
    if |cs| > 0 {
      WalkOfClean(acc + [cs[0]], cs[1..]);
      assert acc + [cs[0]] + cs[1..] == acc + cs;
    }
  }

  /** Clean components are separator-free and non-empty, so the joined path
      splits back into them. */
  lemma SplitJoinClean(cs: seq<string>)
    requires AllClean(cs) && |cs| > 0
    ensures Split(Join(cs, '/'), '/') == cs
  {
    SplitJoin(cs, '/');
  }

  lemma {:induction false} JoinCleanHead(cs: seq<string>)
    requires AllClean(cs) && |cs| > 0
    ensures |Join(cs, '/')| > 0 && Join(cs, '/')[0] == cs[0][0]
    decreases |cs|
  {
    if |cs| > 1 {
      assert Join(cs, '/') == cs[0] + ['/'] + Join(cs[1..], '/');
    }
  }

  lemma SplitAfterSlash(x: string)
    ensures Split("/" + x, '/') == [""] + Split(x, '/')
  {
    assert "/" + x == [] + ['/'] + x;
    SplitAfterSep([], '/', x);
  }

  lemma WalkSkipsEmpty(acc: seq<string>, cs: seq<string>)
    ensures Walk(acc, [""] + cs) == Walk(acc, cs)
  {
    assert ([""] + cs)[1..] == cs;
  }

  /** Splitting `Join(cs)` and walking the pieces gives `cs` back. */
  lemma WalkJoinClean(cs: seq<string>)
    requires AllClean(cs)
    ensures Walk([], Split(Join(cs, '/'), '/')) == cs
  {
    if |cs| > 0 {
      SplitJoinClean(cs);
      WalkOfClean([], cs);
    } else {
      assert Split(Join(cs, '/'), '/') == [""];
      WalkSkipsEmpty([], []);
    }
  }

  /** The components of a path written as `lead + Join(cs)` with clean `cs`. */
  lemma NormComponentsOfNormal(lead: string, cs: seq<string>)
    requires lead == "/" || lead == "//"
    requires AllClean(cs)
    ensures NormComponents(lead + Join(cs, '/')) == cs
  {
    var j := Join(cs, '/');
    WalkJoinClean(cs);
    SplitAfterSlash(j);
    WalkSkipsEmpty([], Split(j, '/'));
    if lead == "//" {
      assert lead + j == "/" + ("/" + j);
      SplitAfterSlash("/" + j);
      WalkSkipsEmpty([], Split("/" + j, '/'));
    }
  }

  /** The leading slashes of `lead + Join(cs)` are `lead` again. */
  lemma LeadingSlashesOfNormal(lead: string, cs: seq<string>)
    requires lead == "/" || lead == "//"
    requires AllClean(cs)
    ensures LeadingSlashes(lead + Join(cs, '/')) == lead
  {
    if |cs| > 0 {
      JoinCleanHead(cs);
    }
  }

  /** `normpath` yields a leading "/" or "//" followed by clean components. */
  lemma NormpathShape(p: string)
    requires IsAbs(p)
    ensures AllClean(NormComponents(p))
    ensures LeadingSlashes(p) == "/" || LeadingSlashes(p) == "//"
  {
    WalkKeepsClean([], Split(p, '/'));
  }

  /** Normalising a normalised path changes nothing. */
  lemma NormpathIdempotent(p: string)
    requires IsAbs(p)
    ensures Normpath(Normpath(p)) == Normpath(p)
  {
    NormpathShape(p);
    NormComponentsOfNormal(LeadingSlashes(p), NormComponents(p));
    LeadingSlashesOfNormal(LeadingSlashes(p), NormComponents(p));
  }

  /** `abspath(abspath(p)) == abspath(p)`: the handler's second `abspath`
      call on its own `dir` is a no-op. */
  lemma AbspathIdempotent(cwd: string, p: string)
    requires IsAbs(cwd)
    ensures Abspath(cwd, Abspath(cwd, p)) == Abspath(cwd, p)
  {
    if IsAbs(p) {
      NormpathIdempotent(p);
    } else {
      NormpathIdempotent(JoinPath(cwd, p));
    }
  }
}
