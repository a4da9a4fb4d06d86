/**
 * The staging handler (`preparation_handler`): it brings a working folder to
 * a state where the bitstream, the two U-Boot images, the kernel and the
 * device tree are symbolic links to their sources and the root filesystem
 * image is a copy of its source, rewriting a destination only when its md5
 * digest differs from the source's.
 */
module Staging {
  import opened Wrappers
  import opened PyStr
  import opened PosixPath
  import opened FileSystem
  import opened Md5

  /** The artifact paths read from the ini file. */
  datatype Sources = Sources(bit: Path, ubootSpl: Path, ubootItb: Path, kernel: Path, dtb: Path, rootFs: Path)

  /** One artifact to stage: where it comes from and where it goes. */
  datatype Artifact = Artifact(src: Path, dst: Path)

  /** The bitstream is always staged under this name, whatever its own. */
  const BitstreamName: string := "design-vcu118"

  // -----------------------------------------------------------------------
  // Destination paths
  // -----------------------------------------------------------------------

  /** Where the bitstream link goes: `"{0}/{1}.bit".format(folder, "design-vcu118")`. */
  function BitPath(folder: Path): Path
  {
    folder + "/" + (BitstreamName + ".bit")
  }

  /** Where every other artifact goes: the folder, then the source's own name. */
  function StagedPath(folder: Path, src: Path): Path
  {
    folder + "/" + Basename(src)
  }

  /** The bitstream is staged as "design-vcu118.bit", whatever its own name. */
  lemma BitPathName(folder: Path)
    ensures Basename(BitPath(folder)) == "design-vcu118.bit"
  {
    assert BitPath(folder) == folder + "/" + "design-vcu118.bit";
    BasenameOfChild(folder, "design-vcu118.bit");
  }

  /** Every other artifact keeps its own file name. */
  lemma StagedPathName(folder: Path, src: Path)
    ensures Basename(StagedPath(folder, src)) == Basename(src)
  {
    BasenameOfChild(folder, Basename(src));
  }

  /** Two sources are staged to the same path exactly when they share a name. */
  lemma StagedPathsCollide(folder: Path, a: Path, b: Path)
    ensures StagedPath(folder, a) == StagedPath(folder, b) <==> Basename(a) == Basename(b)
  {
    var n := |folder| + 1;
    if StagedPath(folder, a) == StagedPath(folder, b) {
      assert StagedPath(folder, a)[n..] == Basename(a);
      assert StagedPath(folder, b)[n..] == Basename(b);
    }
  }

  /** A source is staged onto the bitstream's path exactly when it is itself
      named "design-vcu118.bit". */
  lemma BitPathCollides(folder: Path, a: Path)
    ensures BitPath(folder) == StagedPath(folder, a) <==> Basename(a) == "design-vcu118.bit"
  {
    var n := |folder| + 1;
    assert BitPath(folder)[n..] == "design-vcu118.bit";
    assert StagedPath(folder, a)[n..] == Basename(a);
  }

  /** The five links `prepare_symlinks` makes, in its order. */
  function SymlinkPlan(folder: Path, s: Sources): seq<Artifact>
  {
    [ Artifact(s.bit, BitPath(folder)),
      Artifact(s.ubootSpl, StagedPath(folder, s.ubootSpl)),
      Artifact(s.ubootItb, StagedPath(folder, s.ubootItb)),
      Artifact(s.kernel, StagedPath(folder, s.kernel)),
      Artifact(s.dtb, StagedPath(folder, s.dtb)) ]
  }

  /** The one copy `copy_neccessary_file` makes. */
  function CopyPlan(folder: Path, s: Sources): Artifact
  {
    Artifact(s.rootFs, StagedPath(folder, s.rootFs))
  }

  function Plan(folder: Path, s: Sources): seq<Artifact>
  {
    SymlinkPlan(folder, s) + [CopyPlan(folder, s)]
  }

  // -----------------------------------------------------------------------
  // One link: create_symlink
  // -----------------------------------------------------------------------

  /** `create_symlink(org, link)`: `os.symlink` fails exactly when something
      (even a dangling link) is already at `link`; then the link is removed
      and made again unless the md5 digests of `org` and `link` agree. */
  function LinkStep(md5: Hasher, fs: Fs, org: Path, link: Path): (r: Fs)
    ensures link in r && (r[link] == Link(org) || r == fs)
  {
    if link !in fs then fs[link := Link(org)]
    else if SameDigest(md5, fs, org, link) then fs
    else (fs - {link})[link := Link(org)]
  }

  /** Only the entry at `link` can change. */
  lemma LinkStepFrame(md5: Hasher, fs: Fs, org: Path, link: Path)
    ensures AgreeOutside(fs, LinkStep(md5, fs, org, link), {link})
  {
  }

  /** Nothing at `link`: the new link is made and nothing else changes. */
  lemma LinkStepWhenFree(md5: Hasher, fs: Fs, org: Path, link: Path)
    requires link !in fs
    ensures LinkStep(md5, fs, org, link) == fs[link := Link(org)]
  {
  }

  /** Something at `link` whose digest matches `org`'s: nothing changes. */
  lemma LinkStepKeepsMatch(md5: Hasher, fs: Fs, org: Path, link: Path)
    requires link in fs
    requires DigestToken(md5, fs, link) == DigestToken(md5, fs, org)
    ensures LinkStep(md5, fs, org, link) == fs
  {
  }

  /** Something at `link` whose digest differs from `org`'s: it is replaced
      by a link to `org`, and nothing else changes. */
  lemma LinkStepReplacesMismatch(md5: Hasher, fs: Fs, org: Path, link: Path)
    requires link in fs
    requires DigestToken(md5, fs, link) != DigestToken(md5, fs, org)
    ensures LinkStep(md5, fs, org, link) == fs[link := Link(org)]
  {
    assert (fs - {link})[link := Link(org)] == fs[link := Link(org)];
  }

  /** A dangling link at `link` reads as "", so it never matches a readable
      `org` and is repointed at it. */
  lemma LinkStepRepairsDanglingLink(md5: Hasher, fs: Fs, org: Path, link: Path)
    requires link in fs && fs[link].Link? && !Exists(fs, link)
    requires Exists(fs, org)
    ensures LinkStep(md5, fs, org, link) == fs[link := Link(org)]
  {
    LinkStepReplacesMismatch(md5, fs, org, link);
  }

  /** `org` resolves within one hop fewer than the limit (true whenever it is
      a regular file or absent), so a link to it resolves too. */
  predicate ShortChain(fs: Fs, p: Path)
  {
    Final(fs, p, MaxSymlinkHops - 1) == Final(fs, p, MaxSymlinkHops)
  }

  /** After `create_symlink` with an absolute `org`, `link` has the digest
      of `org`.  (A relative `org` is read from the link's own directory;
      see `RelativeSourceDangles`.) */
  lemma LinkStepMatches(md5: Hasher, fs: Fs, org: Path, link: Path)
    requires IsAbs(org)
    requires ShortChain(LinkStep(md5, fs, org, link), org)
    ensures var r := LinkStep(md5, fs, org, link);
            link in r && DigestToken(md5, r, link) == DigestToken(md5, r, org)
  {
    var r := LinkStep(md5, fs, org, link);
    if r != fs {
      assert r[link] == Link(org);
      assert Final(r, link, MaxSymlinkHops) == Final(r, org, MaxSymlinkHops - 1);
    }
  }

  /** Running `create_symlink` twice is the same as running it once. */
  lemma LinkStepIdempotent(md5: Hasher, fs: Fs, org: Path, link: Path)
    requires IsAbs(org)
    requires ShortChain(LinkStep(md5, fs, org, link), org)
    ensures var r := LinkStep(md5, fs, org, link);
            LinkStep(md5, r, org, link) == r
  {
    LinkStepMatches(md5, fs, org, link);
  }

  /** `create_symlink` hands `org` to `os.symlink` as the ini file spells it,
      and Linux reads a relative target from the folder holding the link.  A
      bitstream named by a relative path such as `x.bit` is found by
      `is_file_exist` and `md5sum` in the working directory, but its link
      leads to `folder/x.bit`, where nothing is: the link dangles, the
      bitstream is not staged, and since a dangling link never compares equal
      to a readable source, every later run removes and remakes it. */
  lemma RelativeSourceDangles(md5: Hasher, folder: Path, src: Path, data: Bytes)
    requires |src| > 0 && '/' !in src && src != BitstreamName + ".bit"
    ensures var fs := map[src := File(data)];
            var r := LinkStep(md5, fs, src, BitPath(folder));
            && Exists(fs, src)
            && r == fs[BitPath(folder) := Link(src)]
            && !Exists(r, BitPath(folder))
            && !Staged(md5, r, Artifact(src, BitPath(folder)))
            && !SameDigest(md5, r, src, BitPath(folder))
  {
    var fs := map[src := File(data)];
    var dst := BitPath(folder);
    assert dst == folder + "/" + "design-vcu118.bit";
    assert dst[|folder|] == '/';
    assert src != dst;
    var r := LinkStep(md5, fs, src, dst);
    assert r == fs[dst := Link(src)];
    DirPrefixOfChild(folder, "design-vcu118.bit");
    var q := folder + "/" + src;
    assert Resolve(dst, src) == q;
    InFolderInjective(folder, src, "design-vcu118.bit");
    assert q != src by { assert |q| > |src|; }
    assert q !in r;
    assert Final(r, dst, MaxSymlinkHops) == Some(q);
  }

  /** The links of `prepare_symlinks`, made one after the other. */
  function LinkAll(md5: Hasher, fs: Fs, links: seq<Artifact>): Fs
    decreases |links|
  {
    if |links| == 0 then fs
    else LinkAll(md5, LinkStep(md5, fs, links[0].src, links[0].dst), links[1..])
  }

  /** `create_symlink` on each of five links in order ends where `LinkAll`
      does. */
  lemma LinkAllFive(md5: Hasher, a0: Artifact, a1: Artifact, a2: Artifact, a3: Artifact, a4: Artifact,
                    f0: Fs, f1: Fs, f2: Fs, f3: Fs, f4: Fs, f5: Fs)
    requires f1 == LinkStep(md5, f0, a0.src, a0.dst)
    requires f2 == LinkStep(md5, f1, a1.src, a1.dst)
    requires f3 == LinkStep(md5, f2, a2.src, a2.dst)
    requires f4 == LinkStep(md5, f3, a3.src, a3.dst)
    requires f5 == LinkStep(md5, f4, a4.src, a4.dst)
    ensures LinkAll(md5, f0, [a0, a1, a2, a3, a4]) == f5
  {
    assert LinkAll(md5, f4, [a4]) == f5 by { assert [a4][1..] == []; }
    assert LinkAll(md5, f3, [a3, a4]) == f5 by { assert [a3, a4][1..] == [a4]; }
    assert LinkAll(md5, f2, [a2, a3, a4]) == f5 by { assert [a2, a3, a4][1..] == [a3, a4]; }
    assert LinkAll(md5, f1, [a1, a2, a3, a4]) == f5 by { assert [a1, a2, a3, a4][1..] == [a2, a3, a4]; }
    assert [a0, a1, a2, a3, a4][1..] == [a1, a2, a3, a4];
  }

  // -----------------------------------------------------------------------
  // The copy: copy_neccessary_file
  // -----------------------------------------------------------------------

  /** `fs` and `fs'` hold the same entries outside `ks`. */
  ghost predicate AgreeOutside(fs: Fs, fs': Fs, ks: set<Path>)
  {
    forall p | p !in ks :: (p in fs <==> p in fs') && (p in fs ==> fs[p] == fs'[p])
  }

  /** The copy step of `copy_neccessary_file`: copy when nothing readable is
      at `dst`; otherwise remove and copy again only when the digests differ.
      Afterwards, unless it raised, `dst` reads bytes with the source's
      digest; a destination that already matched is left alone. */
  function CopyStep(md5: Hasher, fs: Fs, src: Path, dst: Path): (r: Outcome)
    ensures r.error.None? ==> Exists(r.fs, dst) && SameDigest(md5, r.fs, src, dst)
    ensures Exists(fs, dst) && SameDigest(md5, fs, src, dst) ==> r == Outcome(fs, None)
    ensures src in fs && fs[src].File? && src != dst && Final(fs, dst, MaxSymlinkHops).Some? ==>
              r.error.None?
  {
    if !Exists(fs, dst) then
      CopyFile(fs, src, dst)
    else if SameDigest(md5, fs, src, dst) then
      Outcome(fs, None)
    else
      var fs1 := fs - {dst};
      assert Final(fs1, dst, MaxSymlinkHops) == Some(dst);
      assert src in fs && fs[src].File? && src != dst ==> Content(fs1, src) == Content(fs, src);
      CopyFile(fs1, src, dst)
  }

  /** Only `dst`, and the path its links lead to, can change in the copy. */
  lemma CopyStepFrame(md5: Hasher, fs: Fs, src: Path, dst: Path)
    ensures var r := CopyStep(md5, fs, src, dst);
            var end := Final(fs, dst, MaxSymlinkHops);
            AgreeOutside(fs, r.fs, if end.Some? then {dst, end.value} else {dst})
  {
    var r := CopyStep(md5, fs, src, dst);
    if Exists(fs, dst) && !SameDigest(md5, fs, src, dst) {
      var fs1 := fs - {dst};
      assert Final(fs1, dst, MaxSymlinkHops) == Some(dst);
      assert r == CopyFile(fs1, src, dst);
    }
  }

  // -----------------------------------------------------------------------
  // The whole staging run
  // -----------------------------------------------------------------------

  /** `prepare_symlinks` followed by `copy_neccessary_file`. */
  function Stage(md5: Hasher, fs: Fs, links: seq<Artifact>, copy: Artifact): Outcome
  {
    CopyStep(md5, LinkAll(md5, fs, links), copy.src, copy.dst)
  }

  /** An artifact in place: its destination can be read and its digest is
      the source's.  This is exactly when both steps leave it alone. */
  predicate Staged(md5: Hasher, fs: Fs, a: Artifact)
  {
    Exists(fs, a.dst) && SameDigest(md5, fs, a.src, a.dst)
  }

  function Dsts(arts: seq<Artifact>): set<Path>
  {
    set i | 0 <= i < |arts| :: arts[i].dst
  }

  predicate DistinctDsts(arts: seq<Artifact>)
  {
    forall i, j :: 0 <= i < j < |arts| ==> arts[i].dst != arts[j].dst
  }

  /** The conditions under which one run stages everything: distinct
      destinations, every source a regular file that is not itself a
      destination, every source but the last (the copy's) an absolute path,
      since a link reads a relative target from its own folder, and no
      symbolic link pointing at a destination. */
  ghost predicate PlanOk(fs: Fs, arts: seq<Artifact>)
  {
    && DistinctDsts(arts)
    && (forall i :: 0 <= i < |arts| ==>
          arts[i].src in fs && fs[arts[i].src].File? && arts[i].src !in Dsts(arts))
    && (forall i :: 0 <= i < |arts| - 1 ==> IsAbs(arts[i].src))
    && NoLinkInto(fs, Dsts(arts))
  }

  /** A source that is a regular file and a destination with the same digest
      token means the destination can be read. */
  lemma MatchedDestinationExists(md5: Hasher, fs: Fs, a: Artifact)
    requires a.src in fs && fs[a.src].File?
    requires SameDigest(md5, fs, a.src, a.dst)
    ensures Staged(md5, fs, a)
  {
    assert Exists(fs, a.src);
  }

  /** A `create_symlink` of the plan that (re)makes its link stages its
      artifact, keeps the earlier ones staged and changes no later
      destination. */
  lemma RelinkInPlan(md5: Hasher, fs: Fs, all: seq<Artifact>, k: nat)
    requires k < |all| - 1
    requires PlanOk(fs, all)
    requires forall i :: 0 <= i < k ==> Staged(md5, fs, all[i])
    ensures var fs' := fs[all[k].dst := Link(all[k].src)];
            && (forall i :: 0 <= i <= k ==> Staged(md5, fs', all[i]))
            && (forall j :: k < j < |all| ==>
                  Final(fs', all[j].dst, MaxSymlinkHops) == Final(fs, all[j].dst, MaxSymlinkHops))
  {
    var a := all[k];
    var d := Dsts(all);
    assert a.dst in d;
    var fs' := fs[a.dst := Link(a.src)];
    forall i | 0 <= i < k
      ensures Staged(md5, fs', all[i])
    {
      assert all[i].src != a.dst;
      ContentAvoids(fs, d, a.dst, Link(a.src), all[i].dst);
      ContentAvoids(fs, d, a.dst, Link(a.src), all[i].src);
    }
    assert Final(fs', a.dst, MaxSymlinkHops) == Final(fs', a.src, MaxSymlinkHops - 1);
    assert Staged(md5, fs', a);
    forall j | k < j < |all|
      ensures Final(fs', all[j].dst, MaxSymlinkHops) == Final(fs, all[j].dst, MaxSymlinkHops)
    {
      FinalAvoids(fs, d, a.dst, Link(a.src), all[j].dst, MaxSymlinkHops);
    }
  }

  /** One `create_symlink` of the plan stages its artifact and keeps the
      earlier ones staged and the plan's conditions true. */
  lemma LinkStepInPlan(md5: Hasher, fs: Fs, all: seq<Artifact>, k: nat)
    requires k < |all| - 1
    requires PlanOk(fs, all)
    requires forall i :: 0 <= i < k ==> Staged(md5, fs, all[i])
    ensures var fs' := LinkStep(md5, fs, all[k].src, all[k].dst);
            && PlanOk(fs', all)
            && (forall i :: 0 <= i <= k ==> Staged(md5, fs', all[i]))
            && (forall j :: k < j < |all| ==>
                  Final(fs', all[j].dst, MaxSymlinkHops) == Final(fs, all[j].dst, MaxSymlinkHops))
  {
    var a := all[k];
    if a.dst in fs && SameDigest(md5, fs, a.src, a.dst) {
      MatchedDestinationExists(md5, fs, a);
    } else {
      assert LinkStep(md5, fs, a.src, a.dst) == fs[a.dst := Link(a.src)];
      assert a.dst in Dsts(all);
      RelinkInPlan(md5, fs, all, k);
    }
  }

  /** `prepare_symlinks` over the links of the plan (every artifact but the
      last), from the `k`-th up to the `n`-th, stages all of them and leaves
      later destinations resolving as before. */
  lemma {:induction false} LinkAllInPlan(md5: Hasher, fs: Fs, all: seq<Artifact>, k: nat, n: nat)
    requires k <= n < |all|
    requires PlanOk(fs, all)
    requires forall i :: 0 <= i < k ==> Staged(md5, fs, all[i])
    ensures var fs' := LinkAll(md5, fs, all[k..n]);
            && PlanOk(fs', all)
            && (forall i :: 0 <= i < n ==> Staged(md5, fs', all[i]))
            && (forall j :: n <= j < |all| ==>
                  Final(fs', all[j].dst, MaxSymlinkHops) == Final(fs, all[j].dst, MaxSymlinkHops))
    decreases n - k
  {
    if k < n {
      var fs1 := LinkStep(md5, fs, all[k].src, all[k].dst);
      LinkStepInPlan(md5, fs, all, k);
      LinkAllInPlan(md5, fs1, all, k + 1, n);
      assert all[k..n][0] == all[k];
      assert all[k..n][1..] == all[k + 1..n];
    }
  }

  /** Writing at a path where nothing was keeps a staged artifact staged:
      a readable path never leads there. */
  lemma StagedAfterFreshWrite(md5: Hasher, fs: Fs, q: Path, e: Entry, a: Artifact)
    requires q !in fs
    requires Staged(md5, fs, a)
    ensures Staged(md5, fs[q := e], a)
  {
    ContentUnchangedByNonLink(fs, a.dst, q, e);
    ContentUnchangedByNonLink(fs, a.src, q, e);
  }

  /** Replacing a destination no link points at keeps another staged
      artifact staged. */
  lemma StagedAfterReplace(md5: Hasher, fs: Fs, d: set<Path>, k: Path, e: Entry, a: Artifact)
    requires NoLinkInto(fs, d) && k in d
    requires a.dst != k && a.src != k
    requires Staged(md5, fs, a)
    ensures Staged(md5, fs[k := e], a)
  {
    ContentAvoids(fs, d, k, e, a.dst);
    ContentAvoids(fs, d, k, e, a.src);
  }

  /** The copy into a destination that cannot be read raises nothing when
      the source is a regular file and the destination does not loop, and
      keeps staged artifacts staged. */
  lemma CopyWhenMissing(md5: Hasher, fs: Fs, c: Artifact, others: seq<Artifact>)
    requires c.src in fs && fs[c.src].File? && c.src != c.dst
    requires !Exists(fs, c.dst) && Final(fs, c.dst, MaxSymlinkHops).Some?
    requires forall a | a in others :: Staged(md5, fs, a)
    ensures var r := CopyStep(md5, fs, c.src, c.dst);
            r.error.None? && forall a | a in others :: Staged(md5, r.fs, a)
  {
    var r := CopyFile(fs, c.src, c.dst);
    var q := Final(fs, c.dst, MaxSymlinkHops).value;
    assert q !in fs;
    forall a | a in others
      ensures Staged(md5, r.fs, a)
    {
      StagedAfterFreshWrite(md5, fs, q, r.fs[q], a);
    }
  }

  /** Over a destination whose digest differs, the copy replaces the entry
      at the destination itself with a regular file and touches nothing else. */
  lemma CopyOverDifferent(md5: Hasher, fs: Fs, src: Path, dst: Path)
    requires src in fs && fs[src].File? && src != dst
    requires Exists(fs, dst) && !SameDigest(md5, fs, src, dst)
    ensures var r := CopyStep(md5, fs, src, dst);
            r.error.None? && dst in r.fs && r.fs == fs[dst := r.fs[dst]]
  {
    var fs1 := fs - {dst};
    assert Final(fs1, dst, MaxSymlinkHops) == Some(dst);
    assert !Exists(fs1, dst) && Exists(fs1, src);
    var r := CopyFile(fs1, src, dst);
    assert CopyStep(md5, fs, src, dst) == r;
    var x := r.fs[dst];
    assert r.fs == fs1[dst := x];
    assert fs1[dst := x] == fs[dst := x];
  }

  /** The copy over a destination whose digest differs raises nothing when
      the source is a regular file, and keeps other staged artifacts staged
      when no link points at the destination. */
  lemma CopyWhenDifferent(md5: Hasher, fs: Fs, d: set<Path>, c: Artifact, others: seq<Artifact>)
    requires NoLinkInto(fs, d) && c.dst in d
    requires c.src in fs && fs[c.src].File? && c.src != c.dst
    requires Exists(fs, c.dst) && !SameDigest(md5, fs, c.src, c.dst)
    requires forall a | a in others :: a.src != c.dst && a.dst != c.dst && Staged(md5, fs, a)
    ensures var r := CopyStep(md5, fs, c.src, c.dst);
            r.error.None? && forall a | a in others :: Staged(md5, r.fs, a)
  {
    CopyOverDifferent(md5, fs, c.src, c.dst);
    var r := CopyStep(md5, fs, c.src, c.dst);
    forall a | a in others
      ensures Staged(md5, r.fs, a)
    {
      StagedAfterReplace(md5, fs, d, c.dst, r.fs[c.dst], a);
    }
  }

  /** The copy of an artifact whose source is a regular file and whose
      destination resolves, no link pointing at it, raises nothing, stages it
      and keeps the other staged artifacts staged. */
  lemma CopyKeepsOthers(md5: Hasher, fs: Fs, d: set<Path>, c: Artifact, others: seq<Artifact>)
    requires NoLinkInto(fs, d) && c.dst in d
    requires c.src in fs && fs[c.src].File? && c.src != c.dst
    requires Final(fs, c.dst, MaxSymlinkHops).Some?
    requires forall a | a in others :: a.src != c.dst && a.dst != c.dst && Staged(md5, fs, a)
    ensures var r := CopyStep(md5, fs, c.src, c.dst);
            && r.error.None? && Staged(md5, r.fs, c)
            && forall a | a in others :: Staged(md5, r.fs, a)
  {
    if !Exists(fs, c.dst) {
      CopyWhenMissing(md5, fs, c, others);
    } else if !SameDigest(md5, fs, c.src, c.dst) {
      CopyWhenDifferent(md5, fs, d, c, others);
    }
  }

  /** The artifacts of the plan before the last are apart from the last's
      destination; once staged, they are the `others` of its copy. */
  lemma PlanPrefixApart(md5: Hasher, fs: Fs, all: seq<Artifact>)
    requires |all| >= 1
    requires PlanOk(fs, all)
    requires forall i :: 0 <= i < |all| - 1 ==> Staged(md5, fs, all[i])
    ensures var c := all[|all| - 1];
            forall a | a in all[..|all| - 1] :: a.src != c.dst && a.dst != c.dst && Staged(md5, fs, a)
  {
    var n := |all| - 1;
    var c := all[n];
    assert c.dst in Dsts(all);
    forall a | a in all[..n]
      ensures a.src != c.dst && a.dst != c.dst && Staged(md5, fs, a)
    {
      var i :| 0 <= i < n && all[i] == a;
    }
  }

  /** `copy_neccessary_file` on the last artifact of the plan, once the
      others are staged, raises nothing and leaves all of them staged. */
  lemma CopyInPlan(md5: Hasher, fs: Fs, all: seq<Artifact>)
    requires |all| >= 1
    requires PlanOk(fs, all)
    requires forall i :: 0 <= i < |all| - 1 ==> Staged(md5, fs, all[i])
    requires Final(fs, all[|all| - 1].dst, MaxSymlinkHops).Some?
    ensures var c := all[|all| - 1];
            var r := CopyStep(md5, fs, c.src, c.dst);
            r.error.None? && forall i :: 0 <= i < |all| ==> Staged(md5, r.fs, all[i])
  {
    var n := |all| - 1;
    var c := all[n];
    var others := all[..n];
    assert c.dst in Dsts(all);
    PlanPrefixApart(md5, fs, all);
    CopyKeepsOthers(md5, fs, Dsts(all), c, others);
    var r := CopyStep(md5, fs, c.src, c.dst);
    forall i | 0 <= i < |all|
      ensures Staged(md5, r.fs, all[i])
    {
      if i < n {
        assert all[i] in others;
      }
    }
  }

  /** From any filesystem meeting the plan's conditions, one run raises
      nothing and leaves every artifact staged: each destination reads bytes
      with its source's digest. */
  lemma StageEstablishes(md5: Hasher, fs: Fs, links: seq<Artifact>, copy: Artifact)
    requires PlanOk(fs, links + [copy])
    requires Final(fs, copy.dst, MaxSymlinkHops).Some?
    ensures var r := Stage(md5, fs, links, copy);
            r.error.None? && forall a | a in links + [copy] :: Staged(md5, r.fs, a)
  {
    var all := links + [copy];
    var n := |links|;
    assert all[0..n] == links;
    LinkAllInPlan(md5, fs, all, 0, n);
    CopyInPlan(md5, LinkAll(md5, fs, links), all);
  }

  /** Links that are all staged are left alone. */
  lemma {:induction false} LinkAllWhenStaged(md5: Hasher, fs: Fs, links: seq<Artifact>)
    requires forall a | a in links :: Staged(md5, fs, a)
    ensures LinkAll(md5, fs, links) == fs
    decreases |links|
  {
    if |links| > 0 {
      assert links[0] in links;
      assert LinkStep(md5, fs, links[0].src, links[0].dst) == fs;
      assert forall a | a in links[1..] :: a in links;
      LinkAllWhenStaged(md5, fs, links[1..]);
    }
  }

  /** A run over a folder where everything is staged changes nothing: no
      link is remade and no file is copied. */
  lemma SecondRunChangesNothing(md5: Hasher, fs: Fs, links: seq<Artifact>, copy: Artifact)
    requires forall a | a in links + [copy] :: Staged(md5, fs, a)
    ensures Stage(md5, fs, links, copy) == Outcome(fs, None)
  {
    assert forall a | a in links :: a in links + [copy];
    LinkAllWhenStaged(md5, fs, links);
    assert copy in links + [copy];
  }

  /** Staging is idempotent: after one run, a second one changes nothing. */
  lemma StageIdempotent(md5: Hasher, fs: Fs, links: seq<Artifact>, copy: Artifact)
    requires PlanOk(fs, links + [copy])
    requires Final(fs, copy.dst, MaxSymlinkHops).Some?
    ensures var r := Stage(md5, fs, links, copy);
            r.error.None? && Stage(md5, r.fs, links, copy) == Outcome(r.fs, None)
  {
    StageEstablishes(md5, fs, links, copy);
    SecondRunChangesNothing(md5, Stage(md5, fs, links, copy).fs, links, copy);
  }

  /** The destinations of a plan with one more artifact. */
  lemma DstsAppend(links: seq<Artifact>, a: Artifact)
    ensures Dsts(links + [a]) == Dsts(links) + {a.dst}
  {
    var all := links + [a];
    assert all[|links|] == a;
    forall i | 0 <= i < |links| ensures all[i] == links[i] { }
  }

  /** The links change only their own destinations. */
  lemma {:induction false} LinkAllFrame(md5: Hasher, fs: Fs, links: seq<Artifact>)
    ensures AgreeOutside(fs, LinkAll(md5, fs, links), Dsts(links))
    decreases |links|
  {
    if |links| > 0 {
      var fs1 := LinkStep(md5, fs, links[0].src, links[0].dst);
      LinkStepFrame(md5, fs, links[0].src, links[0].dst);
      LinkAllFrame(md5, fs1, links[1..]);
      assert Dsts(links) == {links[0].dst} + Dsts(links[1..]) by {
        forall i | 0 <= i < |links[1..]| ensures links[1..][i].dst in Dsts(links) {
          assert links[1..][i] == links[i + 1];
        }
        forall i | 0 <= i < |links| ensures links[i].dst in {links[0].dst} + Dsts(links[1..]) {
          if i > 0 {
            assert links[i] == links[1..][i - 1];
          }
        }
      }
    }
  }

  /** A whole run changes only the destinations, and the file the copy's
      destination leads to after the links when that is a link. */
  lemma StageFrame(md5: Hasher, fs: Fs, links: seq<Artifact>, copy: Artifact)
    ensures var end := Final(LinkAll(md5, fs, links), copy.dst, MaxSymlinkHops);
            AgreeOutside(fs, Stage(md5, fs, links, copy).fs,
                         Dsts(links) + {copy.dst} + (if end.Some? then {end.value} else {}))
  {
    var fs1 := LinkAll(md5, fs, links);
    LinkAllFrame(md5, fs, links);
    CopyStepFrame(md5, fs1, copy.src, copy.dst);
  }

  // -----------------------------------------------------------------------
  // The handler's own plan
  // -----------------------------------------------------------------------

  /** The names the six artifacts are staged under, in plan order. */
  function StagedNames(s: Sources): seq<string>
  {
    [ BitstreamName + ".bit", Basename(s.ubootSpl), Basename(s.ubootItb),
      Basename(s.kernel), Basename(s.dtb), Basename(s.rootFs) ]
  }

  /** No two artifacts are staged under the same name. */
  predicate DistinctNames(s: Sources)
  {
    var names := StagedNames(s);
    forall i, j :: 0 <= i < j < |names| ==> names[i] != names[j]
  }

  /** Two entries of one folder are the same path exactly when their names
      are the same. */
  lemma InFolderInjective(folder: Path, x: string, y: string)
    ensures folder + "/" + x == folder + "/" + y <==> x == y
  {
    if folder + "/" + x == folder + "/" + y {
      assert x == (folder + "/" + x)[|folder| + 1..];
    }
  }

  /** Artifacts staged in one folder have distinct destinations exactly when
      they are staged under distinct names. */
  lemma FolderDstsDistinct(folder: Path, arts: seq<Artifact>, names: seq<string>)
    requires |arts| == |names|
    requires forall i :: 0 <= i < |arts| ==> arts[i].dst == folder + "/" + names[i]
    ensures DistinctDsts(arts) <==> (forall i, j :: 0 <= i < j < |names| ==> names[i] != names[j])
  {
    forall i, j | 0 <= i < j < |names|
      ensures arts[i].dst == arts[j].dst <==> names[i] == names[j]
    {
      InFolderInjective(folder, names[i], names[j]);
    }
  }

  /** The handler's six destinations are distinct exactly when the names
      they are staged under are. */
  lemma PlanDestinationsDistinct(folder: Path, s: Sources)
    ensures DistinctDsts(Plan(folder, s)) <==> DistinctNames(s)
  {
    var plan := Plan(folder, s);
    var names := StagedNames(s);
    assert |plan| == 6;
    forall i | 0 <= i < |plan| ensures plan[i].dst == folder + "/" + names[i] {
      if i == 0 {
        assert plan[0].dst == folder + "/" + names[0];
      } else if i == 1 {
        assert plan[1].dst == folder + "/" + names[1];
      } else if i == 2 {
        assert plan[2].dst == folder + "/" + names[2];
      } else if i == 3 {
        assert plan[3].dst == folder + "/" + names[3];
      } else if i == 4 {
        assert plan[4].dst == folder + "/" + names[4];
      } else {
        assert i == 5;
        assert plan[5].dst == folder + "/" + names[5];
      }
    }
    FolderDstsDistinct(folder, plan, names);
  }

  /** For the handler's own artifacts: when the names keep the destinations
      apart, every source is a regular file outside the destinations, the
      five linked sources are absolute paths, no link points at a
      destination and the root filesystem's destination does not loop, one
      run stages everything and a second run changes nothing. */
  lemma HandlerStagingIdempotent(md5: Hasher, fs: Fs, folder: Path, s: Sources)
    requires DistinctNames(s)
    requires forall i :: 0 <= i < 6 ==>
               var a := Plan(folder, s)[i];
               a.src in fs && fs[a.src].File? && a.src !in Dsts(Plan(folder, s))
    requires IsAbs(s.bit) && IsAbs(s.ubootSpl) && IsAbs(s.ubootItb) && IsAbs(s.kernel) && IsAbs(s.dtb)
    requires NoLinkInto(fs, Dsts(Plan(folder, s)))
    requires Final(fs, CopyPlan(folder, s).dst, MaxSymlinkHops).Some?
    ensures var r := Stage(md5, fs, SymlinkPlan(folder, s), CopyPlan(folder, s));
            && r.error.None?
            && (forall a | a in Plan(folder, s) :: Staged(md5, r.fs, a))
            && Stage(md5, r.fs, SymlinkPlan(folder, s), CopyPlan(folder, s)) == Outcome(r.fs, None)
  {
    PlanDestinationsDistinct(folder, s);
    StageEstablishes(md5, fs, SymlinkPlan(folder, s), CopyPlan(folder, s));
    StageIdempotent(md5, fs, SymlinkPlan(folder, s), CopyPlan(folder, s));
  }

  /** A run of the handler touches only its six destinations and, when the
      root filesystem's destination is then a link, the file it leads to. */
  lemma HandlerStageFrame(md5: Hasher, fs: Fs, folder: Path, s: Sources)
    ensures var end := Final(LinkAll(md5, fs, SymlinkPlan(folder, s)), CopyPlan(folder, s).dst, MaxSymlinkHops);
            AgreeOutside(fs, Stage(md5, fs, SymlinkPlan(folder, s), CopyPlan(folder, s)).fs,
                         Dsts(Plan(folder, s)) + (if end.Some? then {end.value} else {}))
  {
    var links, copy := SymlinkPlan(folder, s), CopyPlan(folder, s);
    StageFrame(md5, fs, links, copy);
    DstsAppend(links, copy);
  }

  // -----------------------------------------------------------------------
  // The handler object
  // -----------------------------------------------------------------------

  /** The filesystem after `prepare_symlinks`: its five `create_symlink`
      calls, in the order it makes them. */
  function SymlinkSteps(md5: Hasher, fs: Fs, folder: Path, s: Sources): Fs
  {
    var fs1 := LinkStep(md5, fs, s.bit, BitPath(folder));
    var fs2 := LinkStep(md5, fs1, s.ubootSpl, StagedPath(folder, s.ubootSpl));
    var fs3 := LinkStep(md5, fs2, s.ubootItb, StagedPath(folder, s.ubootItb));
    var fs4 := LinkStep(md5, fs3, s.kernel, StagedPath(folder, s.kernel));
    LinkStep(md5, fs4, s.dtb, StagedPath(folder, s.dtb))
  }

  /** `prepare_symlinks` makes the links of its plan, in order. */
  lemma SymlinkStepsFollowPlan(md5: Hasher, fs: Fs, folder: Path, s: Sources)
    ensures SymlinkSteps(md5, fs, folder, s) == LinkAll(md5, fs, SymlinkPlan(folder, s))
  {
    var a0 := Artifact(s.bit, BitPath(folder));
    var a1 := Artifact(s.ubootSpl, StagedPath(folder, s.ubootSpl));
    var a2 := Artifact(s.ubootItb, StagedPath(folder, s.ubootItb));
    var a3 := Artifact(s.kernel, StagedPath(folder, s.kernel));
    var a4 := Artifact(s.dtb, StagedPath(folder, s.dtb));
    var fs1 := LinkStep(md5, fs, a0.src, a0.dst);
    var fs2 := LinkStep(md5, fs1, a1.src, a1.dst);
    var fs3 := LinkStep(md5, fs2, a2.src, a2.dst);
    var fs4 := LinkStep(md5, fs3, a3.src, a3.dst);
    var fs5 := LinkStep(md5, fs4, a4.src, a4.dst);
    LinkAllFive(md5, a0, a1, a2, a3, a4, fs, fs1, fs2, fs3, fs4, fs5);
  }

  /** `preparation_handler`: its staging folder, the destination of each
      artifact once staged, and the filesystem its methods change. */
  class PreparationHandler {
    const sources: Sources
    const md5: Hasher
    /** What `os.getcwd()` returns while the handler runs. */
    const cwd: Path
    const dir: Path
    const folderName: string
    const folderPath: Path

    var bitPath: Path
    var ubootItbPath: Path
    var ubootSplPath: Path
    var dtbPath: Path
    var kernelPath: Path
    var rootFsPath: Path
    /** The filesystem the handler works on. */
    var fs: Fs

    /** `preparation_handler(args, path, folder_name)`: the folder is
        `abspath(path) + "/" + folder_name`; the staged paths start empty. */
    constructor (sources: Sources, md5: Hasher, cwd: Path, path: Path, folderName: string, fs: Fs)
      requires IsAbs(cwd)
      ensures this.sources == sources && this.md5 == md5 && this.cwd == cwd
      ensures this.folderName == folderName && this.fs == fs
      ensures dir == Abspath(cwd, path)
      ensures folderPath == Abspath(cwd, path) + "/" + folderName
      ensures bitPath == "" && ubootItbPath == "" && ubootSplPath == ""
      ensures dtbPath == "" && kernelPath == "" && rootFsPath == ""
    {
      this.sources := sources;
      this.md5 := md5;
      this.cwd := cwd;
      var d := Abspath(cwd, path);
      dir := d;
      this.folderName := folderName;
      folderPath := Abspath(cwd, d) + "/" + folderName;
      AbspathIdempotent(cwd, path);
      bitPath, ubootItbPath, ubootSplPath := "", "", "";
      dtbPath, kernelPath, rootFsPath := "", "", "";
      this.fs := fs;
    }

    /** The handler's own `is_file_exist(path)`: the absolute path when a file
        can be read there, "" otherwise. */
    function IsFileExist(path: Path): (r: Path)
      reads this
      requires IsAbs(cwd)
      ensures r == "" || r == Abspath(cwd, path)
      ensures r != "" <==> Exists(fs, Abspath(cwd, path))
    {
      var abs := Abspath(cwd, path);
      if Exists(fs, abs) then abs else ""
    }

    /** `create_symlink(org, link)`: try `os.symlink`; when something is
        already at `link` and `compare_two_files` says it differs, remove it
        and link again. */
    method CreateSymlink(org: Path, link: Path)
      modifies this`fs
      ensures fs == LinkStep(md5, old(fs), org, link)
    {
      if link !in fs {
        fs := fs[link := Link(org)];
      } else if !CompareTwoFiles(md5, fs, org, link) {
        fs := fs - {link};
        fs := fs[link := Link(org)];
      }
    }

    /** `prepare_symlinks()`: records each destination and links it. */
    method PrepareSymlinks()
      modifies this`bitPath, this`ubootSplPath, this`ubootItbPath, this`kernelPath, this`dtbPath, this`fs
      ensures bitPath == BitPath(folderPath)
      ensures ubootSplPath == StagedPath(folderPath, sources.ubootSpl)
      ensures ubootItbPath == StagedPath(folderPath, sources.ubootItb)
      ensures kernelPath == StagedPath(folderPath, sources.kernel)
      ensures dtbPath == StagedPath(folderPath, sources.dtb)
      ensures fs == SymlinkSteps(md5, old(fs), folderPath, sources)
    {
      bitPath := BitPath(folderPath);
      CreateSymlink(sources.bit, bitPath);
      ubootSplPath := StagedPath(folderPath, sources.ubootSpl);
      CreateSymlink(sources.ubootSpl, ubootSplPath);
      ubootItbPath := StagedPath(folderPath, sources.ubootItb);
      CreateSymlink(sources.ubootItb, ubootItbPath);
      kernelPath := StagedPath(folderPath, sources.kernel);
      CreateSymlink(sources.kernel, kernelPath);
      dtbPath := StagedPath(folderPath, sources.dtb);
      CreateSymlink(sources.dtb, dtbPath);
    }

    /** `copy_neccessary_file()`: records the root filesystem's destination
        and copies it there unless a file with the same digest is already
        there.  The exception `shutil.copyfile` may raise is returned, with
        the filesystem as the failed copy left it. */
    method CopyNecessaryFile() returns (error: Option<OsError>)
      modifies this`rootFsPath, this`fs
      ensures rootFsPath == StagedPath(folderPath, sources.rootFs)
      ensures Outcome(fs, error) == CopyStep(md5, old(fs), sources.rootFs, rootFsPath)
    {
      rootFsPath := StagedPath(folderPath, sources.rootFs);
      var r := Outcome(fs, None);
      if !Exists(fs, rootFsPath) {
        r := CopyFile(fs, sources.rootFs, rootFsPath);
      } else if !CompareTwoFiles(md5, fs, sources.rootFs, rootFsPath) {
        fs := fs - {rootFsPath};
        r := CopyFile(fs, sources.rootFs, rootFsPath);
      }
      fs, error := r.fs, r.error;
    }
  }
}
