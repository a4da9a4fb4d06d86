/**
 * Comparing two files by their md5 digests, as `compare_two_files` does:
 * run `md5sum` on each path, keep the first space-separated token of what it
 * prints, and compare the two tokens.  The hash itself is a parameter: any
 * function from file contents to 32 lower-case hex digits.
 */
module Md5 {
  import opened Wrappers
  import opened PyStr
  import opened FileSystem

  predicate IsHexDigest(s: string)
  {
    |s| == 32 && forall i :: 0 <= i < |s| ==> s[i] in "0123456789abcdef"
  }

  /** What `md5sum` prints for a file's contents (the digest of no bytes is
      the witness). */
  type HexDigest = s: string | IsHexDigest(s) witness "d41d8cd98f00b204e9800998ecf8427e"

  type Hasher = Bytes -> HexDigest

  /** What `md5sum p` writes to standard output: the digest, two spaces, the
      name and a newline; nothing when `p` cannot be read (the diagnostic goes
      to standard error). */
  function Md5sumStdout(md5: Hasher, fs: Fs, p: Path): (out: string)
    ensures out == "" <==> !Exists(fs, p)
    ensures out != "" ==> |out| > 32 && out[|out| - 1] == '\n'
  {
    match Content(fs, p)
    case Some(data) => md5(data) + "  " + p + "\n"
    case None => ""
  }

  /** The digest of what `p` reads, or "" when it cannot be read. */
  function DigestToken(md5: Hasher, fs: Fs, p: Path): (t: string)
    ensures t == "" <==> !Exists(fs, p)
  {
    match Content(fs, p)
    case Some(data) => md5(data)
    case None => ""
  }

  lemma HexHasNoSpace(d: HexDigest)
    ensures ' ' !in d
  {
    forall i | 0 <= i < |d|
      ensures d[i] != ' '
    {
      assert d[i] in "0123456789abcdef";
    }
  }

  /** The first space-separated token of `md5sum`'s output is the digest
      token: "" for an unreadable path. */
  lemma FirstTokenOfMd5sum(md5: Hasher, fs: Fs, p: Path)
    ensures FirstToken(Md5sumStdout(md5, fs, p), ' ') == DigestToken(md5, fs, p)
  {
    var out := Md5sumStdout(md5, fs, p);
    if Content(fs, p).Some? {
      var d := md5(Content(fs, p).value);
      HexHasNoSpace(d);
      var rest := " " + p + "\n";
      assert out == d + [' '] + rest;
      FirstTokenOfPrefix(d, ' ', rest);
    } else {
      assert out == "";
    }
  }

  /** The two paths have the same digest token. */
  predicate SameDigest(md5: Hasher, fs: Fs, p1: Path, p2: Path)
  {
    DigestToken(md5, fs, p1) == DigestToken(md5, fs, p2)
  }

  /** `compare_two_files(p1, p2)`: true exactly when the digest tokens of the
      two paths agree. */
  function CompareTwoFiles(md5: Hasher, fs: Fs, p1: Path, p2: Path): (same: bool)
    ensures same <==> SameDigest(md5, fs, p1, p2)
  {
    FirstTokenOfMd5sum(md5, fs, p1);
    FirstTokenOfMd5sum(md5, fs, p2);
    FirstToken(Md5sumStdout(md5, fs, p1), ' ') == FirstToken(Md5sumStdout(md5, fs, p2), ' ')
  }

  /** The comparison does not depend on the order of its arguments. */
  lemma CompareSymmetric(md5: Hasher, fs: Fs, p1: Path, p2: Path)
    ensures CompareTwoFiles(md5, fs, p1, p2) == CompareTwoFiles(md5, fs, p2, p1)
  {
  }

  /** Two paths compare equal exactly when neither can be read, or both can
      and their contents have the same digest. */
  lemma CompareMeaning(md5: Hasher, fs: Fs, p1: Path, p2: Path)
    ensures CompareTwoFiles(md5, fs, p1, p2) <==>
              (!Exists(fs, p1) && !Exists(fs, p2)) ||
              (Exists(fs, p1) && Exists(fs, p2) &&
               md5(Content(fs, p1).value) == md5(Content(fs, p2).value))
  {
  }

  /** A readable file never compares equal to a missing path or a dangling
      link: the latter's token is "". */
  lemma ReadableNeverMatchesUnreadable(md5: Hasher, fs: Fs, p1: Path, p2: Path)
    requires Exists(fs, p1) && !Exists(fs, p2)
    ensures !CompareTwoFiles(md5, fs, p1, p2)
  {
  }

  /** Paths that read the same bytes compare equal. */
  lemma SameContentCompares(md5: Hasher, fs: Fs, p1: Path, p2: Path)
    requires Content(fs, p1) == Content(fs, p2)
    ensures CompareTwoFiles(md5, fs, p1, p2)
  {
  }

  /** The hash has no collision among the contents `fs` holds: two readable
      paths with different contents have different digests.  (No hash of
      every byte sequence into 32 hex digits is injective, but one can be on
      the finitely many files of a filesystem.) */
  ghost predicate NoCollisionIn(md5: Hasher, fs: Fs)
  {
    forall p, q :: Exists(fs, p) && Exists(fs, q) && Content(fs, p) != Content(fs, q) ==>
      md5(Content(fs, p).value) != md5(Content(fs, q).value)
  }

  /** Without a collision among the files of `fs`, paths that compare equal
      read the same bytes (or neither can be read). */
  lemma CompareImpliesSameContent(md5: Hasher, fs: Fs, p1: Path, p2: Path)
    requires NoCollisionIn(md5, fs)
    requires CompareTwoFiles(md5, fs, p1, p2)
    ensures Content(fs, p1) == Content(fs, p2)
  {
    CompareMeaning(md5, fs, p1, p2);
  }

  /** A filesystem holding a single regular file has no collision, whatever
      the hash. */
  lemma OneFileNoCollision(md5: Hasher, p: Path, data: Bytes)
    ensures NoCollisionIn(md5, map[p := File(data)])
  {
    var fs := map[p := File(data)];
    forall q | Exists(fs, q)
      ensures Content(fs, q) == Some(data)
    {
      assert q in fs;
    }
  }
}
