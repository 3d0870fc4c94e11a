/**
 * The names `Apt` derives: a package's place in the aptly pool and its ostree ref
 * namespace, the digest of a lockfile's path, and the branches of an image.
 */
module AptNaming {
  import opened Text
  import opened Ostree

  /** aptly's pool layout: `sha[:2]/sha[2:4]/sha[4:]_<basename of the file>`. */
  function PoolFilename(sha: string, filename: string): (r: string)
    ensures EndsWith(r, "_" + Basename(filename))
    ensures |sha| >= 4 ==> |r| == |sha| + 3 + |Basename(filename)|
  {
    var r := Slice(sha, 0, 2) + "/" + Slice(sha, 2, 4) + "/" + SliceFrom(sha, 4) + "_" + Basename(filename);
    assert r[|r| - |"_" + Basename(filename)|..] == "_" + Basename(filename);
    r
  }

  lemma PoolFilenameLayout(sha: string, filename: string)
    requires |sha| >= 4
    ensures PoolFilename(sha, filename) == sha[..2] + "/" + sha[2..4] + "/" + sha[4..] + "_" + Basename(filename)
  {
  }

  /** Dropping the two separators of a pool path gives back the digest it came from. */
  lemma PoolFilenameDigest(sha: string, filename: string)
    requires |sha| >= 4
    ensures var p := PoolFilename(sha, filename);
      p[..2] + p[3..5] + p[6..|sha| + 2] == sha
  {
    var p := PoolFilename(sha, filename);
    PoolFilenameLayout(sha, filename);
    assert p[..2] == sha[..2];
    assert p[3..5] == sha[2..4];
    assert p[6..|sha| + 2] == sha[4..];
    assert sha == sha[..2] + sha[2..4] + sha[4..];
  }

  /** Digests of one length and distinct file basenames never share a pool path. */
  lemma PoolFilenameInjective(sha: string, filename: string, sha': string, filename': string)
    requires |sha| == |sha'| >= 4
    requires PoolFilename(sha, filename) == PoolFilename(sha', filename')
    ensures sha == sha' && Basename(filename) == Basename(filename')
  {
    var p := PoolFilename(sha, filename);
    PoolFilenameDigest(sha, filename);
    PoolFilenameDigest(sha', filename');
    PoolFilenameLayout(sha, filename);
    PoolFilenameLayout(sha', filename');
    assert p[|sha| + 3..] == Basename(filename);
    assert p[|sha| + 3..] == Basename(filename');
  }

  /** `ref_base`: the pool path under `deb/pool/`, with every `+` and `~` turned into `_`. */
  function RefBase(pool: string): (r: string)
    ensures |r| == 9 + |pool| && StartsWith(r, "deb/pool/")
    ensures '+' !in r && '~' !in r
    ensures forall k :: 0 <= k < |pool| ==> r[9 + k] == if pool[k] == '+' || pool[k] == '~' then '_' else pool[k]
  {
    var plus := Replace(pool, "+", "_");
    ReplaceChar(pool, '+', '_');
    ReplaceChar(plus, '~', '_');
    var r := "deb/pool/" + Replace(plus, "~", "_");
    forall k | 0 <= k < |r| ensures r[k] != '+' && r[k] != '~' {
      if k >= 9 {
        assert r[k] == Replace(plus, "~", "_")[k - 9];
      }
    }
    r
  }

  /** `lockfile.replace('/', '_')`: the lockfile's path as one path component. */
  function Digest(lockfile: string): (r: string)
    ensures |r| == |lockfile| && '/' !in r
    ensures forall k :: 0 <= k < |lockfile| ==> r[k] == if lockfile[k] == '/' then '_' else lockfile[k]
  {
    ReplaceChar(lockfile, '/', '_');
    Replace(lockfile, "/", "_")
  }

  lemma DigestPlain(lockfile: string)
    requires '/' !in lockfile
    ensures Digest(lockfile) == lockfile
  {
  }

  /** Lockfile paths that differ only in `/` against `_` share their digest, and so their image. */
  lemma DigestMerges(a: string, b: string)
    ensures Digest(a + "/" + b) == Digest(a + "_" + b)
  {
    var x, y := a + "/" + b, a + "_" + b;
    assert forall k :: 0 <= k < |x| ==> Digest(x)[k] == Digest(y)[k] by {
      forall k | 0 <= k < |x| ensures Digest(x)[k] == Digest(y)[k] {
        if k < |a| { assert x[k] == a[k] == y[k]; }
        else if k > |a| { assert x[k] == b[k - |a| - 1] == y[k]; }
      }
    }
  }

  /** The branches of the image built from a lockfile: `deb/images/<digest>/<leaf>`. */
  function ImageBranch(lockfile: string, leaf: string): string {
    "deb/images/" + Digest(lockfile) + "/" + leaf
  }

  /** The branch holding the empty dpkg database of an architecture. */
  function DpkgBaseBranch(architecture: string): string {
    "deb/dpkg-base/" + architecture
  }

  /** In `/deb/images/<digest>/<leaf>` the only slashes are the four separators. */
  lemma ImageSlashes(lockfile: string, leaf: string, k: int)
    requires '/' !in leaf
    requires var s := "/" + ImageBranch(lockfile, leaf); 0 <= k < |s| && s[k] == '/'
    ensures k == 0 || k == 4 || k == 11 || k == 12 + |lockfile|
  {
    var d := Digest(lockfile);
    var s := "/" + ImageBranch(lockfile, leaf);
    assert s == "/deb/images/" + d + "/" + leaf;
    assert forall j :: 0 <= j < 12 ==> s[j] == "/deb/images/"[j];
    assert forall j :: 12 <= j < 12 + |d| ==> s[j] == d[j - 12];
    assert forall j :: 12 + |d| < j < |s| ==> s[j] == leaf[j - 13 - |d|];
  }

  /** An image branch never holds `/refs/heads/`, so it is the ref of its ref file. */
  lemma ImageBranchLacksHeads(lockfile: string, leaf: string)
    requires '/' !in leaf
    ensures NoOccurrence("/" + ImageBranch(lockfile, leaf), Heads)
  {
    var s := "/" + ImageBranch(lockfile, leaf);
    forall i | 0 <= i <= |s| - |Heads| ensures !OccursAt(s, Heads, i) {
      if OccursAt(s, Heads, i) {
        assert s[i] == Heads[0] == '/';
        assert s[i + 5] == Heads[5] == '/';
        assert s[i + 11] == Heads[11] == '/';
        ImageSlashes(lockfile, leaf, i);
        ImageSlashes(lockfile, leaf, i + 5);
        ImageSlashes(lockfile, leaf, i + 11);
      }
    }
  }

  /**
   * The branch `build_image` configures an unpacked image into, as written: every
   * `unpacked` in the ref becomes `configured`, wherever it occurs.
   */
  function ConfiguredBranchAsWritten(ref: string): (r: string)
    ensures NoOccurrence(ref, "unpacked") ==> r == ref
    ensures EndsWith(ref, "unpacked") && (forall j :: 0 <= j < |ref| - 8 ==> !OccursAt(ref, "unpacked", j))
            ==> r == ConfiguredBranch(ref)
  {
    assert EndsWith(ref, "unpacked") ==> OccursAt(ref, "unpacked", |ref| - 8);
    if NoOccurrence(ref, "unpacked") then
      ReplaceAbsent(ref, "unpacked", "configured");
      Replace(ref, "unpacked", "configured")
    else if EndsWith(ref, "unpacked") && (forall j :: 0 <= j < |ref| - 8 ==> !OccursAt(ref, "unpacked", j)) then
      var a := ref[..|ref| - 8];
      assert ref == a + "unpacked";
      ReplaceAfter(a, "unpacked", "unpacked", "configured");
      ReplaceAtStart("unpacked", "", "configured");
      assert "unpacked" + "" == "unpacked";
      Replace(ref, "unpacked", "configured")
    else
      Replace(ref, "unpacked", "configured")
  }

  /**
   * The configured branch as intended: the trailing `unpacked` component of the image's
   * ref becomes `configured`, and nothing else in the ref changes.
   */
  function ConfiguredBranch(ref: string): (r: string)
    ensures EndsWith(ref, "unpacked") ==> EndsWith(r, "configured") && r[..|r| - 10] == ref[..|ref| - 8]
    ensures !EndsWith(ref, "unpacked") ==> r == ref
  {
    if EndsWith(ref, "unpacked") then ref[..|ref| - 8] + "configured" else ref
  }

  /** Distinct unpacked images always get distinct configured branches. */
  lemma ConfiguredBranchInjective(a: string, b: string)
    requires EndsWith(a, "unpacked") && EndsWith(b, "unpacked") && a != b
    ensures ConfiguredBranch(a) != ConfiguredBranch(b)
  {
    assert a == a[..|a| - 8] + "unpacked" && b == b[..|b| - 8] + "unpacked";
  }

  /** An image's configured branch sits beside its unpacked one. */
  lemma ConfiguredOfImage(lockfile: string)
    ensures ConfiguredBranch(ImageBranch(lockfile, "unpacked")) == ImageBranch(lockfile, "configured")
  {
    var u := ImageBranch(lockfile, "unpacked");
    var prefix := "deb/images/" + Digest(lockfile) + "/";
    assert u == prefix + "unpacked";
    assert u[|u| - 8..] == "unpacked";
    assert u[..|u| - 8] == prefix;
  }

  /** No `unpacked` starts inside a text without `u`. */
  lemma NoUnpackedIn(a: string, b: string)
    requires 'u' !in a
    ensures forall j :: 0 <= j < |a| ==> !OccursAt(a + b, "unpacked", j)
  {
    forall j | 0 <= j < |a| ensures !OccursAt(a + b, "unpacked", j) {
      assert (a + b)[j] == a[j] != 'u';
      if j + 8 <= |a + b| {
        assert (a + b)[j..j + 8][0] == (a + b)[j];
      }
    }
  }

  /** Nor inside `ured`, whose `u` is followed by `r`. */
  lemma NoUnpackedInUred(b: string)
    ensures forall j :: 0 <= j < 4 ==> !OccursAt("ured" + b, "unpacked", j)
  {
    var s := "ured" + b;
    forall j | 0 <= j < 4 ensures !OccursAt(s, "unpacked", j) {
      assert s[0] == 'u' && s[1] == 'r' && s[2] == 'e' && s[3] == 'd';
      if j + 8 <= |s| {
        assert s[j..j + 8][0] == s[j] && s[j..j + 8][1] == s[j + 1];
      }
    }
  }

  /** The trailing `/unpacked` of a branch is rewritten. */
  lemma AsWrittenTail(m: string)
    requires 'u' !in m
    ensures ConfiguredBranchAsWritten(m + "/unpacked") == m + "/configured"
  {
    NoUnpackedIn(m + "/", "unpacked");
    ReplaceAfter(m + "/", "unpacked", "unpacked", "configured");
    ReplaceAtStart("unpacked", "", "configured");
    assert "unpacked" + "" == "unpacked";
    assert (m + "/") + "unpacked" == m + "/unpacked";
    assert (m + "/") + "configured" == m + "/configured";
  }

  /** As written, an `unpacked` at the start of the lockfile's name is rewritten as well. */
  lemma AsWrittenFromUnpacked(m: string)
    requires 'u' !in m
    ensures ConfiguredBranchAsWritten("deb/images/" + ("unpacked" + (m + "/unpacked")))
         == "deb/images/" + ("configured" + (m + "/configured"))
  {
    var tail := m + "/unpacked";
    NoUnpackedIn("deb/images/", "unpacked" + tail);
    ReplaceAfter("deb/images/", "unpacked" + tail, "unpacked", "configured");
    ReplaceAtStart("unpacked", tail, "configured");
    AsWrittenTail(m);
  }

  /** An image of a lockfile named `configured...` keeps that name. */
  lemma AsWrittenFromConfigured(m: string)
    requires 'u' !in m
    ensures ConfiguredBranchAsWritten("deb/images/config" + ("ured" + (m + "/unpacked")))
         == "deb/images/config" + ("ured" + (m + "/configured"))
  {
    var tail := m + "/unpacked";
    NoUnpackedIn("deb/images/config", "ured" + tail);
    ReplaceAfter("deb/images/config", "ured" + tail, "unpacked", "configured");
    NoUnpackedInUred(tail);
    ReplaceAfter("ured", tail, "unpacked", "configured");
    AsWrittenTail(m);
  }

  /**
   * As written, the images of the lockfiles `unpacked<m>` and `configured<m>` (for instance
   * `unpacked.lock` and `configured.lock`) are configured into one branch, although their
   * unpacked branches differ.
   */
  lemma AsWrittenConfiguredCollides(m: string)
    requires '/' !in m && 'u' !in m
    ensures ImageBranch("unpacked" + m, "unpacked") != ImageBranch("configured" + m, "unpacked")
    ensures ConfiguredBranchAsWritten(ImageBranch("unpacked" + m, "unpacked"))
         == ConfiguredBranchAsWritten(ImageBranch("configured" + m, "unpacked"))
  {
    UnpackedImageBranch(m);
    ConfiguredImageBranch(m);
    AsWrittenFromUnpacked(m);
    AsWrittenFromConfigured(m);
    ConfigSplit(m + "/configured");
    assert ImageBranch("unpacked" + m, "unpacked")[11] == 'u';
    assert ImageBranch("configured" + m, "unpacked")[11] == 'c';
  }

  lemma UnpackedImageBranch(m: string)
    requires '/' !in m
    ensures ImageBranch("unpacked" + m, "unpacked") == "deb/images/" + ("unpacked" + (m + "/unpacked"))
  {
    DigestPlain("unpacked" + m);
  }

  lemma ConfiguredImageBranch(m: string)
    requires '/' !in m
    ensures ImageBranch("configured" + m, "unpacked") == "deb/images/config" + ("ured" + (m + "/unpacked"))
  {
    DigestPlain("configured" + m);
    ConfigSplit(m + "/unpacked");
  }

  lemma ConfigSplit(t: string)
    ensures "deb/images/" + ("configured" + t) == "deb/images/config" + ("ured" + t)
    ensures "deb/images/" + "configured" + t == "deb/images/config" + ("ured" + t)
  {
  }
}
