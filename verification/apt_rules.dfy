/**
 * The rules `Apt` instantiates: resolving a lockfile, the empty dpkg database, downloading
 * a package, its dpkg metadata, combining the metadata of an image, and configuring it.
 * Their shell commands are kept as the variables they reference; their paths are templates.
 */
module AptRules {
  import opened Outcomes
  import opened NinjaVars
  import opened NinjaGen
  import opened NinjaRules
  import opened Ostree
  import opened AptNaming

  /** A command kept only as the variables it references, in order, separated by spaces. */
  function Skeleton(names: seq<string>): seq<Part> {
    if |names| == 0 then []
    else if |names| == 1 then [Ref(names[0])]
    else [Ref(names[0]), Lit(" ")] + Skeleton(names[1..])
  }

  lemma {:induction false} SkeletonShape(names: seq<string>)
    requires forall k :: 0 <= k < |names| ==> IsWord(names[k])
    ensures WellFormed(Skeleton(names)) && RefNames(Skeleton(names)) == names
    decreases |names|
  {
    if |names| >= 2 {
      SkeletonShape(names[1..]);
      ConsRef(names[0], " ", Skeleton(names[1..]), map[], map[]);
      assert names == [names[0]] + names[1..];
    } else if |names| == 1 {
      RefShape(names[0], map[], map[]);
    }
  }

  /** Literal text that may follow a reference: no `$`, no `{`, and no word character first. */
  predicate Separator(x: string) {
    |x| > 0 && '$' !in x && '{' !in x && !IsWordChar(x[0])
  }

  lemma RefShape(a: string, globals: map<string, string>, args: map<string, string>)
    requires IsWord(a)
    ensures WellFormed([Ref(a)]) && RefNames([Ref(a)]) == [a]
    ensures Substitute([Ref(a)], globals, args) == Lookup(a, globals, args)
  {
    assert [Ref(a)][1..] == [];
  }

  lemma ConsRef(a: string, x: string, rest: seq<Part>, globals: map<string, string>, args: map<string, string>)
    requires IsWord(a) && Separator(x) && WellFormed(rest)
    ensures WellFormed([Ref(a), Lit(x)] + rest)
    ensures RefNames([Ref(a), Lit(x)] + rest) == [a] + RefNames(rest)
    ensures Substitute([Ref(a), Lit(x)] + rest, globals, args) == Lookup(a, globals, args) + x + Substitute(rest, globals, args)
  {
    var h := [Ref(a), Lit(x)];
    assert h[1..] == [Lit(x)] && h[1..][1..] == [];
    WellFormedConcat(h, rest);
    RefNamesConcat(h, rest);
    var s := h + rest;
    assert s[1..] == [Lit(x)] + rest;
    assert ([Lit(x)] + rest)[1..] == rest;
  }

  lemma RefLitShape(b: string, y: string, globals: map<string, string>, args: map<string, string>)
    requires IsWord(b) && Separator(y)
    ensures WellFormed([Ref(b), Lit(y)]) && RefNames([Ref(b), Lit(y)]) == [b]
    ensures Substitute([Ref(b), Lit(y)], globals, args) == Lookup(b, globals, args) + y
  {
    var p := [Ref(b), Lit(y)];
    assert p[1..] == [Lit(y)] && p[1..][1..] == [];
    assert RefNames(p[1..]) == [];
    assert Substitute(p[1..], globals, args) == y;
  }

  lemma LitShape(x: string, globals: map<string, string>, args: map<string, string>)
    requires |x| > 0 && '$' !in x && '{' !in x
    ensures WellFormed([Lit(x)]) && RefNames([Lit(x)]) == [] && Substitute([Lit(x)], globals, args) == x
  {
    assert [Lit(x)][1..] == [];
  }

  lemma LitRefShape(x: string, a: string, globals: map<string, string>, args: map<string, string>)
    requires |x| > 0 && '$' !in x && '{' !in x && IsWord(a)
    ensures WellFormed([Lit(x), Ref(a)]) && RefNames([Lit(x), Ref(a)]) == [a]
    ensures Substitute([Lit(x), Ref(a)], globals, args) == x + Lookup(a, globals, args)
  {
    var p := [Lit(x), Ref(a)];
    assert p[1..] == [Ref(a)] && p[1..][1..] == [];
    assert RefNames(p[1..]) == [a];
    assert Substitute(p[1..], globals, args) == Lookup(a, globals, args);
  }

  lemma Path3Shape(a: string, x: string, b: string, globals: map<string, string>, args: map<string, string>)
    requires IsWord(a) && IsWord(b) && Separator(x)
    ensures WellFormed([Ref(a), Lit(x), Ref(b)]) && RefNames([Ref(a), Lit(x), Ref(b)]) == [a, b]
    ensures Substitute([Ref(a), Lit(x), Ref(b)], globals, args) == Lookup(a, globals, args) + x + Lookup(b, globals, args)
  {
    RefShape(b, globals, args);
    ConsRef(a, x, [Ref(b)], globals, args);
    assert [Ref(a), Lit(x)] + [Ref(b)] == [Ref(a), Lit(x), Ref(b)];
  }

  lemma Path4Shape(a: string, x: string, b: string, y: string, globals: map<string, string>, args: map<string, string>)
    requires IsWord(a) && IsWord(b) && Separator(x) && Separator(y)
    ensures WellFormed([Ref(a), Lit(x), Ref(b), Lit(y)]) && RefNames([Ref(a), Lit(x), Ref(b), Lit(y)]) == [a, b]
    ensures Substitute([Ref(a), Lit(x), Ref(b), Lit(y)], globals, args) == Lookup(a, globals, args) + x + Lookup(b, globals, args) + y
  {
    RefLitShape(b, y, globals, args);
    ConsRef(a, x, [Ref(b), Lit(y)], globals, args);
    assert [Ref(a), Lit(x)] + [Ref(b), Lit(y)] == [Ref(a), Lit(x), Ref(b), Lit(y)];
  }

  lemma Path5Shape(a: string, x: string, b: string, y: string, c: string, globals: map<string, string>, args: map<string, string>)
    requires IsWord(a) && IsWord(b) && IsWord(c) && Separator(x) && Separator(y)
    ensures WellFormed([Ref(a), Lit(x), Ref(b), Lit(y), Ref(c)])
    ensures RefNames([Ref(a), Lit(x), Ref(b), Lit(y), Ref(c)]) == [a, b, c]
    ensures Substitute([Ref(a), Lit(x), Ref(b), Lit(y), Ref(c)], globals, args)
         == Lookup(a, globals, args) + x + Lookup(b, globals, args) + y + Lookup(c, globals, args)
  {
    Path3Shape(b, y, c, globals, args);
    ConsRef(a, x, [Ref(b), Lit(y), Ref(c)], globals, args);
    assert [Ref(a), Lit(x)] + [Ref(b), Lit(y), Ref(c)] == [Ref(a), Lit(x), Ref(b), Lit(y), Ref(c)];
  }

  /** A rule's paths, once built, are its templates with the references substituted. */
  lemma TemplatePaths(rule: Rule, outputs: seq<seq<Part>>, inputs: seq<seq<Part>>,
                      globals: map<string, string>, args: map<string, string>)
    requires rule.outputs == RenderAll(outputs) && rule.inputs == RenderAll(inputs) && rule.implicit == []
    requires forall k :: 0 <= k < |outputs| ==> WellFormed(outputs[k])
    requires forall k :: 0 <= k < |inputs| ==> WellFormed(inputs[k])
    ensures rule.BuildOutputs([], globals, args) == SubstituteAll(outputs, globals, args)
    ensures rule.BuildInputs([], globals, args) == SubstituteAll(inputs, globals, args)
  {
    ExpandTemplates(outputs, globals, args);
    ExpandTemplates(inputs, globals, args);
    assert ExpandAll([], globals, args) == [];
  }

  lemma OneTemplate(a: seq<Part>)
    ensures AllRefNames([a]) == RefNames(a)
  {
    assert [a][1..] == [];
  }

  lemma TwoTemplates(a: seq<Part>, b: seq<Part>)
    ensures AllRefNames([a, b]) == RefNames(a) + RefNames(b)
  {
    assert [a, b][1..] == [b];
    OneTemplate(b);
  }

  lemma ThreeTemplates(a: seq<Part>, b: seq<Part>, c: seq<Part>)
    ensures AllRefNames([a, b, c]) == RefNames(a) + RefNames(b) + RefNames(c)
  {
    assert [a, b, c][1..] == [b, c];
    TwoTemplates(b, c);
  }

  /** A rule given its own arguments, and the rest of its variables from the globals, builds. */
  lemma ChecksPass(rule: Rule, globals: set<string>, supplied: set<string>, fromGlobals: set<string>)
    requires rule.vars == supplied + fromGlobals && fromGlobals <= globals + AutoVars
    ensures rule.CheckArgs(globals, supplied) == Pass
  {
    ArgCheckPass(rule.name, rule.vars, globals, supplied);
  }

  /** Names each bound by the globals or by Ninja itself. */
  lemma Within1(a: string, s: set<string>)
    requires a in s + AutoVars
    ensures {a} <= s + AutoVars
  {
  }

  lemma Within2(a: string, b: string, s: set<string>)
    requires a in s + AutoVars && b in s + AutoVars
    ensures {a, b} <= s + AutoVars
  {
  }

  lemma Within3(a: string, b: string, c: string, s: set<string>)
    requires a in s + AutoVars && b in s + AutoVars && c in s + AutoVars
    ensures {a, b, c} <= s + AutoVars
  {
  }

  /** Names listed again add nothing to the set of names. */
  lemma ElementsRepeat(names: seq<string>, again: seq<string>)
    requires forall k :: 0 <= k < |again| ==> again[k] in names
    ensures Elements(names + again) == Elements(names)
  {
  }

  /** The order-only prerequisite every rule of a repository shares: the repository itself. */
  const RepoConfig := "$ostree_repo/config"

  /** The names the rules' paths reference. */
  lemma PathWords()
    ensures IsWord("ostree_repo") && IsWord("builddir") && IsWord("ref_base") && IsWord("architecture")
    ensures IsWord("pkgs_digest") && IsWord("meta") && IsWord("in_branch") && IsWord("out_branch")
    ensures IsWord("lockfile")
  {
  }

  /** The literal text between the references of the rules' paths. */
  lemma PathSeparators()
    ensures Separator(Heads) && Separator("/") && Separator("/data") && Separator("/control")
    ensures Separator("/status") && Separator("/available") && Separator("/info")
  {
  }

  lemma BranchSeparators()
    ensures Separator(Heads + "deb/dpkg-base/") && Separator(Heads + "deb/images/")
  {
  }

  // update_lockfile ---------------------------------------------------------------------

  const UpdateLockfileNames := ["out", "architecture", "packages", "archive_url", "distribution", "lockfile"]
  const UpdateLockfileOutput: seq<Part> := [Lit("update-lockfile-"), Ref("lockfile")]
  const ForceInput: seq<Part> := [Lit(".FORCE")]

  /** `update_lockfile`: resolves the packages with aptly and rewrites the lockfile when it changed. */
  const UpdateLockfile: Rule :=
    TemplateRule("update_lockfile", Skeleton(UpdateLockfileNames), [UpdateLockfileOutput], [ForceInput], None, [], map[])

  function UpdateLockfileArgs(packages: string, architecture: string, archiveUrl: string,
                              distribution: string, lockfile: string): map<string, string> {
    map["packages" := packages, "architecture" := architecture, "archive_url" := archiveUrl,
        "distribution" := distribution, "lockfile" := lockfile]
  }

  lemma UpdateLockfileArgsKeys(packages: string, architecture: string, archiveUrl: string,
                               distribution: string, lockfile: string)
    ensures var args := UpdateLockfileArgs(packages, architecture, archiveUrl, distribution, lockfile);
      args.Keys == {"packages", "architecture", "archive_url", "distribution", "lockfile"}
      && "lockfile" in args && args["lockfile"] == lockfile
  {
  }

  lemma UpdateLockfileWords()
    ensures forall k :: 0 <= k < |UpdateLockfileNames| ==> IsWord(UpdateLockfileNames[k])
  {
    assert IsWord("out") && IsWord("architecture") && IsWord("packages");
    assert IsWord("archive_url") && IsWord("distribution") && IsWord("lockfile");
  }

  lemma PlainLiterals()
    ensures |"update-lockfile-"| > 0 && '$' !in "update-lockfile-" && '{' !in "update-lockfile-"
    ensures |".FORCE"| > 0 && '$' !in ".FORCE" && '{' !in ".FORCE"
  {
  }

  lemma UpdateLockfileShape(globals: map<string, string>, args: map<string, string>)
    ensures WellFormed(Skeleton(UpdateLockfileNames)) && RefNames(Skeleton(UpdateLockfileNames)) == UpdateLockfileNames
    ensures WellFormed(UpdateLockfileOutput) && RefNames(UpdateLockfileOutput) == ["lockfile"]
    ensures Substitute(UpdateLockfileOutput, globals, args) == "update-lockfile-" + Lookup("lockfile", globals, args)
    ensures WellFormed(ForceInput) && RefNames(ForceInput) == [] && Substitute(ForceInput, globals, args) == ".FORCE"
  {
    UpdateLockfileWords();
    SkeletonShape(UpdateLockfileNames);
    PathWords();
    PlainLiterals();
    LitRefShape("update-lockfile-", "lockfile", globals, args);
    LitShape(".FORCE", globals, args);
  }

  /** `update_lockfile` needs its five arguments; `out` is bound by Ninja. */
  lemma UpdateLockfileVars()
    ensures UpdateLockfile.vars == {"packages", "architecture", "archive_url", "distribution", "lockfile"} + {"out"}
  {
    UpdateLockfileRefs();
    ElementsRepeat(UpdateLockfileNames, ["lockfile"]);
    UpdateLockfileNamesSplit();
  }

  lemma UpdateLockfileNamesSplit()
    ensures Elements(UpdateLockfileNames) == {"packages", "architecture", "archive_url", "distribution", "lockfile"} + {"out"}
  {
  }

  /** The names `update_lockfile`'s command, input and output reference, in order. */
  lemma UpdateLockfileRefs()
    ensures RefNames(Skeleton(UpdateLockfileNames)) + AllRefNames([ForceInput]) + AllRefNames([UpdateLockfileOutput])
         == UpdateLockfileNames + ["lockfile"]
  {
    assert RefNames(Skeleton(UpdateLockfileNames)) == UpdateLockfileNames
        && AllRefNames([ForceInput]) == [] && AllRefNames([UpdateLockfileOutput]) == ["lockfile"] by {
      UpdateLockfileShape(map[], map[]);
      OneTemplate(ForceInput);
      OneTemplate(UpdateLockfileOutput);
    }
  }

  /** Resolving a lockfile is always forced, and its phony output is named after the lockfile. */
  lemma UpdateLockfileBuild(globals: map<string, string>, packages: string, architecture: string,
                            archiveUrl: string, distribution: string, lockfile: string)
    ensures var args := UpdateLockfileArgs(packages, architecture, archiveUrl, distribution, lockfile);
      UpdateLockfile.CheckArgs(globals.Keys, args.Keys) == Pass
      && UpdateLockfile.BuildOutputs([], globals, args) == ["update-lockfile-" + lockfile]
      && UpdateLockfile.BuildInputs([], globals, args) == [".FORCE"]
  {
    var args := UpdateLockfileArgs(packages, architecture, archiveUrl, distribution, lockfile);
    UpdateLockfileArgsKeys(packages, architecture, archiveUrl, distribution, lockfile);
    assert UpdateLockfile.CheckArgs(globals.Keys, args.Keys) == Pass by {
      UpdateLockfileVars();
      Within1("out", globals.Keys);
      ChecksPass(UpdateLockfile, globals.Keys, args.Keys, {"out"});
    }
    UpdateLockfileShape(globals, args);
    TemplatePaths(UpdateLockfile, [UpdateLockfileOutput], [ForceInput], globals, args);
    SubstituteOne(UpdateLockfileOutput, globals, args);
    SubstituteOne(ForceInput, globals, args);
  }

  // dpkg_base ---------------------------------------------------------------------------

  const DpkgBaseNames := ["architecture", "ostree_repo"]
  const DpkgBaseOutput: seq<Part> := [Ref("ostree_repo"), Lit(Heads + "deb/dpkg-base/"), Ref("architecture")]

  /** `dpkg_base`: commits an empty dpkg database for an architecture. */
  const DpkgBase: Rule :=
    TemplateRule("dpkg_base", Skeleton(DpkgBaseNames), [DpkgBaseOutput], [], None, [RepoConfig], map["restat" := "True"])

  lemma DpkgBaseShape(globals: map<string, string>, args: map<string, string>)
    ensures WellFormed(Skeleton(DpkgBaseNames)) && RefNames(Skeleton(DpkgBaseNames)) == DpkgBaseNames
    ensures WellFormed(DpkgBaseOutput) && RefNames(DpkgBaseOutput) == ["ostree_repo", "architecture"]
    ensures Substitute(DpkgBaseOutput, globals, args)
         == Lookup("ostree_repo", globals, args) + Heads + "deb/dpkg-base/" + Lookup("architecture", globals, args)
  {
    PathWords();
    BranchSeparators();
    SkeletonShape(DpkgBaseNames);
    Path3Shape("ostree_repo", Heads + "deb/dpkg-base/", "architecture", globals, args);
  }

  /** `dpkg_base` needs the architecture and `ostree_repo`. */
  lemma DpkgBaseVars()
    ensures DpkgBase.vars == {"architecture"} + {"ostree_repo"}
  {
    assert RefNames(Skeleton(DpkgBaseNames)) + AllRefNames([]) + AllRefNames([DpkgBaseOutput])
        == DpkgBaseNames + ["ostree_repo", "architecture"] by {
      DpkgBaseShape(map[], map[]);
      OneTemplate(DpkgBaseOutput);
    }
    ElementsRepeat(DpkgBaseNames, ["ostree_repo", "architecture"]);
    DpkgBaseNamesSplit();
  }

  lemma DpkgBaseNamesSplit()
    ensures Elements(DpkgBaseNames) == {"architecture"} + {"ostree_repo"}
  {
  }

  /** The empty database of an architecture is committed to `deb/dpkg-base/<architecture>`. */
  lemma DpkgBaseBuild(globals: map<string, string>, architecture: string)
    requires "ostree_repo" in globals
    ensures var args := map["architecture" := architecture];
      DpkgBase.CheckArgs(globals.Keys, args.Keys) == Pass
      && DpkgBase.BuildOutputs([], globals, args) == [globals["ostree_repo"] + Heads + DpkgBaseBranch(architecture)]
      && DpkgBase.BuildInputs([], globals, args) == []
  {
    var args := map["architecture" := architecture];
    DpkgBaseVars();
    assert args.Keys == {"architecture"};
    Within1("ostree_repo", globals.Keys);
    ChecksPass(DpkgBase, globals.Keys, args.Keys, {"ostree_repo"});
    DpkgBaseShape(globals, args);
    TemplatePaths(DpkgBase, [DpkgBaseOutput], [], globals, args);
    DpkgBaseSubstituted(globals, args, architecture);
  }

  lemma DpkgBaseSubstituted(globals: map<string, string>, args: map<string, string>, architecture: string)
    requires "ostree_repo" in globals && args == map["architecture" := architecture]
    ensures SubstituteAll([DpkgBaseOutput], globals, args) == [globals["ostree_repo"] + Heads + DpkgBaseBranch(architecture)]
  {
    DpkgBaseShape(globals, args);
    assert Lookup("ostree_repo", globals, args) == globals["ostree_repo"];
    assert Lookup("architecture", globals, args) == architecture;
    var r := globals["ostree_repo"];
    assert Substitute(DpkgBaseOutput, globals, args) == r + Heads + "deb/dpkg-base/" + architecture;
    assert r + Heads + "deb/dpkg-base/" + architecture == r + Heads + DpkgBaseBranch(architecture);
    assert SubstituteAll([DpkgBaseOutput], globals, args)[0] == Substitute(DpkgBaseOutput, globals, args);
  }

  // download_deb ------------------------------------------------------------------------

  const DownloadDebNames := ["sha256sum", "builddir", "aptly_pool_filename", "filename", "ostree_repo", "ref_base",
                             "apt_should_mirror"]
  const DataOutput: seq<Part> := [Ref("ostree_repo"), Lit(Heads), Ref("ref_base"), Lit("/data")]
  const ControlOutput: seq<Part> := [Ref("ostree_repo"), Lit(Heads), Ref("ref_base"), Lit("/control")]

  /** `download_deb`: fetches a package from the mirrors and commits its data and control parts. */
  const DownloadDeb: Rule :=
    TemplateRule("download_deb", Skeleton(DownloadDebNames), [DataOutput, ControlOutput], [],
                 Some("Download $aptly_pool_filename"), [RepoConfig], map["restat" := "True", "pool" := "console"])

  function DownloadDebArgs(sha: string, filename: string, pool: string, refBase: string): map<string, string> {
    map["sha256sum" := sha, "filename" := filename, "aptly_pool_filename" := pool, "ref_base" := refBase]
  }

  lemma DownloadDebWords()
    ensures forall k :: 0 <= k < |DownloadDebNames| ==> IsWord(DownloadDebNames[k])
  {
    assert IsWord("sha256sum") && IsWord("builddir") && IsWord("aptly_pool_filename") && IsWord("filename");
    assert IsWord("ostree_repo") && IsWord("ref_base") && IsWord("apt_should_mirror");
  }

  /** The two ref files a downloaded package is committed to, under its ref base. */
  lemma PartPaths(globals: map<string, string>, args: map<string, string>)
    ensures WellFormed(DataOutput) && RefNames(DataOutput) == ["ostree_repo", "ref_base"]
    ensures WellFormed(ControlOutput) && RefNames(ControlOutput) == ["ostree_repo", "ref_base"]
    ensures Substitute(DataOutput, globals, args) == Lookup("ostree_repo", globals, args) + Heads + Lookup("ref_base", globals, args) + "/data"
    ensures Substitute(ControlOutput, globals, args) == Lookup("ostree_repo", globals, args) + Heads + Lookup("ref_base", globals, args) + "/control"
  {
    PathWords();
    PathSeparators();
    Path4Shape("ostree_repo", Heads, "ref_base", "/data", globals, args);
    Path4Shape("ostree_repo", Heads, "ref_base", "/control", globals, args);
  }

  /** `download_deb` needs four arguments, and `builddir`, `ostree_repo` and `apt_should_mirror` from the globals. */
  lemma DownloadDebVars()
    ensures DownloadDeb.vars == {"sha256sum", "filename", "aptly_pool_filename", "ref_base"}
                              + {"builddir", "ostree_repo", "apt_should_mirror"}
  {
    DownloadDebRefs();
    ElementsRepeat(DownloadDebNames, ["ostree_repo", "ref_base"] + ["ostree_repo", "ref_base"]);
    DownloadDebNamesSplit();
  }

  lemma DownloadDebNamesSplit()
    ensures Elements(DownloadDebNames) == {"sha256sum", "filename", "aptly_pool_filename", "ref_base"}
                                        + {"builddir", "ostree_repo", "apt_should_mirror"}
  {
  }

  /** The names `download_deb`'s command and outputs reference, in order. */
  lemma DownloadDebRefs()
    ensures RefNames(Skeleton(DownloadDebNames)) + AllRefNames([]) + AllRefNames([DataOutput, ControlOutput])
         == DownloadDebNames + (["ostree_repo", "ref_base"] + ["ostree_repo", "ref_base"])
  {
    assert RefNames(Skeleton(DownloadDebNames)) == DownloadDebNames by {
      DownloadDebWords();
      SkeletonShape(DownloadDebNames);
    }
    assert AllRefNames([DataOutput, ControlOutput]) == ["ostree_repo", "ref_base"] + ["ostree_repo", "ref_base"] by {
      PartPaths(map[], map[]);
      TwoTemplates(DataOutput, ControlOutput);
    }
  }

  /** A downloaded package's two parts are the `data` and `control` refs under its ref base. */
  lemma DownloadDebBuild(globals: map<string, string>, sha: string, filename: string, pool: string, refBase: string)
    requires "builddir" in globals && "ostree_repo" in globals && "apt_should_mirror" in globals
    ensures var args := DownloadDebArgs(sha, filename, pool, refBase);
      DownloadDeb.CheckArgs(globals.Keys, args.Keys) == Pass
      && DownloadDeb.BuildOutputs([], globals, args)
         == [globals["ostree_repo"] + Heads + refBase + "/data", globals["ostree_repo"] + Heads + refBase + "/control"]
      && DownloadDeb.BuildInputs([], globals, args) == []
  {
    var args := DownloadDebArgs(sha, filename, pool, refBase);
    DownloadDebArguments(globals.Keys, sha, filename, pool, refBase);
    PartPaths(globals, args);
    TemplatePaths(DownloadDeb, [DataOutput, ControlOutput], [], globals, args);
    DownloadDebSubstituted(globals, args, refBase);
  }

  lemma DownloadDebArguments(globals: set<string>, sha: string, filename: string, pool: string, refBase: string)
    requires "builddir" in globals && "ostree_repo" in globals && "apt_should_mirror" in globals
    ensures DownloadDeb.CheckArgs(globals, DownloadDebArgs(sha, filename, pool, refBase).Keys) == Pass
  {
    var supplied := DownloadDebArgs(sha, filename, pool, refBase).Keys;
    DownloadDebVars();
    assert supplied == {"sha256sum", "filename", "aptly_pool_filename", "ref_base"};
    Within3("builddir", "ostree_repo", "apt_should_mirror", globals);
    ChecksPass(DownloadDeb, globals, supplied, {"builddir", "ostree_repo", "apt_should_mirror"});
  }

  lemma DownloadDebSubstituted(globals: map<string, string>, args: map<string, string>, refBase: string)
    requires "ostree_repo" in globals && "ostree_repo" !in args && "ref_base" in args && args["ref_base"] == refBase
    ensures SubstituteAll([DataOutput, ControlOutput], globals, args)
         == [globals["ostree_repo"] + Heads + refBase + "/data", globals["ostree_repo"] + Heads + refBase + "/control"]
  {
    PartPaths(globals, args);
    var all := SubstituteAll([DataOutput, ControlOutput], globals, args);
    assert all[0] == Substitute(DataOutput, globals, args) && all[1] == Substitute(ControlOutput, globals, args);
  }

  // make_dpkg_info ----------------------------------------------------------------------

  const DpkgInfoNames := ["builddir", "sha256sum", "ostree_repo", "ref_base", "pkgname"]
  const StatusOutput: seq<Part> := [Ref("builddir"), Lit("/"), Ref("ref_base"), Lit("/status")]
  const AvailableOutput: seq<Part> := [Ref("builddir"), Lit("/"), Ref("ref_base"), Lit("/available")]
  const InfoOutput: seq<Part> := [Ref("ostree_repo"), Lit(Heads), Ref("ref_base"), Lit("/info")]

  /** `make_dpkg_info`: the package's dpkg status and available entries, and its `info` directory. */
  const MakeDpkgInfo: Rule :=
    TemplateRule("make_dpkg_info", Skeleton(DpkgInfoNames), [StatusOutput, AvailableOutput, InfoOutput],
                 [ControlOutput], None, [RepoConfig], map["restat" := "True"])

  function DpkgInfoArgs(sha: string, pkgname: string, refBase: string): map<string, string> {
    map["sha256sum" := sha, "pkgname" := pkgname, "ref_base" := refBase]
  }

  lemma DpkgInfoWords()
    ensures forall k :: 0 <= k < |DpkgInfoNames| ==> IsWord(DpkgInfoNames[k])
  {
    assert IsWord("builddir") && IsWord("sha256sum") && IsWord("ostree_repo") && IsWord("ref_base") && IsWord("pkgname");
  }

  /** Where a package's dpkg metadata goes: its status and available entries, and its `info` ref. */
  lemma MetadataPaths(globals: map<string, string>, args: map<string, string>)
    ensures WellFormed(StatusOutput) && RefNames(StatusOutput) == ["builddir", "ref_base"]
    ensures WellFormed(AvailableOutput) && RefNames(AvailableOutput) == ["builddir", "ref_base"]
    ensures WellFormed(InfoOutput) && RefNames(InfoOutput) == ["ostree_repo", "ref_base"]
    ensures Substitute(StatusOutput, globals, args) == Lookup("builddir", globals, args) + "/" + Lookup("ref_base", globals, args) + "/status"
    ensures Substitute(AvailableOutput, globals, args) == Lookup("builddir", globals, args) + "/" + Lookup("ref_base", globals, args) + "/available"
    ensures Substitute(InfoOutput, globals, args) == Lookup("ostree_repo", globals, args) + Heads + Lookup("ref_base", globals, args) + "/info"
  {
    PathWords();
    PathSeparators();
    Path4Shape("builddir", "/", "ref_base", "/status", globals, args);
    Path4Shape("builddir", "/", "ref_base", "/available", globals, args);
    Path4Shape("ostree_repo", Heads, "ref_base", "/info", globals, args);
  }

  /** The names `make_dpkg_info`'s command, input and outputs reference, in order. */
  lemma MakeDpkgInfoRefs()
    ensures RefNames(Skeleton(DpkgInfoNames)) + AllRefNames([ControlOutput]) + AllRefNames([StatusOutput, AvailableOutput, InfoOutput])
         == DpkgInfoNames + (["ostree_repo", "ref_base"] + (["builddir", "ref_base"] + ["builddir", "ref_base"] + ["ostree_repo", "ref_base"]))
  {
    assert RefNames(Skeleton(DpkgInfoNames)) == DpkgInfoNames by {
      DpkgInfoWords();
      SkeletonShape(DpkgInfoNames);
    }
    assert AllRefNames([ControlOutput]) == ["ostree_repo", "ref_base"] by {
      PartPaths(map[], map[]);
      OneTemplate(ControlOutput);
    }
    assert AllRefNames([StatusOutput, AvailableOutput, InfoOutput])
        == ["builddir", "ref_base"] + ["builddir", "ref_base"] + ["ostree_repo", "ref_base"] by {
      MetadataPaths(map[], map[]);
      ThreeTemplates(StatusOutput, AvailableOutput, InfoOutput);
    }
  }

  /** `make_dpkg_info` needs three arguments, and `builddir` and `ostree_repo` from the globals. */
  lemma MakeDpkgInfoVars()
    ensures MakeDpkgInfo.vars == {"sha256sum", "pkgname", "ref_base"} + {"builddir", "ostree_repo"}
  {
    MakeDpkgInfoRefs();
    ElementsRepeat(DpkgInfoNames, ["ostree_repo", "ref_base"] + (["builddir", "ref_base"] + ["builddir", "ref_base"] + ["ostree_repo", "ref_base"]));
    DpkgInfoNamesSplit();
  }

  lemma DpkgInfoNamesSplit()
    ensures Elements(DpkgInfoNames) == {"sha256sum", "pkgname", "ref_base"} + {"builddir", "ostree_repo"}
  {
  }

  /** A package's metadata is read from its `control` ref; status and available go to the build directory. */
  lemma MakeDpkgInfoBuild(globals: map<string, string>, sha: string, pkgname: string, refBase: string)
    requires "builddir" in globals && "ostree_repo" in globals
    ensures var args := DpkgInfoArgs(sha, pkgname, refBase);
      var repo, build := globals["ostree_repo"], globals["builddir"];
      MakeDpkgInfo.CheckArgs(globals.Keys, args.Keys) == Pass
      && MakeDpkgInfo.BuildOutputs([], globals, args)
         == [build + "/" + refBase + "/status", build + "/" + refBase + "/available", repo + Heads + refBase + "/info"]
      && MakeDpkgInfo.BuildInputs([], globals, args) == [repo + Heads + refBase + "/control"]
  {
    var args := DpkgInfoArgs(sha, pkgname, refBase);
    MakeDpkgInfoArguments(globals.Keys, sha, pkgname, refBase);
    MetadataPaths(globals, args);
    PartPaths(globals, args);
    TemplatePaths(MakeDpkgInfo, [StatusOutput, AvailableOutput, InfoOutput], [ControlOutput], globals, args);
    MakeDpkgInfoSubstituted(globals, args, refBase);
  }

  lemma MakeDpkgInfoArguments(globals: set<string>, sha: string, pkgname: string, refBase: string)
    requires "builddir" in globals && "ostree_repo" in globals
    ensures MakeDpkgInfo.CheckArgs(globals, DpkgInfoArgs(sha, pkgname, refBase).Keys) == Pass
  {
    var supplied := DpkgInfoArgs(sha, pkgname, refBase).Keys;
    MakeDpkgInfoVars();
    assert supplied == {"sha256sum", "pkgname", "ref_base"};
    Within2("builddir", "ostree_repo", globals);
    ChecksPass(MakeDpkgInfo, globals, supplied, {"builddir", "ostree_repo"});
  }

  lemma MakeDpkgInfoSubstituted(globals: map<string, string>, args: map<string, string>, refBase: string)
    requires "builddir" in globals && "ostree_repo" in globals && "builddir" !in args && "ostree_repo" !in args
    requires "ref_base" in args && args["ref_base"] == refBase
    ensures var repo, build := globals["ostree_repo"], globals["builddir"];
      SubstituteAll([StatusOutput, AvailableOutput, InfoOutput], globals, args)
         == [build + "/" + refBase + "/status", build + "/" + refBase + "/available", repo + Heads + refBase + "/info"]
      && SubstituteAll([ControlOutput], globals, args) == [repo + Heads + refBase + "/control"]
  {
    MetadataPaths(globals, args);
    PartPaths(globals, args);
    var outs := SubstituteAll([StatusOutput, AvailableOutput, InfoOutput], globals, args);
    assert outs[0] == Substitute(StatusOutput, globals, args) && outs[1] == Substitute(AvailableOutput, globals, args);
    assert outs[2] == Substitute(InfoOutput, globals, args);
    assert SubstituteAll([ControlOutput], globals, args)[0] == Substitute(ControlOutput, globals, args);
  }

  // deb_combine_meta --------------------------------------------------------------------

  const CombineMetaNames := ["builddir", "meta", "pkgs_digest", "in", "ostree_repo"]
  const MetaOutput: seq<Part> := [Ref("ostree_repo"), Lit(Heads + "deb/images/"), Ref("pkgs_digest"), Lit("/"), Ref("meta")]

  /** `deb_combine_meta`: concatenates the packages' entries into the image's `var/lib/dpkg/<meta>`. */
  const DebCombineMeta: Rule :=
    TemplateRule("deb_combine_meta", Skeleton(CombineMetaNames), [MetaOutput], [],
                 Some("var/lib/dpkg/$meta for $pkgs_digest"), [RepoConfig], map[])

  function CombineMetaArgs(digest: string, meta: string): map<string, string> {
    map["pkgs_digest" := digest, "meta" := meta]
  }

  lemma CombineMetaWords()
    ensures forall k :: 0 <= k < |CombineMetaNames| ==> IsWord(CombineMetaNames[k])
  {
    assert IsWord("builddir") && IsWord("meta") && IsWord("pkgs_digest") && IsWord("in") && IsWord("ostree_repo");
  }

  lemma MetaPath(globals: map<string, string>, args: map<string, string>)
    ensures WellFormed(MetaOutput) && RefNames(MetaOutput) == ["ostree_repo", "pkgs_digest", "meta"]
    ensures Substitute(MetaOutput, globals, args)
         == Lookup("ostree_repo", globals, args) + Heads + "deb/images/" + Lookup("pkgs_digest", globals, args) + "/"
            + Lookup("meta", globals, args)
  {
    PathWords();
    PathSeparators();
    BranchSeparators();
    Path5Shape("ostree_repo", Heads + "deb/images/", "pkgs_digest", "/", "meta", globals, args);
  }

  /** `deb_combine_meta` needs the digest and the file's name; `in` is bound by Ninja. */
  lemma DebCombineMetaVars()
    ensures DebCombineMeta.vars == {"pkgs_digest", "meta"} + {"builddir", "in", "ostree_repo"}
  {
    assert RefNames(Skeleton(CombineMetaNames)) + AllRefNames([]) + AllRefNames([MetaOutput])
        == CombineMetaNames + ["ostree_repo", "pkgs_digest", "meta"] by {
      assert RefNames(Skeleton(CombineMetaNames)) == CombineMetaNames by {
        CombineMetaWords();
        SkeletonShape(CombineMetaNames);
      }
      assert AllRefNames([MetaOutput]) == ["ostree_repo", "pkgs_digest", "meta"] by {
        MetaPath(map[], map[]);
        OneTemplate(MetaOutput);
      }
    }
    ElementsRepeat(CombineMetaNames, ["ostree_repo", "pkgs_digest", "meta"]);
    CombineMetaNamesSplit();
  }

  lemma CombineMetaNamesSplit()
    ensures Elements(CombineMetaNames) == {"pkgs_digest", "meta"} + {"builddir", "in", "ostree_repo"}
  {
  }

  /** The combined `status` or `available` file of an image is committed beside its other branches. */
  lemma DebCombineMetaBuild(globals: map<string, string>, lockfile: string, meta: string)
    requires "builddir" in globals && "ostree_repo" in globals
    ensures var args := CombineMetaArgs(Digest(lockfile), meta);
      DebCombineMeta.CheckArgs(globals.Keys, args.Keys) == Pass
      && DebCombineMeta.BuildOutputs([], globals, args) == [globals["ostree_repo"] + Heads + ImageBranch(lockfile, meta)]
      && DebCombineMeta.BuildInputs([], globals, args) == []
  {
    var args := CombineMetaArgs(Digest(lockfile), meta);
    DebCombineMetaVars();
    assert args.Keys == {"pkgs_digest", "meta"};
    Within3("builddir", "in", "ostree_repo", globals.Keys);
    ChecksPass(DebCombineMeta, globals.Keys, args.Keys, {"builddir", "in", "ostree_repo"});
    MetaPath(globals, args);
    TemplatePaths(DebCombineMeta, [MetaOutput], [], globals, args);
    DebCombineMetaSubstituted(globals, args, lockfile, meta);
  }

  lemma DebCombineMetaSubstituted(globals: map<string, string>, args: map<string, string>, lockfile: string, meta: string)
    requires "ostree_repo" in globals && args == CombineMetaArgs(Digest(lockfile), meta)
    ensures SubstituteAll([MetaOutput], globals, args) == [globals["ostree_repo"] + Heads + ImageBranch(lockfile, meta)]
  {
    var r, d := globals["ostree_repo"], Digest(lockfile);
    CombineMetaLookups(globals, d, meta);
    MetaPath(globals, args);
    JoinBranch(r, Heads, "deb/images/", d, "/", meta);
    SubstituteOne(MetaOutput, globals, args);
  }

  lemma CombineMetaLookups(globals: map<string, string>, digest: string, meta: string)
    requires "ostree_repo" in globals
    ensures var args := CombineMetaArgs(digest, meta);
      Lookup("ostree_repo", globals, args) == globals["ostree_repo"]
      && Lookup("pkgs_digest", globals, args) == digest && Lookup("meta", globals, args) == meta
  {
  }

  lemma JoinBranch(r: string, h: string, b: string, d: string, s: string, m: string)
    ensures r + h + b + d + s + m == r + h + (b + d + s + m)
  {
  }

  lemma SubstituteOne(t: seq<Part>, globals: map<string, string>, args: map<string, string>)
    ensures SubstituteAll([t], globals, args) == [Substitute(t, globals, args)]
  {
    assert SubstituteAll([t], globals, args)[0] == Substitute(t, globals, args);
  }

  // dpkg_configure ----------------------------------------------------------------------

  const ConfigureNames := ["builddir", "out_branch", "ostree_repo", "in_branch"]
  const ConfiguredOutput: seq<Part> := [Ref("ostree_repo"), Lit(Heads), Ref("out_branch")]
  const UnpackedInput: seq<Part> := [Ref("ostree_repo"), Lit(Heads), Ref("in_branch")]

  /** `dpkg_configure`: runs the packages' configuration scripts on an unpacked image. */
  const DpkgConfigure: Rule :=
    TemplateRule("dpkg_configure", Skeleton(ConfigureNames), [ConfiguredOutput], [UnpackedInput], None,
                 [RepoConfig], map["pool" := "console"])

  lemma ConfigureWords()
    ensures forall k :: 0 <= k < |ConfigureNames| ==> IsWord(ConfigureNames[k])
  {
    assert IsWord("builddir") && IsWord("out_branch") && IsWord("ostree_repo") && IsWord("in_branch");
  }

  lemma BranchPaths(globals: map<string, string>, args: map<string, string>)
    ensures WellFormed(ConfiguredOutput) && RefNames(ConfiguredOutput) == ["ostree_repo", "out_branch"]
    ensures WellFormed(UnpackedInput) && RefNames(UnpackedInput) == ["ostree_repo", "in_branch"]
    ensures Substitute(ConfiguredOutput, globals, args) == Lookup("ostree_repo", globals, args) + Heads + Lookup("out_branch", globals, args)
    ensures Substitute(UnpackedInput, globals, args) == Lookup("ostree_repo", globals, args) + Heads + Lookup("in_branch", globals, args)
  {
    PathWords();
    PathSeparators();
    Path3Shape("ostree_repo", Heads, "out_branch", globals, args);
    Path3Shape("ostree_repo", Heads, "in_branch", globals, args);
  }

  /** `dpkg_configure` needs both branches, and `builddir` and `ostree_repo` from the globals. */
  lemma DpkgConfigureVars()
    ensures DpkgConfigure.vars == {"in_branch", "out_branch"} + {"builddir", "ostree_repo"}
  {
    assert RefNames(Skeleton(ConfigureNames)) + AllRefNames([UnpackedInput]) + AllRefNames([ConfiguredOutput])
        == ConfigureNames + (["ostree_repo", "in_branch"] + ["ostree_repo", "out_branch"]) by {
      assert RefNames(Skeleton(ConfigureNames)) == ConfigureNames by {
        ConfigureWords();
        SkeletonShape(ConfigureNames);
      }
      assert AllRefNames([UnpackedInput]) == ["ostree_repo", "in_branch"]
          && AllRefNames([ConfiguredOutput]) == ["ostree_repo", "out_branch"] by {
        BranchPaths(map[], map[]);
        OneTemplate(UnpackedInput);
        OneTemplate(ConfiguredOutput);
      }
    }
    ElementsRepeat(ConfigureNames, ["ostree_repo", "in_branch"] + ["ostree_repo", "out_branch"]);
    ConfigureNamesSplit();
  }

  lemma ConfigureNamesSplit()
    ensures Elements(ConfigureNames) == {"in_branch", "out_branch"} + {"builddir", "ostree_repo"}
  {
  }

  /** Configuring reads the unpacked branch's ref file and writes the configured branch's. */
  lemma DpkgConfigureBuild(globals: map<string, string>, inBranch: string, outBranch: string)
    requires "builddir" in globals && "ostree_repo" in globals
    ensures var args := map["in_branch" := inBranch, "out_branch" := outBranch];
      DpkgConfigure.CheckArgs(globals.Keys, args.Keys) == Pass
      && DpkgConfigure.BuildOutputs([], globals, args) == [globals["ostree_repo"] + Heads + outBranch]
      && DpkgConfigure.BuildInputs([], globals, args) == [globals["ostree_repo"] + Heads + inBranch]
  {
    var args := map["in_branch" := inBranch, "out_branch" := outBranch];
    DpkgConfigureVars();
    assert args.Keys == {"in_branch", "out_branch"};
    Within2("builddir", "ostree_repo", globals.Keys);
    ChecksPass(DpkgConfigure, globals.Keys, args.Keys, {"builddir", "ostree_repo"});
    BranchPaths(globals, args);
    TemplatePaths(DpkgConfigure, [ConfiguredOutput], [UnpackedInput], globals, args);
    assert Lookup("ostree_repo", globals, args) == globals["ostree_repo"];
    assert Lookup("in_branch", globals, args) == inBranch;
    assert Lookup("out_branch", globals, args) == outBranch;
    assert SubstituteAll([ConfiguredOutput], globals, args)[0] == Substitute(ConfiguredOutput, globals, args);
    assert SubstituteAll([UnpackedInput], globals, args)[0] == Substitute(UnpackedInput, globals, args);
  }

  // Each rule's recorded variables are the ones its texts reference ------------------------

  lemma UpdateLockfileWellBuilt()
    ensures UpdateLockfile.WellBuilt()
  {
    UpdateLockfileShape(map[], map[]);
    TemplateRuleWellBuilt("update_lockfile", Skeleton(UpdateLockfileNames), [UpdateLockfileOutput], [ForceInput], None, [], map[]);
  }

  lemma DpkgBaseWellBuilt()
    ensures DpkgBase.WellBuilt()
  {
    DpkgBaseShape(map[], map[]);
    TemplateRuleWellBuilt("dpkg_base", Skeleton(DpkgBaseNames), [DpkgBaseOutput], [], None, [RepoConfig], map["restat" := "True"]);
  }

  lemma DownloadDebWellBuilt()
    ensures DownloadDeb.WellBuilt()
  {
    DownloadDebWords();
    SkeletonShape(DownloadDebNames);
    PartPaths(map[], map[]);
    TemplateRuleWellBuilt("download_deb", Skeleton(DownloadDebNames), [DataOutput, ControlOutput], [],
                       Some("Download $aptly_pool_filename"), [RepoConfig], map["restat" := "True", "pool" := "console"]);
  }

  lemma MakeDpkgInfoWellBuilt()
    ensures MakeDpkgInfo.WellBuilt()
  {
    DpkgInfoTemplates();
    ThreeWellFormed(StatusOutput, AvailableOutput, InfoOutput);
    TemplateRuleWellBuilt("make_dpkg_info", Skeleton(DpkgInfoNames), [StatusOutput, AvailableOutput, InfoOutput],
                          [ControlOutput], None, [RepoConfig], map["restat" := "True"]);
  }

  lemma DpkgInfoTemplates()
    ensures WellFormed(Skeleton(DpkgInfoNames)) && WellFormed(ControlOutput)
    ensures WellFormed(StatusOutput) && WellFormed(AvailableOutput) && WellFormed(InfoOutput)
  {
    DpkgInfoWords();
    SkeletonShape(DpkgInfoNames);
    PartPaths(map[], map[]);
    MetadataPaths(map[], map[]);
  }

  lemma ThreeWellFormed(a: seq<Part>, b: seq<Part>, c: seq<Part>)
    requires WellFormed(a) && WellFormed(b) && WellFormed(c)
    ensures forall k :: 0 <= k < |[a, b, c]| ==> WellFormed([a, b, c][k])
  {
  }

  lemma DebCombineMetaWellBuilt()
    ensures DebCombineMeta.WellBuilt()
  {
    CombineMetaWords();
    SkeletonShape(CombineMetaNames);
    MetaPath(map[], map[]);
    TemplateRuleWellBuilt("deb_combine_meta", Skeleton(CombineMetaNames), [MetaOutput], [],
                       Some("var/lib/dpkg/$meta for $pkgs_digest"), [RepoConfig], map[]);
  }

  lemma DpkgConfigureWellBuilt()
    ensures DpkgConfigure.WellBuilt()
  {
    ConfigureWords();
    SkeletonShape(ConfigureNames);
    BranchPaths(map[], map[]);
    TemplateRuleWellBuilt("dpkg_configure", Skeleton(ConfigureNames), [ConfiguredOutput], [UnpackedInput], None,
                       [RepoConfig], map["pool" := "console"]);
  }
}
