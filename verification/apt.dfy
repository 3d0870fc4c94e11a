/**
 * The apt front end. An `Apt` writes into a build file: one lockfile update per lockfile, and
 * for each image the empty dpkg database, two steps per package of the lockfile, and the
 * combines that assemble the unpacked image, optionally followed by `dpkg --configure`.
 */
module AptImages {
  import opened Outcomes
  import opened Text
  import opened NinjaVars
  import opened NinjaGen
  import opened NinjaRules
  import opened Ostree
  import opened Packages
  import opened Ordering
  import opened AptNaming
  import opened AptRules
  import opened BuildPlans

  const DebPoolMirrors := ["http://archive.ubuntu.com/ubuntu", "http://ftp.debian.org/debian/"]
  const DefaultArchitecture := "amd64"
  const DefaultDistribution := "xenial"
  const DefaultArchiveUrl := "http://archive.ubuntu.com/ubuntu"
  const MirrorsFile := "_build/deb_pool_mirrors"

  /** A keyword argument that defaults to `fallback` when it is `None`. */
  function Default<T>(given: Option<T>, fallback: T): T {
    match given
    case Some(v) => v
    case None => fallback
  }

  /** `str(bool(x))`. */
  function Flag(b: bool): string {
    if b then "True" else "False"
  }

  // ---------------------------------------------------------------------------------------
  // The rules apt builds, and what building one of them writes

  /** Apt's rule of a given name, if it has one. */
  function AptRule(name: string): Option<Rule> {
    if name == "update_lockfile" then Some(UpdateLockfile)
    else if name == "dpkg_base" then Some(DpkgBase)
    else if name == "download_deb" then Some(DownloadDeb)
    else if name == "make_dpkg_info" then Some(MakeDpkgInfo)
    else if name == "deb_combine_meta" then Some(DebCombineMeta)
    else if name == "dpkg_configure" then Some(DpkgConfigure)
    else if name == "ostree_combine" then Some(OstreeCombine)
    else None
  }

  /** `rule` is apt's rule of its name. */
  predicate IsAptRule(rule: Rule) {
    AptRule(rule.name) == Some(rule)
  }

  /** No rule of apt's is declared with other arguments than apt's own. */
  predicate RulesAgree(rules: map<string, RuleDecl>) {
    forall name | name in rules && AptRule(name).Some? :: rules[name] == AptRule(name).value.Decl()
  }

  /** Declaring one of apt's rules over rules that agree with apt's never conflicts and keeps them agreeing. */
  lemma DeclareAgrees(rules: map<string, RuleDecl>, rule: Rule)
    requires RulesAgree(rules) && IsAptRule(rule)
    ensures !rule.Conflicts(rules)
    ensures RulesAgree(rules[rule.name := rule.Decl()])
  {
  }

  // Each of apt's rules is found under its own name.

  lemma UpdateLockfileIsApt()
    ensures IsAptRule(UpdateLockfile)
  {
  }

  lemma DpkgBaseIsApt()
    ensures IsAptRule(DpkgBase)
  {
  }

  lemma DownloadDebIsApt()
    ensures IsAptRule(DownloadDeb)
  {
  }

  lemma MakeDpkgInfoIsApt()
    ensures IsAptRule(MakeDpkgInfo)
  {
  }

  lemma DebCombineMetaIsApt()
    ensures IsAptRule(DebCombineMeta)
  {
  }

  lemma DpkgConfigureIsApt()
    ensures IsAptRule(DpkgConfigure)
  {
  }

  lemma OstreeCombineIsApt()
    ensures IsAptRule(OstreeCombine)
  {
  }

  /** Each of apt's rules records exactly the variables its texts reference. */
  lemma AptRuleWellBuilt(rule: Rule)
    requires IsAptRule(rule)
    ensures rule.WellBuilt()
  {
    match rule.name
    case "update_lockfile" => UpdateLockfileWellBuilt();
    case "dpkg_base" => DpkgBaseWellBuilt();
    case "download_deb" => DownloadDebWellBuilt();
    case "make_dpkg_info" => MakeDpkgInfoWellBuilt();
    case "deb_combine_meta" => DebCombineMetaWellBuilt();
    case "dpkg_configure" => DpkgConfigureWellBuilt();
    case "ostree_combine" => OstreeCombineWellBuilt();
    case _ =>
  }

  /** The inputs a rule writes are the caller's followed by its own. */
  lemma CallerInputsFirst(rule: Rule, callerInputs: seq<string>, globals: map<string, string>, args: map<string, string>)
    ensures rule.BuildInputs(callerInputs, globals, args) == callerInputs + rule.BuildInputs([], globals, args)
  {
    var own, implicit := ExpandAll(rule.inputs, globals, args), ExpandAll(rule.implicit, globals, args);
    assert [] + own == own;
    Assoc(callerInputs, own, implicit);
  }

  // ---------------------------------------------------------------------------------------
  // generate_lockfile

  /** The arguments `generate_lockfile` builds `update_lockfile` with, defaults filled in. */
  function LockfileArgs(lockfile: string, packages: Option<seq<string>>, architecture: Option<string>,
                        distribution: Option<string>, archiveUrl: Option<string>): map<string, string> {
    UpdateLockfileArgs(PackageFilter(Sort(Default(packages, []))), Default(architecture, DefaultArchitecture),
                       Default(archiveUrl, DefaultArchiveUrl), Default(distribution, DefaultDistribution), lockfile)
  }

  /** `generate_lockfile`: `update_lockfile` for the lockfile, whose phony output names the update. */
  function LockfileStep(lockfile: string, packages: Option<seq<string>>, architecture: Option<string>,
                        distribution: Option<string>, archiveUrl: Option<string>): Action {
    Make(UpdateLockfile, ["update-lockfile-" + lockfile], [".FORCE"], [],
         LockfileArgs(lockfile, packages, architecture, distribution, archiveUrl))
  }

  lemma LockfileBuilt(globals: map<string, string>, lockfile: string, packages: Option<seq<string>>,
                      architecture: Option<string>, distribution: Option<string>, archiveUrl: Option<string>)
    ensures var args := LockfileArgs(lockfile, packages, architecture, distribution, archiveUrl);
      && UpdateLockfile.CheckArgs(globals.Keys, args.Keys) == Pass
      && UpdateLockfile.BuildOutputs([], globals, args) == ["update-lockfile-" + lockfile]
      && UpdateLockfile.BuildInputs([], globals, args) == [".FORCE"]
  {
    UpdateLockfileBuild(globals, PackageFilter(Sort(Default(packages, []))), Default(architecture, DefaultArchitecture),
                        Default(archiveUrl, DefaultArchiveUrl), Default(distribution, DefaultDistribution), lockfile);
  }
  /** The lockfile update does not depend on the order the packages are given in. */
  lemma LockfileIgnoresPackageOrder(lockfile: string, xs: seq<string>, ys: seq<string>,
                                    architecture: Option<string>, distribution: Option<string>, archiveUrl: Option<string>)
    requires multiset(xs) == multiset(ys)
    ensures LockfileStep(lockfile, Some(xs), architecture, distribution, archiveUrl)
         == LockfileStep(lockfile, Some(ys), architecture, distribution, archiveUrl)
  {
    FilterIgnoresOrder(xs, ys);
  }


  // ---------------------------------------------------------------------------------------
  // image_from_lockfile

  /** The fields `image_from_lockfile` takes from one package of the lockfile. */
  datatype Deb = Deb(sha256: string, filename: string, poolFilename: string, refBase: string, name: string)

  /** The KeyErrors a record of the lockfile can raise: one for each field `image_from_lockfile` reads. */
  const FieldErrors: set<Error> :=
    {MissingKey(Some("Filename")), MissingKey(Some("SHA256")), MissingKey(Some("Package"))}

  /**
   * The package described by a record of the lockfile: its unquoted filename, its place in the
   * aptly pool and the ref prefix derived from that. `Filename` is read first, then `SHA256`,
   * then `Package`; the first that is missing is a KeyError.
   */
  function DebOf(pkg: Record): Result<Deb>
  {
    if "Filename" !in pkg then Err(MissingKey(Some("Filename")))
    else if "SHA256" !in pkg then Err(MissingKey(Some("SHA256")))
    else if "Package" !in pkg then Err(MissingKey(Some("Package")))
    else
      var filename := Unquote(pkg["Filename"]);
      var pool := PoolFilename(pkg["SHA256"], filename);
      Ok(Deb(pkg["SHA256"], filename, pool, RefBase(pool), pkg["Package"]))
  }

  /**
   * A record gives a package exactly when it has the three fields, and the package carries
   * them; otherwise the KeyError names a missing field, and the fields looked up before it
   * are present.
   */
  lemma DebOfFields(pkg: Record)
    ensures DebOf(pkg).Ok? <==> "Filename" in pkg && "SHA256" in pkg && "Package" in pkg
    ensures DebOf(pkg).Ok? ==>
      DebOf(pkg).value.sha256 == pkg["SHA256"] && DebOf(pkg).value.name == pkg["Package"]
      && DebOf(pkg).value.filename == Unquote(pkg["Filename"])
    ensures DebOf(pkg).Err? ==> DebOf(pkg).error in FieldErrors && DebOf(pkg).error.missing.value !in pkg
    ensures DebOf(pkg).Err? && DebOf(pkg).error != MissingKey(Some("Filename")) ==> "Filename" in pkg
    ensures DebOf(pkg).Err? && DebOf(pkg).error == MissingKey(Some("Package")) ==> "SHA256" in pkg
  {
  }

  /** The packages of the records, in order; the first record that lacks a field stops it. */
  function DebsOf(records: seq<Record>): Result<seq<Deb>> {
    if |records| == 0 then Ok([])
    else
      match DebsOf(records[..|records| - 1])
      case Err(e) => Err(e)
      case Ok(debs) =>
        match DebOf(records[|records| - 1])
        case Err(e) => Err(e)
        case Ok(d) => Ok(debs + [d])
  }

  /** Records that all have their fields give one package per record, in order. */
  lemma {:induction false} DebsOfEach(records: seq<Record>, debs: seq<Deb>)
    requires DebsOf(records) == Ok(debs)
    ensures |debs| == |records|
    ensures forall k :: 0 <= k < |records| ==> DebOf(records[k]) == Ok(debs[k])
    decreases |records|
  {
    if |records| > 0 {
      var front := records[..|records| - 1];
      var d := DebOf(records[|records| - 1]).value;
      var rest := DebsOf(front).value;
      assert debs == rest + [d];
      DebsOfEach(front, rest);
      forall k | 0 <= k < |records|
        ensures DebOf(records[k]) == Ok(debs[k])
      {
        if k < |front| {
          assert DebOf(front[k]) == Ok(rest[k]) && debs[k] == rest[k];
        } else {
          assert DebOf(records[|records| - 1]) == Ok(d) && debs[k] == d;
        }
      }
    }
  }

  /** The only error reading the records can give is a KeyError for a field `image_from_lockfile` reads. */
  lemma {:induction false} DebsOfError(records: seq<Record>)
    ensures DebsOf(records).Err? ==> DebsOf(records).error in FieldErrors
    decreases |records|
  {
    if |records| > 0 {
      DebsOfError(records[..|records| - 1]);
      DebOfFields(records[|records| - 1]);
    }
  }

  /** Reading one more record whose fields are all present adds its package at the end. */
  lemma DebsOfNext(records: seq<Record>, n: nat, debs: seq<Deb>)
    requires n < |records| && DebsOf(records[..n]) == Ok(debs) && DebOf(records[n]).Ok?
    ensures DebsOf(records[..n + 1]) == Ok(debs + [DebOf(records[n]).value])
  {
    assert records[..n + 1][..n] == records[..n];
  }

  /** Records that all have their fields give all their packages. */
  lemma DebsOfAll(records: seq<Record>, debs: seq<Deb>)
    requires DebsOf(records[..|records|]) == Ok(debs)
    ensures DebsOf(records) == Ok(debs)
  {
    assert records[..|records|] == records;
  }

  /** A record that lacks a field after well-formed ones is where reading stops, with its error. */
  lemma FailsAt(records: seq<Record>, n: nat, debs: seq<Deb>)
    requires n < |records| && DebsOf(records[..n]) == Ok(debs) && DebOf(records[n]).Err?
    ensures DebsOf(records) == Err(DebOf(records[n]).error)
  {
    assert records[..n + 1][..n] == records[..n];
    DebsOfStops(records, n + 1);
  }

  /** Once a record lacks a field, the records after it change nothing: that error is the result. */
  lemma {:induction false} DebsOfStops(records: seq<Record>, n: nat)
    requires n <= |records| && DebsOf(records[..n]).Err?
    ensures DebsOf(records) == DebsOf(records[..n])
    decreases |records| - n
  {
    if n < |records| {
      assert records[..n + 1][..n] == records[..n];
      DebsOfStops(records, n + 1);
    } else {
      assert records[..n] == records;
    }
  }

  /**
   * The packages of the lockfile as read: a lockfile that does not exist has none, and any
   * other failure to open it is passed on. A malformed line is reported once the records
   * before it have been handled.
   */
  function Listed(read: Result<string>): (r: Result<seq<Deb>>)
    ensures read.Err? ==> (r.Ok? <==> read.error == IOError(ENOENT))
    ensures read.Err? && r.Ok? ==> r.value == []
    ensures read.Ok? && r.Ok? ==> |r.value| == |Parse(Lines(read.value)).records|
    ensures read.Ok? && r.Err? ==>
      r.error in FieldErrors + {MissingKey(None), UnpackError(2, 1)}
  {
    match read
    case Err(e) => if e == IOError(ENOENT) then Ok([]) else Err(e)
    case Ok(text) =>
      var parsed := Parse(Lines(text));
      DebsOfError(parsed.records);
      ParseOnlyUnlabelledKeyError(Lines(text));
      match DebsOf(parsed.records)
      case Err(e) => Err(e)
      case Ok(debs) =>
        DebsOfEach(parsed.records, debs);
        if parsed.failure.Some? then Err(parsed.failure.value) else Ok(debs)
  }

  /** A lockfile that could not be opened has no packages if it does not exist, and is an error otherwise. */
  lemma ListedUnread(e: Error)
    ensures Listed(Err(e)) == if e == IOError(ENOENT) then Ok([]) else Err(e)
  {
  }

  /** A lockfile that was read: the first record that lacks a field, else a malformed line, else its packages. */
  lemma ListedRead(text: string, records: seq<Record>, failure: Option<Error>)
    requires Parsed(records, failure) == Parse(Lines(text))
    ensures Listed(Ok(text)) == if DebsOf(records).Err? then DebsOf(records)
                                else if failure.Some? then Err(failure.value) else DebsOf(records)
  {
  }

  /** The generator dependency that reading the lockfile records. */
  function ReadDeps(lockfile: string, read: Result<string>): (r: set<string>)
    ensures |r| <= 1
    ensures r == {} <==> read.Err? && read.error != IOError(ENOENT)
    ensures r <= {GeneratorDepName(lockfile), GeneratorDepName(WatchedDir(lockfile))}
  {
    if read.Ok? then {GeneratorDepName(lockfile)}
    else if read == Err(IOError(ENOENT)) then {GeneratorDepName(WatchedDir(lockfile))}
    else {}
  }

  /** The files built for one package. */
  datatype Artifact = Data | Control | Status | Available | Info

  /** Where an artifact of a package is built: refs in the repository, dpkg metadata under the build directory. */
  function ArtifactPath(repo: string, build: string, d: Deb, a: Artifact): string {
    match a
    case Data => repo + Heads + d.refBase + "/data"
    case Control => repo + Heads + d.refBase + "/control"
    case Info => repo + Heads + d.refBase + "/info"
    case Status => build + "/" + d.refBase + "/status"
    case Available => build + "/" + d.refBase + "/available"
  }

  /** One artifact of each package, in the order of the packages. */
  function ArtifactPaths(repo: string, build: string, debs: seq<Deb>, a: Artifact): (r: seq<string>)
    ensures |r| == |debs|
  {
    if |debs| == 0 then []
    else ArtifactPaths(repo, build, debs[..|debs| - 1], a) + [ArtifactPath(repo, build, debs[|debs| - 1], a)]
  }

  /** The `k`-th artifact collected is the `k`-th package's. */
  lemma {:induction false} ArtifactPathsAt(repo: string, build: string, debs: seq<Deb>, a: Artifact, k: int)
    requires 0 <= k < |debs|
    ensures ArtifactPaths(repo, build, debs, a)[k] == ArtifactPath(repo, build, debs[k], a)
    decreases |debs|
  {
    var front := debs[..|debs| - 1];
    if k < |front| {
      ArtifactPathsAt(repo, build, front, a, k);
      assert front[k] == debs[k];
    }
  }

  /** `download_deb` for a package writes its `data` and `control` refs and reads nothing. */
  lemma DownloadDebOf(globals: map<string, string>, d: Deb)
    requires "builddir" in globals && "ostree_repo" in globals && "apt_should_mirror" in globals
    ensures var repo, build := globals["ostree_repo"], globals["builddir"];
      var args := DownloadDebArgs(d.sha256, d.filename, d.poolFilename, d.refBase);
      var outs := [ArtifactPath(repo, build, d, Data), ArtifactPath(repo, build, d, Control)];
      DownloadDeb.CheckArgs(globals.Keys, args.Keys) == Pass
      && DownloadDeb.BuildOutputs([], globals, args) == outs && "" !in outs
      && DownloadDeb.BuildInputs([], globals, args) == []
  {
    DownloadDebBuild(globals, d.sha256, d.filename, d.poolFilename, d.refBase);
  }

  /** `make_dpkg_info` for a package writes its status, available and info, and reads its `control` ref. */
  lemma MakeDpkgInfoOf(globals: map<string, string>, d: Deb)
    requires "builddir" in globals && "ostree_repo" in globals
    ensures MakeDpkgInfo.CheckArgs(globals.Keys, DpkgInfoArgs(d.sha256, d.name, d.refBase).Keys) == Pass
    ensures MakeDpkgInfo.BuildOutputs([], globals, DpkgInfoArgs(d.sha256, d.name, d.refBase))
         == [ArtifactPath(globals["ostree_repo"], globals["builddir"], d, Status),
             ArtifactPath(globals["ostree_repo"], globals["builddir"], d, Available),
             ArtifactPath(globals["ostree_repo"], globals["builddir"], d, Info)]
    ensures "" !in [ArtifactPath(globals["ostree_repo"], globals["builddir"], d, Status),
                    ArtifactPath(globals["ostree_repo"], globals["builddir"], d, Available),
                    ArtifactPath(globals["ostree_repo"], globals["builddir"], d, Info)]
    ensures MakeDpkgInfo.BuildInputs([], globals, DpkgInfoArgs(d.sha256, d.name, d.refBase))
         == [ArtifactPath(globals["ostree_repo"], globals["builddir"], d, Control)]
  {
    var repo, build := globals["ostree_repo"], globals["builddir"];
    var outs := [build + "/" + d.refBase + "/status", build + "/" + d.refBase + "/available", repo + Heads + d.refBase + "/info"];
    assert outs == [ArtifactPath(repo, build, d, Status), ArtifactPath(repo, build, d, Available), ArtifactPath(repo, build, d, Info)];
    MakeDpkgInfoBuild(globals, d.sha256, d.name, d.refBase);
  }

  lemma ArtifactsSnoc(repo: string, build: string, debs: seq<Deb>, d: Deb, a: Artifact)
    ensures ArtifactPaths(repo, build, debs + [d], a) == ArtifactPaths(repo, build, debs, a) + [ArtifactPath(repo, build, d, a)]
  {
    var ds := debs + [d];
    assert ds[..|ds| - 1] == debs;
  }

  /** The rules declared once a package has been built. */
  function PackageRules(rules: map<string, RuleDecl>): map<string, RuleDecl> {
    rules[DownloadDeb.name := DownloadDeb.Decl()][MakeDpkgInfo.name := MakeDpkgInfo.Decl()]
  }

  function RulesAfterPackages(rules: map<string, RuleDecl>, debs: seq<Deb>): map<string, RuleDecl> {
    if |debs| == 0 then rules else PackageRules(rules)
  }

  lemma PackageRulesTwice(rules: map<string, RuleDecl>)
    ensures PackageRules(PackageRules(rules)) == PackageRules(rules)
  {
    assert DownloadDeb.name != MakeDpkgInfo.name;
    UpdateTwice(rules, DownloadDeb.name, DownloadDeb.Decl(), MakeDpkgInfo.name, MakeDpkgInfo.Decl());
  }

  /** Binding the same two distinct keys twice is binding them once. */
  lemma UpdateTwice<K, V>(m: map<K, V>, k1: K, v1: V, k2: K, v2: V)
    requires k1 != k2
    ensures m[k1 := v1][k2 := v2][k1 := v1][k2 := v2] == m[k1 := v1][k2 := v2]
  {
  }


  /** `download_deb` for a package: its `data` and `control` refs. */
  function DownloadStep(repo: string, build: string, d: Deb): Action {
    Make(DownloadDeb, [ArtifactPath(repo, build, d, Data), ArtifactPath(repo, build, d, Control)], [], [],
         DownloadDebArgs(d.sha256, d.filename, d.poolFilename, d.refBase))
  }

  /** `make_dpkg_info` for a package: its status and available entries and its `info` ref, read from its `control` ref. */
  function DescribeStep(repo: string, build: string, d: Deb): Action {
    Make(MakeDpkgInfo,
         [ArtifactPath(repo, build, d, Status), ArtifactPath(repo, build, d, Available), ArtifactPath(repo, build, d, Info)],
         [ArtifactPath(repo, build, d, Control)], [], DpkgInfoArgs(d.sha256, d.name, d.refBase))
  }

  /** One package of the lockfile: its download, then its dpkg metadata. */
  function PackagePlan(repo: string, build: string, d: Deb): seq<Action> {
    [DownloadStep(repo, build, d), DescribeStep(repo, build, d)]
  }

  /** The packages of the lockfile, one after the other. */
  function PackagesPlan(repo: string, build: string, debs: seq<Deb>): (plan: seq<Action>)
    ensures |plan| == 2 * |debs|
    decreases |debs|
  {
    if |debs| == 0 then []
    else PackagesPlan(repo, build, debs[..|debs| - 1]) + PackagePlan(repo, build, debs[|debs| - 1])
  }

  lemma PackagesPlanSnoc(repo: string, build: string, debs: seq<Deb>, d: Deb)
    ensures PackagesPlan(repo, build, debs + [d]) == PackagesPlan(repo, build, debs) + PackagePlan(repo, build, d)
  {
    var ds := debs + [d];
    assert ds[..|ds| - 1] == debs;
  }

  /** The plan of two runs of packages is the plan of the first followed by that of the second. */
  lemma {:induction false} PackagesPlanConcat(repo: string, build: string, xs: seq<Deb>, ys: seq<Deb>)
    ensures PackagesPlan(repo, build, xs + ys) == PackagesPlan(repo, build, xs) + PackagesPlan(repo, build, ys)
    decreases |ys|
  {
    if |ys| == 0 {
      assert xs + ys == xs;
    } else {
      var front, last := ys[..|ys| - 1], ys[|ys| - 1];
      assert xs + ys == (xs + front) + [last] && ys == front + [last];
      PackagesPlanConcat(repo, build, xs, front);
      PackagesPlanSnoc(repo, build, xs + front, last);
      PackagesPlanSnoc(repo, build, front, last);
      Assoc(PackagesPlan(repo, build, xs), PackagesPlan(repo, build, front), PackagePlan(repo, build, last));
    }
  }

  /**
   * The packages are built in the order of the lockfile: the two steps of the `k`-th package,
   * its download and then its dpkg metadata, come after the `2k` steps of the packages before
   * it and before those of the packages after it.
   */
  lemma PackagesInOrder(repo: string, build: string, debs: seq<Deb>, k: int)
    requires 0 <= k < |debs|
    ensures PackagesPlan(repo, build, debs)
         == PackagesPlan(repo, build, debs[..k]) + [DownloadStep(repo, build, debs[k]), DescribeStep(repo, build, debs[k])]
            + PackagesPlan(repo, build, debs[k + 1..])
    ensures |PackagesPlan(repo, build, debs[..k])| == 2 * k
  {
    assert debs == debs[..k] + [debs[k]] + debs[k + 1..];
    PackagesPlanConcat(repo, build, debs[..k] + [debs[k]], debs[k + 1..]);
    PackagesPlanSnoc(repo, build, debs[..k], debs[k]);
  }

  /** The download a record gets when it names its pool file, whether or not it names its package. */
  function PartialPlan(repo: string, build: string, pkg: Record): seq<Action> {
    if "Filename" in pkg && "SHA256" in pkg then
      var filename := Unquote(pkg["Filename"]);
      var pool := PoolFilename(pkg["SHA256"], filename);
      [DownloadStep(repo, build, Deb(pkg["SHA256"], filename, pool, RefBase(pool), ""))]
    else []
  }

  /**
   * What the loop of `image_from_lockfile` writes for `records`, one record at a time: the two
   * steps of each complete record, until the first record that lacks a field, which gets only
   * the download it names and ends the loop.
   */
  function RecordsPlan(repo: string, build: string, records: seq<Record>): seq<Action>
    decreases |records|
  {
    if |records| == 0 then []
    else
      match DebOf(records[0])
      case Ok(d) => PackagePlan(repo, build, d) + RecordsPlan(repo, build, records[1..])
      case Err(_) => PartialPlan(repo, build, records[0])
  }

  /** Once the first `i` records are complete, the loop has written their packages and goes on with the rest. */
  lemma {:induction false} RecordsPlanFrom(repo: string, build: string, records: seq<Record>, i: nat, debs: seq<Deb>)
    requires i <= |records| && DebsOf(records[..i]) == Ok(debs)
    ensures RecordsPlan(repo, build, records) == PackagesPlan(repo, build, debs) + RecordsPlan(repo, build, records[i..])
    decreases i
  {
    if i == 0 {
      assert records[0..] == records;
    } else {
      assert records[..i][..i - 1] == records[..i - 1] && records[..i][i - 1] == records[i - 1];
      var front, d := DebsOf(records[..i - 1]).value, DebOf(records[i - 1]).value;
      assert debs == front + [d];
      RecordsPlanFrom(repo, build, records, i - 1, front);
      assert records[i - 1..][0] == records[i - 1] && records[i - 1..][1..] == records[i..];
      PackagesPlanSnoc(repo, build, front, d);
      Assoc(PackagesPlan(repo, build, front), PackagePlan(repo, build, d), RecordsPlan(repo, build, records[i..]));
    }
  }

  /** When every record is complete, the loop writes exactly the plan of their packages. */
  lemma RecordsPlanOk(repo: string, build: string, records: seq<Record>, debs: seq<Deb>)
    requires DebsOf(records) == Ok(debs)
    ensures RecordsPlan(repo, build, records) == PackagesPlan(repo, build, debs)
  {
    assert records[..|records|] == records;
    RecordsPlanFrom(repo, build, records, |records|, debs);
    assert records[|records|..] == [];
  }

  /**
   * When `records[n]` is the first record that lacks a field, the loop writes the packages
   * before it and then that record's partial download.
   */
  lemma RecordsPlanStops(repo: string, build: string, records: seq<Record>, n: nat, debs: seq<Deb>)
    requires n < |records| && DebsOf(records[..n]) == Ok(debs) && DebOf(records[n]).Err?
    ensures RecordsPlan(repo, build, records) == PackagesPlan(repo, build, debs) + PartialPlan(repo, build, records[n])
  {
    RecordsPlanFrom(repo, build, records, n, debs);
    assert records[n..][0] == records[n];
  }

  /**
   * What reading the lockfile writes: nothing when it cannot be opened, otherwise the loop
   * over the records the parser yields before any error it raises.
   */
  function ReadPlan(repo: string, build: string, read: Result<string>): seq<Action> {
    if read.Err? then [] else RecordsPlan(repo, build, Parse(Lines(read.value)).records)
  }

  /** When the lockfile lists its packages, reading it writes exactly their plan. */
  lemma ReadPlanListed(repo: string, build: string, read: Result<string>)
    requires Listed(read).Ok?
    ensures ReadPlan(repo, build, read) == PackagesPlan(repo, build, Listed(read).value)
  {
    if read.Ok? {
      var parsed := Parse(Lines(read.value));
      RecordsPlanOk(repo, build, parsed.records, DebsOf(parsed.records).value);
    }
  }

  /**
   * What `image_from_lockfile` has written when the packages of the lockfile cannot be listed:
   * the dpkg base, the mirrors file, and what reading the lockfile wrote before it failed.
   */
  function FailedImagePlan(repo: string, build: string, architecture: string, read: Result<string>): seq<Action> {
    [BaseStep(repo, architecture), Write(MirrorsFile)] + ReadPlan(repo, build, read)
  }

  /** The ref file of an image branch of the lockfile. */
  function ImageRef(repo: string, lockfile: string, leaf: string): string {
    repo + Heads + ImageBranch(lockfile, leaf)
  }

  /** `ostree_combine` of `inputs` into an image branch of the lockfile. */
  function CombineStep(repo: string, lockfile: string, leaf: string, inputs: seq<string>, implicit: seq<string>): Action {
    Make(OstreeCombine, [ImageRef(repo, lockfile, leaf)], inputs, implicit, map["branch" := ImageBranch(lockfile, leaf)])
  }

  /** `deb_combine_meta` of `inputs` into the image's `status` or `available` branch. */
  function MetaStep(repo: string, lockfile: string, meta: string, inputs: seq<string>): Action {
    Make(DebCombineMeta, [ImageRef(repo, lockfile, meta)], inputs, [], CombineMetaArgs(Digest(lockfile), meta))
  }

  /** The packages' data parts and their info parts, each combined into one branch. */
  function TreesPlan(repo: string, lockfile: string, data: seq<string>, info: seq<string>): seq<Action> {
    [CombineStep(repo, lockfile, "data_combined", data, []), CombineStep(repo, lockfile, "info_combined", info, [])]
  }

  /** The packages' status lists and their available lists, each merged into one. */
  function MetaPlan(repo: string, lockfile: string, status: seq<string>, available: seq<string>): seq<Action> {
    [MetaStep(repo, lockfile, "status", status), MetaStep(repo, lockfile, "available", available)]
  }

  /** The unpacked image combined from `inputs`, with the lockfile as an implicit input, and the phony target naming it. */
  function UnpackPlan(repo: string, lockfile: string, inputs: seq<string>): seq<Action> {
    [CombineStep(repo, lockfile, "unpacked", inputs, [lockfile]),
     Phony("unpacked-image-for-" + lockfile, [ImageRef(repo, lockfile, "unpacked")])]
  }

  /**
   * The combines that assemble the image: the data and info trees, the status and available
   * lists, then the unpacked image from the dpkg base, the infos, the status, the available
   * list and the data, in that order.
   */
  function CombinePlan(repo: string, lockfile: string, base: seq<string>, data: seq<string>, info: seq<string>,
                       status: seq<string>, available: seq<string>): seq<Action> {
    TreesPlan(repo, lockfile, data, info) + MetaPlan(repo, lockfile, status, available)
    + UnpackPlan(repo, lockfile, base + [ImageRef(repo, lockfile, "info_combined"), ImageRef(repo, lockfile, "status"),
                                         ImageRef(repo, lockfile, "available"), ImageRef(repo, lockfile, "data_combined")])
  }

  /** The ref file of the dpkg base of an architecture. */
  function BaseRef(repo: string, architecture: string): string {
    repo + Heads + DpkgBaseBranch(architecture)
  }

  /** `dpkg_base` for an architecture: the empty dpkg database. */
  function BaseStep(repo: string, architecture: string): Action {
    Make(DpkgBase, [BaseRef(repo, architecture)], [], [], map["architecture" := architecture])
  }

  /**
   * `image_from_lockfile`: the dpkg base of the architecture, the mirrors file, the packages
   * of the lockfile, then the combines of what they built.
   */
  function ImagePlan(repo: string, build: string, lockfile: string, architecture: string, debs: seq<Deb>): seq<Action> {
    [BaseStep(repo, architecture), Write(MirrorsFile)] + PackagesPlan(repo, build, debs)
    + CombinePlan(repo, lockfile, [BaseRef(repo, architecture)], ArtifactPaths(repo, build, debs, Data),
                  ArtifactPaths(repo, build, debs, Info), ArtifactPaths(repo, build, debs, Status),
                  ArtifactPaths(repo, build, debs, Available))
  }

  // What the plans make: their targets and their rules, stated independently of the steps.

  /** The rules declared once the combines have been built. */
  function CombineRules(rules: map<string, RuleDecl>): map<string, RuleDecl> {
    rules[OstreeCombine.name := OstreeCombine.Decl()][DebCombineMeta.name := DebCombineMeta.Decl()]
  }

  /** The rules declared once an image has been built. */
  function ImageRules(rules: map<string, RuleDecl>, debs: seq<Deb>): map<string, RuleDecl> {
    CombineRules(RulesAfterPackages(rules[DpkgBase.name := DpkgBase.Decl()], debs))
  }

  /** The five artifacts of one package. */
  function DebTargets(repo: string, build: string, d: Deb): set<string> {
    {ArtifactPath(repo, build, d, Data), ArtifactPath(repo, build, d, Control), ArtifactPath(repo, build, d, Status),
     ArtifactPath(repo, build, d, Available), ArtifactPath(repo, build, d, Info)}
  }

  /** Every artifact of every package. */
  function PackageTargets(repo: string, build: string, debs: seq<Deb>): set<string> {
    Elements(ArtifactPaths(repo, build, debs, Data)) + Elements(ArtifactPaths(repo, build, debs, Control))
    + Elements(ArtifactPaths(repo, build, debs, Status)) + Elements(ArtifactPaths(repo, build, debs, Available))
    + Elements(ArtifactPaths(repo, build, debs, Info))
  }

  /** The image's combined branches and its phony target. */
  function CombineTargets(repo: string, lockfile: string): set<string> {
    {ImageRef(repo, lockfile, "data_combined"), ImageRef(repo, lockfile, "info_combined"), ImageRef(repo, lockfile, "status"),
     ImageRef(repo, lockfile, "available"), ImageRef(repo, lockfile, "unpacked"), "unpacked-image-for-" + lockfile}
  }

  /** Everything `image_from_lockfile` makes a target of, besides the mirrors file. */
  function ImageTargets(repo: string, build: string, lockfile: string, architecture: string, debs: seq<Deb>): set<string> {
    {BaseRef(repo, architecture)} + PackageTargets(repo, build, debs) + CombineTargets(repo, lockfile)
  }

  /** A package makes its five artifacts targets and declares its two rules. */
  lemma PackageMakes(f: BuildFile, repo: string, build: string, d: Deb)
    ensures Perform(f, PackagePlan(repo, build, d)).targets == f.targets + DebTargets(repo, build, d)
    ensures Perform(f, PackagePlan(repo, build, d)).rules == PackageRules(f.rules)
  {
    var data, control := ArtifactPath(repo, build, d, Data), ArtifactPath(repo, build, d, Control);
    var status, available, info := ArtifactPath(repo, build, d, Status), ArtifactPath(repo, build, d, Available),
                                   ArtifactPath(repo, build, d, Info);
    PerformTwo(f, DownloadStep(repo, build, d), DescribeStep(repo, build, d));
    ElementsPair(data, control);
    ElementsTriple(status, available, info);
    Quintet(f.targets, data, control, status, available, info);
  }

  /** The packages make every artifact of every package a target, and declare the package rules once there is a package. */
  lemma {:induction false} PackagesMake(f: BuildFile, repo: string, build: string, debs: seq<Deb>)
    ensures Perform(f, PackagesPlan(repo, build, debs)).targets == f.targets + PackageTargets(repo, build, debs)
    ensures Perform(f, PackagesPlan(repo, build, debs)).rules == RulesAfterPackages(f.rules, debs)
    decreases |debs|
  {
    if |debs| > 0 {
      var front, d := debs[..|debs| - 1], debs[|debs| - 1];
      var g := Perform(f, PackagesPlan(repo, build, front));
      PackagesMake(f, repo, build, front);
      PerformConcat(f, PackagesPlan(repo, build, front), PackagePlan(repo, build, d));
      PackageMakes(g, repo, build, d);
      PackageTargetsLast(repo, build, debs);
      if |front| > 0 {
        PackageRulesTwice(f.rules);
      }
    }
  }

  lemma PackageTargetsLast(repo: string, build: string, debs: seq<Deb>)
    requires |debs| > 0
    ensures var front, d := debs[..|debs| - 1], debs[|debs| - 1];
      PackageTargets(repo, build, debs) == PackageTargets(repo, build, front) + DebTargets(repo, build, d)
  {
    var front, d := debs[..|debs| - 1], debs[|debs| - 1];
    ElementsSnoc(ArtifactPaths(repo, build, front, Data), ArtifactPath(repo, build, d, Data));
    ElementsSnoc(ArtifactPaths(repo, build, front, Control), ArtifactPath(repo, build, d, Control));
    ElementsSnoc(ArtifactPaths(repo, build, front, Status), ArtifactPath(repo, build, d, Status));
    ElementsSnoc(ArtifactPaths(repo, build, front, Available), ArtifactPath(repo, build, d, Available));
    ElementsSnoc(ArtifactPaths(repo, build, front, Info), ArtifactPath(repo, build, d, Info));
    Regroup(Elements(ArtifactPaths(repo, build, front, Data)), Elements(ArtifactPaths(repo, build, front, Control)),
            Elements(ArtifactPaths(repo, build, front, Status)), Elements(ArtifactPaths(repo, build, front, Available)),
            Elements(ArtifactPaths(repo, build, front, Info)),
            ArtifactPath(repo, build, d, Data), ArtifactPath(repo, build, d, Control), ArtifactPath(repo, build, d, Status),
            ArtifactPath(repo, build, d, Available), ArtifactPath(repo, build, d, Info));
  }

  lemma Regroup<T>(a: set<T>, b: set<T>, c: set<T>, d: set<T>, e: set<T>, x: T, y: T, z: T, u: T, v: T)
    ensures (a + {x}) + (b + {y}) + (c + {z}) + (d + {u}) + (e + {v}) == (a + b + c + d + e) + {x, y, z, u, v}
  {
  }

  lemma ElementsSnoc(xs: seq<string>, x: string)
    ensures Elements(xs + [x]) == Elements(xs) + {x}
  {
  }

  lemma ElementsOne(x: string)
    ensures Elements([x]) == {x}
  {
  }

  lemma ElementsPair(x: string, y: string)
    ensures Elements([x, y]) == {x, y}
  {
  }

  lemma ElementsTriple(x: string, y: string, z: string)
    ensures Elements([x, y, z]) == {x, y, z}
  {
  }

  lemma Quintet<T>(s: set<T>, a: T, b: T, c: T, d: T, e: T)
    ensures s + {a, b} + {c, d, e} == s + {a, b, c, d, e}
  {
  }

  /** The combines make the combined branches, the unpacked image and its phony name targets, and declare their two rules. */
  lemma CombineMakes(f: BuildFile, repo: string, lockfile: string, base: seq<string>, data: seq<string>, info: seq<string>,
                     status: seq<string>, available: seq<string>)
    ensures Perform(f, CombinePlan(repo, lockfile, base, data, info, status, available)).targets
         == f.targets + CombineTargets(repo, lockfile)
    ensures Perform(f, CombinePlan(repo, lockfile, base, data, info, status, available)).rules == CombineRules(f.rules)
  {
    var dc, ic := ImageRef(repo, lockfile, "data_combined"), ImageRef(repo, lockfile, "info_combined");
    var st, av, un := ImageRef(repo, lockfile, "status"), ImageRef(repo, lockfile, "available"), ImageRef(repo, lockfile, "unpacked");
    var t, m := TreesPlan(repo, lockfile, data, info), MetaPlan(repo, lockfile, status, available);
    var u := UnpackPlan(repo, lockfile, base + [ic, st, av, dc]);
    PerformConcat(f, t + m, u);
    PerformConcat(f, t, m);
    PerformTwo(f, t[0], t[1]);
    var f1 := Perform(f, t);
    PerformTwo(f1, m[0], m[1]);
    var f2 := Perform(f1, m);
    PerformTwo(f2, u[0], u[1]);
    ElementsOne(dc);
    ElementsOne(ic);
    ElementsOne(st);
    ElementsOne(av);
    ElementsOne(un);
    Sextet(f.targets, dc, ic, st, av, un, "unpacked-image-for-" + lockfile);
    assert OstreeCombine.name != DebCombineMeta.name;
  }

  lemma Sextet<T>(s: set<T>, a: T, b: T, c: T, d: T, e: T, f: T)
    ensures s + {a} + {b} + {c} + {d} + {e} + {f} == s + {a, b, c, d, e, f}
  {
  }

  /**
   * An image makes the dpkg base, every artifact of every package, the combined branches, the
   * unpacked image, its phony name and the mirrors file targets, and declares the image's rules.
   */
  lemma ImageMakes(f: BuildFile, repo: string, build: string, lockfile: string, architecture: string, debs: seq<Deb>)
    ensures Perform(f, ImagePlan(repo, build, lockfile, architecture, debs)).targets
         == f.targets + ImageTargets(repo, build, lockfile, architecture, debs) + {MirrorsFile}
    ensures Perform(f, ImagePlan(repo, build, lockfile, architecture, debs)).rules == ImageRules(f.rules, debs)
  {
    var h := [BaseStep(repo, architecture), Write(MirrorsFile)];
    var p := PackagesPlan(repo, build, debs);
    var data, info := ArtifactPaths(repo, build, debs, Data), ArtifactPaths(repo, build, debs, Info);
    var status, available := ArtifactPaths(repo, build, debs, Status), ArtifactPaths(repo, build, debs, Available);
    var c := CombinePlan(repo, lockfile, [BaseRef(repo, architecture)], data, info, status, available);
    PerformConcat(f, h + p, c);
    PerformConcat(f, h, p);
    PerformTwo(f, h[0], h[1]);
    ElementsOne(BaseRef(repo, architecture));
    var f1 := Perform(f, h);
    PackagesMake(f1, repo, build, debs);
    CombineMakes(Perform(f1, p), repo, lockfile, [BaseRef(repo, architecture)], data, info, status, available);
    TargetsRegroup(f.targets, {BaseRef(repo, architecture)}, {MirrorsFile}, PackageTargets(repo, build, debs),
                   CombineTargets(repo, lockfile));
  }

  lemma TargetsRegroup<T>(t: set<T>, base: set<T>, m: set<T>, p: set<T>, c: set<T>)
    ensures t + base + m + p + c == t + (base + p + c) + m
  {
  }

  /**
   * The build file after the packages `debs` are built from `f0`: their steps were run one
   * after the other, and the artifacts of each kind are collected in the order of the packages.
   */
  ghost predicate CollectedIn(repo: string, build: string, f0: BuildFile, debs: seq<Deb>, data: seq<string>,
                              info: seq<string>, status: seq<string>, available: seq<string>, f: BuildFile)
  {
    && data == ArtifactPaths(repo, build, debs, Data) && info == ArtifactPaths(repo, build, debs, Info)
    && status == ArtifactPaths(repo, build, debs, Status) && available == ArtifactPaths(repo, build, debs, Available)
    && f == Perform(f0, PackagesPlan(repo, build, debs))
  }

  /** Before any package is built, nothing is collected and the build file is as it was. */
  lemma CollectedNone(repo: string, build: string, f0: BuildFile)
    ensures CollectedIn(repo, build, f0, [], [], [], [], [], f0)
  {
  }

  /** Building one more package runs its steps after the others' and collects its artifacts last. */
  lemma CollectedNext(repo: string, build: string, f0: BuildFile, debs: seq<Deb>, d: Deb, data: seq<string>,
                      info: seq<string>, status: seq<string>, available: seq<string>, f: BuildFile)
    requires CollectedIn(repo, build, f0, debs, data, info, status, available, f)
    ensures CollectedIn(repo, build, f0, debs + [d],
                        data + [ArtifactPath(repo, build, d, Data)], info + [ArtifactPath(repo, build, d, Info)],
                        status + [ArtifactPath(repo, build, d, Status)],
                        available + [ArtifactPath(repo, build, d, Available)],
                        Perform(f, PackagePlan(repo, build, d)))
  {
    PackagesPlanSnoc(repo, build, debs, d);
    PerformConcat(f0, PackagesPlan(repo, build, debs), PackagePlan(repo, build, d));
    ArtifactsSnoc(repo, build, debs, d, Data);
    ArtifactsSnoc(repo, build, debs, d, Info);
    ArtifactsSnoc(repo, build, debs, d, Status);
    ArtifactsSnoc(repo, build, debs, d, Available);
  }

  /**
   * The dpkg base and the mirrors file, then the packages collected, then the combines of
   * what they collected, make up the image's plan.
   */
  lemma ImageRuns(repo: string, build: string, lockfile: string, architecture: string, debs: seq<Deb>,
                  data: seq<string>, info: seq<string>, status: seq<string>, available: seq<string>,
                  f0: BuildFile, f1: BuildFile, f2: BuildFile)
    requires CollectedIn(repo, build, Perform(f0, [BaseStep(repo, architecture), Write(MirrorsFile)]), debs,
                         data, info, status, available, f1)
    requires f2 == Perform(f1, CombinePlan(repo, lockfile, [BaseRef(repo, architecture)], data, info, status, available))
    ensures f2 == Perform(f0, ImagePlan(repo, build, lockfile, architecture, debs))
  {
    var h := [BaseStep(repo, architecture), Write(MirrorsFile)];
    var p := PackagesPlan(repo, build, debs);
    PerformConcat(f0, h + p, CombinePlan(repo, lockfile, [BaseRef(repo, architecture)], data, info, status, available));
    PerformConcat(f0, h, p);
  }

  /** `ostree_combine` of the caller's inputs into an image branch of the lockfile. */
  lemma CombineInto(globals: map<string, string>, lockfile: string, leaf: string, inputs: seq<string>)
    requires "ostree_repo" in globals
    ensures var args := map["branch" := ImageBranch(lockfile, leaf)];
      var outs := [ImageRef(globals["ostree_repo"], lockfile, leaf)];
      OstreeCombine.CheckArgs(globals.Keys, args.Keys) == Pass
      && OstreeCombine.BuildOutputs([], globals, args) == outs && "" !in outs
      && OstreeCombine.BuildInputs(inputs, globals, args) == inputs
  {
    var args := map["branch" := ImageBranch(lockfile, leaf)];
    assert |ImageRef(globals["ostree_repo"], lockfile, leaf)| >= |Heads|;
    CallerInputsFirst(OstreeCombine, inputs, globals, args);
    CombineBuilt(globals, ImageBranch(lockfile, leaf));
  }

  /** `deb_combine_meta` of the caller's inputs into the image's `status` or `available` branch. */
  lemma CombineMetaInto(globals: map<string, string>, lockfile: string, meta: string, inputs: seq<string>)
    requires "builddir" in globals && "ostree_repo" in globals
    ensures var args := CombineMetaArgs(Digest(lockfile), meta);
      var outs := [ImageRef(globals["ostree_repo"], lockfile, meta)];
      DebCombineMeta.CheckArgs(globals.Keys, args.Keys) == Pass
      && DebCombineMeta.BuildOutputs([], globals, args) == outs && "" !in outs
      && DebCombineMeta.BuildInputs(inputs, globals, args) == inputs
  {
    var args := CombineMetaArgs(Digest(lockfile), meta);
    assert |ImageRef(globals["ostree_repo"], lockfile, meta)| >= |Heads|;
    CallerInputsFirst(DebCombineMeta, inputs, globals, args);
    DebCombineMetaBuild(globals, lockfile, meta);
  }

  /** A key already bound to a value: binding it again changes nothing. */
  lemma Assoc<T>(a: seq<T>, b: seq<T>, c: seq<T>)
    ensures a + b + c == a + (b + c)
  {
  }

  lemma UpdateSame<K, V>(m: map<K, V>, k: K, v: V)
    requires k in m && m[k] == v
    ensures m[k := v] == m
  {
  }

  lemma Regroup4<T>(a: seq<T>, b: seq<T>, c: seq<T>, d: seq<T>)
    ensures a + b + c + d == a + (b + c + d)
  {
  }

  lemma Append4<T>(base: seq<T>, a: T, b: T, c: T, d: T)
    ensures base + [a] + [b] + [c] + [d] == base + [a, b, c, d]
  {
  }

  /** `ostree_combine` with a branch: its ref file is the one output, and it has no inputs of its own. */
  lemma CombineBuilt(globals: map<string, string>, branch: string)
    requires "ostree_repo" in globals
    ensures var args := map["branch" := branch];
      OstreeCombine.CheckArgs(globals.Keys, args.Keys) == Pass
      && OstreeCombine.BuildOutputs([], globals, args) == [globals["ostree_repo"] + Heads + branch]
      && OstreeCombine.BuildInputs([], globals, args) == []
  {
    var args := map["branch" := branch];
    assert args.Keys == {"branch"};
    CombineArguments(globals.Keys);
    CombineOutputPath(globals, branch);
  }

  /** The text of the mirrors file: one mirror per line. */
  function MirrorsText(mirrors: seq<string>): string {
    if |mirrors| == 0 then "" else MirrorsText(mirrors[..|mirrors| - 1]) + mirrors[|mirrors| - 1] + "\n"
  }

  /** The mirrors file, read back line by line, gives each mirror (with its newline), in order. */
  lemma MirrorsReadBack(mirrors: seq<string>)
    requires forall k :: 0 <= k < |mirrors| ==> '\n' !in mirrors[k]
    ensures Lines(MirrorsText(mirrors)) == seq(|mirrors|, k requires 0 <= k < |mirrors| => mirrors[k] + "\n")
  {
    var ls := seq(|mirrors|, k requires 0 <= k < |mirrors| => mirrors[k] + "\n");
    MirrorsConcat(mirrors);
    forall k | 0 <= k < |ls| ensures IsLine(ls[k]) && ls[k][|ls[k]| - 1] == '\n' {
      assert ls[k] == mirrors[k] + "\n";
    }
    LinesOfConcat(ls);
  }

  lemma {:induction false} MirrorsConcat(mirrors: seq<string>)
    ensures MirrorsText(mirrors) == Concat(seq(|mirrors|, k requires 0 <= k < |mirrors| => mirrors[k] + "\n"))
    decreases |mirrors|
  {
    if |mirrors| > 0 {
      var n := |mirrors| - 1;
      var ls := seq(|mirrors|, k requires 0 <= k < |mirrors| => mirrors[k] + "\n");
      var front := seq(n, k requires 0 <= k < n => mirrors[..n][k] + "\n");
      MirrorsConcat(mirrors[..n]);
      assert ls == front + [mirrors[n] + "\n"];
      ConcatSnoc(front, mirrors[n] + "\n");
    }
  }

  lemma {:induction false} ConcatSnoc(xs: seq<string>, x: string)
    ensures Concat(xs + [x]) == Concat(xs) + x
    decreases |xs|
  {
    if |xs| == 0 {
      assert xs + [x] == [x];
    } else {
      assert (xs + [x])[1..] == xs[1..] + [x];
      ConcatSnoc(xs[1..], x);
    }
  }

  // ---------------------------------------------------------------------------------------
  // build_image

  /** The ref file of the unpacked image. */
  function UnpackedRef(repo: string, lockfile: string): string {
    ImageRef(repo, lockfile, "unpacked")
  }

  lemma HeadsIn(repo: string, branch: string)
    ensures !NoOccurrence(repo + Heads + branch, Heads)
  {
    var f := repo + Heads + branch;
    assert f[|repo|..|repo| + |Heads|] == Heads;
    assert OccursAt(f, Heads, |repo|);
  }

  /** `.ref` of the unpacked image: its ref file always holds `/refs/heads/`. */
  function UnpackedBranch(repo: string, lockfile: string): string {
    HeadsIn(repo, ImageBranch(lockfile, "unpacked"));
    OstreeRef(UnpackedRef(repo, lockfile)).Ref().value
  }

  /** The ref file of the configured image. */
  function ConfiguredRef(repo: string, lockfile: string): string {
    repo + Heads + ConfiguredBranch(UnpackedBranch(repo, lockfile))
  }

  /**
   * What `build_image` adds after the unpacked image: `dpkg_configure` from the unpacked
   * branch into the configured one, and a phony target naming the configured image.
   */
  function ConfigurePlan(repo: string, lockfile: string): seq<Action> {
    var b := UnpackedBranch(repo, lockfile);
    [Make(DpkgConfigure, [ConfiguredRef(repo, lockfile)], [repo + Heads + b], [],
          map["in_branch" := b, "out_branch" := ConfiguredBranch(b)]),
     Phony("image-for-" + lockfile, [ConfiguredRef(repo, lockfile)])]
  }

  /** `build_image_unpacked`: the lockfile update, then the image from the lockfile. */
  function UnpackedPlan(repo: string, build: string, lockfile: string, packages: Option<seq<string>>,
                        architecture: Option<string>, distribution: Option<string>, archiveUrl: Option<string>,
                        debs: seq<Deb>): seq<Action> {
    [LockfileStep(lockfile, packages, architecture, distribution, archiveUrl)]
    + ImagePlan(repo, build, lockfile, Default(architecture, DefaultArchitecture), debs)
  }

  /** The unpacked image makes the lockfile update and everything the image makes targets. */
  lemma UnpackedMakes(f: BuildFile, repo: string, build: string, lockfile: string, packages: Option<seq<string>>,
                      architecture: Option<string>, distribution: Option<string>, archiveUrl: Option<string>, debs: seq<Deb>)
    ensures Perform(f, UnpackedPlan(repo, build, lockfile, packages, architecture, distribution, archiveUrl, debs)).targets
         == f.targets + {"update-lockfile-" + lockfile}
            + ImageTargets(repo, build, lockfile, Default(architecture, DefaultArchitecture), debs) + {MirrorsFile}
    ensures Perform(f, UnpackedPlan(repo, build, lockfile, packages, architecture, distribution, archiveUrl, debs)).rules
         == ImageRules(f.rules[UpdateLockfile.name := UpdateLockfile.Decl()], debs)
  {
    var l := LockfileStep(lockfile, packages, architecture, distribution, archiveUrl);
    var arch := Default(architecture, DefaultArchitecture);
    PerformConcat(f, [l], ImagePlan(repo, build, lockfile, arch, debs));
    PerformOne(f, l);
    ElementsOne("update-lockfile-" + lockfile);
    ImageMakes(Take(f, l), repo, build, lockfile, arch, debs);
  }

  /** Configuring makes the configured image and its phony name targets, and declares `dpkg_configure`. */
  lemma ConfigureMakes(f: BuildFile, repo: string, lockfile: string)
    ensures Perform(f, ConfigurePlan(repo, lockfile)).targets == f.targets + {ConfiguredRef(repo, lockfile), "image-for-" + lockfile}
    ensures Perform(f, ConfigurePlan(repo, lockfile)).rules == f.rules[DpkgConfigure.name := DpkgConfigure.Decl()]
  {
    var c := ConfigurePlan(repo, lockfile);
    PerformTwo(f, c[0], c[1]);
    ElementsOne(ConfiguredRef(repo, lockfile));
  }


  /**
   * Unless the repository path itself ends in a `/refs/heads` path, the unpacked image is
   * on branch `deb/images/<digest>/unpacked` and the configured one on `.../configured`.
   */
  lemma ImageBranches(repo: string, lockfile: string)
    requires NoOccurrence(repo + "/refs/heads", Heads)
    ensures UnpackedBranch(repo, lockfile) == ImageBranch(lockfile, "unpacked")
    ensures ConfiguredBranch(UnpackedBranch(repo, lockfile)) == ImageBranch(lockfile, "configured")
    ensures OstreeRef(repo + Heads + ImageBranch(lockfile, "configured")).Ref() == Ok(ImageBranch(lockfile, "configured"))
  {
    ImageBranchLacksHeads(lockfile, "unpacked");
    ImageBranchLacksHeads(lockfile, "configured");
    RefOfRefFile(repo, ImageBranch(lockfile, "unpacked"));
    RefOfRefFile(repo, ImageBranch(lockfile, "configured"));
    ConfiguredOfImage(lockfile);
  }

  // ---------------------------------------------------------------------------------------

  /**
   * `Apt`: writes apt's steps into a build file. The build file binds `ostree_repo` and
   * `apt_should_mirror`, and declares apt's rules, if at all, as apt declares them.
   */
  class Apt {
    const ninja: Ninja
    const debPoolMirrors: seq<string>
    /** The outputs of every lockfile update written so far. */
    var updateLockfileRules: set<string>

    ghost predicate Valid()
      reads ninja
    {
      && ninja.Valid()
      && "ostree_repo" in ninja.globalVars && "apt_should_mirror" in ninja.globalVars
      && RulesAgree(ninja.rules)
    }

    constructor (ninja: Ninja, debPoolMirrors: seq<string>)
      ensures this.ninja == ninja && this.debPoolMirrors == debPoolMirrors && updateLockfileRules == {}
    {
      this.ninja := ninja;
      this.debPoolMirrors := debPoolMirrors;
      updateLockfileRules := {};
    }

    /**
     * `Apt(ninja, deb_pool_mirrors, apt_should_mirror)`: binds `apt_should_mirror`, records
     * this module as a generator dependency and makes the repository's `config` and `objects`
     * targets. A conflicting `apt_should_mirror` fails first; a build file without
     * `ostree_repo` fails after the first two steps.
     */
    static method New(ninja: Ninja, debPoolMirrors: Option<seq<string>>, aptShouldMirror: bool, sourceFile: string)
      returns (r: Result<Apt>)
      requires ninja.Valid() && RulesAgree(ninja.rules)
      modifies ninja
      ensures ninja.Valid() && ninja.rules == old(ninja.rules) && ninja.closed == old(ninja.closed)
      ensures var conflict := "apt_should_mirror" in old(ninja.globalVars)
                              && old(ninja.globalVars)["apt_should_mirror"] != Flag(aptShouldMirror);
        && (r.Err? <==> conflict || "ostree_repo" !in old(ninja.globalVars))
        && (r.Err? ==> r.error == if conflict then VariableConflict("apt_should_mirror", Flag(aptShouldMirror))
                                  else MissingKey(Some("ostree_repo")))
        && (conflict ==> ninja.globalVars == old(ninja.globalVars) && ninja.log == old(ninja.log)
                         && ninja.generatorDeps == old(ninja.generatorDeps))
        && (!conflict ==> ninja.globalVars == old(ninja.globalVars)["apt_should_mirror" := Flag(aptShouldMirror)]
                          && ninja.generatorDeps == old(ninja.generatorDeps) + {GeneratorDepName(sourceFile)}
                          && ninja.log == old(ninja.log) + if "apt_should_mirror" in old(ninja.globalVars) then []
                                                             else [VariableLine("apt_should_mirror", Flag(aptShouldMirror), 0)])
      ensures r.Err? ==> ninja.targets == old(ninja.targets)
      ensures r.Ok? ==> var repo := ninja.globalVars["ostree_repo"];
        ninja.targets == old(ninja.targets) + {repo + "/config", repo + "/objects"}
      ensures r.Ok? ==> (fresh(r.value) && r.value.ninja == ninja && r.value.Valid()
        && r.value.debPoolMirrors == Default(debPoolMirrors, DebPoolMirrors) && r.value.updateLockfileRules == {})
    {
      var bound := ninja.Variable("apt_should_mirror", Flag(aptShouldMirror), 0);
      if bound.Fail? {
        return Err(bound.error);
      }
      ninja.AddGeneratorDep(sourceFile);
      if "ostree_repo" !in ninja.globalVars {
        return Err(MissingKey(Some("ostree_repo")));
      }
      var repo := ninja.globalVars["ostree_repo"];
      var config := ninja.AddTarget(repo + "/config");
      var objects := ninja.AddTarget(repo + "/objects");
      var apt := new Apt(ninja, Default(debPoolMirrors, DebPoolMirrors));
      r := Ok(apt);
    }


    /** The part of the build file that apt's steps change. */
    function State(): BuildFile
      reads ninja
    {
      BuildFile(ninja.rules, ninja.log, ninja.targets)
    }

    /**
     * Builds one of apt's rules through `Rule.build`, with no caller outputs: the caller gives
     * the outputs and inputs the rule expands to, and those are written and returned.
     */
    method Apply(rule: Rule, callerInputs: seq<string>, implicit: seq<string>, args: map<string, string>,
                 ghost outputs: seq<string>, ghost inputs: seq<string>) returns (built: seq<string>)
      requires Valid() && IsAptRule(rule)
      requires rule.CheckArgs(ninja.globalVars.Keys, args.Keys) == Pass
      requires rule.BuildOutputs([], ninja.globalVars, args) == outputs && "" !in outputs
      requires rule.BuildInputs(callerInputs, ninja.globalVars, args) == inputs
      modifies ninja
      ensures Valid() && built == outputs
      ensures ninja.globalVars == old(ninja.globalVars) && ninja.generatorDeps == old(ninja.generatorDeps)
      ensures ninja.closed == old(ninja.closed)
      ensures State() == Take(old(State()), Make(rule, outputs, inputs, implicit, args))
    {
      assert rule.BuildOutputs([], ninja.globalVars, args) == [] + outputs;
      assert rule.orderOnly + [] == rule.orderOnly;
      DeclareAgrees(ninja.rules, rule);
      AptRuleWellBuilt(rule);
      Regroup4(ninja.log, [BlankLine], rule.Declaration(ninja.rules),
               [BlankLine, BuildLine(outputs, rule.name, inputs, implicit, rule.orderOnly, args)]);
      var r := rule.Build(ninja, [], callerInputs, implicit, [], args);
      built := r.value;
    }

    /**
     * `generate_lockfile`: builds `update_lockfile` for the lockfile, with the packages sorted
     * into the filter and the defaults filled in, and remembers its output.
     */
    method GenerateLockfile(lockfile: string, packages: Option<seq<string>>, architecture: Option<string>,
                            distribution: Option<string>, archiveUrl: Option<string>) returns (r: string)
      requires Valid()
      modifies this, ninja
      ensures Valid() && r == lockfile
      ensures updateLockfileRules == old(updateLockfileRules) + {"update-lockfile-" + lockfile}
      ensures ninja.globalVars == old(ninja.globalVars) && ninja.generatorDeps == old(ninja.generatorDeps)
      ensures ninja.closed == old(ninja.closed)
      ensures State() == Take(old(State()), LockfileStep(lockfile, packages, architecture, distribution, archiveUrl))
    {
      var out := UpdateLockfileFor(lockfile, packages, architecture, distribution, archiveUrl);
      updateLockfileRules := updateLockfileRules + {out};
      r := lockfile;
    }

    /** The `update_lockfile` build of one lockfile, whose phony output is returned. */
    method UpdateLockfileFor(lockfile: string, packages: Option<seq<string>>, architecture: Option<string>,
                             distribution: Option<string>, archiveUrl: Option<string>) returns (out: string)
      requires Valid()
      modifies ninja
      ensures Valid() && out == "update-lockfile-" + lockfile
      ensures ninja.globalVars == old(ninja.globalVars) && ninja.generatorDeps == old(ninja.generatorDeps)
      ensures ninja.closed == old(ninja.closed)
      ensures State() == Take(old(State()), LockfileStep(lockfile, packages, architecture, distribution, archiveUrl))
    {
      var args := LockfileArgs(lockfile, packages, architecture, distribution, archiveUrl);
      LockfileBuilt(ninja.globalVars, lockfile, packages, architecture, distribution, archiveUrl);
      UpdateLockfileIsApt();
      var built := Apply(UpdateLockfile, [], [], args, ["update-lockfile-" + lockfile], [".FORCE"]);
      out := built[0];
    }

    /** `write_phony_rules`: a phony target that brings every lockfile up to date. */
    method WritePhonyRules()
      requires Valid()
      modifies ninja
      ensures Valid()
      ensures ninja.globalVars == old(ninja.globalVars) && ninja.generatorDeps == old(ninja.generatorDeps)
      ensures ninja.closed == old(ninja.closed)
      ensures exists inputs :: (Elements(inputs) == updateLockfileRules && Distinct(inputs)
        && State() == Take(old(State()), Phony("update-apt-lockfiles", inputs)))
    {
      var inputs := ListOf(updateLockfileRules);
      var built := ninja.Build(["update-apt-lockfiles"], "phony", inputs, [], [], map[]);
      ElementsOne("update-apt-lockfiles");
      assert State() == Take(old(State()), Phony("update-apt-lockfiles", inputs));
    }

    /** `download_deb` for one package: its `data` and `control` parts. */
    method DownloadPackage(d: Deb) returns (parts: seq<string>)
      requires Valid()
      modifies ninja
      ensures Valid()
      ensures ninja.globalVars == old(ninja.globalVars) && ninja.generatorDeps == old(ninja.generatorDeps)
      ensures ninja.closed == old(ninja.closed)
      ensures var repo, build := ninja.globalVars["ostree_repo"], ninja.globalVars["builddir"];
        && parts == [ArtifactPath(repo, build, d, Data), ArtifactPath(repo, build, d, Control)]
        && State() == Take(old(State()), DownloadStep(repo, build, d))
    {
      var repo, build := ninja.globalVars["ostree_repo"], ninja.globalVars["builddir"];
      DownloadDebOf(ninja.globalVars, d);
      DownloadDebIsApt();
      parts := Apply(DownloadDeb, [], [], DownloadDebArgs(d.sha256, d.filename, d.poolFilename, d.refBase),
                     [ArtifactPath(repo, build, d, Data), ArtifactPath(repo, build, d, Control)], []);
    }

    /** `make_dpkg_info` for one package: its status and available entries and its `info` ref. */
    method DescribePackage(d: Deb) returns (meta: seq<string>)
      requires Valid()
      modifies ninja
      ensures Valid()
      ensures ninja.globalVars == old(ninja.globalVars) && ninja.generatorDeps == old(ninja.generatorDeps)
      ensures ninja.closed == old(ninja.closed)
      ensures var repo, build := ninja.globalVars["ostree_repo"], ninja.globalVars["builddir"];
        && meta == [ArtifactPath(repo, build, d, Status), ArtifactPath(repo, build, d, Available), ArtifactPath(repo, build, d, Info)]
        && State() == Take(old(State()), DescribeStep(repo, build, d))
    {
      var repo, build := ninja.globalVars["ostree_repo"], ninja.globalVars["builddir"];
      MakeDpkgInfoOf(ninja.globalVars, d);
      MakeDpkgInfoIsApt();
      meta := Apply(MakeDpkgInfo, [], [], DpkgInfoArgs(d.sha256, d.name, d.refBase),
                    [ArtifactPath(repo, build, d, Status), ArtifactPath(repo, build, d, Available), ArtifactPath(repo, build, d, Info)],
                    [ArtifactPath(repo, build, d, Control)]);
    }

    /** One package of the lockfile: its download, then its dpkg metadata, which reads its control part. */
    method BuildPackage(d: Deb) returns (data: string, status: string, available: string, info: string)
      requires Valid()
      modifies ninja
      ensures Valid()
      ensures ninja.globalVars == old(ninja.globalVars) && ninja.generatorDeps == old(ninja.generatorDeps)
      ensures ninja.closed == old(ninja.closed)
      ensures var repo, build := ninja.globalVars["ostree_repo"], ninja.globalVars["builddir"];
        && data == ArtifactPath(repo, build, d, Data) && status == ArtifactPath(repo, build, d, Status)
        && available == ArtifactPath(repo, build, d, Available) && info == ArtifactPath(repo, build, d, Info)
        && State() == Perform(old(State()), PackagePlan(repo, build, d))
    {
      var repo, build := ninja.globalVars["ostree_repo"], ninja.globalVars["builddir"];
      var parts := DownloadPackage(d);
      var meta := DescribePackage(d);
      PerformTwo(old(State()), DownloadStep(repo, build, d), DescribeStep(repo, build, d));
      data, status, available, info := parts[0], meta[0], meta[1], meta[2];
    }

    /**
     * The record `records[n]` of the lockfile lacks a field, so reading stops there with that
     * error; the source has still written the package's download if the record names its pool
     * file, since it looks up `Package` last.
     */
    method StopAt(records: seq<Record>, n: nat, ghost debs: seq<Deb>) returns (r: Result<seq<Deb>>)
      requires Valid()
      requires n < |records| && DebsOf(records[..n]) == Ok(debs) && DebOf(records[n]).Err?
      modifies ninja
      ensures Valid() && r == DebsOf(records) && r == Err(DebOf(records[n]).error)
      ensures ninja.globalVars == old(ninja.globalVars) && ninja.generatorDeps == old(ninja.generatorDeps)
      ensures ninja.closed == old(ninja.closed)
      ensures State() == Perform(old(State()), PartialPlan(ninja.globalVars["ostree_repo"], ninja.globalVars["builddir"], records[n]))
    {
      FailsAt(records, n, debs);
      r := Err(DebOf(records[n]).error);
      var pkg := records[n];
      if "Filename" in pkg && "SHA256" in pkg {
        var filename := Unquote(pkg["Filename"]);
        var pool := PoolFilename(pkg["SHA256"], filename);
        ghost var f := State();
        var _ := DownloadPackage(Deb(pkg["SHA256"], filename, pool, RefBase(pool), ""));
        PerformOne(f, DownloadStep(ninja.globalVars["ostree_repo"], ninja.globalVars["builddir"], Deb(pkg["SHA256"], filename, pool, RefBase(pool), "")));
      }
    }

    /**
     * The loop of `image_from_lockfile` over the records of the lockfile: each package is built
     * in turn and its artifacts collected; a record that lacks a field stops it.
     */
    method BuildPackages(records: seq<Record>)
      returns (r: Result<seq<Deb>>, data: seq<string>, info: seq<string>, status: seq<string>, available: seq<string>)
      requires Valid()
      modifies ninja
      ensures Valid() && r == DebsOf(records)
      ensures ninja.globalVars == old(ninja.globalVars) && ninja.generatorDeps == old(ninja.generatorDeps)
      ensures ninja.closed == old(ninja.closed)
      ensures r.Ok? ==> Collected(old(State()), r.value, data, info, status, available)
      ensures State() == Perform(old(State()), RecordsPlan(ninja.globalVars["ostree_repo"], ninja.globalVars["builddir"], records))
    {
      ghost var repo, build, f0 := ninja.globalVars["ostree_repo"], ninja.globalVars["builddir"], State();
      var n, debs;
      n, debs, data, info, status, available := BuildListed(records);
      if n < |records| {
        ghost var f1 := State();
        r := StopAt(records, n, debs);
        PerformThen(f0, f1, State(), PackagesPlan(repo, build, debs), PartialPlan(repo, build, records[n]));
        RecordsPlanStops(repo, build, records, n, debs);
      } else {
        DebsOfAll(records, debs);
        RecordsPlanOk(repo, build, records, debs);
        r := Ok(debs);
      }
    }

    /**
     * Builds the packages of `records` in turn, up to the first record that lacks a field,
     * whose index is `n` (`|records|` when there is none).
     */
    method BuildListed(records: seq<Record>)
      returns (n: nat, debs: seq<Deb>, data: seq<string>, info: seq<string>, status: seq<string>,
               available: seq<string>)
      requires Valid()
      modifies ninja
      ensures Valid() && n <= |records| && DebsOf(records[..n]) == Ok(debs)
      ensures n < |records| ==> DebOf(records[n]).Err?
      ensures ninja.globalVars == old(ninja.globalVars) && ninja.generatorDeps == old(ninja.generatorDeps)
      ensures ninja.closed == old(ninja.closed)
      ensures Collected(old(State()), debs, data, info, status, available)
    {
      ghost var repo, build, f0 := ninja.globalVars["ostree_repo"], ninja.globalVars["builddir"], State();
      debs, data, info, status, available := [], [], [], [], [];
      n := 0;
      CollectedNone(repo, build, f0);
      while n < |records| && DebOf(records[n]).Ok?
        invariant 0 <= n <= |records| && Valid()
        invariant DebsOf(records[..n]) == Ok(debs)
        invariant ninja.globalVars == old(ninja.globalVars) && ninja.generatorDeps == old(ninja.generatorDeps)
        invariant ninja.closed == old(ninja.closed)
        invariant CollectedIn(repo, build, f0, debs, data, info, status, available, State())
      {
        var d := DebOf(records[n]).value;
        DebsOfNext(records, n, debs);
        ghost var f := State();
        var dt, st, av, inf := BuildPackage(d);
        CollectedNext(repo, build, f0, debs, d, data, info, status, available, f);
        data, info, status, available := data + [dt], info + [inf], status + [st], available + [av];
        debs := debs + [d];
        n := n + 1;
      }
    }

    /** What building the packages `debs` has done to the build file, which was `f0` before. */
    ghost predicate Collected(f0: BuildFile, debs: seq<Deb>, data: seq<string>, info: seq<string>,
                              status: seq<string>, available: seq<string>)
      reads ninja
      requires "ostree_repo" in ninja.globalVars && "builddir" in ninja.globalVars
    {
      CollectedIn(ninja.globalVars["ostree_repo"], ninja.globalVars["builddir"], f0, debs, data, info, status, available,
                  State())
    }

    /**
     * The end of `image_from_lockfile`: combines the data parts and the infos into branches,
     * merges the status and available lists, combines the unpacked image from the dpkg base,
     * the infos, the status, the available list and the data, and names it with a phony target.
     */
    method CombineImage(lockfile: string, base: seq<string>, data: seq<string>, info: seq<string>,
                        status: seq<string>, available: seq<string>) returns (image: string)
      requires Valid()
      modifies ninja
      ensures Valid()
      ensures ninja.globalVars == old(ninja.globalVars) && ninja.generatorDeps == old(ninja.generatorDeps)
      ensures ninja.closed == old(ninja.closed)
      ensures var repo := ninja.globalVars["ostree_repo"];
        && image == UnpackedRef(repo, lockfile)
        && State() == Perform(old(State()), CombinePlan(repo, lockfile, base, data, info, status, available))
    {
      var repo := ninja.globalVars["ostree_repo"];
      var dc, ic := ImageRef(repo, lockfile, "data_combined"), ImageRef(repo, lockfile, "info_combined");
      var st, av := ImageRef(repo, lockfile, "status"), ImageRef(repo, lockfile, "available");
      var t, m := TreesPlan(repo, lockfile, data, info), MetaPlan(repo, lockfile, status, available);
      var rootfs, infos := CombineTrees(lockfile, data, info);
      ghost var f1 := State();
      var dpkgStatus, dpkgAvailable := CombineMeta(lockfile, status, available);
      ghost var f2 := State();
      Append4(base, ic, st, av, dc);
      image := CombineUnpacked(lockfile, base + infos + dpkgStatus + dpkgAvailable + rootfs);
      PerformConcat(old(State()), t, m);
      PerformConcat(old(State()), t + m, UnpackPlan(repo, lockfile, base + [ic, st, av, dc]));
    }

    /** The data parts and the info parts of the packages, each combined into one branch. */
    method CombineTrees(lockfile: string, data: seq<string>, info: seq<string>) returns (rootfs: seq<string>, infos: seq<string>)
      requires Valid()
      modifies ninja
      ensures Valid()
      ensures ninja.globalVars == old(ninja.globalVars) && ninja.generatorDeps == old(ninja.generatorDeps)
      ensures ninja.closed == old(ninja.closed)
      ensures var repo := ninja.globalVars["ostree_repo"];
        && rootfs == [ImageRef(repo, lockfile, "data_combined")] && infos == [ImageRef(repo, lockfile, "info_combined")]
        && State() == Perform(old(State()), TreesPlan(repo, lockfile, data, info))
    {
      var repo := ninja.globalVars["ostree_repo"];
      var dc, ic := ImageRef(repo, lockfile, "data_combined"), ImageRef(repo, lockfile, "info_combined");
      OstreeCombineIsApt();
      CombineInto(ninja.globalVars, lockfile, "data_combined", data);
      rootfs := Apply(OstreeCombine, data, [], map["branch" := ImageBranch(lockfile, "data_combined")], [dc], data);
      CombineInto(ninja.globalVars, lockfile, "info_combined", info);
      infos := Apply(OstreeCombine, info, [], map["branch" := ImageBranch(lockfile, "info_combined")], [ic], info);
      PerformTwo(old(State()), CombineStep(repo, lockfile, "data_combined", data, []),
             CombineStep(repo, lockfile, "info_combined", info, []));
    }

    /** The status lists and the available lists of the packages, each merged into one. */
    method CombineMeta(lockfile: string, status: seq<string>, available: seq<string>)
      returns (dpkgStatus: seq<string>, dpkgAvailable: seq<string>)
      requires Valid()
      modifies ninja
      ensures Valid()
      ensures ninja.globalVars == old(ninja.globalVars) && ninja.generatorDeps == old(ninja.generatorDeps)
      ensures ninja.closed == old(ninja.closed)
      ensures var repo := ninja.globalVars["ostree_repo"];
        && dpkgStatus == [ImageRef(repo, lockfile, "status")] && dpkgAvailable == [ImageRef(repo, lockfile, "available")]
        && State() == Perform(old(State()), MetaPlan(repo, lockfile, status, available))
    {
      var repo := ninja.globalVars["ostree_repo"];
      var st, av := ImageRef(repo, lockfile, "status"), ImageRef(repo, lockfile, "available");
      DebCombineMetaIsApt();
      CombineMetaInto(ninja.globalVars, lockfile, "status", status);
      dpkgStatus := Apply(DebCombineMeta, status, [], CombineMetaArgs(Digest(lockfile), "status"), [st], status);
      CombineMetaInto(ninja.globalVars, lockfile, "available", available);
      dpkgAvailable := Apply(DebCombineMeta, available, [], CombineMetaArgs(Digest(lockfile), "available"), [av], available);
      PerformTwo(old(State()), MetaStep(repo, lockfile, "status", status), MetaStep(repo, lockfile, "available", available));
    }

    /** The unpacked image combined from `inputs`, and the phony target naming it. */
    method CombineUnpacked(lockfile: string, inputs: seq<string>) returns (image: string)
      requires Valid()
      modifies ninja
      ensures Valid()
      ensures ninja.globalVars == old(ninja.globalVars) && ninja.generatorDeps == old(ninja.generatorDeps)
      ensures ninja.closed == old(ninja.closed)
      ensures var repo := ninja.globalVars["ostree_repo"];
        && image == UnpackedRef(repo, lockfile)
        && State() == Perform(old(State()), UnpackPlan(repo, lockfile, inputs))
    {
      var repo := ninja.globalVars["ostree_repo"];
      var un := ImageRef(repo, lockfile, "unpacked");
      var phony := "unpacked-image-for-" + lockfile;
      OstreeCombineIsApt();
      CombineInto(ninja.globalVars, lockfile, "unpacked", inputs);
      var images := Apply(OstreeCombine, inputs, [lockfile], map["branch" := ImageBranch(lockfile, "unpacked")], [un], inputs);
      image := images[0];
      var _ := ninja.Build([phony], "phony", [image], [], [], map[]);
      ElementsOne(phony);
      PerformTwo(old(State()), CombineStep(repo, lockfile, "unpacked", inputs, [lockfile]), Phony(phony, [un]));
    }

    /** Writes the mirrors file, one mirror per line; the file becomes a target. */
    method WriteMirrors() returns (text: string)
      requires Valid()
      modifies ninja
      ensures Valid() && text == MirrorsText(debPoolMirrors)
      ensures ninja.globalVars == old(ninja.globalVars) && ninja.generatorDeps == old(ninja.generatorDeps)
      ensures ninja.closed == old(ninja.closed)
      ensures State() == Take(old(State()), Write(MirrorsFile))
    {
      var handle := ninja.Open(MirrorsFile, "w", Ok(""));
      text := "";
      var i := 0;
      while i < |debPoolMirrors|
        invariant 0 <= i <= |debPoolMirrors|
        invariant text == MirrorsText(debPoolMirrors[..i])
      {
        assert debPoolMirrors[..i + 1][..i] == debPoolMirrors[..i];
        text := text + debPoolMirrors[i] + "\n";
        i := i + 1;
      }
      assert debPoolMirrors[..i] == debPoolMirrors;
    }

    /** `dpkg_base` for an architecture: the ref of its empty dpkg database. */
    method BuildBase(architecture: string) returns (base: seq<string>)
      requires Valid()
      modifies ninja
      ensures Valid()
      ensures ninja.globalVars == old(ninja.globalVars) && ninja.generatorDeps == old(ninja.generatorDeps)
      ensures ninja.closed == old(ninja.closed)
      ensures var repo := ninja.globalVars["ostree_repo"];
        && base == [BaseRef(repo, architecture)]
        && State() == Take(old(State()), BaseStep(repo, architecture))
    {
      var repo := ninja.globalVars["ostree_repo"];
      DpkgBaseBuild(ninja.globalVars, architecture);
      DpkgBaseIsApt();
      assert |BaseRef(repo, architecture)| >= |Heads|;
      base := Apply(DpkgBase, [], [], map["architecture" := architecture], [BaseRef(repo, architecture)], []);
    }

    /**
     * Reads the lockfile, `attempt` being what opening it gives, and builds each of its
     * packages. A lockfile that does not exist yet has no packages; any other failure to open
     * it, a record that lacks a field and a malformed line are errors.
     */
    method ReadPackages(lockfile: string, attempt: Result<string>)
      returns (r: Result<seq<Deb>>, data: seq<string>, info: seq<string>, status: seq<string>, available: seq<string>)
      requires Valid()
      modifies ninja
      ensures Valid() && r == Listed(attempt)
      ensures ninja.globalVars == old(ninja.globalVars) && ninja.closed == old(ninja.closed)
      ensures ninja.generatorDeps == old(ninja.generatorDeps) + ReadDeps(lockfile, attempt)
      ensures r.Ok? ==> Collected(old(State()), r.value, data, info, status, available)
      ensures State() == Perform(old(State()), ReadPlan(ninja.globalVars["ostree_repo"], ninja.globalVars["builddir"], attempt))
    {
      assert 'w' !in "r" && 'r' in "r";
      ghost var f0 := State();
      var read := ninja.Open(lockfile, "r", attempt);
      assert ninja.targets == old(ninja.targets) + {};
      assert State() == f0;
      r, data, info, status, available := PackagesIn(read);
    }

    /** The packages of the lockfile as read, each built in turn. */
    method PackagesIn(read: Result<string>)
      returns (r: Result<seq<Deb>>, data: seq<string>, info: seq<string>, status: seq<string>, available: seq<string>)
      requires Valid()
      modifies ninja
      ensures Valid() && r == Listed(read)
      ensures ninja.globalVars == old(ninja.globalVars) && ninja.generatorDeps == old(ninja.generatorDeps)
      ensures ninja.closed == old(ninja.closed)
      ensures r.Ok? ==> Collected(old(State()), r.value, data, info, status, available)
      ensures State() == Perform(old(State()), ReadPlan(ninja.globalVars["ostree_repo"], ninja.globalVars["builddir"], read))
    {
      data, info, status, available := [], [], [], [];
      if read.Err? {
        ListedUnread(read.error);
        if read.error != IOError(ENOENT) {
          return Err(read.error), data, info, status, available;
        }
        CollectedNone(ninja.globalVars["ostree_repo"], ninja.globalVars["builddir"], State());
        return Ok([]), data, info, status, available;
      }
      var records, failure := ParsePackages(Lines(read.value));
      ListedRead(read.value, records, failure);
      r, data, info, status, available := BuildPackages(records);
      if r.Ok? && failure.Some? {
        r := Err(failure.value);
      }
    }

    /**
     * `image_from_lockfile`: the dpkg base of the architecture (`amd64` by default), the
     * mirrors file, two builds per package of the lockfile, and the combines that assemble
     * the unpacked image, whose ref is returned along with the text of the mirrors file.
     * `attempt` is what opening the lockfile gives; the build file is valid whatever happens.
     */
    method ImageFromLockfile(lockfile: string, architecture: Option<string>, attempt: Result<string>)
      returns (r: Result<OstreeRef>, mirrors: string)
      requires Valid()
      modifies ninja
      ensures Valid() && mirrors == MirrorsText(debPoolMirrors)
      ensures ninja.globalVars == old(ninja.globalVars) && ninja.closed == old(ninja.closed)
      ensures ninja.generatorDeps == old(ninja.generatorDeps) + ReadDeps(lockfile, attempt)
      ensures r.Err? <==> Listed(attempt).Err?
      ensures r.Err? ==> r.error == Listed(attempt).error
      ensures r.Ok? ==> var repo, build := ninja.globalVars["ostree_repo"], ninja.globalVars["builddir"];
        && r.value == OstreeRef(UnpackedRef(repo, lockfile))
        && State() == Perform(old(State()), ImagePlan(repo, build, lockfile, Default(architecture, DefaultArchitecture),
                                                  Listed(attempt).value))
      ensures r.Err? ==> State() == Perform(old(State()), FailedImagePlan(ninja.globalVars["ostree_repo"],
        ninja.globalVars["builddir"], Default(architecture, DefaultArchitecture), attempt))
    {
      var arch := Default(architecture, DefaultArchitecture);
      var repo, build := ninja.globalVars["ostree_repo"], ninja.globalVars["builddir"];
      var base := BuildBase(arch);
      mirrors := WriteMirrors();
      PerformTwo(old(State()), BaseStep(repo, arch), Write(MirrorsFile));
      ghost var f1 := State();
      var listed, data, info, status, available := ReadPackages(lockfile, attempt);
      if listed.Err? {
        PerformThen(old(State()), f1, State(), [BaseStep(repo, arch), Write(MirrorsFile)], ReadPlan(repo, build, attempt));
        return Err(listed.error), mirrors;
      }
      ghost var f2 := State();
      var image := CombineImage(lockfile, base, data, info, status, available);
      ImageRuns(repo, build, lockfile, arch, listed.value, data, info, status, available, old(State()), f2, State());
      r := Ok(OstreeRef(image));
    }

    /**
     * `build_image_unpacked`: the lockfile update, then the unpacked image from the lockfile,
     * `attempt` being what opening the lockfile gives at that point.
     */
    method BuildImageUnpacked(lockfile: string, packages: Option<seq<string>>, architecture: Option<string>,
                              distribution: Option<string>, archiveUrl: Option<string>, attempt: Result<string>)
      returns (r: Result<OstreeRef>, mirrors: string)
      requires Valid()
      modifies this, ninja
      ensures Valid() && mirrors == MirrorsText(debPoolMirrors)
      ensures updateLockfileRules == old(updateLockfileRules) + {"update-lockfile-" + lockfile}
      ensures ninja.globalVars == old(ninja.globalVars) && ninja.closed == old(ninja.closed)
      ensures ninja.generatorDeps == old(ninja.generatorDeps) + ReadDeps(lockfile, attempt)
      ensures r.Err? <==> Listed(attempt).Err?
      ensures r.Err? ==> r.error == Listed(attempt).error
      ensures r.Ok? ==> var repo, build := ninja.globalVars["ostree_repo"], ninja.globalVars["builddir"];
        && r.value == OstreeRef(UnpackedRef(repo, lockfile))
        && State() == Perform(old(State()), UnpackedPlan(repo, build, lockfile, packages, architecture, distribution,
                                                     archiveUrl, Listed(attempt).value))
      ensures r.Err? ==> State() == Perform(old(State()),
        [LockfileStep(lockfile, packages, architecture, distribution, archiveUrl)]
        + FailedImagePlan(ninja.globalVars["ostree_repo"], ninja.globalVars["builddir"],
                          Default(architecture, DefaultArchitecture), attempt))
    {
      var _ := GenerateLockfile(lockfile, packages, architecture, distribution, archiveUrl);
      ghost var f1 := State();
      r, mirrors := ImageFromLockfile(lockfile, architecture, attempt);
      var repo, build := ninja.globalVars["ostree_repo"], ninja.globalVars["builddir"];
      var l := LockfileStep(lockfile, packages, architecture, distribution, archiveUrl);
      PerformOne(old(State()), l);
      if r.Ok? {
        PerformConcat(old(State()), [l], ImagePlan(repo, build, lockfile, Default(architecture, DefaultArchitecture),
                                               Listed(attempt).value));
      } else {
        PerformThen(old(State()), f1, State(), [l],
                    FailedImagePlan(repo, build, Default(architecture, DefaultArchitecture), attempt));
      }
    }

    /**
     * `build_image`: the unpacked image, then `dpkg_configure` from its branch into the
     * configured branch, and a phony `image-for-<lockfile>` naming the configured image,
     * whose ref is returned.
     */
    method BuildImage(lockfile: string, packages: Option<seq<string>>, architecture: Option<string>,
                      distribution: Option<string>, archiveUrl: Option<string>, attempt: Result<string>)
      returns (r: Result<OstreeRef>, mirrors: string)
      requires Valid()
      modifies this, ninja
      ensures Valid() && mirrors == MirrorsText(debPoolMirrors)
      ensures updateLockfileRules == old(updateLockfileRules) + {"update-lockfile-" + lockfile}
      ensures ninja.globalVars == old(ninja.globalVars) && ninja.closed == old(ninja.closed)
      ensures ninja.generatorDeps == old(ninja.generatorDeps) + ReadDeps(lockfile, attempt)
      ensures r.Err? <==> Listed(attempt).Err?
      ensures r.Err? ==> r.error == Listed(attempt).error
      ensures r.Ok? ==> var repo, build := ninja.globalVars["ostree_repo"], ninja.globalVars["builddir"];
        && r.value == OstreeRef(ConfiguredRef(repo, lockfile))
        && State() == Perform(old(State()), UnpackedPlan(repo, build, lockfile, packages, architecture, distribution,
                                                     archiveUrl, Listed(attempt).value)
                                        + ConfigurePlan(repo, lockfile))
      ensures r.Err? ==> State() == Perform(old(State()),
        [LockfileStep(lockfile, packages, architecture, distribution, archiveUrl)]
        + FailedImagePlan(ninja.globalVars["ostree_repo"], ninja.globalVars["builddir"],
                          Default(architecture, DefaultArchitecture), attempt))
    {
      var unpacked;
      unpacked, mirrors := BuildImageUnpacked(lockfile, packages, architecture, distribution, archiveUrl, attempt);
      if unpacked.Ok? {
        var repo, build := ninja.globalVars["ostree_repo"], ninja.globalVars["builddir"];
        ghost var unpackedFile := State();
        var configured := ConfigureImage(lockfile, unpacked.value);
        PerformThen(old(State()), unpackedFile, State(),
                    UnpackedPlan(repo, build, lockfile, packages, architecture, distribution, archiveUrl,
                                 Listed(attempt).value),
                    ConfigurePlan(repo, lockfile));
        r := Ok(OstreeRef(configured));
      } else {
        r := Err(unpacked.error);
      }
    }

    /** `dpkg_configure` of the unpacked image into its configured branch, and the phony target naming it. */
    method ConfigureImage(lockfile: string, unpacked: OstreeRef) returns (configured: string)
      requires Valid() && unpacked == OstreeRef(UnpackedRef(ninja.globalVars["ostree_repo"], lockfile))
      modifies ninja
      ensures Valid()
      ensures ninja.globalVars == old(ninja.globalVars) && ninja.generatorDeps == old(ninja.generatorDeps)
      ensures ninja.closed == old(ninja.closed)
      ensures var repo := ninja.globalVars["ostree_repo"];
        && configured == ConfiguredRef(repo, lockfile)
        && State() == Perform(old(State()), ConfigurePlan(repo, lockfile))
    {
      var repo := ninja.globalVars["ostree_repo"];
      HeadsIn(repo, ImageBranch(lockfile, "unpacked"));
      var inBranch := unpacked.Ref().value;
      var outBranch := ConfiguredBranch(inBranch);
      var args := map["in_branch" := inBranch, "out_branch" := outBranch];
      var out, phony := repo + Heads + outBranch, "image-for-" + lockfile;
      DpkgConfigureBuild(ninja.globalVars, inBranch, outBranch);
      DpkgConfigureIsApt();
      assert |out| >= |Heads|;
      var built := Apply(DpkgConfigure, [], [], args, [out], [repo + Heads + inBranch]);
      configured := built[0];
      var _ := ninja.Build([phony], "phony", built, [], [], map[]);
      ElementsOne(phony);
      PerformTwo(old(State()), Make(DpkgConfigure, [out], [repo + Heads + inBranch], [], args), Phony(phony, [out]));
    }
  }
}
