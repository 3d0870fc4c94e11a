# apt2ostree build-file generator, modelled in Dafny

apt2ostree builds Debian and Ubuntu root file systems as ostree commits, without
running `apt` or `dpkg` on the host. Its configure step does not build anything
itself. It writes a `build.ninja` file, and `ninja` later runs the steps that file
names. This project models that configure step:

- **The Ninja writer** (`apt2ostree/ninja.py`). The `Ninja` class wraps
  `ninja_syntax.Writer`. It records every top-level variable and every rule it
  declares, every target it mentions and every file the generator depends on.
  It refuses to bind a variable twice with different values and to declare a
  rule twice with different arguments.
- **`vars_in` and `Rule`** (`apt2ostree/ninja.py`).
  - A rule's variables are the `$name` and `${name}` references in its command,
    inputs and outputs, outside `$$` escapes.
  - Without a description, a rule is described as `name(x=$x, ...)` over those
    variables.
  - `Rule.build` declares the rule and then checks the caller's arguments:
    missing variables first, then unexpected ones. It then writes one build
    statement whose outputs and inputs are expanded.
- **The apt steps** (`apt2ostree/apt.py`).
  - `parse_packages` reads an apt lockfile: a Packages file of `Label: value`
    paragraphs.
  - `generate_lockfile` writes the `update_lockfile` statement.
  - `image_from_lockfile` writes a download and a `make_dpkg_info` statement for
    every package of the lockfile, then combines them into an
    `deb/images/<digest>/unpacked` ref.
  - `build_image` also runs `dpkg --configure` in a `configured` ref.
- **Ostree refs** (`apt2ostree/ostree.py`). `OstreeRef` splits a ref file name
  at `/refs/heads/` into a repository and a branch. The module also defines the
  `ostree_combine` rule.

## Modules

- `Outcomes` holds `Option`, `Result`, `Outcome` and the errors the source raises:
  - `RuntimeError` for a conflicting variable or an empty target;
  - `TypeError` for missing or unexpected rule arguments;
  - `KeyError`, `IOError` with its errno, the `ValueError` of a failed unpacking, and `IndexError`.
- `Text` holds the Python string operations the source relies on: `strip`, `split`, `join`, `find`, `replace`, `basename`, `dirname`, `urllib.unquote`, and the lines of a file.
- `NinjaVars` holds `vars_in` and `ninja_syntax.expand`. It also holds template texts (`Part`), which render a text from literal pieces and variable references.
- `NinjaGen` holds the writer:
  - its statement log (`Stmt`);
  - the `Ninja` class, with fields `globalVars`, `targets`, `rules`, `generatorDeps`, `log` and `closed`.
  - The invariant `Valid()` says that `rules` and `globalVars` are exactly what the log declares, and that no name is declared twice.
- `NinjaRules` holds the `Rule` datatype, its constructor `MakeRule` and `Rule.Build`.
- `BuildPlans` holds an abstract build file: declared rules, log and targets.
  - A plan is a sequence of actions (`Make`, `Phony`, `Write`).
  - `Perform` is the build file a plan leaves behind.
  - The `Apt` methods are specified as performing a plan.
- `Ordering` holds the string order of Python 2, `sorted`, and the package filter of `generate_lockfile`.
- `Ostree` holds `OstreeRef` and the `ostree` and `ostree_combine` rules.
- `Packages` holds `parse_packages`, as it is written and as corrected (see Findings).
- `AptRules` holds the six rules of `apt.py`: their variables, and what building each writes.
- `AptNaming` holds the names `image_from_lockfile` computes: the pool file name, the ref base, the lockfile digest and the image branches.
- `AptImages` holds the `Apt` class and the plan of each of its steps.

The program's I/O becomes parameters or abstract values:
- the contents of the lockfile, or the `IOError` of opening it, is an argument (`attempt`);
- the writer's output is the statement log;
- `ninja_syntax.Writer`'s text formatting is not modelled: a statement is logged with its arguments.

## Model

| member | source | states |
|---|---|---|
| `Packages.SplitField` | apt2ostree/apt.py:381 | `line.split(': ', 1)` unpacked into two names: it fails with the unpacking error exactly when the line holds no `": "`; otherwise label, `": "` and data rebuild the line, and the label holds no `": "` |
| `Packages.ReadLine` | apt2ostree/apt.py:369-382 | one pass of the loop: the record it yields (if the line is blank), the new record and label, or the exception, agree with the reading of that line |
| `Packages.ParsePackages` | apt2ostree/apt.py:365-382 | the records the loop collects, and the exception that stops it, are those of the whole-file reading `Parse` |
| `Packages.ParseAsWritten` | apt2ostree/apt.py:365-382 | the parser as written reads a file exactly as the corrected one does when no line is `" ."` once its line ending is dropped |
| `Packages.ReadingsAgree` | apt2ostree/apt.py:369-382 | from any state, the loop as written and the corrected loop read lines none of which is a `" ."` marker identically |
| `Packages.StepBlank` | apt2ostree/apt.py:370-375 | a blank line yields the current record if it is not empty, and starts a new record with no label |
| `Packages.StepAssign` | apt2ostree/apt.py:380-382 | a `Label: data` line sets that label to the stripped data and makes it the current label |
| `Packages.StepRaise` | apt2ostree/apt.py:380-381 | a non-continuation line without `": "` stops the reading with the unpacking error |
| `Packages.StepExtend` | apt2ostree/apt.py:376-379 | a continuation line appends a newline and its stripped text to the current label; a `" ."` line appends an empty line |
| `Packages.RunConcat` | apt2ostree/apt.py:369-382 | reading `a + b` is reading `a` and then going on with `b` from where `a` left off |
| `Packages.ParseSerialize` | apt2ostree/apt.py:365-382 | round trip: paragraphs of well-formed fields, written as field lines, continuation lines (`" ."` for an empty one) and a blank line after each paragraph, read back as exactly their records, with no error |
| `Packages.ParsedRecordsNonEmpty` | apt2ostree/apt.py:371-372 | no record the parser yields is empty, whether the marker is compared as written or as corrected |
| `Packages.TrailingParagraphDropped` | apt2ostree/apt.py:369-375 | lines after the last blank line add no record: a final paragraph with no blank line after it is never yielded |
| `Packages.LeadingContinuation` | apt2ostree/apt.py:378-379 | a continuation line before any field stops the reading with `KeyError(None)` and no records |
| `Packages.ParseOnlyUnlabelledKeyError` | apt2ostree/apt.py:376-382 | the only `KeyError` the parser can raise is the one on the `None` label, since a set label is always in the record; any other error is the unpacking error |
| `Packages.AsWrittenLosesEmptyLine` | apt2ostree/apt.py:376 | as written, a field whose one continuation line is `" ."` reads as its value followed by `"\n."`, where the corrected reading gives `"\n\n"` |
| `Packages.CorrectedReadsEmptyLine` | apt2ostree/apt.py:376-377 | with the marker compared without its line ending, the `" ."` line becomes the empty line `"\n\n"` the source means |
| `Ordering.LeTotal` | apt2ostree/apt.py:289 | Python 2 string comparison relates any two strings |
| `Ordering.LeAntisymmetric` | apt2ostree/apt.py:289 | two strings that are each at most the other are equal |
| `Ordering.LeTransitive` | apt2ostree/apt.py:289 | the string order is transitive |
| `Ordering.Insert` | apt2ostree/apt.py:289 | inserting into a sorted list keeps it sorted and adds exactly that element |
| `Ordering.Sort` | apt2ostree/apt.py:289 | `sorted(packages)` is sorted and a permutation of the packages |
| `Ordering.SortedUnique` | apt2ostree/apt.py:289 | two sorted permutations of the same elements are equal |
| `Ordering.SortIgnoresOrder` | apt2ostree/apt.py:289 | sorting any reordering of the packages gives the same list |
| `Ordering.FilterIgnoresOrder` | apt2ostree/apt.py:289-293 | the `packages` filter of the lockfile does not depend on the order the caller gives the packages in |
| `Ordering.FilterConcat` | apt2ostree/apt.py:293 | the filter of two lists is the filter of the first followed by the filter of the second |
| `NinjaVars.VarsIn` | apt2ostree/ninja.py:132-142 | the loop over the texts and their `$$`-separated pieces collects exactly `VarsOf(items)`; `None` gives the empty set |
| `NinjaVars.VarsOfReferences` | apt2ostree/ninja.py:132-142 | a name is a variable of the items exactly when some piece of some text, split at `$$`, holds a `$name` or `${name}` reference whose word run is exactly `name` |
| `NinjaVars.FindDollarFindsReferences` | apt2ostree/ninja.py:140 | `re.findall(r"\$(\w+)")` finds a name exactly when the text holds `$` followed by that maximal word run |
| `NinjaVars.FindBracedFindsReferences` | apt2ostree/ninja.py:141 | `re.findall(r"\${(\w+)}")` finds a name exactly when the text holds `${name}` |
| `NinjaVars.PiecesVariables` | apt2ostree/ninja.py:139-141 | the names found in a list of pieces are exactly the references some piece holds |
| `NinjaVars.EscapeSeparatesPieces` | apt2ostree/ninja.py:139 | a `$$` escape after plain text contributes no variable: only the text after it counts |
| `NinjaVars.EscapedPrefix` | apt2ostree/ninja.py:139 | a leading `$$` neither hides nor adds a variable: `$$text` has the variables of `text` |
| `NinjaVars.EscapedNameIsNotAVariable` | apt2ostree/ninja.py:139 | `$$name` on its own has no variables |
| `NinjaVars.TemplateVars` | apt2ostree/ninja.py:160 | the variables found in a rendered template are exactly the references it was built from, in order |
| `NinjaVars.Expand` | apt2ostree/ninja.py:188-196 | a text without `$$`, expanded with arguments and globals whose values hold no `$`, keeps no `$`: every reference is replaced |
| `NinjaVars.ExpandAll` | apt2ostree/ninja.py:188-196 | each text is expanded on its own and the list keeps its length and order |
| `NinjaVars.ExpandTemplate` | apt2ostree/ninja.py:188-196 | expanding a rendered template replaces each reference by the caller's argument, else the global variable, else the empty string |
| `NinjaRules.MakeRule` | apt2ostree/ninja.py:145-165 | the rule keeps its arguments; its `vars` are those of the command, inputs and outputs; without a description it is described as `name(...)` over each variable once, and that description references exactly the rule's variables |
| `NinjaRules.VarListIsVars` | apt2ostree/ninja.py:160-164 | the list the default description is written over holds each variable of the rule exactly once, and only variables |
| `NinjaRules.DefaultDescriptionVars` | apt2ostree/ninja.py:162-164 | the default description references exactly the rule's variables |
| `NinjaRules.DescriptionNames` | apt2ostree/ninja.py:163-164 | `name(x=$x, ...)` references each listed variable once, in list order |
| `NinjaRules.Dedup` | apt2ostree/ninja.py:160-164 | the variables of a rule as a list: the same elements as the names found, each once |
| `NinjaRules.ArgCheck` | apt2ostree/ninja.py:180-187 | a failed check names the rule and a non-empty set of names: the missing ones are exactly the variables neither supplied, global nor automatic; unexpected ones are reported only when none is missing, and are exactly the supplied names that are not variables |
| `NinjaRules.ArgCheckPass` | apt2ostree/ninja.py:180-187 | the arguments pass exactly when every supplied argument is a variable of the rule and every variable is supplied, global or automatic (`in`, `out`) |
| `NinjaRules.ArgCheckMissing` | apt2ostree/ninja.py:181-184 | `Missing arguments` is raised exactly when some variable is neither supplied, global nor automatic |
| `NinjaRules.Rule.Build` | apt2ostree/ninja.py:167-202 | after a blank line, the rule is declared, or `RuleMismatch` if it was declared differently; a failed argument check raises with nothing built; otherwise one build statement is written, whose outputs and inputs are the caller's followed by the rule's own expanded, with the rule's order-only entries first; it fails only on an empty output, after the declaration, with the outputs before that one recorded as targets |
| `NinjaRules.ExpandTemplates` | apt2ostree/ninja.py:188-196 | expanding a rule's rendered outputs or inputs substitutes its arguments into the templates |
| `NinjaRules.TemplateRuleIsRule` | apt2ostree/ninja.py:145-165 | a rule written as templates is the rule the constructor makes from the rendered texts |
| `NinjaRules.TemplateRuleWellBuilt` | apt2ostree/ninja.py:160 | a rule written as templates records exactly the variables its texts reference |
| `NinjaGen.Ninja.constructor` | apt2ostree/ninja.py:17-52 | `builddir` is bound, `.FORCE` is phony, the `configure` rule is declared, the reconfigure script and ninja's own files are targets, and the generator's modules are its dependencies |
| `NinjaGen.Ninja.Newline` | apt2ostree/ninja.py:177 | a blank line is written and nothing else changes |
| `NinjaGen.Ninja.Variable` | apt2ostree/ninja.py:69-78 | a top-level variable is bound once: rebinding it to another value fails and changes nothing, rebinding it to the same value writes nothing; an indented variable is only written |
| `NinjaGen.Ninja.DefineRule` | apt2ostree/ninja.py:85-90 | a rule is declared and written once; declaring it again with the same arguments writes nothing, and with other arguments fails with nothing changed |
| `NinjaGen.Ninja.Build` | apt2ostree/ninja.py:80-83 | every output becomes a target and one build statement is written; an empty output fails, after the outputs before it became targets, with nothing written |
| `NinjaGen.Ninja.AddTarget` | apt2ostree/ninja.py:118-121 | a non-empty name becomes a target; an empty one fails with nothing changed |
| `NinjaGen.Ninja.AddGeneratorDep` | apt2ostree/ninja.py:114-116 | the file becomes a generator dependency, with `.pyc` read as `.py` |
| `NinjaGen.Ninja.Open` | apt2ostree/ninja.py:92-112 | opening for writing makes the file a target; opening for reading makes the file a dependency, or its directory when it does not exist; the open's own result or error is passed on |
| `NinjaGen.Ninja.Close` | apt2ostree/ninja.py:54-58 | the first close writes `build.ninja`'s own `configure` statement over every generator dependency once; later closes change nothing |
| `NinjaGen.ListOf` | apt2ostree/ninja.py:56 | `list` of a set holds each element exactly once |
| `NinjaGen.CompiledModuleDep` | apt2ostree/ninja.py:116 | a compiled module `x.pyc` is recorded as its source `x.py` |
| `NinjaGen.PlainDep` | apt2ostree/ninja.py:116 | a name without `.pyc` is recorded unchanged |
| `NinjaGen.WatchedDir` | apt2ostree/ninja.py:107 | the directory watched for a missing file is never empty and is a prefix of a path with a slash |
| `NinjaGen.NamesAreKeys` | apt2ostree/ninja.py:69-90 | the rules and globals the log declares are exactly the names it declares them under |
| `NinjaGen.OutputsConcat` | apt2ostree/ninja.py:80-83 | the outputs of two logs together are the outputs of each |
| `BuildPlans.PerformConcat` | apt2ostree/ninja.py:80-90 | performing two plans one after the other is performing their concatenation |
| `BuildPlans.PerformAppends` | apt2ostree/ninja.py:80-90 | a plan only appends to the log and adds targets, and what it adds depends only on the rules declared before it |
| `BuildPlans.TargetsAreOutputs` | apt2ostree/ninja.py:80-94 | the targets a plan adds are the outputs of the statements it writes and the files it opens for writing |
| `BuildPlans.OutputsEmitted` | apt2ostree/ninja.py:80-83 | building a rule adds exactly its outputs to the outputs of the log |
| `Ostree.OstreeRef.Ref` | apt2ostree/ostree.py:8-9 | there is a branch exactly when the name contains `/refs/heads/`; without one, the lookup fails as the source's `IndexError` does; the branch itself contains no `/refs/heads/` |
| `Ostree.OstreeRef.Repo` | apt2ostree/ostree.py:12-13 | the repository is the prefix before the first `/refs/heads/`, or the whole name when there is none |
| `Ostree.RepoAndRefRebuild` | apt2ostree/ostree.py:6-13 | for a name with one `/refs/heads/`, repository, `/refs/heads/` and branch give the name back |
| `Ostree.RefBetweenOccurrences` | apt2ostree/ostree.py:6-13 | repository and branch are the pieces before and after the first `/refs/heads/` |
| `Ostree.NoRefWithoutHeads` | apt2ostree/ostree.py:6-13 | without `/refs/heads/` there is no branch and the repository is the whole name |
| `Ostree.RefOfRefFile` | apt2ostree/ostree.py:6-13 | the ref file `repo/refs/heads/branch` gives back exactly `repo` and `branch` |
| `Ostree.OstreeInitVars` | apt2ostree/ostree.py:16-19 | the `ostree` rule needs only `ostree_repo` |
| `Ostree.OstreeCombineVars` | apt2ostree/ostree.py:22-30 | `ostree_combine` reads `in`, `ostree_repo` and `branch`, and waits for the repository's config |
| `Ostree.CombineArguments` | apt2ostree/ostree.py:22-30 | building `ostree_combine` with a `branch` passes the argument check exactly when `ostree_repo` is global |
| `Ostree.CombineOutputPath` | apt2ostree/ostree.py:28 | its output is `$ostree_repo/refs/heads/<branch>` |
| `Ostree.CombineOutputIsBranch` | apt2ostree/ostree.py:28 | `OstreeRef` of that output gives back the branch |
| `Ostree.OstreeCombineWellBuilt` | apt2ostree/ostree.py:22-30 | the rule records exactly the variables its texts reference |
| `AptNaming.PoolFilename` | apt2ostree/apt.py:317-319 | the aptly pool name ends in `_` and the file's basename, and is three characters longer than the hash and the basename |
| `AptNaming.PoolFilenameLayout` | apt2ostree/apt.py:317-319 | the pool name is `ab/cd/rest_basename` for the hash `abcd...` |
| `AptNaming.PoolFilenameDigest` | apt2ostree/apt.py:317-319 | the hash can be read back from the pool name |
| `AptNaming.PoolFilenameInjective` | apt2ostree/apt.py:317-319 | two packages with the same pool name and hash length have the same hash and basename |
| `AptNaming.RefBase` | apt2ostree/apt.py:320 | the ref base is `deb/pool/` and the pool name with every `+` and `~` made `_`, character by character |
| `AptNaming.Digest` | apt2ostree/apt.py:338 | the digest is the lockfile name with every `/` made `_`, and has no `/` |
| `AptNaming.DigestPlain` | apt2ostree/apt.py:338 | a lockfile name without `/` is its own digest |
| `AptNaming.DigestMerges` | apt2ostree/apt.py:338 | `a/b` and `a_b` have the same digest |
| `AptNaming.ImageSlashes` | apt2ostree/apt.py:340-359 | the only slashes in an image branch are its four separators |
| `AptNaming.ImageBranchLacksHeads` | apt2ostree/apt.py:340-362 | an image branch never contains `/refs/heads/`, so its ref file splits back into repository and branch |
| `AptNaming.ConfiguredBranch` | apt2ostree/apt.py:273 | the corrected rename: a branch ending in `unpacked` ends in `configured` instead, with the rest unchanged |
| `AptNaming.ConfiguredBranchInjective` | apt2ostree/apt.py:273 | two different unpacked branches get two different configured branches |
| `AptNaming.ConfiguredBranchAsWritten` | apt2ostree/apt.py:273 | the replace-all rename leaves a ref without `unpacked` unchanged, and agrees with the corrected rename when the only `unpacked` is the trailing one |
| `AptNaming.ConfiguredOfImage` | apt2ostree/apt.py:273 | the configured branch of an image is `deb/images/<digest>/configured` |
| `AptNaming.AsWrittenConfiguredCollides` | apt2ostree/apt.py:273 | as written, the lockfiles `unpacked<m>` and `configured<m>` get different unpacked branches but the same configured branch |
| `AptRules.UpdateLockfileVars` | apt2ostree/apt.py:22-37 | `update_lockfile` reads `packages`, `architecture`, `archive_url`, `distribution`, `lockfile` and `out` |
| `AptRules.UpdateLockfileBuild` | apt2ostree/apt.py:22-37 | building it for a lockfile passes the argument check, writes the output `update-lockfile-<lockfile>` and reads `.FORCE` |
| `AptRules.UpdateLockfileWellBuilt` | apt2ostree/apt.py:22-37 | the rule records exactly the variables its texts reference |
| `AptRules.DpkgBaseVars` | apt2ostree/apt.py:39-78 | `dpkg_base` reads `architecture` and `ostree_repo` |
| `AptRules.DpkgBaseBuild` | apt2ostree/apt.py:39-78 | building it for an architecture passes the check and writes the `deb/dpkg-base/<architecture>` ref |
| `AptRules.DpkgBaseWellBuilt` | apt2ostree/apt.py:39-78 | the rule records exactly the variables its texts reference |
| `AptRules.DownloadDebVars` | apt2ostree/apt.py:84-130 | `download_deb` takes `sha256sum`, `filename`, `aptly_pool_filename` and `ref_base` |
| `AptRules.DownloadDebBuild` | apt2ostree/apt.py:84-130 | building it writes the `<ref_base>/data` and `<ref_base>/control` refs and reads nothing |
| `AptRules.DownloadDebArguments` | apt2ostree/apt.py:321-323 | the four arguments of the loop pass the check once `builddir`, `ostree_repo` and `apt_should_mirror` are global |
| `AptRules.DownloadDebWellBuilt` | apt2ostree/apt.py:84-130 | the rule records exactly the variables its texts reference |
| `AptRules.MakeDpkgInfoVars` | apt2ostree/apt.py:132-179 | `make_dpkg_info` reads `sha256sum`, `pkgname`, `ref_base`, `builddir` and `ostree_repo` |
| `AptRules.MakeDpkgInfoBuild` | apt2ostree/apt.py:132-179 | building it writes the package's status and available entries and its `info` ref, and reads its `control` ref |
| `AptRules.MakeDpkgInfoArguments` | apt2ostree/apt.py:325-327 | the three arguments of the loop pass the check once `builddir` and `ostree_repo` are global |
| `AptRules.MakeDpkgInfoWellBuilt` | apt2ostree/apt.py:132-179 | the rule records exactly the variables its texts reference |
| `AptRules.DebCombineMetaVars` | apt2ostree/apt.py:181-194 | `deb_combine_meta` reads `pkgs_digest`, `meta`, `builddir`, `in` and `ostree_repo` |
| `AptRules.DebCombineMetaBuild` | apt2ostree/apt.py:181-194 | building it writes the `deb/images/<digest>/<meta>` ref |
| `AptRules.DebCombineMetaWellBuilt` | apt2ostree/apt.py:181-194 | the rule records exactly the variables its texts reference |
| `AptRules.DpkgConfigureVars` | apt2ostree/apt.py:200-235 | `dpkg_configure` reads `in_branch`, `out_branch`, `builddir` and `ostree_repo` |
| `AptRules.DpkgConfigureBuild` | apt2ostree/apt.py:200-235 | building it reads the `in_branch` ref and writes the `out_branch` ref |
| `AptRules.DpkgConfigureWellBuilt` | apt2ostree/apt.py:200-235 | the rule records exactly the variables its texts reference |
| `AptImages.DeclareAgrees` | apt2ostree/ninja.py:85-90 | declaring one of apt's rules over rules that agree with apt's never fails, and they keep agreeing |
| `AptImages.AptRuleWellBuilt` | apt2ostree/ninja.py:160 | each of apt's rules records exactly the variables its texts reference |
| `AptImages.CallerInputsFirst` | apt2ostree/ninja.py:191-196 | the inputs of a build are the caller's, then the rule's own |
| `AptImages.LockfileBuilt` | apt2ostree/apt.py:289-295 | the lockfile update, with the defaults filled in, passes the check and is named `update-lockfile-<lockfile>` |
| `AptImages.LockfileIgnoresPackageOrder` | apt2ostree/apt.py:289-295 | the lockfile update for a reordering of the packages is the same statement |
| `AptImages.DebOfFields` | apt2ostree/apt.py:316-327 | a record gives a package exactly when it has `Filename`, `SHA256` and `Package`, and the package carries their values (the file name unquoted); otherwise the `KeyError` names an absent field, and the fields looked up before it (in the order `Filename`, `SHA256`, `Package`) are present |
| `AptImages.DebsOfEach` | apt2ostree/apt.py:315-330 | records that all have their fields give one package per record, in order |
| `AptImages.DebsOfError` | apt2ostree/apt.py:316-327 | the loop's only error is a `KeyError` on `Filename`, `SHA256` or `Package` |
| `AptImages.DebsOfNext` | apt2ostree/apt.py:315-330 | a record with all the fields the loop looks up adds one package after the ones before it |
| `AptImages.FailsAt` | apt2ostree/apt.py:316-326 | the first record that lacks a field stops the loop with that record's `KeyError` |
| `AptImages.DebsOfStops` | apt2ostree/apt.py:315-330 | once a record lacks a field, the records after it change nothing |
| `AptImages.Listed` | apt2ostree/apt.py:313-336 | a lockfile that could not be opened gives no packages when it does not exist and its error otherwise; one that was read gives one package per record parsed, or fails with a `KeyError` on a field or on the `None` label, or with the unpacking error |
| `AptImages.ListedUnread` | apt2ostree/apt.py:331-336 | a lockfile that does not exist has no packages; any other `IOError` is raised |
| `AptImages.ListedRead` | apt2ostree/apt.py:313-330 | a lockfile that was read gives its packages, or the first missing field, or the parser's error, in that order |
| `AptImages.ReadDeps` | apt2ostree/ninja.py:95-110 | reading the lockfile adds at most one generator dependency, the lockfile or its directory; none exactly when opening fails other than for a missing file |
| `AptImages.ArtifactPathsAt` | apt2ostree/apt.py:324-330 | the `k`th entry of each collected list is the artifact of the `k`th package |
| `AptImages.DownloadDebOf` | apt2ostree/apt.py:321-323 | a package's download passes the check and writes its data and control refs |
| `AptImages.MakeDpkgInfoOf` | apt2ostree/apt.py:325-327 | a package's metadata step passes the check, writes its status, available and info, and reads its control ref |
| `AptImages.PackagesPlanConcat` | apt2ostree/apt.py:315-330 | the packages of two lists are built as those of the first, then those of the second |
| `AptImages.PackagesInOrder` | apt2ostree/apt.py:315-330 | the `k`th package's download and metadata come right after those of the packages before it |
| `AptImages.RecordsPlanFrom` | apt2ostree/apt.py:315-330 | after records that all have their fields, the loop's steps are their packages' steps followed by those of the remaining records |
| `AptImages.RecordsPlanOk` | apt2ostree/apt.py:315-330 | records that all have their fields are built as their packages |
| `AptImages.RecordsPlanStops` | apt2ostree/apt.py:315-327 | a record that lacks a field ends the loop: the packages before it, then its download if it names its hash and file, and nothing after |
| `AptImages.ReadPlanListed` | apt2ostree/apt.py:313-336 | when the lockfile's packages can be listed, the steps its reading writes are those of its packages |
| `AptImages.PackageMakes` | apt2ostree/apt.py:321-327 | one package adds its five artifacts as targets and declares the two package rules |
| `AptImages.PackagesMake` | apt2ostree/apt.py:315-330 | the loop adds every package's artifacts as targets, and declares the package rules when there is a package |
| `AptImages.CombineMakes` | apt2ostree/apt.py:340-361 | the combining steps add the image's refs and the `unpacked-image-for-<lockfile>` target |
| `AptImages.ImageMakes` | apt2ostree/apt.py:299-362 | the whole image adds the base, the mirror list, every package's artifacts and the combined refs as targets |
| `AptImages.ImageRuns` | apt2ostree/apt.py:299-362 | the base, the mirror list, the package loop and the combining steps together perform the image's plan |
| `AptImages.CombineInto` | apt2ostree/apt.py:340-359 | combining into `deb/images/<digest>/<leaf>` passes the check and writes that ref from the given inputs |
| `AptImages.CombineMetaInto` | apt2ostree/apt.py:347-353 | combining dpkg metadata writes `deb/images/<digest>/<meta>` from the given inputs |
| `AptImages.CombineBuilt` | apt2ostree/ostree.py:22-30 | `ostree_combine` with a branch writes that branch's ref file |
| `AptImages.MirrorsReadBack` | apt2ostree/apt.py:309-311 | the mirror list, read back line by line, gives each mirror in order |
| `AptImages.MirrorsConcat` | apt2ostree/apt.py:309-311 | the mirror list is each mirror followed by a newline |
| `AptImages.UnpackedMakes` | apt2ostree/apt.py:259-266 | the unpacked image adds the lockfile update and the image's targets |
| `AptImages.ConfigureMakes` | apt2ostree/apt.py:270-274 | configuring adds the configured ref and the `image-for-<lockfile>` target, and declares `dpkg_configure` |
| `AptImages.ImageBranches` | apt2ostree/apt.py:270-275 | the unpacked ref names `deb/images/<digest>/unpacked`; its configured branch is `deb/images/<digest>/configured`, which the returned ref gives back |
| `AptImages.Apt.constructor` | apt2ostree/apt.py:243-245 | the object holds the writer and the mirrors and has no lockfile updates yet |
| `AptImages.Apt.New` | apt2ostree/apt.py:238-253 | binds `apt_should_mirror` (failing on a conflicting value), adds the generator dependency, then needs `ostree_repo` and makes its `config` and `objects` targets; the default mirrors are used when none are given |
| `AptImages.Apt.Apply` | apt2ostree/ninja.py:167-202 | building one of apt's rules with arguments that pass the check writes exactly its statement and returns its outputs |
| `AptImages.Apt.GenerateLockfile` | apt2ostree/apt.py:277-297 | writes the `update_lockfile` statement with the defaults and the sorted packages, records its output, and returns the lockfile |
| `AptImages.Apt.UpdateLockfileFor` | apt2ostree/apt.py:291-295 | writes the lockfile update and returns its output |
| `AptImages.Apt.WritePhonyRules` | apt2ostree/apt.py:255-257 | writes `update-apt-lockfiles` as phony over every recorded lockfile update, once each |
| `AptImages.Apt.DownloadPackage` | apt2ostree/apt.py:321-323 | writes the package's download and returns its data and control refs |
| `AptImages.Apt.DescribePackage` | apt2ostree/apt.py:325-327 | writes the package's metadata step and returns its status, available and info |
| `AptImages.Apt.BuildPackage` | apt2ostree/apt.py:316-330 | writes one package's two statements and returns its artifacts |
| `AptImages.Apt.StopAt` | apt2ostree/apt.py:316-327 | a record that lacks a field ends the loop with its `KeyError`; if it names its hash and file, its download has already been written |
| `AptImages.Apt.BuildListed` | apt2ostree/apt.py:315-330 | the loop builds the records in turn while each has its fields, and stops at the first that lacks one; the packages built are those of the records before it, and every one of them has been written in order with its artifacts collected in order |
| `AptImages.Apt.BuildPackages` | apt2ostree/apt.py:315-330 | the loop's result is the packages of the records or the first missing field; the build file then holds every complete record's package in order and, when a record lacks a field, the download that record had already written (`RecordsPlan`); on success it has collected the artifacts in order |
| `AptImages.Apt.ReadPackages` | apt2ostree/apt.py:313-336 | the packages of the lockfile, or its error; the lockfile, or its directory when missing, becomes a generator dependency; on failure as on success the build file holds what the reading writes (`ReadPlan`) |
| `AptImages.Apt.PackagesIn` | apt2ostree/apt.py:315-330 | the packages of a lockfile that was read, or its error; the build file holds every complete package in order, then the partial download of a record that stops the loop (`ReadPlan`) |
| `AptImages.Apt.WriteMirrors` | apt2ostree/apt.py:309-311 | opens `_build/deb_pool_mirrors` for writing and returns its text, one mirror per line |
| `AptImages.Apt.BuildBase` | apt2ostree/apt.py:302 | writes `dpkg_base` for the architecture and returns its ref |
| `AptImages.Apt.CombineTrees` | apt2ostree/apt.py:340-345 | combines the data refs and the info refs into `data_combined` and `info_combined` |
| `AptImages.Apt.CombineMeta` | apt2ostree/apt.py:347-353 | combines the status and available entries into the image's `status` and `available` refs |
| `AptImages.Apt.CombineUnpacked` | apt2ostree/apt.py:355-361 | combines the parts, depending on the lockfile, into the `unpacked` ref and names it phony |
| `AptImages.Apt.CombineImage` | apt2ostree/apt.py:338-362 | performs the combining plan and returns the unpacked ref |
| `AptImages.Apt.ImageFromLockfile` | apt2ostree/apt.py:299-362 | fails when the lockfile cannot be opened for a reason other than not existing, when a line is malformed, or when a record lacks `Filename`, `SHA256` or `Package`; the build file then holds the base, the mirror list and what the records before the failure wrote (`FailedImagePlan`); otherwise writes the image's plan for its packages and returns the `unpacked` ref |
| `AptImages.Apt.BuildImageUnpacked` | apt2ostree/apt.py:259-266 | writes the lockfile update, then the image from the lockfile; on failure the build file holds the lockfile update and the failed image's steps |
| `AptImages.Apt.BuildImage` | apt2ostree/apt.py:268-275 | the unpacked image, then `dpkg_configure` into the configured branch and the `image-for-<lockfile>` target; returns the configured ref; on failure the build file is that of the failed unpacked image |
| `AptImages.Apt.ConfigureImage` | apt2ostree/apt.py:270-275 | writes `dpkg_configure` from the unpacked ref into the configured one and names it phony |

## Left out

- ParsePackages: reads the `" ."` marker as corrected (the line without its line ending), not as written; the as-written reading is `ParseAsWritten`, and the four headline parser lemmas hold for both (see Findings).
- Listed: parses the lockfile with the corrected marker; as written, an empty line in a description reads as `"\n."`.
- BuildImage: names the configured branch with the corrected rename, which changes only the trailing `unpacked`; as written, every `unpacked` in the ref changes (see Findings).
- ConfigureImage: uses the corrected rename too, for the same reason.
- Expand: `ninja_syntax.py` is not part of this model. Its `expand` is modelled as replacing `$$`, `$name` and `${name}`, looking each name up in the caller's arguments, then the globals, else the empty string. Resolving `${name}` is an assumption about that file.
- DefaultDescription: the source joins the variables in the iteration order of a Python set, which is unspecified. The model uses the order of first appearance. The description's contents are stated as an existential over every duplicate-free ordering.
- Shell command bodies: each rule's command is modelled by its variable references only (`Skeleton`), in `AptRules` and `Ostree`. The shell text, `textwrap.dedent` and the generated scripts are not modelled. The variables of each rule match the source's.
- NinjaGen.Ninja.DefineRule: the source checks a repeated declaration with a Python `assert` (ninja.py:87), which `python -O` skips. The model always fails with `RuleMismatch`.
- NinjaRules.Rule.Build: the `pool` and `implicit_outputs` parameters are not modelled. No caller in the core passes them.
- File-system effects are not modelled:
  - the `mkdir` of the build directory;
  - the contents, `chmod` and path of the reconfigure script (it is only made a target);
  - the temporary `build.ninja~` and its rename on close;
  - `write_gitignore`.
- `__enter__`, `__exit__` and `__del__` of `Ninja` are not modelled. They only call `close`.
- WriteMirrors: assumes that opening `_build/deb_pool_mirrors` for writing succeeds. It models the file's text, not the write.
- Reading errors: an `IOError` in the middle of reading the lockfile is not modelled. The file is either read whole or not opened (`attempt`).
- AptImages.Apt.New: requires that rules already declared under the names of apt's rules were declared with apt's own arguments (`RulesAgree`). Another module declaring a different rule under the same name is not modelled.
- The `Ninja` constructor takes the generator's module names as a parameter, instead of computing `os.path.relpath(__file__)`. Its `regenerate_command` and `width` only shape text that is not modelled.
- `multistrap.py` and the command-line `main` are not part of this model.
- Integer widths and Unicode: the source works on Python 2 byte strings. Strings are modelled as sequences of characters, with `\w` as ASCII letters, digits and `_`.

## Findings

| source | as written | input that shows it | evidently intended | confidence | as-written member | corrected member |
|---|---|---|---|---|---|---|
| apt2ostree/apt.py:376 | `line == ' .'` compares a line read from the file, which still ends in `"\n"`, so the marker never matches. `" .\n"` falls through to the continuation branch and appends `"\n."` | a paragraph `Description: x\n`, ` .\n`, `\n` | the `" ."` line stands for an empty line, giving `"x\n\n"` | not executed | `Packages.AsWrittenLosesEmptyLine` | `Packages.CorrectedReadsEmptyLine` |
| apt2ostree/apt.py:273 | `unpacked.ref.replace("unpacked", "configured")` replaces every `unpacked` in the ref, including those in the lockfile's digest | the lockfiles `unpacked.lock` and `configured.lock`: different unpacked branches, but both configure into `deb/images/configured.lock/configured` | only the trailing `unpacked` component is renamed, so different images stay different | not executed | `AptNaming.AsWrittenConfiguredCollides` | `AptNaming.ConfiguredBranchInjective` |
