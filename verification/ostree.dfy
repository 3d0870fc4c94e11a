/**
 * Ostree refs as file paths (`<repo>/refs/heads/<branch>`) and the two ostree rules: creating a
 * repository, and combining several refs into one commit on a branch.
 */
module Ostree {
  import opened Outcomes
  import opened Text
  import opened NinjaVars
  import opened NinjaGen
  import opened NinjaRules

  const Heads := "/refs/heads/"

  /** A ref of an ostree repository, named by the path of its ref file. */
  datatype OstreeRef = OstreeRef(filename: string)
  {
    /** `.ref`: the second piece of the filename cut at `/refs/heads/`; there is none without it. */
    function Ref(): (r: Result<string>)
      ensures r.Err? <==> NoOccurrence(filename, Heads)
      ensures r.Err? ==> r.error == NoSuchPiece
      ensures r.Ok? ==> NoOccurrence(r.value, Heads)
    {
      var pieces := Split(filename, Heads);
      SplitPiecesLackSeparator(filename, Heads);
      if |pieces| < 2 then Err(NoSuchPiece) else Ok(pieces[1])
    }

    /** `.repo`: the text before the first `/refs/heads/`, or the whole filename without one. */
    function Repo(): (r: string)
      ensures StartsWith(filename, r)
      ensures NoOccurrence(r, Heads)
      ensures r == filename <==> NoOccurrence(filename, Heads)
    {
      SplitPiecesLackSeparator(filename, Heads);
      Split(filename, Heads)[0]
    }
  }

  /** Split at the first occurrence: the first piece, then the pieces of the rest. */
  lemma SplitAtFind(f: string)
    requires !NoOccurrence(f, Heads)
    ensures Split(f, Heads) == [f[..Find(f, Heads)]] + Split(f[Find(f, Heads) + |Heads|..], Heads)
  {
  }

  lemma SplitWhole(f: string)
    requires NoOccurrence(f, Heads)
    ensures Split(f, Heads) == [f]
  {
  }

  /** The repository is the text before the first `/refs/heads/`, and the ref runs from there to the next one. */
  lemma RefBetweenOccurrences(f: string)
    requires !NoOccurrence(f, Heads)
    ensures var i := Find(f, Heads);
      var rest := f[i + |Heads|..];
      OstreeRef(f).Repo() == f[..i]
      && OstreeRef(f).Ref() == Ok(if NoOccurrence(rest, Heads) then rest else rest[..Find(rest, Heads)])
  {
    var i := Find(f, Heads);
    var rest := f[i + |Heads|..];
    SplitAtFind(f);
    if NoOccurrence(rest, Heads) {
      SplitWhole(rest);
    } else {
      SplitAtFind(rest);
    }
  }

  /** With `/refs/heads/` in it exactly once, a filename is its repository, `/refs/heads/` and its ref. */
  lemma RepoAndRefRebuild(f: string, i: int)
    requires OccursAt(f, Heads, i)
    requires forall j :: 0 <= j <= |f| - |Heads| && j != i ==> !OccursAt(f, Heads, j)
    ensures OstreeRef(f).Ref().Ok?
    ensures OstreeRef(f).Repo() + Heads + OstreeRef(f).Ref().value == f
  {
    FindIs(f, Heads, i);
    var rest := f[i + |Heads|..];
    forall j | 0 <= j <= |rest| - |Heads| ensures !OccursAt(rest, Heads, j) {
      OccursInSuffix(f, Heads, i + |Heads|, j);
    }
    RefBetweenOccurrences(f);
    assert f == f[..i] + Heads + rest by {
      assert f[i..i + |Heads|] == Heads;
      SlicesAround(f, i, i + |Heads|);
    }
  }

  /** A filename without `/refs/heads/` has no ref. */
  lemma NoRefWithoutHeads(f: string)
    requires NoOccurrence(f, Heads)
    ensures OstreeRef(f).Ref() == Err(NoSuchPiece)
    ensures OstreeRef(f).Repo() == f
  {
  }

  /** In `repo + "/refs/heads/"`, the first `/refs/heads/` is the appended one. */
  lemma HeadsAfterRepo(repo: string)
    requires NoOccurrence(repo + "/refs/heads", Heads)
    ensures Find(repo + Heads, Heads) == |repo|
  {
    NoHeadsInRepo(repo);
    HeadsAtEnd(repo);
    FindIs(repo + Heads, Heads, |repo|);
  }

  lemma NoHeadsInRepo(repo: string)
    requires NoOccurrence(repo + "/refs/heads", Heads)
    ensures forall j :: 0 <= j < |repo| ==> !OccursAt(repo + Heads, Heads, j)
  {
    var s := repo + Heads;
    var head := repo + "/refs/heads";
    assert |Heads| == 12 && |head| == |repo| + 11;
    forall j | 0 <= j < |repo| ensures !OccursAt(s, Heads, j) {
      assert !OccursAt(head, Heads, j);
      assert s[j..j + 12] == head[j..j + 12];
    }
  }

  lemma HeadsAtEnd(repo: string)
    ensures OccursAt(repo + Heads, Heads, |repo|)
  {
    var s := repo + Heads;
    assert s[|repo|..] == Heads;
  }

  lemma BranchLacksHeads(branch: string)
    requires NoOccurrence("/" + branch, Heads)
    ensures NoOccurrence(branch, Heads)
  {
    forall j | 0 <= j <= |branch| - |Heads| ensures !OccursAt(branch, Heads, j) {
      assert !OccursAt("/" + branch, Heads, j + 1);
      assert ("/" + branch)[j + 1..j + 1 + |Heads|] == branch[j..j + |Heads|];
    }
  }

  /**
   * The ref file of `branch` in `repo` gives back both, as long as `repo` does not itself end
   * in a `/refs/heads` path and `branch` does not hold `/refs/heads/` or start with `refs/heads/`.
   */
  lemma RefOfRefFile(repo: string, branch: string)
    requires NoOccurrence(repo + "/refs/heads", Heads)
    requires NoOccurrence("/" + branch, Heads)
    ensures OstreeRef(repo + Heads + branch).Ref() == Ok(branch)
    ensures OstreeRef(repo + Heads + branch).Repo() == repo
  {
    HeadsAfterRepo(repo);
    SplitAtFirst(repo, Heads, branch);
    BranchLacksHeads(branch);
    SplitWhole(branch);
    var f := repo + Heads + branch;
    assert Split(f, Heads) == [repo, branch];
    assert !NoOccurrence(f, Heads) by { assert OccursAt(f, Heads, |repo|) by { assert f[|repo|..|repo| + |Heads|] == Heads; } }
  }

  // The two rules. Their shell commands are kept only as the variable references they make,
  // in order of first appearance; their paths are templates of literal text and references.

  const InitCommand: seq<Part> := [Ref("ostree_repo")]
  const ConfigFile: seq<Part> := [Ref("ostree_repo"), Lit("/config")]

  /** The `ostree` rule: creates the repository, whose `config` file is its output. */
  const OstreeInit: Rule := TemplateRule("ostree", InitCommand, [ConfigFile], [], None, [], map[])

  const CombineCommand: seq<Part> := [Ref("in"), Lit(" "), Ref("ostree_repo"), Lit(" "), Ref("branch")]
  const CombineOutput: seq<Part> := [Ref("ostree_repo"), Lit(Heads), Ref("branch")]

  /** The `ostree_combine` rule: commits the union of its input refs to `branch`. */
  const OstreeCombine: Rule :=
    TemplateRule("ostree_combine", CombineCommand, [CombineOutput], [], Some("Ostree Combine for $branch"),
                 ["$ostree_repo/config"], map[])

  lemma InitShape()
    ensures WellFormed(InitCommand) && RefNames(InitCommand) == ["ostree_repo"]
    ensures WellFormed(ConfigFile) && RefNames(ConfigFile) == ["ostree_repo"]
  {
    assert IsWord("ostree_repo");
    ConfigSeparator();
    SingleRef("ostree_repo");
    RefThenLit("ostree_repo", "/config");
  }

  lemma ConfigSeparator()
    ensures |"/config"| > 0 && '$' !in "/config" && '{' !in "/config" && !IsWordChar("/config"[0])
  {
  }

  /** A template that is one reference to a word. */
  lemma SingleRef(a: string)
    requires IsWord(a)
    ensures WellFormed([Ref(a)]) && RefNames([Ref(a)]) == [a]
  {
    assert [Ref(a)][1..] == [];
  }

  /** A reference to a word followed by text that cannot extend it. */
  lemma RefThenLit(a: string, x: string)
    requires IsWord(a) && |x| > 0 && '$' !in x && '{' !in x && !IsWordChar(x[0])
    ensures WellFormed([Ref(a), Lit(x)]) && RefNames([Ref(a), Lit(x)]) == [a]
  {
    var p := [Ref(a), Lit(x)];
    assert p[1..] == [Lit(x)] && p[1..][1..] == [];
    assert RefNames(p[1..]) == [];
  }

  /** The `ostree` rule needs only `ostree_repo`. */
  lemma OstreeInitVars()
    ensures OstreeInit.vars == {"ostree_repo"}
  {
    InitShape();
    assert [ConfigFile][1..] == [];
    assert AllRefNames([ConfigFile]) == ["ostree_repo"];
    assert Elements(["ostree_repo"] + [] + ["ostree_repo"]) == {"ostree_repo"};
  }

  lemma HeadsPlain()
    ensures |Heads| > 0 && '$' !in Heads && '{' !in Heads && !IsWordChar(Heads[0])
  {
  }

  lemma CombineShape()
    ensures WellFormed(CombineCommand) && RefNames(CombineCommand) == ["in", "ostree_repo", "branch"]
    ensures WellFormed(CombineOutput) && RefNames(CombineOutput) == ["ostree_repo", "branch"]
  {
    CombineCommandShape();
    CombineOutputShape();
  }

  lemma CombineCommandShape()
    ensures WellFormed(CombineCommand) && RefNames(CombineCommand) == ["in", "ostree_repo", "branch"]
  {
    CombineCommandWellFormed();
    var c := CombineCommand;
    assert RefNames(c[5..]) == [];
    assert RefNames(c[4..]) == ["branch"];
    assert RefNames(c[3..]) == ["branch"];
    assert RefNames(c[2..]) == ["ostree_repo", "branch"];
    assert RefNames(c[1..]) == ["ostree_repo", "branch"];
  }

  lemma CombineCommandWellFormed()
    ensures WellFormed(CombineCommand)
  {
    assert IsWord("in") && IsWord("ostree_repo") && IsWord("branch");
    assert !IsWordChar(' ');
  }

  lemma CombineOutputShape()
    ensures WellFormed(CombineOutput) && RefNames(CombineOutput) == ["ostree_repo", "branch"]
  {
    HeadsPlain();
    assert IsWord("ostree_repo") && IsWord("branch");
    var o := CombineOutput;
    assert RefNames(o[3..]) == [];
    assert RefNames(o[2..]) == ["branch"];
    assert RefNames(o[1..]) == ["branch"];
  }

  /** `ostree_combine` needs `ostree_repo` and `branch`; `in` is bound by Ninja. */
  lemma OstreeCombineVars()
    ensures OstreeCombine.vars == {"in", "ostree_repo", "branch"}
    ensures OstreeCombine.orderOnly == ["$ostree_repo/config"]
  {
    CombineShape();
    assert [CombineOutput][1..] == [];
    assert AllRefNames([CombineOutput]) == ["ostree_repo", "branch"];
    assert Elements(["in", "ostree_repo", "branch"] + [] + ["ostree_repo", "branch"]) == {"in", "ostree_repo", "branch"};
  }

  /** Building `ostree_combine` with a branch passes the argument check iff `ostree_repo` is a global. */
  lemma CombineArguments(globals: set<string>)
    ensures OstreeCombine.CheckArgs(globals, {"branch"}) == Pass <==> "ostree_repo" in globals
  {
    OstreeCombineVars();
    ArgCheckPass("ostree_combine", OstreeCombine.vars, globals, {"branch"});
  }

  /** The combined branch's ref file, as `ostree_combine` declares it. */
  lemma CombineOutputPath(globals: map<string, string>, branch: string)
    requires "ostree_repo" in globals
    ensures OstreeCombine.BuildOutputs([], globals, map["branch" := branch]) == [globals["ostree_repo"] + Heads + branch]
  {
    var args := map["branch" := branch];
    CombineOutputShape();
    ExpandTemplates([CombineOutput], globals, args);
    SubstituteCombineOutput(globals, branch);
  }

  lemma SubstituteCombineOutput(globals: map<string, string>, branch: string)
    requires "ostree_repo" in globals
    ensures Substitute(CombineOutput, globals, map["branch" := branch]) == globals["ostree_repo"] + Heads + branch
  {
    var args := map["branch" := branch];
    var o := CombineOutput;
    assert Substitute(o[3..], globals, args) == "";
    assert Substitute(o[2..], globals, args) == branch;
    assert Substitute(o[1..], globals, args) == Heads + branch;
  }

  /** The declared output of `ostree_combine` names, as a ref, exactly the branch it commits. */
  lemma CombineOutputIsBranch(globals: map<string, string>, branch: string)
    requires "ostree_repo" in globals
    requires NoOccurrence(globals["ostree_repo"] + "/refs/heads", Heads)
    requires NoOccurrence("/" + branch, Heads)
    ensures OstreeRef(OstreeCombine.BuildOutputs([], globals, map["branch" := branch])[0]).Ref() == Ok(branch)
  {
    CombineOutputPath(globals, branch);
    RefOfRefFile(globals["ostree_repo"], branch);
  }

  lemma OstreeCombineWellBuilt()
    ensures OstreeCombine.WellBuilt()
  {
    CombineShape();
    TemplateRuleWellBuilt("ostree_combine", CombineCommand, [CombineOutput], [], Some("Ostree Combine for $branch"),
                       ["$ostree_repo/config"], map[]);
  }
}
