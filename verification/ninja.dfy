/**
 * The build-file writer and its registries (global variables, rules, targets, generator
 * dependencies), and `Rule`: a parameterised build step that checks the arguments it is given
 * and instantiates its own outputs and inputs before writing a build statement.
 */
module NinjaGen {
  import opened Outcomes
  import opened Text
  import opened NinjaVars

  /** Variables Ninja binds by itself in every build statement. */
  const AutoVars: set<string> := {"in", "out"}
  const BuildDir := "_build"
  const NinjaFile := "build.ninja"

  predicate Distinct(xs: seq<string>) {
    forall i, j :: 0 <= i < j < |xs| ==> xs[i] != xs[j]
  }

  lemma DistinctSnoc(xs: seq<string>, x: string)
    requires Distinct(xs) && x !in xs
    ensures Distinct(xs + [x])
  {
  }

  /** The arguments a rule is declared with: its command and its keyword options. */
  datatype RuleDecl = RuleDecl(command: string, options: map<string, string>)

  /** One statement of the generated build file. */
  datatype Stmt =
    | BlankLine
    | VariableLine(key: string, value: string, indent: nat)
    | RuleBlock(name: string, decl: RuleDecl)
    | BuildLine(outputs: seq<string>, rule: string, inputs: seq<string>, implicit: seq<string>,
                orderOnly: seq<string>, variables: map<string, string>)

  /** The rules a statement log declares, each with its declaration. */
  function DeclaredRules(log: seq<Stmt>): map<string, RuleDecl> {
    if |log| == 0 then map[]
    else if log[|log| - 1].RuleBlock? then DeclaredRules(log[..|log| - 1])[log[|log| - 1].name := log[|log| - 1].decl]
    else DeclaredRules(log[..|log| - 1])
  }

  /** The names of the rule blocks of a log, in the order they were written. */
  function RuleNames(log: seq<Stmt>): seq<string> {
    if |log| == 0 then []
    else RuleNames(log[..|log| - 1]) + (if log[|log| - 1].RuleBlock? then [log[|log| - 1].name] else [])
  }

  /** The top-level variables a log binds, each with its value. */
  function DeclaredGlobals(log: seq<Stmt>): map<string, string> {
    if |log| == 0 then map[]
    else if log[|log| - 1].VariableLine? && log[|log| - 1].indent == 0 then
      DeclaredGlobals(log[..|log| - 1])[log[|log| - 1].key := log[|log| - 1].value]
    else DeclaredGlobals(log[..|log| - 1])
  }

  /** The names of the top-level variable lines of a log, in order. */
  function GlobalNames(log: seq<Stmt>): seq<string> {
    if |log| == 0 then []
    else
      GlobalNames(log[..|log| - 1])
      + (if log[|log| - 1].VariableLine? && log[|log| - 1].indent == 0 then [log[|log| - 1].key] else [])
  }

  /** Every output named by the build statements of a log. */
  function Outputs(log: seq<Stmt>): set<string> {
    if |log| == 0 then {}
    else Outputs(log[..|log| - 1]) + if log[|log| - 1].BuildLine? then Elements(log[|log| - 1].outputs) else {}
  }

  lemma {:induction false} OutputsConcat(a: seq<Stmt>, b: seq<Stmt>)
    ensures Outputs(a + b) == Outputs(a) + Outputs(b)
    decreases |b|
  {
    if |b| == 0 {
      assert a + b == a;
    } else {
      assert (a + b)[..|a + b| - 1] == a + b[..|b| - 1];
      OutputsConcat(a, b[..|b| - 1]);
    }
  }

  lemma {:induction false} NamesAreKeys(log: seq<Stmt>)
    ensures Elements(RuleNames(log)) == DeclaredRules(log).Keys
    ensures Elements(GlobalNames(log)) == DeclaredGlobals(log).Keys
    decreases |log|
  {
    if |log| > 0 {
      NamesAreKeys(log[..|log| - 1]);
      ElementsConcat(RuleNames(log[..|log| - 1]), if log[|log| - 1].RuleBlock? then [log[|log| - 1].name] else []);
      ElementsConcat(GlobalNames(log[..|log| - 1]),
        if log[|log| - 1].VariableLine? && log[|log| - 1].indent == 0 then [log[|log| - 1].key] else []);
    }
  }

  /** What appending one statement to a log declares. */
  lemma Appended(log: seq<Stmt>, s: Stmt)
    ensures DeclaredRules(log + [s]) == if s.RuleBlock? then DeclaredRules(log)[s.name := s.decl] else DeclaredRules(log)
    ensures RuleNames(log + [s]) == RuleNames(log) + if s.RuleBlock? then [s.name] else []
    ensures DeclaredGlobals(log + [s]) ==
      if s.VariableLine? && s.indent == 0 then DeclaredGlobals(log)[s.key := s.value] else DeclaredGlobals(log)
    ensures GlobalNames(log + [s]) == GlobalNames(log) + if s.VariableLine? && s.indent == 0 then [s.key] else []
  {
    var l := log + [s];
    assert l[..|l| - 1] == log && l[|l| - 1] == s;
    AppendedRules(log, s);
    AppendedGlobals(log, s);
  }

  lemma AppendedRules(log: seq<Stmt>, s: Stmt)
    requires (log + [s])[..|log|] == log
    ensures DeclaredRules(log + [s]) == if s.RuleBlock? then DeclaredRules(log)[s.name := s.decl] else DeclaredRules(log)
    ensures RuleNames(log + [s]) == RuleNames(log) + if s.RuleBlock? then [s.name] else []
  {
  }

  lemma AppendedGlobals(log: seq<Stmt>, s: Stmt)
    requires (log + [s])[..|log|] == log
    ensures DeclaredGlobals(log + [s]) ==
      if s.VariableLine? && s.indent == 0 then DeclaredGlobals(log)[s.key := s.value] else DeclaredGlobals(log)
    ensures GlobalNames(log + [s]) == GlobalNames(log) + if s.VariableLine? && s.indent == 0 then [s.key] else []
  {
  }

  /** `add_generator_dep` records a compiled module by the name of its source file. */
  function GeneratorDepName(filename: string): string {
    Replace(filename, ".pyc", ".py")
  }

  /** Replacing in `base + pat`, where `pat` first occurs at the end, rewrites only the end. */
  lemma {:induction false} ReplaceAtEnd(base: string, pat: string, repl: string)
    requires |pat| > 0 && forall j :: 0 <= j < |base| ==> !OccursAt(base + pat, pat, j)
    ensures Replace(base + pat, pat, repl) == base + repl
    decreases |base|
  {
    var s := base + pat;
    if |base| == 0 {
      assert s == pat && s[..|pat|] == pat && s[|pat|..] == [];
    } else {
      assert !OccursAt(s, pat, 0);
      assert s[..|pat|] != pat;
      var t := base[1..] + pat;
      assert s[1..] == t;
      forall j | 0 <= j < |base| - 1 ensures !OccursAt(t, pat, j) {
        assert !OccursAt(s, pat, j + 1);
        assert s[j + 1..j + 1 + |pat|] == t[j..j + |pat|];
      }
      ReplaceAtEnd(base[1..], pat, repl);
      assert Replace(s, pat, repl) == [s[0]] + Replace(t, pat, repl);
      assert base == [base[0]] + base[1..];
    }
  }

  /** A compiled module `m.pyc` is recorded as its source `m.py`. */
  lemma CompiledModuleDep(base: string)
    requires NoOccurrence(base, ".pyc")
    ensures GeneratorDepName(base + ".pyc") == base + ".py"
  {
    assert ".pyc"[1..] == "pyc";
    FirstAtEnd(base, ".pyc");
    ReplaceAtEnd(base, ".pyc", ".py");
  }

  /** A name without `.pyc` is recorded as it is. */
  lemma PlainDep(filename: string)
    requires NoOccurrence(filename, ".pyc")
    ensures GeneratorDepName(filename) == filename
  {
    ReplaceAbsent(filename, ".pyc", ".py");
  }

  /** The directory the generator watches for a file that does not exist yet. */
  function WatchedDir(filename: string): (r: string)
    ensures r != ""
    ensures '/' in filename ==> StartsWith(filename, r)
  {
    if Dirname(filename) == "" then "." else Dirname(filename)
  }

  /** The declaration of the `configure` rule that reruns the generator. */
  const ConfigureDecl := RuleDecl("$builddir/reconfigure", map["generator" := "True"])

  /** `list(s)`: the members of a set, each once, in some order. */
  method ListOf(s: set<string>) returns (xs: seq<string>)
    ensures Elements(xs) == s && Distinct(xs)
  {
    xs := [];
    var rest := s;
    while rest != {}
      invariant Elements(xs) + rest == s && Elements(xs) !! rest
      invariant Distinct(xs)
      decreases |rest|
    {
      var x :| x in rest;
      ElementsConcat(xs, [x]);
      DistinctSnoc(xs, x);
      xs := xs + [x];
      rest := rest - {x};
    }
  }

  /**
   * The writer. Rules and top-level variables are written once: `rules` and `globalVars`
   * always agree with what the log declares, and no name is declared twice.
   */
  class Ninja {
    var globalVars: map<string, string>
    var targets: set<string>
    var rules: map<string, RuleDecl>
    var generatorDeps: set<string>
    var log: seq<Stmt>
    var closed: bool

    ghost predicate Valid()
      reads this
    {
      && "" !in targets && "builddir" in globalVars
      && DeclaredRules(log) == rules && Distinct(RuleNames(log))
      && DeclaredGlobals(log) == globalVars && Distinct(GlobalNames(log))
    }

    /**
     * A fresh writer: `builddir` is bound, `.FORCE` is a phony target, the `configure` rule is
     * declared, and the generator's own modules are its first dependencies.
     */
    constructor (sourceFiles: seq<string>)
      ensures Valid() && !closed
      ensures globalVars == map["builddir" := BuildDir]
      ensures targets == {".FORCE", BuildDir + "/reconfigure", BuildDir + "/.ninja_deps", BuildDir + "/.ninja_log"}
      ensures rules == map["configure" := ConfigureDecl]
      ensures generatorDeps == set f | f in sourceFiles :: GeneratorDepName(f)
      ensures log == [VariableLine("builddir", BuildDir, 0), BuildLine([".FORCE"], "phony", [], [], [], map[]),
                      RuleBlock("configure", ConfigureDecl)]
    {
      globalVars := map["builddir" := BuildDir];
      targets := {".FORCE", BuildDir + "/reconfigure", BuildDir + "/.ninja_deps", BuildDir + "/.ninja_log"};
      rules := map["configure" := ConfigureDecl];
      generatorDeps := set f | f in sourceFiles :: GeneratorDepName(f);
      log := [VariableLine("builddir", BuildDir, 0), BuildLine([".FORCE"], "phony", [], [], [], map[]),
              RuleBlock("configure", ConfigureDecl)];
      closed := false;
      new;
      var l0 := [VariableLine("builddir", BuildDir, 0)];
      var l1 := l0 + [BuildLine([".FORCE"], "phony", [], [], [], map[])];
      Appended([], VariableLine("builddir", BuildDir, 0));
      Appended(l0, BuildLine([".FORCE"], "phony", [], [], [], map[]));
      Appended(l1, RuleBlock("configure", ConfigureDecl));
      assert l1 + [RuleBlock("configure", ConfigureDecl)] == log;
    }

    method Newline()
      requires Valid()
      modifies this
      ensures Valid()
      ensures log == old(log) + [BlankLine]
      ensures globalVars == old(globalVars) && targets == old(targets) && rules == old(rules)
      ensures generatorDeps == old(generatorDeps) && closed == old(closed)
    {
      Appended(log, BlankLine);
      log := log + [BlankLine];
    }

    /**
     * `variable`: a top-level variable is bound once; binding it again to the same value writes
     * nothing, and to another value fails and changes nothing. Indented lines are written as given.
     */
    method Variable(key: string, value: string, indent: nat) returns (r: Outcome)
      requires Valid()
      modifies this
      ensures Valid()
      ensures targets == old(targets) && rules == old(rules) && generatorDeps == old(generatorDeps)
      ensures closed == old(closed)
      ensures r.Fail? <==> indent == 0 && key in old(globalVars) && old(globalVars)[key] != value
      ensures r.Fail? ==> r.error == VariableConflict(key, value)
      ensures indent == 0 ==> key in globalVars && globalVars[key] == if r.Pass? then value else old(globalVars)[key]
      ensures indent == 0 && key in old(globalVars) ==> globalVars == old(globalVars) && log == old(log)
      ensures indent == 0 && key !in old(globalVars) ==>
        globalVars == old(globalVars)[key := value] && log == old(log) + [VariableLine(key, value, 0)]
      ensures indent > 0 ==> globalVars == old(globalVars) && log == old(log) + [VariableLine(key, value, indent)]
    {
      if indent == 0 {
        if key in globalVars {
          if value != globalVars[key] {
            return Fail(VariableConflict(key, value));
          }
          return Pass;
        }
        NamesAreKeys(log);
        DistinctSnoc(GlobalNames(log), key);
        globalVars := globalVars[key := value];
      }
      Appended(log, VariableLine(key, value, indent));
      log := log + [VariableLine(key, value, indent)];
      r := Pass;
    }

    /**
     * `rule`: a rule is written the first time its name is declared; declaring it again is
     * accepted only with identical arguments and writes nothing.
     */
    method DefineRule(name: string, decl: RuleDecl) returns (r: Outcome)
      requires Valid()
      modifies this
      ensures Valid()
      ensures globalVars == old(globalVars) && targets == old(targets) && generatorDeps == old(generatorDeps)
      ensures closed == old(closed)
      ensures r.Pass? <==> name !in old(rules) || old(rules)[name] == decl
      ensures r.Fail? ==> r.error == RuleMismatch(name) && rules == old(rules) && log == old(log)
      ensures r.Pass? ==> rules == old(rules)[name := decl]
      ensures r.Pass? ==> log == old(log) + if name in old(rules) then [] else [RuleBlock(name, decl)]
    {
      if name in rules {
        if rules[name] != decl {
          return Fail(RuleMismatch(name));
        }
        assert rules == rules[name := decl];
        return Pass;
      }
      NamesAreKeys(log);
      DistinctSnoc(RuleNames(log), name);
      Appended(log, RuleBlock(name, decl));
      rules := rules[name := decl];
      log := log + [RuleBlock(name, decl)];
      r := Pass;
    }

    /** `add_target`: an empty name is refused; any other is recorded as a target. */
    method AddTarget(target: string) returns (r: Outcome)
      requires Valid()
      modifies this
      ensures Valid()
      ensures globalVars == old(globalVars) && rules == old(rules) && log == old(log)
      ensures generatorDeps == old(generatorDeps) && closed == old(closed)
      ensures r.Fail? <==> target == ""
      ensures r.Fail? ==> r.error == InvalidTarget(target) && targets == old(targets)
      ensures r.Pass? ==> targets == old(targets) + {target}
    {
      if target == "" {
        return Fail(InvalidTarget(target));
      }
      targets := targets + {target};
      r := Pass;
    }

    /** `add_generator_dep`: the generator reruns when this file changes. */
    method AddGeneratorDep(filename: string)
      requires Valid()
      modifies this
      ensures Valid()
      ensures globalVars == old(globalVars) && rules == old(rules) && log == old(log)
      ensures targets == old(targets) && closed == old(closed)
      ensures generatorDeps == old(generatorDeps) + {GeneratorDepName(filename)}
    {
      generatorDeps := generatorDeps + {GeneratorDepName(filename)};
    }

    /**
     * `build`: every output becomes a target, then the statement is written and its outputs
     * returned. An empty output stops the loop: the outputs before it stay recorded.
     */
    method Build(outputs: seq<string>, rule: string, inputs: seq<string>, implicit: seq<string>,
                 orderOnly: seq<string>, variables: map<string, string>) returns (r: Result<seq<string>>)
      requires Valid()
      modifies this
      ensures Valid()
      ensures globalVars == old(globalVars) && rules == old(rules) && generatorDeps == old(generatorDeps)
      ensures closed == old(closed)
      ensures r.Ok? <==> "" !in outputs
      ensures r.Ok? ==> r.value == outputs && targets == old(targets) + Elements(outputs)
      ensures r.Ok? ==> log == old(log) + [BuildLine(outputs, rule, inputs, implicit, orderOnly, variables)]
      ensures r.Err? ==> r.error == InvalidTarget("") && log == old(log)
      ensures r.Err? ==> exists k :: (0 <= k < |outputs| && outputs[k] == "" && "" !in outputs[..k]
        && targets == old(targets) + Elements(outputs[..k]))
    {
      var i := 0;
      while i < |outputs|
        invariant 0 <= i <= |outputs| && "" !in outputs[..i]
        invariant Valid() && targets == old(targets) + Elements(outputs[..i])
        invariant globalVars == old(globalVars) && rules == old(rules) && generatorDeps == old(generatorDeps)
        invariant closed == old(closed) && log == old(log)
      {
        var added := AddTarget(outputs[i]);
        if added.Fail? {
          return Err(added.error);
        }
        assert outputs[..i + 1] == outputs[..i] + [outputs[i]];
        ElementsConcat(outputs[..i], [outputs[i]]);
        i := i + 1;
      }
      assert outputs[..i] == outputs;
      Appended(log, BuildLine(outputs, rule, inputs, implicit, orderOnly, variables));
      log := log + [BuildLine(outputs, rule, inputs, implicit, orderOnly, variables)];
      r := Ok(outputs);
    }

    /**
     * `open`: a file attempt for writing is a target; a file read becomes a generator
     * dependency, and a file missing when read makes its directory one (the error is passed on).
     * `attempt` is what the operating system's `open` gives.
     */
    method Open(filename: string, mode: string, attempt: Result<string>) returns (r: Result<string>)
      requires Valid()
      modifies this
      ensures Valid()
      ensures globalVars == old(globalVars) && rules == old(rules) && log == old(log) && closed == old(closed)
      ensures 'w' in mode && filename == "" ==>
        r == Err(InvalidTarget(filename)) && targets == old(targets) && generatorDeps == old(generatorDeps)
      ensures !('w' in mode && filename == "") ==> r == attempt
      ensures !('w' in mode && filename == "") ==> targets == old(targets) + if 'w' in mode then {filename} else {}
      ensures !('w' in mode && filename == "") ==> (generatorDeps == old(generatorDeps) +
        if 'r' !in mode then {}
        else if attempt.Ok? then {GeneratorDepName(filename)}
        else if attempt == Err(IOError(ENOENT)) then {GeneratorDepName(WatchedDir(filename))}
        else {})
    {
      if 'w' in mode {
        var added := AddTarget(filename);
        if added.Fail? {
          return Err(added.error);
        }
      }
      if 'r' in mode {
        if attempt.Ok? {
          AddGeneratorDep(filename);
        } else if attempt.error == IOError(ENOENT) {
          AddGeneratorDep(WatchedDir(filename));
        }
      }
      r := attempt;
    }

    /** `close`: the build file gets its own regeneration statement, once. */
    method Close()
      requires Valid()
      modifies this
      ensures Valid() && closed
      ensures globalVars == old(globalVars) && rules == old(rules) && generatorDeps == old(generatorDeps)
      ensures old(closed) ==> targets == old(targets) && log == old(log)
      ensures !old(closed) ==> targets == old(targets) + {NinjaFile}
      ensures !old(closed) ==> exists deps :: (Elements(deps) == generatorDeps && Distinct(deps)
        && log == old(log) + [BuildLine([NinjaFile], "configure", deps, [], [], map[])])
    {
      if !closed {
        var deps := ListOf(generatorDeps);
        var built := Build([NinjaFile], "configure", deps, [], [], map[]);
        assert Elements([NinjaFile]) == {NinjaFile};
        closed := true;
      }
    }
  }
}
