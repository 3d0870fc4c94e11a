/**
 * What apt's front end does to a build file, as data. A plan is the sequence of steps apt
 * takes: building one of its rules, naming outputs with a phony target, or opening a file for
 * writing. Running a plan on a build file gives the rules declared, the statements written
 * and the targets made afterwards, so that each operation of apt is stated as the plan it runs.
 */
module BuildPlans {
  import opened NinjaVars
  import opened NinjaGen
  import opened NinjaRules

  /** The part of a build file that apt's steps change: declared rules, written statements, targets. */
  datatype BuildFile = BuildFile(rules: map<string, RuleDecl>, log: seq<Stmt>, targets: set<string>)

  /** One step of apt. */
  datatype Action =
      /** `Rule.build` of `rule` with no caller outputs: it expands to `outputs` and `inputs`. */
    | Make(rule: Rule, outputs: seq<string>, inputs: seq<string>, implicit: seq<string>, args: map<string, string>)
      /** A phony build statement naming `inputs` as `target`. */
    | Phony(target: string, inputs: seq<string>)
      /** A file of the build directory opened for writing. */
    | Write(file: string)

  /** What `Rule.build` writes for a rule built without caller outputs or order-only entries. */
  function Emitted(rule: Rule, rules: map<string, RuleDecl>, outputs: seq<string>, inputs: seq<string>,
                   implicit: seq<string>, args: map<string, string>): seq<Stmt> {
    [BlankLine] + rule.Declaration(rules)
    + [BlankLine, BuildLine(outputs, rule.name, inputs, implicit, rule.orderOnly, args)]
  }

  /** The build file after one step. */
  function Take(f: BuildFile, s: Action): BuildFile {
    match s
    case Make(rule, outputs, inputs, implicit, args) =>
      BuildFile(f.rules[rule.name := rule.Decl()], f.log + Emitted(rule, f.rules, outputs, inputs, implicit, args),
                f.targets + Elements(outputs))
    case Phony(target, inputs) =>
      BuildFile(f.rules, f.log + [BuildLine([target], "phony", inputs, [], [], map[])], f.targets + {target})
    case Write(file) =>
      BuildFile(f.rules, f.log, f.targets + {file})
  }

  /** The build file after the steps of `plan`, one after the other. */
  function Perform(f: BuildFile, plan: seq<Action>): BuildFile
    decreases |plan|
  {
    if |plan| == 0 then f else Perform(Take(f, plan[0]), plan[1..])
  }

  /** The files a plan opens for writing. */
  function Files(plan: seq<Action>): set<string>
    decreases |plan|
  {
    if |plan| == 0 then {} else (if plan[0].Write? then {plan[0].file} else {}) + Files(plan[1..])
  }

  /** Running one plan after another is running the two, one after the other. */
  lemma {:induction false} PerformConcat(f: BuildFile, a: seq<Action>, b: seq<Action>)
    ensures Perform(f, a + b) == Perform(Perform(f, a), b)
    decreases |a|
  {
    if |a| == 0 {
      assert a + b == b;
    } else {
      assert (a + b)[0] == a[0] && (a + b)[1..] == a[1..] + b;
      PerformConcat(Take(f, a[0]), a[1..], b);
    }
  }

  /** A build file reached by one plan and then another is reached by the two together. */
  lemma PerformThen(f0: BuildFile, f1: BuildFile, f2: BuildFile, a: seq<Action>, b: seq<Action>)
    requires f1 == Perform(f0, a) && f2 == Perform(f1, b)
    ensures f2 == Perform(f0, a + b)
  {
    PerformConcat(f0, a, b);
  }

  /** A plan of one step. */
  lemma PerformOne(f: BuildFile, s: Action)
    ensures Perform(f, [s]) == Take(f, s)
  {
    assert [s][1..] == [];
  }

  /** A plan of two steps. */
  lemma PerformTwo(f: BuildFile, s: Action, t: Action)
    ensures Perform(f, [s, t]) == Take(Take(f, s), t)
  {
    assert [s, t] == [s] + [t];
    PerformConcat(f, [s], [t]);
    PerformOne(f, s);
    PerformOne(Take(f, s), t);
  }

  /** A build file with the given rules declared and nothing written. */
  function Blank(rules: map<string, RuleDecl>): BuildFile {
    BuildFile(rules, [], {})
  }

  /**
   * A plan only appends to the log and adds targets, and what it appends and adds depends on
   * the rules declared before it alone.
   */
  lemma {:induction false} PerformAppends(f: BuildFile, plan: seq<Action>)
    ensures Perform(f, plan).rules == Perform(Blank(f.rules), plan).rules
    ensures Perform(f, plan).log == f.log + Perform(Blank(f.rules), plan).log
    ensures Perform(f, plan).targets == f.targets + Perform(Blank(f.rules), plan).targets
    decreases |plan|
  {
    if |plan| > 0 {
      var g, h := Take(f, plan[0]), Take(Blank(f.rules), plan[0]);
      assert g.rules == h.rules && g.log == f.log + h.log && g.targets == f.targets + h.targets;
      PerformAppends(g, plan[1..]);
      PerformAppends(h, plan[1..]);
    }
  }

  /**
   * Every target a plan adds is either an output of a build statement it writes or a file it
   * opens for writing, and every output it writes is a target.
   */
  lemma {:induction false} TargetsAreOutputs(f: BuildFile, plan: seq<Action>)
    ensures Perform(f, plan).targets + Outputs(f.log) == f.targets + Outputs(Perform(f, plan).log) + Files(plan)
    decreases |plan|
  {
    if |plan| > 0 {
      var g := Take(f, plan[0]);
      TakeTargets(f, plan[0]);
      TargetsAreOutputs(g, plan[1..]);
      PerformAppends(g, plan[1..]);
      OutputsConcat(g.log, Perform(Blank(g.rules), plan[1..]).log);
    }
  }

  lemma TakeTargets(f: BuildFile, s: Action)
    ensures Take(f, s).targets + Outputs(f.log) == f.targets + Outputs(Take(f, s).log) + (if s.Write? then {s.file} else {})
  {
    match s
    case Make(rule, outputs, inputs, implicit, args) =>
      var e := Emitted(rule, f.rules, outputs, inputs, implicit, args);
      OutputsConcat(f.log, e);
      OutputsEmitted(rule, f.rules, outputs, inputs, implicit, args);
    case Phony(target, inputs) =>
      var b := BuildLine([target], "phony", inputs, [], [], map[]);
      OutputsConcat(f.log, [b]);
      assert [b][..0] == [];
      assert Elements([target]) == {target};
    case Write(file) =>
  }

  lemma OutputsEmitted(rule: Rule, rules: map<string, RuleDecl>, outputs: seq<string>, inputs: seq<string>,
                       implicit: seq<string>, args: map<string, string>)
    ensures Outputs(Emitted(rule, rules, outputs, inputs, implicit, args)) == Elements(outputs)
  {
    var d := rule.Declaration(rules);
    var b := BuildLine(outputs, rule.name, inputs, implicit, rule.orderOnly, args);
    OutputsConcat([BlankLine] + d, [BlankLine, b]);
    OutputsConcat([BlankLine], d);
    assert [BlankLine, b] == [BlankLine] + [b];
    OutputsConcat([BlankLine], [b]);
    assert Outputs([BlankLine]) == {} by { assert [BlankLine][..0] == []; }
    assert Outputs(d) == {} by {
      if d != [] {
        assert d[..0] == [];
      }
    }
    assert Outputs([b]) == Elements(outputs) by { assert [b][..0] == []; }
  }
}
