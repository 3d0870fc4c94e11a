/**
 * `Rule`: a parameterised build step. Its variables are the names its command, inputs and
 * outputs reference; building it checks that the arguments supply exactly those (with the
 * globals and Ninja's own `in`/`out` filling the rest), expands its own outputs and inputs,
 * and writes the rule and the build statement.
 */
module NinjaRules {
  import opened Outcomes
  import opened Text
  import opened NinjaVars
  import opened NinjaGen

  /** One entry of a default description: `x=$x`. */
  function Assignment(x: string): string {
    x + "=$" + x
  }

  function Assignments(xs: seq<string>): (r: seq<string>)
    ensures |r| == |xs|
    ensures forall k :: 0 <= k < |xs| ==> r[k] == Assignment(xs[k])
  {
    if |xs| == 0 then [] else [Assignment(xs[0])] + Assignments(xs[1..])
  }

  /** The description of a rule declared without one: `name(x=$x, y=$y)`. */
  function DefaultDescription(name: string, vars: seq<string>): string {
    name + "(" + Join(Assignments(vars), ", ") + ")"
  }

  /** The names of `xs`, each once, in order of first appearance. */
  function Dedup(xs: seq<string>): (r: seq<string>)
    ensures Elements(r) == Elements(xs)
    ensures Distinct(r)
  {
    if |xs| == 0 then []
    else
      assert xs == xs[..|xs| - 1] + [xs[|xs| - 1]];
      ElementsConcat(xs[..|xs| - 1], [xs[|xs| - 1]]);
      if xs[|xs| - 1] in Dedup(xs[..|xs| - 1]) then Dedup(xs[..|xs| - 1])
      else
        DistinctSnoc(Dedup(xs[..|xs| - 1]), xs[|xs| - 1]);
        ElementsConcat(Dedup(xs[..|xs| - 1]), [xs[|xs| - 1]]);
        Dedup(xs[..|xs| - 1]) + [xs[|xs| - 1]]
  }

  /** A rule name that can stand as plain text in front of `(`. */
  predicate PlainName(name: string) {
    |name| > 0 && '$' !in name && '{' !in name
  }

  // The default description as a template: `name(`, then `x=` and `$x` for every variable
  // (separated by `, `), then `)`.

  function ArgParts(vars: seq<string>, lead: string): seq<Part> {
    if |vars| == 0 then [] else [Lit(lead + vars[0] + "="), Ref(vars[0])] + ArgParts(vars[1..], ", ")
  }

  function DescriptionParts(name: string, vars: seq<string>): seq<Part> {
    [Lit(name + "(")] + ArgParts(vars, "") + [Lit(")")]
  }

  lemma WordIsPlain(w: string)
    requires IsWord(w)
    ensures '$' !in w && '{' !in w && '=' !in w
  {
    assert forall k :: 0 <= k < |w| ==> IsWordChar(w[k]);
  }

  lemma {:induction false} ArgPartsRender(vars: seq<string>, lead: string)
    ensures vars == [] ==> Render(ArgParts(vars, lead)) == ""
    ensures vars != [] ==> Render(ArgParts(vars, lead)) == lead + Join(Assignments(vars), ", ")
    decreases |vars|
  {
    if |vars| == 1 {
      ArgPartsRenderOne(vars, lead);
    } else if |vars| > 1 {
      ArgPartsRender(vars[1..], ", ");
      ArgPartsRenderMore(vars, lead);
    }
  }

  lemma ArgPartsRenderOne(vars: seq<string>, lead: string)
    requires |vars| == 1
    ensures Render(ArgParts(vars, lead)) == lead + Join(Assignments(vars), ", ")
  {
    var head := [Lit(lead + vars[0] + "="), Ref(vars[0])];
    assert ArgParts(vars, lead) == head by {
      assert ArgParts(vars[1..], ", ") == [];
      assert head + [] == head;
    }
    RenderArgHead(lead, vars[0]);
    assert Assignments(vars) == [Assignment(vars[0])];
  }

  lemma ArgPartsRenderMore(vars: seq<string>, lead: string)
    requires |vars| > 1 && Render(ArgParts(vars[1..], ", ")) == ", " + Join(Assignments(vars[1..]), ", ")
    ensures Render(ArgParts(vars, lead)) == lead + Join(Assignments(vars), ", ")
  {
    var head, tail := [Lit(lead + vars[0] + "="), Ref(vars[0])], ArgParts(vars[1..], ", ");
    var a, rest := Assignment(vars[0]), Assignments(vars[1..]);
    assert ArgParts(vars, lead) == head + tail;
    RenderConcat(head, tail);
    RenderArgHead(lead, vars[0]);
    assert Assignments(vars) == [a] + rest;
    JoinCons(a, rest, ", ");
    Regroup(lead, a, ", ", Join(rest, ", "));
  }

  lemma Regroup(w: string, x: string, y: string, z: string)
    ensures (w + x) + (y + z) == w + (x + y + z)
  {
  }

  /** One `name=$name` assignment, after what leads it. */
  lemma RenderArgHead(lead: string, v: string)
    ensures Render([Lit(lead + v + "="), Ref(v)]) == lead + Assignment(v)
  {
    var p := [Lit(lead + v + "="), Ref(v)];
    assert p[1..] == [Ref(v)] && p[1..][1..] == [];
    assert Render(p[1..][1..]) == "";
    assert Render(p[1..]) == ("$" + v) + "";
    assert Render(p) == (lead + v + "=") + (("$" + v) + "");
    assert "=$" == "=" + "$";
  }

  lemma {:induction false} ArgPartsShape(vars: seq<string>, lead: string)
    requires forall k :: 0 <= k < |vars| ==> IsWord(vars[k])
    requires '$' !in lead && '{' !in lead
    ensures WellFormed(ArgParts(vars, lead))
    ensures RefNames(ArgParts(vars, lead)) == vars
    ensures |ArgParts(vars, lead)| > 0 ==> ArgParts(vars, lead)[0].Lit? && ArgParts(vars, lead)[|ArgParts(vars, lead)| - 1].Ref?
    decreases |vars|
  {
    if |vars| > 0 {
      var head := [Lit(lead + vars[0] + "="), Ref(vars[0])];
      var rest := ArgParts(vars[1..], ", ");
      WordIsPlain(vars[0]);
      ArgPartsShape(vars[1..], ", ");
      assert WellFormed(head);
      assert |rest| > 0 ==> rest[0].text[0] == ',';
      WellFormedConcat(head, rest);
      RefNamesConcat(head, rest);
      assert vars == [vars[0]] + vars[1..];
    }
  }

  lemma DescriptionRender(name: string, vars: seq<string>)
    ensures Render(DescriptionParts(name, vars)) == DefaultDescription(name, vars)
  {
    var first, args, last := [Lit(name + "(")], ArgParts(vars, ""), [Lit(")")];
    ArgPartsRender(vars, "");
    assert DescriptionParts(name, vars) == first + args + last;
    RenderConcat(first + args, last);
    RenderConcat(first, args);
    assert Render(first) == name + "(" && Render(last) == ")";
    if vars == [] {
      assert Join(Assignments(vars), ", ") == "";
    } else {
      assert Render(args) == Join(Assignments(vars), ", ");
    }
  }

  lemma DescriptionShape(name: string, vars: seq<string>)
    requires PlainName(name)
    requires forall k :: 0 <= k < |vars| ==> IsWord(vars[k])
    ensures WellFormed(DescriptionParts(name, vars))
    ensures RefNames(DescriptionParts(name, vars)) == vars
  {
    var first, args, last := [Lit(name + "(")], ArgParts(vars, ""), [Lit(")")];
    ArgPartsShape(vars, "");
    assert DescriptionParts(name, vars) == first + args + last;
    WellFormedConcat(first, args);
    WellFormedConcat(first + args, last);
    RefNamesConcat(first + args, last);
    RefNamesConcat(first, args);
  }

  /** The default description references exactly the names listed in it, in order. */
  lemma DescriptionNames(name: string, vars: seq<string>)
    requires PlainName(name)
    requires forall k :: 0 <= k < |vars| ==> IsWord(vars[k])
    ensures TextNames(DefaultDescription(name, vars)) == vars
  {
    DescriptionRender(name, vars);
    DescriptionShape(name, vars);
    TemplateVars(DescriptionParts(name, vars));
  }

  /** A rule declaration; `options` are the keyword options written with the rule (pool, restat, ...). */
  datatype Rule = Rule(name: string, command: string, outputs: seq<string>, inputs: seq<string>,
                       description: string, orderOnly: seq<string>, implicit: seq<string>,
                       options: map<string, string>, vars: set<string>)
  {
    /** The variables of the rule, each once, in order of first appearance. */
    function VarList(): seq<string> {
      Dedup(TextNames(command) + TextsNames(inputs) + TextsNames(outputs))
    }

    /** `vars` holds exactly the variables the command, the inputs and the outputs reference, as the constructor computes them. */
    predicate WellBuilt() {
      vars == RuleVars(command, inputs, outputs)
    }

    /** The arguments the rule is declared with when it is built. */
    function Decl(): RuleDecl {
      RuleDecl(command, options["description" := description])
    }

    /** The argument check of `Rule.build`: missing variables first, then unexpected arguments. */
    function CheckArgs(globals: set<string>, supplied: set<string>): Outcome {
      ArgCheck(name, vars, globals, supplied)
    }

    /** The caller's outputs followed by the rule's own, expanded. */
    function BuildOutputs(callerOutputs: seq<string>, globals: map<string, string>, args: map<string, string>): seq<string> {
      callerOutputs + ExpandAll(outputs, globals, args)
    }

    /** The caller's inputs followed by the rule's own inputs and its implicit entries, expanded. */
    function BuildInputs(callerInputs: seq<string>, globals: map<string, string>, args: map<string, string>): seq<string> {
      callerInputs + ExpandAll(inputs, globals, args) + ExpandAll(implicit, globals, args)
    }

    /** The rule is already declared with other arguments. */
    predicate Conflicts(rules: map<string, RuleDecl>) {
      name in rules && rules[name] != Decl()
    }

    /** What declaring the rule writes: its block, unless it is declared already. */
    function Declaration(rules: map<string, RuleDecl>): seq<Stmt> {
      if name in rules then [] else [RuleBlock(name, Decl())]
    }

    /**
     * `Rule.build`: declares the rule, checks the arguments, then writes one build statement
     * whose outputs and inputs are the caller's followed by the rule's own, expanded; the
     * order-only prerequisites are the rule's followed by the caller's, left unexpanded.
     */
    method Build(ninja: Ninja, callerOutputs: seq<string>, callerInputs: seq<string>, implicit': seq<string>,
                 orderOnly': seq<string>, args: map<string, string>) returns (r: Result<seq<string>>)
      requires WellBuilt() && ninja.Valid()
      modifies ninja
      ensures ninja.Valid()
      ensures ninja.globalVars == old(ninja.globalVars) && ninja.generatorDeps == old(ninja.generatorDeps)
      ensures ninja.closed == old(ninja.closed)
      ensures Conflicts(old(ninja.rules)) ==> (r == Err(RuleMismatch(name)) && ninja.rules == old(ninja.rules)
        && ninja.targets == old(ninja.targets) && ninja.log == old(ninja.log) + [BlankLine])
      ensures !Conflicts(old(ninja.rules)) ==> ninja.rules == old(ninja.rules)[name := Decl()]
      ensures !Conflicts(old(ninja.rules)) && CheckArgs(ninja.globalVars.Keys, args.Keys).Fail? ==>
        r == Err(CheckArgs(ninja.globalVars.Keys, args.Keys).error) && ninja.targets == old(ninja.targets)
        && ninja.log == old(ninja.log) + [BlankLine] + Declaration(old(ninja.rules))
      ensures !Conflicts(old(ninja.rules)) && CheckArgs(ninja.globalVars.Keys, args.Keys).Pass? ==>
        var outs := BuildOutputs(callerOutputs, ninja.globalVars, args);
        (r.Ok? <==> "" !in outs)
        && (r.Ok? ==> (r.value == outs && ninja.targets == old(ninja.targets) + Elements(outs)
            && ninja.log == old(ninja.log) + [BlankLine] + Declaration(old(ninja.rules))
               + [BlankLine, BuildLine(outs, name, BuildInputs(callerInputs, ninja.globalVars, args), implicit',
                                       orderOnly + orderOnly', args)]))
        && (r.Err? ==> (r.error == InvalidTarget("")
            && ninja.log == old(ninja.log) + [BlankLine] + Declaration(old(ninja.rules)) + [BlankLine]
            && exists k :: 0 <= k < |outs| && outs[k] == "" && "" !in outs[..k]
                           && ninja.targets == old(ninja.targets) + Elements(outs[..k])))
    {
      ninja.Newline();
      var declared := ninja.DefineRule(name, Decl());
      if declared.Fail? {
        return Err(declared.error);
      }
      var check := CheckArgs(ninja.globalVars.Keys, args.Keys);
      if check.Fail? {
        return Err(check.error);
      }
      var outs := callerOutputs + ExpandAll(outputs, ninja.globalVars, args);
      var ins := callerInputs + ExpandAll(inputs, ninja.globalVars, args) + ExpandAll(implicit, ninja.globalVars, args);
      ninja.Newline();
      r := ninja.Build(outs, name, ins, implicit', orderOnly + orderOnly', args);
    }
  }

  /**
   * The argument check of `Rule.build` for a rule with variables `vars`: variables supplied
   * neither by the arguments, nor the globals, nor Ninja itself are reported first, then
   * arguments that are not variables of the rule.
   */
  function ArgCheck(rule: string, vars: set<string>, globals: set<string>, supplied: set<string>): (r: Outcome)
    ensures r.Fail? ==> (r.error.MissingArguments? || r.error.UnexpectedArguments?)
                        && r.error.rule == rule && r.error.names != {}
    ensures r.Fail? && r.error.MissingArguments? ==>
      forall v :: v in r.error.names <==> v in vars && v !in supplied && v !in globals && v !in AutoVars
    ensures r.Fail? && r.error.UnexpectedArguments? ==>
      vars <= supplied + globals + AutoVars && forall v :: v in r.error.names <==> v in supplied && v !in vars
  {
    if vars - supplied - globals - AutoVars != {} then Fail(MissingArguments(rule, vars - supplied - globals - AutoVars))
    else if supplied - vars != {} then Fail(UnexpectedArguments(rule, supplied - vars))
    else Pass
  }

  /** The arguments pass iff they are all rule variables and, with the globals and `in`/`out`, cover them all. */
  lemma ArgCheckPass(rule: string, vars: set<string>, globals: set<string>, supplied: set<string>)
    ensures ArgCheck(rule, vars, globals, supplied) == Pass <==>
      supplied <= vars && vars <= supplied + globals + AutoVars
  {
    if ArgCheck(rule, vars, globals, supplied) == Pass {
      forall v | v in vars ensures v in supplied + globals + AutoVars {
        assert v !in vars - supplied - globals - AutoVars;
      }
      forall v | v in supplied ensures v in vars {
        assert v !in supplied - vars;
      }
    }
  }

  /** The check reports missing variables exactly when some variable is supplied by nobody. */
  lemma ArgCheckMissing(rule: string, vars: set<string>, globals: set<string>, supplied: set<string>)
    ensures ArgCheck(rule, vars, globals, supplied).Fail? && ArgCheck(rule, vars, globals, supplied).error.MissingArguments?
      <==> exists v :: v in vars && v !in supplied + globals + AutoVars
  {
    if exists v :: v in vars && v !in supplied + globals + AutoVars {
      var v :| v in vars && v !in supplied + globals + AutoVars;
      assert v in vars - supplied - globals - AutoVars;
    }
  }

  /** The variables of a rule: those of its command, its inputs and its outputs (not its order-only or implicit entries). */
  function RuleVars(command: string, inputs: seq<string>, outputs: seq<string>): set<string> {
    VarsOf(OneText(command)) + VarsOf(Texts(inputs)) + VarsOf(Texts(outputs))
  }

  /** `VarList` lists every variable of the rule exactly once. */
  lemma VarListIsVars(rule: Rule)
    ensures Elements(rule.VarList()) == RuleVars(rule.command, rule.inputs, rule.outputs)
    ensures Distinct(rule.VarList())
    ensures forall k :: 0 <= k < |rule.VarList()| ==> IsWord(rule.VarList()[k])
  {
    var a, b, c := TextNames(rule.command), TextsNames(rule.inputs), TextsNames(rule.outputs);
    ElementsConcat(a + b, c);
    ElementsConcat(a, b);
    assert TextsNames([rule.command]) == a + [];
    NamesAreWords([rule.command]);
    NamesAreWords(rule.inputs);
    NamesAreWords(rule.outputs);
    forall k | 0 <= k < |rule.VarList()| ensures IsWord(rule.VarList()[k]) {
      assert rule.VarList()[k] in Elements(a + b + c);
    }
  }

  /** The default description of a plainly named rule references exactly the rule's variables. */
  lemma DefaultDescriptionVars(rule: Rule)
    ensures PlainName(rule.name) ==> VarsOf(OneText(DefaultDescription(rule.name, rule.VarList()))) == RuleVars(rule.command, rule.inputs, rule.outputs)
  {
    if PlainName(rule.name) {
      var text := DefaultDescription(rule.name, rule.VarList());
      VarListIsVars(rule);
      DescriptionNames(rule.name, rule.VarList());
      assert TextsNames([text]) == TextNames(text) + [];
    }
  }

  /**
   * `Rule(...)`: a rule declared without a description gets `name(x=$x, ...)` over its
   * variables, so its description references exactly the rule's variables.
   */
  function MakeRule(name: string, command: string, outputs: seq<string>, inputs: seq<string>,
                    description: Option<string>, orderOnly: seq<string>, implicit: seq<string>,
                    options: map<string, string>): (r: Rule)
    ensures r.name == name && r.command == command && r.outputs == outputs && r.inputs == inputs
    ensures r.orderOnly == orderOnly && r.implicit == implicit && r.options == options
    ensures description.Some? ==> r.description == description.value
    ensures r.vars == RuleVars(command, inputs, outputs) && r.WellBuilt()
    ensures description.None? ==> exists vs :: Elements(vs) == r.vars && Distinct(vs) && r.description == DefaultDescription(name, vs)
    ensures description.None? && PlainName(name) ==> VarsOf(OneText(r.description)) == r.vars
    ensures description.None? ==> StartsWith(r.description, name + "(") && EndsWith(r.description, ")")
  {
    var plain := Rule(name, command, outputs, inputs, "", orderOnly, implicit, options, RuleVars(command, inputs, outputs));
    match description
    case Some(d) => plain.(description := d)
    case None =>
      var text := DefaultDescription(name, plain.VarList());
      DefaultDescriptionVars(plain);
      VarListIsVars(plain);
      assert text[..|name + "("|] == name + "(";
      plain.(description := text)
  }

  /** The variables of a well-formed template text are the names it references. */
  lemma TemplateTextVars(parts: seq<Part>)
    requires WellFormed(parts)
    ensures VarsOf(OneText(Render(parts))) == Elements(RefNames(parts))
  {
    TemplateVars(parts);
    assert TextsNames([Render(parts)]) == TextNames(Render(parts)) + [];
  }

  /** The outputs of a rule written as a template instantiate as that template's substitution. */
  lemma ExpandTemplates(templates: seq<seq<Part>>, globals: map<string, string>, args: map<string, string>)
    requires forall k :: 0 <= k < |templates| ==> WellFormed(templates[k])
    ensures ExpandAll(RenderAll(templates), globals, args) == SubstituteAll(templates, globals, args)
  {
    forall k | 0 <= k < |templates| ensures ExpandAll(RenderAll(templates), globals, args)[k] == SubstituteAll(templates, globals, args)[k] {
      ExpandTemplate(templates[k], globals, args);
    }
  }

  function RenderAll(templates: seq<seq<Part>>): (r: seq<string>)
    ensures |r| == |templates| && forall k :: 0 <= k < |templates| ==> r[k] == Render(templates[k])
  {
    if |templates| == 0 then [] else [Render(templates[0])] + RenderAll(templates[1..])
  }

  function SubstituteAll(templates: seq<seq<Part>>, globals: map<string, string>, args: map<string, string>): (r: seq<string>)
    ensures |r| == |templates| && forall k :: 0 <= k < |templates| ==> r[k] == Substitute(templates[k], globals, args)
  {
    if |templates| == 0 then [] else [Substitute(templates[0], globals, args)] + SubstituteAll(templates[1..], globals, args)
  }

  /** The variables of several well-formed template texts are the names they reference. */
  lemma {:induction false} TemplateTextsVars(templates: seq<seq<Part>>)
    requires forall k :: 0 <= k < |templates| ==> WellFormed(templates[k])
    ensures VarsOf(Texts(RenderAll(templates))) == TemplatesNames(templates)
    decreases |templates|
  {
    if |templates| > 0 {
      TemplateTextsVars(templates[1..]);
      TemplateVars(templates[0]);
      assert RenderAll(templates)[1..] == RenderAll(templates[1..]);
      ElementsConcat(TextNames(Render(templates[0])), TextsNames(RenderAll(templates[1..])));
    }
  }

  /** The names referenced by several templates. */
  function TemplatesNames(templates: seq<seq<Part>>): set<string> {
    if |templates| == 0 then {} else Elements(RefNames(templates[0])) + TemplatesNames(templates[1..])
  }
  /** The names several templates reference, in order. */
  function AllRefNames(templates: seq<seq<Part>>): seq<string> {
    if |templates| == 0 then [] else RefNames(templates[0]) + AllRefNames(templates[1..])
  }

  /** Reading the variables off several well-formed template texts gives the names they reference. */
  lemma {:induction false} TemplateTextsNames(templates: seq<seq<Part>>)
    requires forall k :: 0 <= k < |templates| ==> WellFormed(templates[k])
    ensures TextsNames(RenderAll(templates)) == AllRefNames(templates)
    ensures Elements(AllRefNames(templates)) == TemplatesNames(templates)
    decreases |templates|
  {
    if |templates| > 0 {
      TemplateTextsNames(templates[1..]);
      TemplateVars(templates[0]);
      assert RenderAll(templates)[1..] == RenderAll(templates[1..]);
      ElementsConcat(RefNames(templates[0]), AllRefNames(templates[1..]));
    }
  }

  /**
   * A rule whose command and paths are written as templates, with its variables and default
   * description read off the templates' references.
   */
  function TemplateRule(name: string, command: seq<Part>, outputs: seq<seq<Part>>, inputs: seq<seq<Part>>,
                        description: Option<string>, orderOnly: seq<string>, options: map<string, string>): (r: Rule)
    ensures r.vars == Elements(RefNames(command) + AllRefNames(inputs) + AllRefNames(outputs))
    ensures r.outputs == RenderAll(outputs) && r.inputs == RenderAll(inputs) && r.implicit == []
  {
    var names := RefNames(command) + AllRefNames(inputs) + AllRefNames(outputs);
    Rule(name, Render(command), RenderAll(outputs), RenderAll(inputs),
         match description case Some(d) => d case None => DefaultDescription(name, Dedup(names)),
         orderOnly, [], options, Elements(names))
  }

  /** Built from well-formed templates, a template rule is the rule `MakeRule` builds from their texts. */
  lemma TemplateRuleIsRule(name: string, command: seq<Part>, outputs: seq<seq<Part>>, inputs: seq<seq<Part>>,
                           description: Option<string>, orderOnly: seq<string>, options: map<string, string>)
    requires WellFormed(command)
    requires forall k :: 0 <= k < |outputs| ==> WellFormed(outputs[k])
    requires forall k :: 0 <= k < |inputs| ==> WellFormed(inputs[k])
    ensures TemplateRule(name, command, outputs, inputs, description, orderOnly, options)
         == MakeRule(name, Render(command), RenderAll(outputs), RenderAll(inputs), description, orderOnly, [], options)
  {
    var t := TemplateRule(name, command, outputs, inputs, description, orderOnly, options);
    var m := MakeRule(name, Render(command), RenderAll(outputs), RenderAll(inputs), description, orderOnly, [], options);
    TemplateVars(command);
    TemplateTextsNames(inputs);
    TemplateTextsNames(outputs);
    assert TextsNames([Render(command)]) == TextNames(Render(command)) + [];
    var a, b, c := RefNames(command), AllRefNames(inputs), AllRefNames(outputs);
    ElementsConcat(a + b, c);
    ElementsConcat(a, b);
    assert m.VarList() == Dedup(a + b + c);
    assert t.vars == m.vars;
    assert t.description == m.description;
  }

  /** A rule built from well-formed templates records exactly the variables its texts reference. */
  lemma TemplateRuleWellBuilt(name: string, command: seq<Part>, outputs: seq<seq<Part>>, inputs: seq<seq<Part>>,
                              description: Option<string>, orderOnly: seq<string>, options: map<string, string>)
    requires WellFormed(command)
    requires forall k :: 0 <= k < |outputs| ==> WellFormed(outputs[k])
    requires forall k :: 0 <= k < |inputs| ==> WellFormed(inputs[k])
    ensures TemplateRule(name, command, outputs, inputs, description, orderOnly, options).WellBuilt()
  {
    TemplateRuleIsRule(name, command, outputs, inputs, description, orderOnly, options);
  }
}
