/**
 * The LL(1) recursive-descent engine of LL1RecursiveDescentParser.py.
 *
 * Recursive descent is simulated on an explicit call stack: a frame per active call holds the
 * rule being expanded, the lookahead kind seen when the call began, and the index of the next
 * action in the chosen alternative.  `Step` does one action.  The rule table is the constant
 * calculator-language table that `generate_rules` stores.
 */
module LL1RecursiveDescent {
  import opened Wrappers
  import opened Trees
  import P = Parser
  import Grammar

  /** An action of an alternative: call a rule (`terminal` false) or match a token kind. */
  datatype Production = Production(name: string, terminal: bool)

  /** `ParseStackFrame`: the node being built, the rule, the lookahead at call time, the action index. */
  datatype Frame = Frame(node: Tree, rule: string, firstToken: string, index: nat)

  const StartRuleName := "program"

  /** The marker that ends every alternative: reaching it returns from the call. */
  const Sentinel := Production("", false)

  function Call(rule: string): Production { Production(rule, false) }
  function Match(kind: string): Production { Production(kind, true) }

  const ProgramRules := [Call("stmt_list"), Match("<eof>"), Sentinel]
  const StmtListRules := [Call("stmt"), Call("stmt_list"), Sentinel]
  const CondRules := [Call("expr"), Call("ro"), Call("expr"), Sentinel]
  const ExprRules := [Call("term"), Call("term_tail"), Sentinel]
  const TermTailRules := [Call("ao"), Call("term"), Call("term_tail"), Sentinel]
  const TermRules := [Call("factor"), Call("factor_tail"), Sentinel]
  const FactorTailRules := [Call("mo"), Call("factor"), Call("factor_tail"), Sentinel]
  const Epsilon := [Sentinel]

  /** The table `generate_rules` builds for the calculator language, one map per rule. */
  const ProgramTable := map[
    "<id>" := ProgramRules, "read" := ProgramRules, "write" := ProgramRules,
    "<eof>" := ProgramRules, "if" := ProgramRules, "while" := ProgramRules]
  const StmtListTable := map[
    "<id>" := StmtListRules, "read" := StmtListRules, "write" := StmtListRules,
    "if" := StmtListRules, "while" := StmtListRules, "end" := Epsilon, "<eof>" := Epsilon]
  const AssignRules := [Match("<id>"), Match(":="), Call("expr"), Sentinel]
  const ReadRules := [Match("read"), Match("<id>"), Sentinel]
  const WriteRules := [Match("write"), Call("expr"), Sentinel]
  const IfRules := [Match("if"), Call("cond"), Call("stmt_list"), Match("end"), Sentinel]
  const WhileRules := [Match("while"), Call("cond"), Call("stmt_list"), Match("end"), Sentinel]
  const StmtTable := map[
    "<id>" := AssignRules, "read" := ReadRules, "write" := WriteRules, "if" := IfRules, "while" := WhileRules]
  const CondTable := map["(" := CondRules, "<id>" := CondRules, "<i_lit>" := CondRules]
  const ExprTable := map["(" := ExprRules, "<id>" := ExprRules, "<i_lit>" := ExprRules]
  const TermTailTable := map[
    "+" := TermTailRules, "-" := TermTailRules, ")" := Epsilon, "<id>" := Epsilon,
    "read" := Epsilon, "write" := Epsilon, "<eof>" := Epsilon,
    "if" := Epsilon, "while" := Epsilon, "end" := Epsilon,
    "=" := Epsilon, "<>" := Epsilon, "<" := Epsilon,
    ">" := Epsilon, "<=" := Epsilon, ">=" := Epsilon]
  const TermTable := map["(" := TermRules, "<id>" := TermRules, "<i_lit>" := TermRules]
  const FactorTailTable := map[
    "*" := FactorTailRules, "/" := FactorTailRules, "+" := Epsilon,
    "-" := Epsilon, ")" := Epsilon, "<id>" := Epsilon,
    "read" := Epsilon, "write" := Epsilon, "<eof>" := Epsilon,
    "if" := Epsilon, "while" := Epsilon, "end" := Epsilon,
    "=" := Epsilon, "<>" := Epsilon, "<" := Epsilon,
    ">" := Epsilon, "<=" := Epsilon, ">=" := Epsilon]
  const FactorTable := map[
    "<i_lit>" := [Match("<i_lit>"), Sentinel],
    "<id>" := [Match("<id>"), Sentinel],
    "(" := [Match("("), Call("expr"), Match(")"), Sentinel]]
  const RoTable := map[
    "=" := [Match("="), Sentinel], "<>" := [Match("<>"), Sentinel],
    "<" := [Match("<"), Sentinel], "<=" := [Match("<="), Sentinel],
    ">" := [Match(">"), Sentinel], ">=" := [Match(">="), Sentinel]]
  const AoTable := map["+" := [Match("+"), Sentinel], "-" := [Match("-"), Sentinel]]
  const MoTable := map["*" := [Match("*"), Sentinel], "/" := [Match("/"), Sentinel]]

  /** `recursive_descent_rules`: rule name, then lookahead kind, to the alternative's actions. */
  const Rules: map<string, map<string, seq<Production>>> := map[
    "program" := ProgramTable, "stmt_list" := StmtListTable, "stmt" := StmtTable,
    "cond" := CondTable, "expr" := ExprTable, "term_tail" := TermTailTable,
    "term" := TermTable, "factor_tail" := FactorTailTable, "factor" := FactorTable,
    "ro" := RoTable, "ao" := AoTable, "mo" := MoTable]

  /** The alternative a frame follows: looked up by its rule and the lookahead captured at call time. */
  function Alternative(rules: map<string, map<string, seq<Production>>>, f: Frame): (r: Option<seq<Production>>)
    ensures r.Some? <==> f.rule in rules && f.firstToken in rules[f.rule]
    ensures r.Some? ==> r.value == rules[f.rule][f.firstToken]
  {
    if f.rule in rules && f.firstToken in rules[f.rule] then Some(rules[f.rule][f.firstToken]) else None
  }

  /** An alternative ends with the sentinel and has it nowhere else. */
  predicate EndsWithSentinel(alt: seq<Production>)
  {
    |alt| > 0 && alt[|alt| - 1] == Sentinel && forall i :: 0 <= i < |alt| - 1 ==> alt[i].name != ""
  }

  /** The rules of the calculator language. */
  const RuleNames := {"program", "stmt_list", "stmt", "cond", "expr", "term_tail", "term",
                      "factor_tail", "factor", "ro", "ao", "mo"}

  /** Every rule an alternative calls before its sentinel is one of the rules. */
  predicate CallsDefined(alt: seq<Production>)
  {
    forall i :: 0 <= i < |alt| - 1 && !alt[i].terminal ==> alt[i].name in RuleNames
  }

  /** All the alternatives of one rule's map are well formed. */
  predicate TableWellFormed(m: map<string, seq<Production>>)
  {
    forall k :: k in m ==> EndsWithSentinel(m[k]) && CallsDefined(m[k])
  }

  /** The table has an entry for every rule of the language ... */
  lemma RuleNamesInRules()
    ensures forall r :: r in RuleNames ==> r in Rules
  {
  }

  /** ... and for nothing else. */
  lemma RulesInRuleNames()
    ensures forall r :: r in Rules ==> r in RuleNames
  {
  }

  lemma ProgramTableWellFormed()
    ensures TableWellFormed(ProgramTable)
  {
  }

  lemma StmtListTableWellFormed()
    ensures TableWellFormed(StmtListTable)
  {
  }

  lemma StmtAlternativesWellFormed()
    ensures EndsWithSentinel(AssignRules) && CallsDefined(AssignRules)
    ensures EndsWithSentinel(ReadRules) && CallsDefined(ReadRules)
    ensures EndsWithSentinel(WriteRules) && CallsDefined(WriteRules)
    ensures EndsWithSentinel(IfRules) && CallsDefined(IfRules)
    ensures EndsWithSentinel(WhileRules) && CallsDefined(WhileRules)
  {
  }

  lemma StmtTableWellFormed()
    ensures TableWellFormed(StmtTable)
  {
    StmtAlternativesWellFormed();
  }

  lemma CondTableWellFormed()
    ensures TableWellFormed(CondTable)
  {
  }

  lemma ExprTableWellFormed()
    ensures TableWellFormed(ExprTable)
  {
  }

  lemma TermTableWellFormed()
    ensures TableWellFormed(TermTable)
  {
  }

  lemma FactorTableWellFormed()
    ensures TableWellFormed(FactorTable)
  {
  }

  lemma TermTailTableWellFormed()
    ensures TableWellFormed(TermTailTable)
  {
  }

  lemma FactorTailTableWellFormed()
    ensures TableWellFormed(FactorTailTable)
  {
  }

  lemma RoTableWellFormed()
    ensures TableWellFormed(RoTable)
  {
  }

  lemma AoTableWellFormed()
    ensures TableWellFormed(AoTable)
  {
  }

  lemma MoTableWellFormed()
    ensures TableWellFormed(MoTable)
  {
  }

  lemma StatementTablesWellFormed()
    ensures TableWellFormed(ProgramTable) && TableWellFormed(StmtListTable) && TableWellFormed(StmtTable)
  {
    ProgramTableWellFormed();
    StmtListTableWellFormed();
    StmtTableWellFormed();
  }

  lemma ExpressionTablesWellFormed()
    ensures TableWellFormed(CondTable) && TableWellFormed(ExprTable) && TableWellFormed(TermTable)
    ensures TableWellFormed(FactorTable)
  {
    CondTableWellFormed();
    ExprTableWellFormed();
    TermTableWellFormed();
    FactorTableWellFormed();
  }

  lemma TailTablesWellFormed()
    ensures TableWellFormed(TermTailTable) && TableWellFormed(FactorTailTable)
  {
    TermTailTableWellFormed();
    FactorTailTableWellFormed();
  }

  lemma OperatorTablesWellFormed()
    ensures TableWellFormed(RoTable) && TableWellFormed(AoTable) && TableWellFormed(MoTable)
  {
    RoTableWellFormed();
    AoTableWellFormed();
    MoTableWellFormed();
  }

  lemma ProgramRuleTable()
    ensures "program" in Rules && Rules["program"] == ProgramTable
  {
    // no later entry of the map overrides this one
    assert "program" != "stmt_list";
    assert "program" != "stmt";
    assert "program" != "cond";
    assert "program" != "expr";
    assert "program" != "term_tail";
    assert "program" != "term";
    assert "program" != "factor_tail";
    assert "program" != "factor";
    assert "program" != "ro";
    assert "program" != "ao";
    assert "program" != "mo";
  }

  lemma StmtListRuleTable()
    ensures "stmt_list" in Rules && Rules["stmt_list"] == StmtListTable
  {
  }

  lemma StmtRuleTable()
    ensures "stmt" in Rules && Rules["stmt"] == StmtTable
  {
  }

  lemma CondRuleTable()
    ensures "cond" in Rules && Rules["cond"] == CondTable
  {
  }

  lemma ExprRuleTable()
    ensures "expr" in Rules && Rules["expr"] == ExprTable
  {
  }

  lemma TermRuleTable()
    ensures "term" in Rules && Rules["term"] == TermTable
  {
  }

  lemma FactorRuleTable()
    ensures "factor" in Rules && Rules["factor"] == FactorTable
  {
  }

  lemma TermTailRuleTable()
    ensures "term_tail" in Rules && Rules["term_tail"] == TermTailTable
  {
  }

  lemma FactorTailRuleTable()
    ensures "factor_tail" in Rules && Rules["factor_tail"] == FactorTailTable
  {
  }

  lemma RoRuleTable()
    ensures "ro" in Rules && Rules["ro"] == RoTable
  {
  }

  lemma AoRuleTable()
    ensures "ao" in Rules && Rules["ao"] == AoTable
  {
  }

  lemma MoRuleTable()
    ensures "mo" in Rules && Rules["mo"] == MoTable
  {
  }

  lemma StatementRuleWellFormed(rule: string)
    requires rule == "program" || rule == "stmt_list" || rule == "stmt"
    ensures rule in Rules && TableWellFormed(Rules[rule])
  {
    if rule == "program" {
      ProgramRuleTable();
      ProgramTableWellFormed();
    } else if rule == "stmt_list" {
      StmtListRuleTable();
      StmtListTableWellFormed();
    } else {
      StmtRuleTable();
      StmtTableWellFormed();
    }
  }

  lemma ExpressionRuleWellFormed(rule: string)
    requires rule == "cond" || rule == "expr" || rule == "term" || rule == "factor"
    ensures rule in Rules && TableWellFormed(Rules[rule])
  {
    if rule == "cond" {
      CondRuleTable();
      CondTableWellFormed();
    } else if rule == "expr" {
      ExprRuleTable();
      ExprTableWellFormed();
    } else if rule == "term" {
      TermRuleTable();
      TermTableWellFormed();
    } else {
      FactorRuleTable();
      FactorTableWellFormed();
    }
  }

  lemma TailRuleWellFormed(rule: string)
    requires rule == "term_tail" || rule == "factor_tail"
    ensures rule in Rules && TableWellFormed(Rules[rule])
  {
    if rule == "term_tail" {
      TermTailRuleTable();
      TermTailTableWellFormed();
    } else {
      FactorTailRuleTable();
      FactorTailTableWellFormed();
    }
  }

  lemma OperatorRuleWellFormed(rule: string)
    requires rule == "ro" || rule == "ao" || rule == "mo"
    ensures rule in Rules && TableWellFormed(Rules[rule])
  {
    if rule == "ro" {
      RoRuleTable();
      RoTableWellFormed();
    } else if rule == "ao" {
      AoRuleTable();
      AoTableWellFormed();
    } else {
      MoRuleTable();
      MoTableWellFormed();
    }
  }

  /** The map of every rule of the table is well formed. */
  lemma RuleTableWellFormed(rule: string)
    requires rule in Rules
    ensures TableWellFormed(Rules[rule])
  {
    RulesInRuleNames();
    if rule == "program" || rule == "stmt_list" || rule == "stmt" {
      StatementRuleWellFormed(rule);
    } else if rule == "cond" || rule == "expr" || rule == "term" || rule == "factor" {
      ExpressionRuleWellFormed(rule);
    } else if rule == "term_tail" || rule == "factor_tail" {
      TailRuleWellFormed(rule);
    } else {
      OperatorRuleWellFormed(rule);
    }
  }

  /**
   * Every alternative of the table ends with the sentinel, and only there, and every rule it calls
   * exists: the simulated descent never falls off an alternative and never calls a missing rule.
   */
  lemma RulesWellFormed(rule: string, kind: string)
    requires rule in Rules && kind in Rules[rule]
    ensures EndsWithSentinel(Rules[rule][kind])
    ensures CallsDefined(Rules[rule][kind]) && forall i :: 0 <= i < |Rules[rule][kind]| - 1 && !Rules[rule][kind][i].terminal ==> Rules[rule][kind][i].name in Rules
  {
    RuleNamesInRules();
    RuleTableWellFormed(rule);
  }

  /** No alternative of a table is empty: each has at least its sentinel. */
  predicate NoEmptyAlternative(rules: map<string, map<string, seq<Production>>>)
  {
    forall r, k :: r in rules && k in rules[r] ==> |rules[r][k]| > 0
  }

  /** Frame `caller` is waiting at the action that called `callee`'s rule. */
  predicate Suspended(rules: map<string, map<string, seq<Production>>>, caller: Frame, callee: Frame)
  {
    && Alternative(rules, caller).Some?
    && caller.index < |Alternative(rules, caller).value| - 1
    && Alternative(rules, caller).value[caller.index] == Call(callee.rule)
  }

  /**
   * The frames form a chain of pending calls: each frame below the top waits at the call of the
   * rule above it, and the top frame's index has not passed its alternative's sentinel.
   */
  predicate CallChain(rules: map<string, map<string, seq<Production>>>, stack: seq<Frame>)
  {
    && (forall i :: 0 <= i < |stack| - 1 ==> Suspended(rules, stack[i], stack[i + 1]))
    && (|stack| > 0 ==> var top := stack[|stack| - 1];
          Alternative(rules, top).Some? ==> top.index < |Alternative(rules, top).value|)
  }

  /** Calling the rule named at the top frame's index extends the chain. */
  lemma CallExtendsChain(rules: map<string, map<string, seq<Production>>>, stack: seq<Frame>, callee: Frame)
    requires NoEmptyAlternative(rules) && CallChain(rules, stack) && |stack| > 0
    requires var top := stack[|stack| - 1];
      Suspended(rules, top, callee)
    requires callee.index == 0
    ensures CallChain(rules, stack + [callee])
  {
    var s := stack + [callee];
    forall i | 0 <= i < |s| - 1
      ensures Suspended(rules, s[i], s[i + 1])
    {
      if i < |stack| - 1 {
        assert s[i] == stack[i] && s[i + 1] == stack[i + 1];
      }
    }
  }

  /** Matching the token at the top frame's index moves the top frame past it. */
  lemma MatchAdvancesChain(rules: map<string, map<string, seq<Production>>>, stack: seq<Frame>)
    requires CallChain(rules, stack) && |stack| > 0
    requires var top := stack[|stack| - 1];
      Alternative(rules, top).Some? && top.index < |Alternative(rules, top).value| - 1
    ensures var top := stack[|stack| - 1];
      CallChain(rules, stack[..|stack| - 1] + [top.(index := top.index + 1)])
  {
    var top := stack[|stack| - 1];
    var s := stack[..|stack| - 1] + [top.(index := top.index + 1)];
    forall i | 0 <= i < |s| - 1
      ensures Suspended(rules, s[i], s[i + 1])
    {
      assert s[i] == stack[i];
      assert s[i + 1].rule == stack[i + 1].rule;
    }
  }

  /** Returning from the top frame moves its caller past the call. */
  lemma ReturnShortensChain(rules: map<string, map<string, seq<Production>>>, stack: seq<Frame>)
    requires CallChain(rules, stack) && |stack| > 1
    ensures var below := stack[..|stack| - 1];
      var caller := below[|below| - 1];
      CallChain(rules, below[..|below| - 1] + [caller.(index := caller.index + 1)])
  {
    var below := stack[..|stack| - 1];
    var caller := below[|below| - 1];
    var s := below[..|below| - 1] + [caller.(index := caller.index + 1)];
    assert Suspended(rules, stack[|stack| - 2], stack[|stack| - 1]);
    forall i | 0 <= i < |s| - 1
      ensures Suspended(rules, s[i], s[i + 1])
    {
      assert s[i] == stack[i];
      assert s[i + 1].rule == stack[i + 1].rule;
    }
  }

  /** The nodes of the frames, bottom to top. */
  function Nodes(stack: seq<Frame>): (ns: seq<Tree>)
    ensures |ns| == |stack| && forall i :: 0 <= i < |stack| ==> ns[i] == stack[i].node
  {
    seq(|stack|, i requires 0 <= i < |stack| => stack[i].node)
  }

  /** Each node is a child of the one before it, and knows it as its parent. */
  ghost predicate IsPath(ns: seq<Tree>)
    reads set i | 0 <= i < |ns| :: ns[i]
  {
    forall i :: 0 < i < |ns| ==> ns[i].parent == ns[i - 1] && ns[i] in ns[i - 1].children
  }

  lemma PathPrefix(ns: seq<Tree>, k: nat)
    requires IsPath(ns) && k <= |ns|
    ensures IsPath(ns[..k])
  {
  }

  lemma PathExtend(ns: seq<Tree>, c: Tree)
    requires IsPath(ns) && |ns| > 0
    requires c.parent == ns[|ns| - 1] && c in ns[|ns| - 1].children
    ensures IsPath(ns + [c])
  {
  }

  class RecursiveDescentParser {
    const base: P.Parser
    var rules: map<string, map<string, seq<Production>>>
    var stack: seq<Frame>

    /** A new engine: an empty table (`generate_rules` fills it) and a reset state. */
    constructor ()
      ensures fresh(base) && rules == map[]
      ensures stack == [] && base.tree == null && base.currentNode == null
      ensures base.tokenStream == [] && !base.finished && base.grammar == None
    {
      base := new P.Parser();
      rules := map[];
      stack := [];
    }

    /** `generate_rules`: installs the calculator-language table. */
    method GenerateRules()
      modifies this`rules
      ensures rules == Rules && NoEmptyAlternative(rules)
    {
      rules := Rules;
      forall r, k | r in rules && k in rules[r]
        ensures |rules[r][k]| > 0
      {
        RulesWellFormed(r, k);
      }
    }

    /**
     * `input_grammar`: a description that does not scan leaves the grammar and the table as they
     * were; one that scans is stored and the table is regenerated.
     */
    method InputGrammar(description: string) returns (error: Option<Grammar.GrammarError>)
      modifies base`grammar, this`rules
      ensures Grammar.Parse(description).Err? ==>
        && error == Some(Grammar.Parse(description).error)
        && base.grammar == old(base.grammar) && rules == old(rules)
      ensures Grammar.Parse(description).Ok? ==>
        && error == None && base.grammar == Some(Grammar.Parse(description).value)
        && rules == Rules && NoEmptyAlternative(rules)
    {
      error := base.InputGrammar(description);
      if error.None? {
        GenerateRules();
      }
    }

    /** The nodes held by the frames. */
    ghost function StackNodes(): set<Tree>
      reads this
    {
      set f | f in stack :: f.node
    }

    /**
     * The stack is a path down the tree from its root, and each frame below the top is suspended
     * at the call of the rule of the frame above it; no frame's index passes its sentinel.
     */
    ghost predicate Valid()
      reads this, base
    {
      && NoEmptyAlternative(rules)
      && (|stack| > 0 ==> base.tree != null && stack[0].node == base.tree)
      && (base.tree == null <==> base.currentNode == null)
      && CallChain(rules, stack)
    }

    /** `node_on_stack` */
    function NodeOnStack(n: Tree): (b: bool)
      reads this
      ensures b <==> exists i :: 0 <= i < |stack| && stack[i].node == n
    {
      P.NodeOnStack(stack, (f: Frame) => f.node, n)
    }

    /** Whether the next step reads `token_stream[0]` (the source indexes it unguarded). */
    ghost predicate NeedsLookahead()
      reads this, base
    {
      if |stack| == 0 then base.currentNode == null
      else
        var top := stack[|stack| - 1];
        Alternative(rules, top).Some? && top.index < |Alternative(rules, top).value| - 1
    }

    /** `step`: one action of the simulated recursive descent. */
    method Step()
      requires Valid() && IsPath(Nodes(stack)) && !base.finished
      requires NeedsLookahead() ==> |base.tokenStream| > 0
      modifies this, base, if |stack| > 0 then {stack[|stack| - 1].node} else {}
      ensures Valid() && IsPath(Nodes(stack))
      ensures rules == old(rules) && base.grammar == old(base.grammar)
      // empty stack, nothing built yet: the root is created and the start rule is called
      ensures old(|stack|) == 0 && old(base.currentNode) == null ==>
        && fresh(base.tree) && base.tree.name == StartRuleName && base.tree.parent == null && base.tree.children == []
        && base.currentNode == base.tree
        && stack == [Frame(base.tree, StartRuleName, old(base.tokenStream)[0].kind, 0)]
        && base.tokenStream == old(base.tokenStream) && !base.finished
      // empty stack after the start rule returned: parsing is over
      ensures old(|stack|) == 0 && old(base.currentNode) != null ==>
        && base.finished && base.tree == old(base.tree) && base.currentNode == base.tree
        && stack == old(stack) && base.tokenStream == old(base.tokenStream)
      ensures old(|stack|) > 0 ==>
        var top := old(stack)[old(|stack|) - 1];
        var below := old(stack)[..old(|stack|) - 1];
        && base.tree == old(base.tree)
        && top.node.name == old(top.node.name) && top.node.parent == old(top.node.parent)
        && match Alternative(rules, top)
          case None =>
            // no alternative for this rule and lookahead: an "ERROR" child, and stop
            && base.finished && fresh(base.currentNode) && base.currentNode.name == "ERROR"
            && base.currentNode.parent == top.node && base.currentNode.children == []
            && top.node.children == old(top.node.children) + [base.currentNode]
            && stack == old(stack) && base.tokenStream == old(base.tokenStream)
          case Some(alt) =>
            if top.index >= |alt| - 1 then
              // the sentinel: return to the caller, which moves past its call
              && !base.finished && base.currentNode == top.node
              && top.node.children == old(top.node.children)
              && (|below| == 0 ==> stack == [])
              && (|below| > 0 ==> stack == below[..|below| - 1] + [below[|below| - 1].(index := below[|below| - 1].index + 1)])
              && base.tokenStream == old(base.tokenStream)
            else if !alt[top.index].terminal then
              // a call: one child named after the rule, and a frame for it
              && !base.finished && fresh(base.currentNode) && base.currentNode.name == alt[top.index].name
              && base.currentNode.parent == top.node && base.currentNode.children == []
              && top.node.children == old(top.node.children) + [base.currentNode]
              && stack == old(stack) + [Frame(base.currentNode, alt[top.index].name, old(base.tokenStream)[0].kind, 0)]
              && base.tokenStream == old(base.tokenStream)
            else if alt[top.index].name == old(base.tokenStream)[0].kind then
              // a match: a child holding the token's image; the token is consumed
              && !base.finished && fresh(base.currentNode) && base.currentNode.name == old(base.tokenStream)[0].image
              && base.currentNode.parent == top.node && base.currentNode.children == []
              && top.node.children == old(top.node.children) + [base.currentNode]
              && stack == below + [top.(index := top.index + 1)]
              && base.tokenStream == old(base.tokenStream)[1..]
            else
              // a mismatch: an "ERROR" child, and stop
              && base.finished && fresh(base.currentNode) && base.currentNode.name == "ERROR"
              && base.currentNode.parent == top.node && base.currentNode.children == []
              && top.node.children == old(top.node.children) + [base.currentNode]
              && stack == old(stack) && base.tokenStream == old(base.tokenStream)
    {
      if |stack| < 1 {
        if base.currentNode == null {
          Begin();
        } else {
          base.currentNode := base.tree;
          base.finished := true;
        }
        return;
      }
      var top := stack[|stack| - 1];
      var alt := Alternative(rules, top);
      if alt.None? {
        Fail();
      } else if top.index >= |alt.value| - 1 {
        Return();
      } else if !alt.value[top.index].terminal {
        Descend();
      } else if alt.value[top.index].name == base.tokenStream[0].kind {
        MatchToken();
      } else {
        Fail();
      }
    }

    /** The start of the descent: a root named after the start rule, and a frame calling it. */
    method Begin()
      requires Valid() && |stack| == 0 && base.currentNode == null && |base.tokenStream| > 0
      modifies this`stack, base`tree, base`currentNode
      ensures Valid() && IsPath(Nodes(stack))
      ensures fresh(base.tree) && base.tree.name == StartRuleName && base.tree.parent == null && base.tree.children == []
      ensures base.currentNode == base.tree
      ensures stack == [Frame(base.tree, StartRuleName, base.tokenStream[0].kind, 0)]
    {
      var root := new Tree(StartRuleName, null, []);
      base.tree, base.currentNode := root, root;
      stack := [Frame(root, StartRuleName, base.tokenStream[0].kind, 0)];
    }

    /** An "ERROR" child under the top frame's node, and the parse stops. */
    method Fail()
      requires Valid() && IsPath(Nodes(stack)) && |stack| > 0
      modifies base`currentNode, base`finished, stack[|stack| - 1].node
      ensures Valid() && IsPath(Nodes(stack)) && base.finished
      ensures var t := stack[|stack| - 1].node;
        && fresh(base.currentNode) && base.currentNode.name == "ERROR"
        && base.currentNode.parent == t && base.currentNode.children == []
        && t.children == old(t.children) + [base.currentNode]
        && t.name == old(t.name) && t.parent == old(t.parent)
    {
      var error := AppendChild(stack[|stack| - 1].node, "ERROR");
      base.currentNode := error;
      base.finished := true;
    }

    /** At the sentinel: the top frame's node becomes current, the frame is popped, the caller advances. */
    method Return()
      requires Valid() && IsPath(Nodes(stack)) && |stack| > 0
      requires var top := stack[|stack| - 1];
        Alternative(rules, top).Some? && top.index >= |Alternative(rules, top).value| - 1
      modifies this`stack, base`currentNode
      ensures Valid() && IsPath(Nodes(stack))
      ensures base.currentNode == old(stack[|stack| - 1].node)
      ensures var below := old(stack[..|stack| - 1]);
        && (|below| == 0 ==> stack == [])
        && (|below| > 0 ==> stack == below[..|below| - 1] + [below[|below| - 1].(index := below[|below| - 1].index + 1)])
    {
      base.currentNode := stack[|stack| - 1].node;
      ghost var ns := Nodes(stack);
      var below := stack[..|stack| - 1];
      if |below| == 0 {
        stack := [];
      } else {
        ReturnShortensChain(rules, stack);
        var caller := below[|below| - 1];
        stack := below[..|below| - 1] + [caller.(index := caller.index + 1)];
        PathPrefix(ns, |stack|);
        assert Nodes(stack) == ns[..|stack|];
      }
    }

    /** A call: a child named after the called rule, and a frame for it with the current lookahead. */
    method Descend()
      requires Valid() && IsPath(Nodes(stack)) && |stack| > 0 && |base.tokenStream| > 0
      requires var top := stack[|stack| - 1];
        Alternative(rules, top).Some? && top.index < |Alternative(rules, top).value| - 1
        && !Alternative(rules, top).value[top.index].terminal
      modifies this`stack, base`currentNode, stack[|stack| - 1].node
      ensures Valid() && IsPath(Nodes(stack))
      ensures var top := old(stack[|stack| - 1]);
        var name := Alternative(rules, top).value[top.index].name;
        && fresh(base.currentNode) && base.currentNode.name == name
        && base.currentNode.parent == top.node && base.currentNode.children == []
        && top.node.children == old(top.node.children) + [base.currentNode]
        && top.node.name == old(top.node.name) && top.node.parent == old(top.node.parent)
        && stack == old(stack) + [Frame(base.currentNode, name, base.tokenStream[0].kind, 0)]
    {
      var top := stack[|stack| - 1];
      var action := Alternative(rules, top).value[top.index];
      var child := AppendChild(top.node, action.name);
      base.currentNode := child;
      var callee := Frame(child, action.name, base.tokenStream[0].kind, 0);
      CallExtendsChain(rules, stack, callee);
      PathExtend(Nodes(stack), child);
      stack := stack + [callee];
      assert Nodes(stack) == Nodes(old(stack)) + [child];
    }

    /** A match: a child holding the token's image, the token consumed, the top frame advanced. */
    method MatchToken()
      requires Valid() && IsPath(Nodes(stack)) && |stack| > 0 && |base.tokenStream| > 0
      requires var top := stack[|stack| - 1];
        Alternative(rules, top).Some? && top.index < |Alternative(rules, top).value| - 1
      modifies this`stack, base`currentNode, base`tokenStream, stack[|stack| - 1].node
      ensures Valid() && IsPath(Nodes(stack))
      ensures var top := old(stack[|stack| - 1]);
        && fresh(base.currentNode) && base.currentNode.name == old(base.tokenStream[0].image)
        && base.currentNode.parent == top.node && base.currentNode.children == []
        && top.node.children == old(top.node.children) + [base.currentNode]
        && top.node.name == old(top.node.name) && top.node.parent == old(top.node.parent)
        && stack == old(stack[..|stack| - 1]) + [top.(index := top.index + 1)]
        && base.tokenStream == old(base.tokenStream[1..])
    {
      var top := stack[|stack| - 1];
      var child := AppendChild(top.node, base.tokenStream[0].image);
      base.currentNode := child;
      base.tokenStream := base.tokenStream[1..];
      AdvanceTop();
    }

    /** `parse_stack[-1].index += 1` after a match: the chain of pending calls is kept. */
    method AdvanceTop()
      requires CallChain(rules, stack) && |stack| > 0
      requires var top := stack[|stack| - 1];
        Alternative(rules, top).Some? && top.index < |Alternative(rules, top).value| - 1
      modifies this`stack
      ensures var top := old(stack[|stack| - 1]);
        stack == old(stack[..|stack| - 1]) + [top.(index := top.index + 1)]
      ensures CallChain(rules, stack) && Nodes(stack) == old(Nodes(stack))
    {
      MatchAdvancesChain(rules, stack);
      var top := stack[|stack| - 1];
      stack := stack[..|stack| - 1] + [top.(index := top.index + 1)];
    }

    /**
     * `add_child` with the default index, on the top frame's node: the path of the stack is kept.
     */
    method AppendChild(t: Tree, name: string) returns (child: Tree)
      requires |stack| > 0 && t == stack[|stack| - 1].node && IsPath(Nodes(stack))
      modifies t
      ensures fresh(child) && child.name == name && child.parent == t && child.children == []
      ensures t.children == old(t.children) + [child] && t.name == old(t.name) && t.parent == old(t.parent)
      ensures IsPath(Nodes(stack))
    {
      ghost var ns := Nodes(stack);
      child := t.AddChild(name, -1, []);
      assert t.children == old(t.children) + [child];
      forall i | 0 < i < |ns|
        ensures ns[i].parent == ns[i - 1] && ns[i] in ns[i - 1].children
      {
        assert old(ns[i].parent == ns[i - 1] && ns[i] in ns[i - 1].children);
        if ns[i - 1] == t {
          assert old(t.children) <= t.children;
        }
      }
    }

    /** `reset`: no tree, no current node, empty stack and token stream, not finished. */
    method Reset()
      modifies this, base
      ensures stack == [] && base.tree == null && base.currentNode == null
      ensures base.tokenStream == [] && !base.finished
      ensures rules == old(rules) && base.grammar == old(base.grammar)
      ensures NoEmptyAlternative(rules) ==> Valid()
    {
      base.tree := null;
      base.currentNode := null;
      stack := [];
      base.tokenStream := [];
      base.finished := false;
    }
  }
}
