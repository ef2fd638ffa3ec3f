/**
 * The table-driven LL(1) engine of LL1TableParser.py.
 *
 * The stack holds one frame per grammar symbol still to be matched; a nonterminal on top is replaced by
 * the production that the 12 x 21 table selects for it and the next token's kind.  The tables are the
 * constants `generate_rules` stores for the calculator language; they are proved to describe the same
 * grammar as the recursive-descent engine's table.
 */
module LL1Table {
  import opened Wrappers
  import opened Trees
  import P = Parser
  import Grammar
  import RD = LL1RecursiveDescent

  /** `LLTableRule`: one symbol of a production. */
  datatype TableRule = TableRule(terminal: bool, item: string)

  /** `LLStackFrame`: the node made for a symbol, whether it is a terminal, and the symbol. */
  datatype Frame = Frame(node: Tree, terminal: bool, rule: string)

  /** `ll_rule_list`: the table's rows. */
  const RuleList := ["program", "stmt_list", "stmt", "cond", "expr", "term_tail",
                     "term", "factor_tail", "factor", "ro", "ao", "mo"]

  /** `ll_token_list`: the table's columns. */
  const TokenList := ["<id>", "<i_lit>", "read", "write", "if", "while", "end", ":=", "(",
                      ")", "+", "-", "*", "/", "=", "<>", "<", "<=", ">", ">=", "<eof>"]

  /** `table`: the production to use for a rule and a lookahead kind, -1 for none. */
  const Table: seq<seq<int>> := [
    [ 1, -1,  1,  1,  1,  1, -1, -1, -1, -1, -1, -1, -1, -1, -1, -1, -1, -1, -1, -1,  1],
    [ 2, -1,  2,  2,  2,  2,  3, -1, -1, -1, -1, -1, -1, -1, -1, -1, -1, -1, -1, -1,  3],
    [ 4, -1,  5,  6,  7,  8, -1, -1, -1, -1, -1, -1, -1, -1, -1, -1, -1, -1, -1, -1, -1],
    [ 9,  9, -1, -1, -1, -1, -1, -1,  9, -1, -1, -1, -1, -1, -1, -1, -1, -1, -1, -1, -1],
    [10, 10, -1, -1, -1, -1, -1, -1, 10, -1, -1, -1, -1, -1, -1, -1, -1, -1, -1, -1, -1],
    [12, -1, 12, 12, 12, 12, 12, -1, -1, 12, 11, 11, -1, -1, 12, 12, 12, 12, 12, 12, 12],
    [13, 13, -1, -1, -1, -1, -1, -1, 13, -1, -1, -1, -1, -1, -1, -1, -1, -1, -1, -1, -1],
    [15, -1, 15, 15, 15, 15, 15, -1, -1, 15, 15, 15, 14, 14, 15, 15, 15, 15, 15, 15, 15],
    [17, 16, -1, -1, -1, -1, -1, -1, 18, -1, -1, -1, -1, -1, -1, -1, -1, -1, -1, -1, -1],
    [-1, -1, -1, -1, -1, -1, -1, -1, -1, -1, -1, -1, -1, -1, 19, 20, 21, 22, 23, 24, -1],
    [-1, -1, -1, -1, -1, -1, -1, -1, -1, -1, 25, 26, -1, -1, -1, -1, -1, -1, -1, -1, -1],
    [-1, -1, -1, -1, -1, -1, -1, -1, -1, -1, -1, -1, 27, 28, -1, -1, -1, -1, -1, -1, -1]
  ]

  function T(item: string): TableRule { TableRule(true, item) }
  function N(item: string): TableRule { TableRule(false, item) }

  /** `ll_table_rules`: the productions' right-hand sides; entry 0 is the start symbol. */
  const TableRules: seq<seq<TableRule>> := [
    [N("program")],
    [N("stmt_list"), T("<eof>")],
    [N("stmt"), N("stmt_list")],
    [],
    [T("<id>"), T(":="), N("expr")],
    [T("read"), T("<id>")],
    [T("write"), N("expr")],
    [T("if"), N("cond"), N("stmt_list"), T("end")],
    [T("while"), N("cond"), N("stmt_list"), T("end")],
    [N("expr"), N("ro"), N("expr")],
    [N("term"), N("term_tail")],
    [N("ao"), N("term"), N("term_tail")],
    [],
    [N("factor"), N("factor_tail")],
    [N("mo"), N("factor"), N("factor_tail")],
    [],
    [T("<i_lit>")], [T("<id>")],
    [T("("), N("expr"), T(")")],
    [T("=")], [T("<>")], [T("<")],
    [T("<=")], [T(">")], [T(">=")],
    [T("+")], [T("-")],
    [T("*")], [T("/")]
  ]

  /**
   * The tables fit together: one row per rule and one cell per token kind, every used cell names a
   * production, the start production is not empty, and every nonterminal a production
   * names is a row.
   */
  predicate TablesWellFormed(ruleList: seq<string>, tokenList: seq<string>, table: seq<seq<int>>,
                             tableRules: seq<seq<TableRule>>)
  {
    && |table| == |ruleList|
    && (forall i :: 0 <= i < |table| ==> |table[i]| == |tokenList|)
    && (forall i, j :: 0 <= i < |table| && 0 <= j < |table[i]| ==> table[i][j] < |tableRules|)
    && |tableRules| > 0 && |tableRules[0]| > 0
    && (forall p, k :: 0 <= p < |tableRules| && 0 <= k < |tableRules[p]| && !tableRules[p][k].terminal ==>
          tableRules[p][k].item in ruleList)
  }

  /** Rows 0-5 of the table have 21 cells, each -1 or the index of a production. */
  lemma UpperRowsWellFormed()
    ensures forall i, j :: 0 <= i < 6 && 0 <= j < |Table[i]| ==> -1 <= Table[i][j] < |TableRules|
    ensures forall i :: 0 <= i < 6 ==> |Table[i]| == |TokenList|
  {
  }

  /** Rows 6-11 of the table have 21 cells, each -1 or the index of a production. */
  lemma LowerRowsWellFormed()
    ensures forall i, j :: 6 <= i < 12 && 0 <= j < |Table[i]| ==> -1 <= Table[i][j] < |TableRules|
    ensures forall i :: 6 <= i < 12 ==> |Table[i]| == |TokenList|
  {
  }

  /** Every nonterminal named by a production is a row of the table. */
  lemma ProductionsNameRows()
    ensures forall p, k :: 0 <= p < |TableRules| && 0 <= k < |TableRules[p]| && !TableRules[p][k].terminal ==>
      TableRules[p][k].item in RuleList
  {
  }

  /** The tables `generate_rules` installs are well formed; 12 rows of 21 cells. */
  lemma GeneratedTablesWellFormed()
    ensures |Table| == 12 == |RuleList| && |TokenList| == 21 && |TableRules| == 29
    ensures TablesWellFormed(RuleList, TokenList, Table, TableRules)
    ensures forall i, j :: 0 <= i < |Table| && 0 <= j < |Table[i]| ==> -1 <= Table[i][j]
  {
    UpperRowsWellFormed();
    LowerRowsWellFormed();
    ProductionsNameRows();
  }

  /** The epsilon productions are exactly entries 3, 12 and 15. */
  lemma EpsilonProductions(p: nat)
    requires p < |TableRules|
    ensures TableRules[p] == [] <==> p in {3, 12, 15}
  {
  }

  /** A production as the recursive-descent engine writes it: the same symbols, then the sentinel. */
  function AsAlternative(rhs: seq<TableRule>): (alt: seq<RD.Production>)
    ensures |alt| == |rhs| + 1 && alt[|rhs|] == RD.Sentinel
    ensures forall k :: 0 <= k < |rhs| ==> alt[k] == RD.Production(rhs[k].item, rhs[k].terminal)
  {
    seq(|rhs|, k requires 0 <= k < |rhs| => RD.Production(rhs[k].item, rhs[k].terminal)) + [RD.Sentinel]
  }

  /**
   * Cell `j` of a row and a rule's map in the recursive-descent table choose the same thing: the
   * column's kind has an entry exactly when the cell is used, and then the cell's production is that
   * entry's alternative.
   */
  predicate CellAgrees(row: seq<int>, m: map<string, seq<RD.Production>>, j: int)
    requires 0 <= j < |row| <= |TokenList|
  {
    && (TokenList[j] in m <==> row[j] >= 0)
    && (row[j] >= 0 ==> row[j] < |TableRules| && AsAlternative(TableRules[row[j]]) == m[TokenList[j]])
  }

  /** Every cell of a row agrees with the rule's map, and the map knows no kind that is not a column. */
  predicate RowAgrees(row: seq<int>, m: map<string, seq<RD.Production>>)
  {
    && |row| == |TokenList|
    && (forall j :: 0 <= j < |row| ==> CellAgrees(row, m, j))
    && (forall k :: k in m ==> k in TokenList)
  }

  lemma ProgramCellsAgree()
    ensures |Table[0]| == |TokenList| && forall j :: 0 <= j < |Table[0]| ==> CellAgrees(Table[0], RD.ProgramTable, j)
  {
  }

  lemma ProgramKeysAreColumns()
    ensures forall k :: k in RD.ProgramTable ==> k in TokenList
  {
  }

  lemma ProgramRowAgrees()
    ensures RuleList[0] in RD.Rules && RowAgrees(Table[0], RD.Rules[RuleList[0]])
  {
    ProgramCellsAgree();
    ProgramKeysAreColumns();
    RD.ProgramRuleTable();
    assert RuleList[0] == "program";
  }

  lemma StmtListLeftCellsAgree()
    ensures |Table[1]| == |TokenList| && forall j :: 0 <= j < 11 ==> CellAgrees(Table[1], RD.StmtListTable, j)
  {
  }

  lemma StmtListRightCellsAgree()
    ensures |Table[1]| == |TokenList| && forall j :: 11 <= j < |Table[1]| ==> CellAgrees(Table[1], RD.StmtListTable, j)
  {
  }

  lemma StmtListCellsAgree()
    ensures |Table[1]| == |TokenList| && forall j :: 0 <= j < |Table[1]| ==> CellAgrees(Table[1], RD.StmtListTable, j)
  {
    StmtListLeftCellsAgree();
    StmtListRightCellsAgree();
  }

  lemma StmtListKeysAreColumns()
    ensures forall k :: k in RD.StmtListTable ==> k in TokenList
  {
  }

  lemma StmtListRowAgrees()
    ensures RuleList[1] in RD.Rules && RowAgrees(Table[1], RD.Rules[RuleList[1]])
  {
    StmtListCellsAgree();
    StmtListKeysAreColumns();
    RD.StmtListRuleTable();
    assert RuleList[1] == "stmt_list";
  }

  lemma StmtLeftCellsAgree()
    ensures |Table[2]| == |TokenList| && forall j :: 0 <= j < 11 ==> CellAgrees(Table[2], RD.StmtTable, j)
  {
  }

  lemma StmtRightCellsAgree()
    ensures |Table[2]| == |TokenList| && forall j :: 11 <= j < |Table[2]| ==> CellAgrees(Table[2], RD.StmtTable, j)
  {
  }

  lemma StmtCellsAgree()
    ensures |Table[2]| == |TokenList| && forall j :: 0 <= j < |Table[2]| ==> CellAgrees(Table[2], RD.StmtTable, j)
  {
    StmtLeftCellsAgree();
    StmtRightCellsAgree();
  }

  lemma StmtKeysAreColumns()
    ensures forall k :: k in RD.StmtTable ==> k in TokenList
  {
  }

  lemma StmtRowAgrees()
    ensures RuleList[2] in RD.Rules && RowAgrees(Table[2], RD.Rules[RuleList[2]])
  {
    StmtCellsAgree();
    StmtKeysAreColumns();
    RD.StmtRuleTable();
    assert RuleList[2] == "stmt";
  }

  lemma CondCellsAgree()
    ensures |Table[3]| == |TokenList| && forall j :: 0 <= j < |Table[3]| ==> CellAgrees(Table[3], RD.CondTable, j)
  {
  }

  lemma CondKeysAreColumns()
    ensures forall k :: k in RD.CondTable ==> k in TokenList
  {
  }

  lemma CondRowAgrees()
    ensures RuleList[3] in RD.Rules && RowAgrees(Table[3], RD.Rules[RuleList[3]])
  {
    CondCellsAgree();
    CondKeysAreColumns();
    RD.CondRuleTable();
    assert RuleList[3] == "cond";
  }

  lemma ExprCellsAgree()
    ensures |Table[4]| == |TokenList| && forall j :: 0 <= j < |Table[4]| ==> CellAgrees(Table[4], RD.ExprTable, j)
  {
  }

  lemma ExprKeysAreColumns()
    ensures forall k :: k in RD.ExprTable ==> k in TokenList
  {
  }

  lemma ExprRowAgrees()
    ensures RuleList[4] in RD.Rules && RowAgrees(Table[4], RD.Rules[RuleList[4]])
  {
    ExprCellsAgree();
    ExprKeysAreColumns();
    RD.ExprRuleTable();
    assert RuleList[4] == "expr";
  }

  lemma TermTailLeftCellsAgree()
    ensures |Table[5]| == |TokenList| && forall j :: 0 <= j < 11 ==> CellAgrees(Table[5], RD.TermTailTable, j)
  {
  }

  lemma TermTailRightCellsAgree()
    ensures |Table[5]| == |TokenList| && forall j :: 11 <= j < |Table[5]| ==> CellAgrees(Table[5], RD.TermTailTable, j)
  {
  }

  lemma TermTailCellsAgree()
    ensures |Table[5]| == |TokenList| && forall j :: 0 <= j < |Table[5]| ==> CellAgrees(Table[5], RD.TermTailTable, j)
  {
    TermTailLeftCellsAgree();
    TermTailRightCellsAgree();
  }

  lemma TermTailKeysAreColumns()
    ensures forall k :: k in RD.TermTailTable ==> k in TokenList
  {
  }

  lemma TermTailRowAgrees()
    ensures RuleList[5] in RD.Rules && RowAgrees(Table[5], RD.Rules[RuleList[5]])
  {
    TermTailCellsAgree();
    TermTailKeysAreColumns();
    RD.TermTailRuleTable();
    assert RuleList[5] == "term_tail";
  }

  lemma TermCellsAgree()
    ensures |Table[6]| == |TokenList| && forall j :: 0 <= j < |Table[6]| ==> CellAgrees(Table[6], RD.TermTable, j)
  {
  }

  lemma TermKeysAreColumns()
    ensures forall k :: k in RD.TermTable ==> k in TokenList
  {
  }

  lemma TermRowAgrees()
    ensures RuleList[6] in RD.Rules && RowAgrees(Table[6], RD.Rules[RuleList[6]])
  {
    TermCellsAgree();
    TermKeysAreColumns();
    RD.TermRuleTable();
    assert RuleList[6] == "term";
  }

  lemma FactorTailLeftCellsAgree()
    ensures |Table[7]| == |TokenList| && forall j :: 0 <= j < 11 ==> CellAgrees(Table[7], RD.FactorTailTable, j)
  {
  }

  lemma FactorTailRightCellsAgree()
    ensures |Table[7]| == |TokenList| && forall j :: 11 <= j < |Table[7]| ==> CellAgrees(Table[7], RD.FactorTailTable, j)
  {
  }

  lemma FactorTailCellsAgree()
    ensures |Table[7]| == |TokenList| && forall j :: 0 <= j < |Table[7]| ==> CellAgrees(Table[7], RD.FactorTailTable, j)
  {
    FactorTailLeftCellsAgree();
    FactorTailRightCellsAgree();
  }

  lemma FactorTailKeysAreColumns()
    ensures forall k :: k in RD.FactorTailTable ==> k in TokenList
  {
  }

  lemma FactorTailRowAgrees()
    ensures RuleList[7] in RD.Rules && RowAgrees(Table[7], RD.Rules[RuleList[7]])
  {
    FactorTailCellsAgree();
    FactorTailKeysAreColumns();
    RD.FactorTailRuleTable();
    assert RuleList[7] == "factor_tail";
  }

  lemma FactorCellsAgree()
    ensures |Table[8]| == |TokenList| && forall j :: 0 <= j < |Table[8]| ==> CellAgrees(Table[8], RD.FactorTable, j)
  {
  }

  lemma FactorKeysAreColumns()
    ensures forall k :: k in RD.FactorTable ==> k in TokenList
  {
  }

  lemma FactorRowAgrees()
    ensures RuleList[8] in RD.Rules && RowAgrees(Table[8], RD.Rules[RuleList[8]])
  {
    FactorCellsAgree();
    FactorKeysAreColumns();
    RD.FactorRuleTable();
    assert RuleList[8] == "factor";
  }

  lemma RoCellsAgree()
    ensures |Table[9]| == |TokenList| && forall j :: 0 <= j < |Table[9]| ==> CellAgrees(Table[9], RD.RoTable, j)
  {
  }

  lemma RoKeysAreColumns()
    ensures forall k :: k in RD.RoTable ==> k in TokenList
  {
  }

  lemma RoRowAgrees()
    ensures RuleList[9] in RD.Rules && RowAgrees(Table[9], RD.Rules[RuleList[9]])
  {
    RoCellsAgree();
    RoKeysAreColumns();
    RD.RoRuleTable();
    assert RuleList[9] == "ro";
  }

  lemma AoCellsAgree()
    ensures |Table[10]| == |TokenList| && forall j :: 0 <= j < |Table[10]| ==> CellAgrees(Table[10], RD.AoTable, j)
  {
  }

  lemma AoKeysAreColumns()
    ensures forall k :: k in RD.AoTable ==> k in TokenList
  {
  }

  lemma AoRowAgrees()
    ensures RuleList[10] in RD.Rules && RowAgrees(Table[10], RD.Rules[RuleList[10]])
  {
    AoCellsAgree();
    AoKeysAreColumns();
    RD.AoRuleTable();
    assert RuleList[10] == "ao";
  }

  lemma MoCellsAgree()
    ensures |Table[11]| == |TokenList| && forall j :: 0 <= j < |Table[11]| ==> CellAgrees(Table[11], RD.MoTable, j)
  {
  }

  lemma MoKeysAreColumns()
    ensures forall k :: k in RD.MoTable ==> k in TokenList
  {
  }

  lemma MoRowAgrees()
    ensures RuleList[11] in RD.Rules && RowAgrees(Table[11], RD.Rules[RuleList[11]])
  {
    MoCellsAgree();
    MoKeysAreColumns();
    RD.MoRuleTable();
    assert RuleList[11] == "mo";
  }

  /** Row `i` of the table agrees with the recursive-descent map of rule `RuleList[i]`. */
  lemma RowAgreesAt(i: nat)
    requires i < |RuleList|
    ensures RuleList[i] in RD.Rules && RowAgrees(Table[i], RD.Rules[RuleList[i]])
  {
    if i == 0 { ProgramRowAgrees(); }
    else if i == 1 { StmtListRowAgrees(); }
    else if i == 2 { StmtRowAgrees(); }
    else if i == 3 { CondRowAgrees(); }
    else if i == 4 { ExprRowAgrees(); }
    else if i == 5 { TermTailRowAgrees(); }
    else if i == 6 { TermRowAgrees(); }
    else if i == 7 { FactorTailRowAgrees(); }
    else if i == 8 { FactorRowAgrees(); }
    else if i == 9 { RoRowAgrees(); }
    else if i == 10 { AoRowAgrees(); }
    else { MoRowAgrees(); }
  }

  /**
   * The two LL(1) engines parse by the same grammar: for every rule and every token kind, the table
   * cell is used exactly when the recursive-descent table has an alternative, and then the
   * production it names, followed by the sentinel, is that alternative.
   */
  lemma EnginesAgree(r: string, t: string)
    requires r in RuleList && t in TokenList
    ensures r in RD.Rules && |Table| == |RuleList| && |Table[P.IndexOf(RuleList, r)]| == |TokenList|
    ensures var cell := Table[P.IndexOf(RuleList, r)][P.IndexOf(TokenList, t)];
      && (t in RD.Rules[r] <==> cell >= 0)
      && (cell >= 0 ==> cell < |TableRules| && AsAlternative(TableRules[cell]) == RD.Rules[r][t])
  {
    var i := P.IndexOf(RuleList, r);
    RowAgreesAt(i);
    assert CellAgrees(Table[i], RD.Rules[r], P.IndexOf(TokenList, t));
  }

  /** The rows are exactly the recursive-descent engine's rules, and its maps use only table columns. */
  lemma SameRules(r: string)
    ensures r in RuleList <==> r in RD.Rules
    ensures r in RD.Rules ==> forall k :: k in RD.Rules[r] ==> k in TokenList
  {
    RD.RuleNamesInRules();
    RD.RulesInRuleNames();
    if r in RD.Rules {
      RowAgreesAt(P.IndexOf(RuleList, r));
    }
  }

  class TableParser {
    const base: P.Parser
    var stack: seq<Frame>
    var ruleList: seq<string>
    var tokenList: seq<string>
    var table: seq<seq<int>>
    var tableRules: seq<seq<TableRule>>

    /** A new engine: empty tables (`generate_rules` fills them) and no parse in progress. */
    constructor ()
      ensures fresh(base) && stack == []
      ensures ruleList == [] && tokenList == [] && table == [] && tableRules == []
      ensures base.tree == null && base.currentNode == null && base.tokenStream == [] && !base.finished
    {
      base := new P.Parser();
      stack := [];
      ruleList, tokenList, table, tableRules := [], [], [], [];
    }

    /** `generate_rules`: installs the calculator-language tables. */
    method GenerateRules()
      modifies this`ruleList, this`tokenList, this`table, this`tableRules
      ensures ruleList == RuleList && tokenList == TokenList && table == Table && tableRules == TableRules
      ensures TablesWellFormed(ruleList, tokenList, table, tableRules)
      ensures |stack| == 0 && (base.tree == null <==> base.currentNode == null) ==> Valid()
    {
      ruleList, tokenList, table, tableRules := RuleList, TokenList, Table, TableRules;
      GeneratedTablesWellFormed();
    }

    /**
     * `input_grammar`: a description that does not scan leaves the grammar and the tables as they
     * were; one that scans is stored and the tables are regenerated.
     */
    method InputGrammar(description: string) returns (error: Option<Grammar.GrammarError>)
      modifies base`grammar, this`ruleList, this`tokenList, this`table, this`tableRules
      ensures Grammar.Parse(description).Err? ==>
        && error == Some(Grammar.Parse(description).error) && base.grammar == old(base.grammar)
        && ruleList == old(ruleList) && tokenList == old(tokenList)
        && table == old(table) && tableRules == old(tableRules)
      ensures Grammar.Parse(description).Ok? ==>
        && error == None && base.grammar == Some(Grammar.Parse(description).value)
        && ruleList == RuleList && tokenList == TokenList && table == Table && tableRules == TableRules
        && TablesWellFormed(ruleList, tokenList, table, tableRules)
    {
      error := base.InputGrammar(description);
      if error.None? {
        GenerateRules();
      }
    }

    /**
     * The tables fit together, a tree exists once the stack is in use, and every nonterminal frame
     * names a row, so the source's `ll_rule_list.index` never fails.
     */
    ghost predicate Valid()
      reads this, base
    {
      && TablesWellFormed(ruleList, tokenList, table, tableRules)
      && (base.tree == null <==> base.currentNode == null)
      && (|stack| > 0 ==> base.tree != null)
      && (forall i :: 0 <= i < |stack| && !stack[i].terminal ==> stack[i].rule in ruleList)
    }

    /** `node_on_stack` */
    function NodeOnStack(n: Tree): (b: bool)
      reads this
      ensures b <==> exists i :: 0 <= i < |stack| && stack[i].node == n
    {
      P.NodeOnStack(stack, (f: Frame) => f.node, n)
    }

    /**
     * `push_rules_to_stack`: the production's symbols become the current node's first children, in
     * production order, and their frames are pushed so that the first symbol is on top.
     */
    method PushRulesToStack(rules: seq<TableRule>)
      requires base.currentNode != null
      modifies this`stack, base.currentNode
      ensures var n := base.currentNode; var k := |rules|; var s0 := |old(stack)|;
        && |stack| == s0 + k && stack[..s0] == old(stack)
        && |n.children| == |old(n.children)| + k && n.children[k..] == old(n.children)
        && (forall j :: 0 <= j < k ==> stack[s0 + k - 1 - j] == Frame(n.children[j], rules[j].terminal, rules[j].item))
        && (forall j :: 0 <= j < k ==>
              fresh(n.children[j]) && n.children[j].name == rules[j].item
              && n.children[j].parent == n && n.children[j].children == [])
      ensures base.currentNode.name == old(base.currentNode.name)
      ensures base.currentNode.parent == old(base.currentNode.parent)
    {
      var n := base.currentNode;
      var k := |rules|;
      ghost var s0 := |stack|;
      for i := 0 to k
        invariant |stack| == s0 + i && stack[..s0] == old(stack)
        invariant |n.children| == |old(n.children)| + i && n.children[i..] == old(n.children)
        invariant n.name == old(n.name) && n.parent == old(n.parent)
        invariant forall j :: 0 <= j < i ==>
          && stack[s0 + i - 1 - j] == Frame(n.children[j], rules[k - i + j].terminal, rules[k - i + j].item)
          && fresh(n.children[j]) && n.children[j].name == rules[k - i + j].item
          && n.children[j].parent == n && n.children[j].children == []
      {
        var rule := rules[k - 1 - i];
        var child := n.AddChild(rule.item, 0, []);
        stack := stack + [Frame(child, rule.terminal, rule.item)];
      }
    }

    /**
     * Whether the next step reads `token_stream[0]` (only a step that pops a frame does), and whether it
     * looks its kind up in the columns.
     */
    ghost predicate NeedsLookahead()
      reads this
    {
      |stack| > 0
    }

    ghost predicate NeedsColumn()
      reads this
    {
      |stack| > 0 && !stack[|stack| - 1].terminal
    }

    /** `step`: one move of the table-driven LL(1) engine. */
    method Step()
      requires Valid() && !base.finished
      requires NeedsLookahead() ==> |base.tokenStream| > 0
      requires NeedsColumn() ==> base.tokenStream[0].kind in tokenList
      modifies this`stack, base, if |stack| > 0 then {stack[|stack| - 1].node} else {}
      ensures Valid() && base.grammar == old(base.grammar)
      // empty stack, nothing built yet: the start symbol's root and its frame
      ensures old(|stack|) == 0 && old(base.currentNode) == null ==>
        && fresh(base.tree) && base.tree.name == tableRules[0][0].item
        && base.tree.parent == null && base.tree.children == []
        && base.currentNode == base.tree
        && stack == [Frame(base.tree, tableRules[0][0].terminal, tableRules[0][0].item)]
        && base.tokenStream == old(base.tokenStream) && !base.finished
      // empty stack after the parse: finished, the root is current
      ensures old(|stack|) == 0 && old(base.currentNode) != null ==>
        && base.finished && base.tree == old(base.tree) && base.currentNode == base.tree
        && stack == [] && base.tokenStream == old(base.tokenStream)
      // otherwise the top frame is popped first
      ensures old(|stack|) > 0 ==>
        var top := old(stack[|stack| - 1]);
        var below := old(stack[..|stack| - 1]);
        var token := old(base.tokenStream[0]);
        && base.tree == old(base.tree) && top.node.parent == old(top.node.parent)
        && if top.terminal then
             && base.currentNode == top.node && stack == below
             && top.node.children == old(top.node.children)
             && if top.rule == token.kind then
                  // a match: the node takes the token's image and the token is consumed
                  top.node.name == token.image && base.tokenStream == old(base.tokenStream[1..]) && !base.finished
                else
                  // a mismatch: the node is renamed "ERROR" and the parse stops
                  top.node.name == "ERROR" && base.tokenStream == old(base.tokenStream) && base.finished
           else
             var cell := table[P.IndexOf(ruleList, top.rule)][P.IndexOf(tokenList, token.kind)];
             && base.tokenStream == old(base.tokenStream) && top.node.name == old(top.node.name)
             && if cell < 0 then
                  // no production: an "ERROR" child and stop
                  && base.finished && stack == below
                  && fresh(base.currentNode) && base.currentNode.name == "ERROR"
                  && base.currentNode.parent == top.node && base.currentNode.children == []
                  && top.node.children == old(top.node.children) + [base.currentNode]
                else
                  // the production's symbols become the node's first children; the first is on top
                  var rhs := tableRules[cell];
                  var k := |rhs|;
                  && !base.finished && base.currentNode == top.node
                  && |stack| == |below| + k && stack[..|below|] == below
                  && |top.node.children| == |old(top.node.children)| + k
                  && top.node.children[k..] == old(top.node.children)
                  && (forall j :: 0 <= j < k ==>
                        stack[|below| + k - 1 - j] == Frame(top.node.children[j], rhs[j].terminal, rhs[j].item))
                  && (forall j :: 0 <= j < k ==>
                        && fresh(top.node.children[j]) && top.node.children[j].name == rhs[j].item
                        && top.node.children[j].parent == top.node && top.node.children[j].children == [])
    {
      if |stack| < 1 {
        if base.currentNode == null {
          Begin();
        } else {
          base.currentNode := base.tree;
          base.finished := true;
        }
        return;
      }
      var frame := stack[|stack| - 1];
      stack := stack[..|stack| - 1];
      base.currentNode := frame.node;
      if frame.terminal {
        if frame.rule == base.tokenStream[0].kind {
          frame.node.name := base.tokenStream[0].image;
          base.tokenStream := base.tokenStream[1..];
        } else {
          frame.node.name := "ERROR";
          base.finished := true;
        }
      } else {
        Expand(frame);
      }
    }

    /** The start: a root named after the start symbol, and its frame. */
    method Begin()
      requires Valid() && |stack| == 0 && base.currentNode == null
      modifies this`stack, base`tree, base`currentNode
      ensures Valid()
      ensures fresh(base.tree) && base.tree.name == tableRules[0][0].item
      ensures base.tree.parent == null && base.tree.children == []
      ensures base.currentNode == base.tree
      ensures stack == [Frame(base.tree, tableRules[0][0].terminal, tableRules[0][0].item)]
    {
      var start := tableRules[0][0];
      var root := new Tree(start.item, null, []);
      base.tree, base.currentNode := root, root;
      stack := [Frame(root, start.terminal, root.name)];
    }

    /** A popped nonterminal: look up the cell for its rule and the next token's kind. */
    method Expand(frame: Frame)
      requires TablesWellFormed(ruleList, tokenList, table, tableRules)
      requires base.tree != null && base.currentNode == frame.node
      requires forall i :: 0 <= i < |stack| && !stack[i].terminal ==> stack[i].rule in ruleList
      requires !frame.terminal && frame.rule in ruleList
      requires |base.tokenStream| > 0 && base.tokenStream[0].kind in tokenList
      modifies this`stack, base`currentNode, base`finished, frame.node
      ensures Valid() && base.tree == old(base.tree)
      ensures var cell := table[P.IndexOf(ruleList, frame.rule)][P.IndexOf(tokenList, base.tokenStream[0].kind)];
        if cell < 0 then
          && base.finished && stack == old(stack)
          && fresh(base.currentNode) && base.currentNode.name == "ERROR"
          && base.currentNode.parent == frame.node && base.currentNode.children == []
          && frame.node.children == old(frame.node.children) + [base.currentNode]
        else
          var rhs := tableRules[cell];
          var k := |rhs|;
          && base.finished == old(base.finished) && base.currentNode == frame.node
          && |stack| == old(|stack|) + k && stack[..old(|stack|)] == old(stack)
          && |frame.node.children| == |old(frame.node.children)| + k
          && frame.node.children[k..] == old(frame.node.children)
          && (forall j :: 0 <= j < k ==>
                stack[old(|stack|) + k - 1 - j] == Frame(frame.node.children[j], rhs[j].terminal, rhs[j].item))
          && (forall j :: 0 <= j < k ==>
                && fresh(frame.node.children[j]) && frame.node.children[j].name == rhs[j].item
                && frame.node.children[j].parent == frame.node && frame.node.children[j].children == [])
      ensures frame.node.name == old(frame.node.name) && frame.node.parent == old(frame.node.parent)
    {
      var row := P.IndexOf(ruleList, frame.rule);
      var col := P.IndexOf(tokenList, base.tokenStream[0].kind);
      var cell := table[row][col];
      if cell < 0 {
        base.currentNode := frame.node.AddChild("ERROR", -1, []);
        base.finished := true;
      } else {
        PushRulesToStack(tableRules[cell]);
        ghost var s0 := old(|stack|);
        ghost var k := |tableRules[cell]|;
        forall i | 0 <= i < |stack| && !stack[i].terminal
          ensures stack[i].rule in ruleList
        {
          if i >= s0 {
            var j := s0 + k - 1 - i;
            assert 0 <= j < k && stack[s0 + k - 1 - j] == stack[i];
            assert stack[i].rule == tableRules[cell][j].item && !tableRules[cell][j].terminal;
          }
        }
      }
    }
  }
}
