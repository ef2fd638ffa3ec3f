/**
 * The SLR(1) engine of SLRTableParser.py.
 *
 * The stack holds states; the table, indexed by the top state and the next symbol, says to shift
 * (`s`), reduce (`r`), shift then reduce (`b`) or fail (blank).  A reduction builds the left-hand
 * side's node from the root's last children and puts the left-hand side back in front of the token
 * stream as a synthetic token; the flag `pending` (`tree_is_first_in_token_stream`) records that the
 * stream's first token stands for the root's last child.  The tables are the constants
 * `generate_rules` stores for the calculator language.
 */
module SLRTable {
  import opened Wrappers
  import opened Trees
  import P = Parser
  import Grammar

  /** `LRStackFrame`: a node, the symbol shifted to reach this state, and the state. */
  datatype Frame = Frame(node: Tree, symbol: string, state: int)

  /** The action codes of an entry: "s", "r", "b", and the blank that reports an error. */
  datatype Action = ShiftAction | ReduceAction | ShiftReduceAction | ErrorAction

  /** `LRTableEntry`: an action and its target. */
  datatype Entry = Entry(action: Action, target: int)

  /** `LRProduction`: a left-hand side and the length of the right-hand side. */
  datatype Production = Production(leftSide: string, rightSideLen: nat)

  const Blank := Entry(ErrorAction, -1)
  function S(target: int): Entry { Entry(ShiftAction, target) }
  function R(target: int): Entry { Entry(ReduceAction, target) }
  function B(target: int): Entry { Entry(ShiftReduceAction, target) }

  /** `lr_symbol_list`: the table's columns; the first seven are nonterminals. */
  const SymbolList := ["stmt_list", "stmt", "expr", "term", "factor", "ao", "mo", "<id>",
                       "<i_lit>", "read", "write", ":=", "(", ")", "+", "-", "*", "/", "<eof>"]

  /** `table`: one row per state, one entry per symbol. */
  const Table: seq<seq<Entry>> := [Row0, Row1, Row2, Row3, Row4, Row5, Row6, Row7, Row8, Row9, Row10, Row11, Row12, Row13]

  const Row0: seq<Entry> :=
    [S(2), B(3), Blank, Blank, Blank, Blank, Blank, S(3), Blank, S(1), S(4), Blank, Blank, Blank, Blank, Blank, Blank, Blank, Blank]
  const Row1: seq<Entry> :=
    [Blank, Blank, Blank, Blank, Blank, Blank, Blank, B(5), Blank, Blank, Blank, Blank, Blank, Blank, Blank, Blank, Blank, Blank, Blank]
  const Row2: seq<Entry> :=
    [Blank, B(2), Blank, Blank, Blank, Blank, Blank, S(3), Blank, S(1), S(4), Blank, Blank, Blank, Blank, Blank, Blank, Blank, B(1)]
  const Row3: seq<Entry> :=
    [Blank, Blank, Blank, Blank, Blank, Blank, Blank, Blank, Blank, Blank, Blank, S(5), Blank, Blank, Blank, Blank, Blank, Blank, Blank]
  const Row4: seq<Entry> :=
    [Blank, Blank, S(6), S(7), B(9), Blank, Blank, B(12), B(13), Blank, Blank, Blank, S(8), Blank, Blank, Blank, Blank, Blank, Blank]
  const Row5: seq<Entry> :=
    [Blank, Blank, S(9), S(7), B(9), Blank, Blank, B(12), B(13), Blank, Blank, Blank, S(8), Blank, Blank, Blank, Blank, Blank, Blank]
  const Row6: seq<Entry> :=
    [Blank, Blank, Blank, Blank, Blank, S(10), Blank, R(6), Blank, R(6), R(6), Blank, Blank, Blank, B(14), B(15), Blank, Blank, R(6)]
  const Row7: seq<Entry> :=
    [Blank, Blank, Blank, Blank, Blank, Blank, S(11), R(7), Blank, R(7), R(7), Blank, Blank, R(7), R(7), R(7), B(16), B(17), R(7)]
  const Row8: seq<Entry> :=
    [Blank, Blank, S(12), S(7), B(9), Blank, Blank, B(12), B(13), Blank, Blank, Blank, S(8), Blank, Blank, Blank, Blank, Blank, Blank]
  const Row9: seq<Entry> :=
    [Blank, Blank, Blank, Blank, Blank, S(10), Blank, R(4), Blank, R(4), R(4), Blank, Blank, Blank, B(14), B(15), Blank, Blank, R(4)]
  const Row10: seq<Entry> :=
    [Blank, Blank, Blank, S(13), B(9), Blank, Blank, B(12), B(13), Blank, Blank, Blank, S(8), Blank, Blank, Blank, Blank, Blank, Blank]
  const Row11: seq<Entry> :=
    [Blank, Blank, Blank, Blank, B(10), Blank, Blank, B(12), B(13), Blank, Blank, Blank, S(8), Blank, Blank, Blank, Blank, Blank, Blank]
  const Row12: seq<Entry> :=
    [Blank, Blank, Blank, Blank, Blank, S(10), Blank, Blank, Blank, Blank, Blank, Blank, Blank, B(11), B(14), B(15), Blank, Blank, Blank]
  const Row13: seq<Entry> :=
    [Blank, Blank, Blank, Blank, Blank, Blank, S(11), R(8), Blank, R(8), R(8), Blank, Blank, R(8), R(8), R(8), B(16), B(17), R(8)]

  /** `lr_production_list`; entry 0 is unused. */
  const Productions: seq<Option<Production>> := [
    None, Some(Production("program", 2)), Some(Production("stmt_list", 2)),
    Some(Production("stmt_list", 1)), Some(Production("stmt", 3)), Some(Production("stmt", 2)),
    Some(Production("stmt", 2)), Some(Production("expr", 1)), Some(Production("expr", 3)),
    Some(Production("term", 1)), Some(Production("term", 3)), Some(Production("factor", 3)),
    Some(Production("factor", 1)), Some(Production("factor", 1)), Some(Production("ao", 1)),
    Some(Production("ao", 1)), Some(Production("mo", 1)), Some(Production("mo", 1))
  ]

  /**
   * A lower bound on the stack position of each state: a frame in state `s` sits at index
   * `MinDepth[s]` or above.  It is what guarantees that a reduction never pops the bottom frame.
   */
  const MinDepth: seq<nat> := [0, 1, 1, 1, 1, 2, 2, 1, 1, 3, 2, 2, 2, 3]

  /** The left-hand sides: the symbols a reduction puts back in front of the token stream. */
  function LeftSides(productions: seq<Option<Production>>): (r: set<string>)
    ensures forall i :: 0 <= i < |productions| && productions[i].Some? ==> productions[i].value.leftSide in r
    ensures forall x :: x in r ==> exists i :: 0 <= i < |productions| && productions[i].Some? && productions[i].value.leftSide == x
  {
    set i | 0 <= i < |productions| && productions[i].Some? :: productions[i].value.leftSide
  }

  /**
   * An entry of a state whose frames sit at depth `depth` or above, in the column of `symbol`, is
   * usable: a shift's state fits one frame higher, a reduction names a production and pops only
   * frames above the bottom one, and a plain reduction is only ever taken on a symbol the lexer
   * produces (never on a left-hand side).
   */
  predicate EntryFits(e: Entry, depth: nat, symbol: string, productions: seq<Option<Production>>)
  {
    && (e.action == ShiftAction ==> 0 <= e.target < |MinDepth| && MinDepth[e.target] <= depth + 1)
    && (e.action == ReduceAction ==>
          && 1 <= e.target < |productions| && productions[e.target].Some?
          && productions[e.target].value.rightSideLen <= depth
          && symbol !in LeftSides(productions))
    && (e.action == ShiftReduceAction ==>
          && 1 <= e.target < |productions| && productions[e.target].Some?
          && 1 <= productions[e.target].value.rightSideLen <= depth + 1)
  }

  /** Entry `c` of state `s` fits. */
  predicate EntryWellFormed(table: seq<seq<Entry>>, productions: seq<Option<Production>>,
                            symbolList: seq<string>, s: int, c: int)
    requires 0 <= s < |table| == |MinDepth| && 0 <= c < |table[s]| == |symbolList|
  {
    EntryFits(table[s][c], MinDepth[s], symbolList[c], productions)
  }

  /**
   * The tables fit together: a row per state of the depth table, a column per symbol, production 1
   * (the accepting left-hand side) exists, and every entry is well formed.
   */
  predicate TablesWellFormed(table: seq<seq<Entry>>, productions: seq<Option<Production>>, symbolList: seq<string>)
  {
    && |table| == |MinDepth|
    && (forall s :: 0 <= s < |table| ==> |table[s]| == |symbolList|)
    && |productions| > 1 && productions[1].Some?
    && (forall s, c :: 0 <= s < |table| && 0 <= c < |symbolList| ==>
          EntryWellFormed(table, productions, symbolList, s, c))
  }

  lemma Row0Fits()
    ensures |Row0| == |SymbolList|
    ensures forall c :: 0 <= c < |SymbolList| ==> EntryFits(Row0[c], MinDepth[0], SymbolList[c], Productions)
  {
  }

  lemma Row1Fits()
    ensures |Row1| == |SymbolList|
    ensures forall c :: 0 <= c < |SymbolList| ==> EntryFits(Row1[c], MinDepth[1], SymbolList[c], Productions)
  {
  }

  lemma Row2Fits()
    ensures |Row2| == |SymbolList|
    ensures forall c :: 0 <= c < |SymbolList| ==> EntryFits(Row2[c], MinDepth[2], SymbolList[c], Productions)
  {
  }

  lemma Row3Fits()
    ensures |Row3| == |SymbolList|
    ensures forall c :: 0 <= c < |SymbolList| ==> EntryFits(Row3[c], MinDepth[3], SymbolList[c], Productions)
  {
  }

  lemma Row4Fits()
    ensures |Row4| == |SymbolList|
    ensures forall c :: 0 <= c < |SymbolList| ==> EntryFits(Row4[c], MinDepth[4], SymbolList[c], Productions)
  {
  }

  lemma Row5Fits()
    ensures |Row5| == |SymbolList|
    ensures forall c :: 0 <= c < |SymbolList| ==> EntryFits(Row5[c], MinDepth[5], SymbolList[c], Productions)
  {
  }

  lemma Row6Fits()
    ensures |Row6| == |SymbolList|
    ensures forall c :: 0 <= c < |SymbolList| ==> EntryFits(Row6[c], MinDepth[6], SymbolList[c], Productions)
  {
  }

  lemma Row7Fits()
    ensures |Row7| == |SymbolList|
    ensures forall c :: 0 <= c < |SymbolList| ==> EntryFits(Row7[c], MinDepth[7], SymbolList[c], Productions)
  {
  }

  lemma Row8Fits()
    ensures |Row8| == |SymbolList|
    ensures forall c :: 0 <= c < |SymbolList| ==> EntryFits(Row8[c], MinDepth[8], SymbolList[c], Productions)
  {
  }

  lemma Row9Fits()
    ensures |Row9| == |SymbolList|
    ensures forall c :: 0 <= c < |SymbolList| ==> EntryFits(Row9[c], MinDepth[9], SymbolList[c], Productions)
  {
  }

  lemma Row10Fits()
    ensures |Row10| == |SymbolList|
    ensures forall c :: 0 <= c < |SymbolList| ==> EntryFits(Row10[c], MinDepth[10], SymbolList[c], Productions)
  {
  }

  lemma Row11Fits()
    ensures |Row11| == |SymbolList|
    ensures forall c :: 0 <= c < |SymbolList| ==> EntryFits(Row11[c], MinDepth[11], SymbolList[c], Productions)
  {
  }

  lemma Row12Fits()
    ensures |Row12| == |SymbolList|
    ensures forall c :: 0 <= c < |SymbolList| ==> EntryFits(Row12[c], MinDepth[12], SymbolList[c], Productions)
  {
  }

  lemma Row13Fits()
    ensures |Row13| == |SymbolList|
    ensures forall c :: 0 <= c < |SymbolList| ==> EntryFits(Row13[c], MinDepth[13], SymbolList[c], Productions)
  {
  }

  /** Every row of the table fits its state's depth bound. */
  lemma RowFits(s: int)
    requires 0 <= s < |Table|
    ensures |Table[s]| == |SymbolList|
    ensures forall c :: 0 <= c < |SymbolList| ==> EntryFits(Table[s][c], MinDepth[s], SymbolList[c], Productions)
  {
    if s == 0 {
      Row0Fits();
    } else if s == 1 {
      Row1Fits();
    } else if s == 2 {
      Row2Fits();
    } else if s == 3 {
      Row3Fits();
    } else if s == 4 {
      Row4Fits();
    } else if s == 5 {
      Row5Fits();
    } else if s == 6 {
      Row6Fits();
    } else if s == 7 {
      Row7Fits();
    } else if s == 8 {
      Row8Fits();
    } else if s == 9 {
      Row9Fits();
    } else if s == 10 {
      Row10Fits();
    } else if s == 11 {
      Row11Fits();
    } else if s == 12 {
      Row12Fits();
    } else {
      Row13Fits();
    }
  }

  /** The tables `generate_rules` installs are well formed: 14 states, 19 symbols, 17 productions. */
  lemma GeneratedTablesWellFormed()
    ensures |Table| == 14 && |SymbolList| == 19 && |Productions| == 18
    ensures TablesWellFormed(Table, Productions, SymbolList)
  {
    forall s | 0 <= s < |Table|
      ensures |Table[s]| == |SymbolList|
      ensures forall c :: 0 <= c < |SymbolList| ==> EntryWellFormed(Table, Productions, SymbolList, s, c)
    {
      RowFits(s);
    }
  }

  class SLRParser {
    const base: P.Parser
    var stack: seq<Frame>
    var table: seq<seq<Entry>>
    var productions: seq<Option<Production>>
    var symbolList: seq<string>
    /** `tree_is_first_in_token_stream`: the first token stands for the root's last child. */
    var pending: bool

    /** A new engine: the state `reset` leaves, and empty tables. */
    constructor ()
      ensures fresh(base) && stack == [] && !pending
      ensures table == [] && productions == [] && symbolList == []
      ensures base.tree == null && base.currentNode == null && base.tokenStream == [] && !base.finished
    {
      base := new P.Parser();
      stack := [];
      pending := false;
      table, productions, symbolList := [], [], [];
    }

    /** `generate_rules`: installs the calculator-language tables. */
    method GenerateRules()
      modifies this`table, this`productions, this`symbolList
      ensures table == Table && productions == Productions && symbolList == SymbolList
      ensures TablesWellFormed(table, productions, symbolList)
      ensures |stack| == 0 && !pending && base.tree == null && base.currentNode == null && base.tokenStream == [] ==> Valid()
    {
      table, productions, symbolList := Table, Productions, SymbolList;
      GeneratedTablesWellFormed();
    }

    /**
     * `input_grammar`: a description that does not scan leaves the grammar and the tables as they
     * were; one that scans is stored and the tables are regenerated.
     */
    method InputGrammar(description: string) returns (error: Option<Grammar.GrammarError>)
      modifies base`grammar, this`table, this`productions, this`symbolList
      ensures Grammar.Parse(description).Err? ==>
        && error == Some(Grammar.Parse(description).error) && base.grammar == old(base.grammar)
        && table == old(table) && productions == old(productions) && symbolList == old(symbolList)
      ensures Grammar.Parse(description).Ok? ==>
        && error == None && base.grammar == Some(Grammar.Parse(description).value)
        && table == Table && productions == Productions && symbolList == SymbolList
        && TablesWellFormed(table, productions, symbolList)
    {
      error := base.InputGrammar(description);
      if error.None? {
        GenerateRules();
      }
    }

    /** `reset`: no tree, no stack, no input, not finished; the tables stay. */
    method Reset()
      modifies this`stack, this`pending, base
      ensures base.tree == null && base.currentNode == null && stack == [] && base.tokenStream == []
      ensures !base.finished && !pending && base.grammar == old(base.grammar)
      ensures TablesWellFormed(table, productions, symbolList) ==> Valid()
    {
      base.tree, base.currentNode := null, null;
      stack := [];
      base.tokenStream := [];
      base.finished := false;
      pending := false;
    }

    /**
     * The engine's invariant.  The tables fit together; the state of the frame at index `i` is a
     * row whose depth bound is at most `i`; and, while the parse runs, the root has one child per
     * frame above the bottom one, plus the node the pending first token stands for, and is not one
     * of its own children.  Only that first token can be a left-hand side: the lexer never produces
     * one.
     */
    ghost predicate Valid()
      reads this, base, base.tree
    {
      && TablesWellFormed(table, productions, symbolList)
      && (base.tree == null <==> base.currentNode == null)
      && (|stack| > 0 ==> base.tree != null)
      && (base.tree != null ==> base.tree !in base.tree.children)
      && (|stack| == 0 ==> !pending)
      && (forall i :: 0 <= i < |stack| ==> 0 <= stack[i].state < |table| && MinDepth[stack[i].state] <= i)
      && (!base.finished && |stack| > 0 ==>
            |base.tree.children| + 1 == |stack| + (if pending then 1 else 0))
      && (!base.finished && pending ==>
            |base.tokenStream| > 0 && base.tokenStream[0].kind in LeftSides(productions))
      && (!base.finished ==>
            forall i :: (if pending then 1 else 0) <= i < |base.tokenStream| ==>
              base.tokenStream[i].kind !in LeftSides(productions))
    }

    /** `node_on_stack` */
    function NodeOnStack(n: Tree): (b: bool)
      reads this
      ensures b <==> exists i :: 0 <= i < |stack| && stack[i].node == n
    {
      P.NodeOnStack(stack, (f: Frame) => f.node, n)
    }

    /** The step accepts: the first token is the start symbol and the top state is 0. */
    ghost predicate Accepts()
      requires TablesWellFormed(table, productions, symbolList)
      reads this, base
    {
      && |stack| > 0 && |base.tokenStream| > 0
      && base.tokenStream[0].kind == productions[1].value.leftSide
      && stack[|stack| - 1].state == 0
    }

    /**
     * The entry for the top state and the first token's kind, with what the tables guarantee of it:
     * a shift's state fits one frame higher, a reduction never pops the bottom frame, and a plain
     * reduction is never taken while a left-hand side is pending.
     */
    ghost function NextEntry(): (e: Entry)
      requires Valid() && !base.finished && |stack| > 0 && |base.tokenStream| > 0
      requires base.tokenStream[0].kind in symbolList
      reads this, base, base.tree
      ensures var top := stack[|stack| - 1].state;
        && (e.action == ShiftAction ==> 0 <= e.target < |table| && MinDepth[e.target] <= MinDepth[top] + 1)
        && (e.action == ReduceAction ==>
              && 1 <= e.target < |productions| && productions[e.target].Some?
              && productions[e.target].value.rightSideLen <= MinDepth[top] && !pending)
        && (e.action == ShiftReduceAction ==>
              && 1 <= e.target < |productions| && productions[e.target].Some?
              && 1 <= productions[e.target].value.rightSideLen <= MinDepth[top] + 1)
    {
      var top := stack[|stack| - 1].state;
      var col := P.IndexOf(symbolList, base.tokenStream[0].kind);
      assert EntryWellFormed(table, productions, symbolList, top, col);
      table[top][col]
    }

    /**
     * `step`: one move of the SLR(1) engine.  The depth bounds and the child count in `Valid`
     * are what make every `remove_last_child`, every pop and the accepting `tree[0]` safe.
     */
    method Step()
      requires Valid() && !base.finished
      requires |stack| > 0 ==> |base.tokenStream| > 0
      requires |stack| > 0 && !Accepts() ==> base.tokenStream[0].kind in symbolList
      modifies this`stack, this`pending, base
      modifies if base.tree == null then {} else {base.tree} + set c | c in base.tree.children
      ensures Valid() && base.grammar == old(base.grammar)
      // the start: a root named "" in state 0
      ensures old(|stack|) == 0 ==>
        && fresh(base.tree) && base.tree.name == "" && base.tree.parent == null && base.tree.children == []
        && base.currentNode == base.tree && stack == [Frame(base.tree, "", 0)]
        && base.tokenStream == old(base.tokenStream) && !base.finished
      // acceptance: the root's first child becomes current and the parse ends
      ensures old(|stack|) > 0 && old(Accepts()) ==>
        && base.finished && base.tree == old(base.tree) && base.tree.children == old(base.tree.children)
        && |base.tree.children| > 0 && base.currentNode == base.tree.children[0]
        && stack == old(stack) && base.tokenStream == old(base.tokenStream) && pending == old(pending)
      ensures old(|stack|) > 0 && !old(Accepts()) ==>
        var e := old(NextEntry());
        var kind := old(base.tokenStream[0].kind);
        var root := base.tree;
        && root == old(base.tree) && root.name == old(root.name) && root.parent == old(root.parent)
        && (forall c :: c in old(root.children) ==> c.name == old(c.name) && c.children == old(c.children))
        && if e.action == ShiftAction then
             // shift: the token's node (the pending one, or a new leaf) and the target state are pushed
             && base.tokenStream == old(base.tokenStream[1..]) && !pending && !base.finished
             && stack == old(stack) + [Frame(base.currentNode, kind, e.target)]
             && if old(pending) then
                  root.children == old(root.children) && base.currentNode == root.children[|root.children| - 1]
                else
                  && fresh(base.currentNode) && base.currentNode.name == kind
                  && base.currentNode.parent == root && base.currentNode.children == []
                  && root.children == old(root.children) + [base.currentNode]
           else if e.action == ReduceAction then
             // reduce: the last n root children move under a new left-hand-side node
             var p := productions[e.target].value;
             && base.tokenStream == [P.Token(p.leftSide, p.leftSide)] + old(base.tokenStream)
             && pending && !base.finished
             && |stack| + p.rightSideLen == old(|stack|) && stack == old(stack)[..|stack|]
             && fresh(base.currentNode) && base.currentNode.name == p.leftSide && base.currentNode.parent == root
             && |base.currentNode.children| == p.rightSideLen
             && (forall c :: c in base.currentNode.children ==> c.parent == base.currentNode)
             && |root.children| > 0 && root.children[|root.children| - 1] == base.currentNode
             && old(root.children) == root.children[..|root.children| - 1] + base.currentNode.children
           else if e.action == ShiftReduceAction then
             // shift then reduce: as a reduction of n symbols whose last is the token itself
             var p := productions[e.target].value;
             && base.tokenStream == [P.Token(p.leftSide, p.leftSide)] + old(base.tokenStream[1..])
             && pending && !base.finished
             && |stack| + p.rightSideLen == old(|stack|) + 1 && stack == old(stack)[..|stack|]
             && fresh(base.currentNode) && base.currentNode.name == p.leftSide && base.currentNode.parent == root
             && |base.currentNode.children| == p.rightSideLen
             && (forall c :: c in base.currentNode.children ==> c.parent == base.currentNode)
             && |root.children| > 0 && root.children[|root.children| - 1] == base.currentNode
             && if old(pending) then
                  old(root.children) == root.children[..|root.children| - 1] + base.currentNode.children
                else
                  var last := base.currentNode.children[p.rightSideLen - 1];
                  && old(root.children) == root.children[..|root.children| - 1] + base.currentNode.children[..p.rightSideLen - 1]
                  && fresh(last) && last.name == kind && last.children == []
           else
             // a blank entry: an "ERROR" child of the root, and the parse ends
             && base.finished && stack == old(stack) && base.tokenStream == old(base.tokenStream)
             && pending == old(pending)
             && fresh(base.currentNode) && base.currentNode.name == "ERROR"
             && base.currentNode.parent == root && base.currentNode.children == []
             && root.children == old(root.children) + [base.currentNode]
    {
      if |stack| < 1 {
        Begin();
        return;
      }
      if base.tokenStream[0].kind == productions[1].value.leftSide && stack[|stack| - 1].state == 0 {
        base.currentNode := base.tree.Get(0);
        base.finished := true;
        return;
      }
      Act();
    }

    /** A blank entry: an "ERROR" child of the root, and the parse ends. */
    method Fail()
      requires Valid() && |stack| > 0
      modifies base`currentNode, base`finished, base.tree
      ensures Valid() && base.finished && base.tree == old(base.tree)
      ensures fresh(base.currentNode) && base.currentNode.name == "ERROR"
      ensures base.currentNode.parent == base.tree && base.currentNode.children == []
      ensures base.tree.children == old(base.tree.children) + [base.currentNode]
      ensures base.tree.name == old(base.tree.name) && base.tree.parent == old(base.tree.parent)
    {
      base.currentNode := base.tree.AddChild("ERROR", -1, []);
      base.finished := true;
    }

    /** The move the entry for the top state and the first token's kind selects. */
    method Act()
      requires Valid() && !base.finished && |stack| > 0 && |base.tokenStream| > 0
      requires base.tokenStream[0].kind in symbolList
      modifies this`stack, this`pending, base, base.tree, set c | c in base.tree.children
      ensures Valid() && base.grammar == old(base.grammar)
      ensures
        var e := old(NextEntry());
        var kind := old(base.tokenStream[0].kind);
        var root := base.tree;
        && root == old(base.tree) && root.name == old(root.name) && root.parent == old(root.parent)
        && (forall c :: c in old(root.children) ==> c.name == old(c.name) && c.children == old(c.children))
        && if e.action == ShiftAction then
             // shift: the token's node (the pending one, or a new leaf) and the target state are pushed
             && base.tokenStream == old(base.tokenStream[1..]) && !pending && !base.finished
             && stack == old(stack) + [Frame(base.currentNode, kind, e.target)]
             && if old(pending) then
                  root.children == old(root.children) && base.currentNode == root.children[|root.children| - 1]
                else
                  && fresh(base.currentNode) && base.currentNode.name == kind
                  && base.currentNode.parent == root && base.currentNode.children == []
                  && root.children == old(root.children) + [base.currentNode]
           else if e.action == ReduceAction then
             // reduce: the last n root children move under a new left-hand-side node
             var p := productions[e.target].value;
             && base.tokenStream == [P.Token(p.leftSide, p.leftSide)] + old(base.tokenStream)
             && pending && !base.finished
             && |stack| + p.rightSideLen == old(|stack|) && stack == old(stack)[..|stack|]
             && fresh(base.currentNode) && base.currentNode.name == p.leftSide && base.currentNode.parent == root
             && |base.currentNode.children| == p.rightSideLen
             && (forall c :: c in base.currentNode.children ==> c.parent == base.currentNode)
             && |root.children| > 0 && root.children[|root.children| - 1] == base.currentNode
             && old(root.children) == root.children[..|root.children| - 1] + base.currentNode.children
           else if e.action == ShiftReduceAction then
             // shift then reduce: as a reduction of n symbols whose last is the token itself
             var p := productions[e.target].value;
             && base.tokenStream == [P.Token(p.leftSide, p.leftSide)] + old(base.tokenStream[1..])
             && pending && !base.finished
             && |stack| + p.rightSideLen == old(|stack|) + 1 && stack == old(stack)[..|stack|]
             && fresh(base.currentNode) && base.currentNode.name == p.leftSide && base.currentNode.parent == root
             && |base.currentNode.children| == p.rightSideLen
             && (forall c :: c in base.currentNode.children ==> c.parent == base.currentNode)
             && |root.children| > 0 && root.children[|root.children| - 1] == base.currentNode
             && if old(pending) then
                  old(root.children) == root.children[..|root.children| - 1] + base.currentNode.children
                else
                  var last := base.currentNode.children[p.rightSideLen - 1];
                  && old(root.children) == root.children[..|root.children| - 1] + base.currentNode.children[..p.rightSideLen - 1]
                  && fresh(last) && last.name == kind && last.children == []
           else
             // a blank entry: an "ERROR" child of the root, and the parse ends
             && base.finished && stack == old(stack) && base.tokenStream == old(base.tokenStream)
             && pending == old(pending)
             && fresh(base.currentNode) && base.currentNode.name == "ERROR"
             && base.currentNode.parent == root && base.currentNode.children == []
             && root.children == old(root.children) + [base.currentNode]
    {
      var symbol := base.tokenStream[0].kind;
      var rule := table[stack[|stack| - 1].state][P.IndexOf(symbolList, symbol)];
      assert rule == NextEntry();
      match rule.action {
        case ShiftAction => Shift(symbol, rule.target);
        case ReduceAction => Reduce(productions[rule.target].value);
        case ShiftReduceAction => ShiftReduce(symbol, productions[rule.target].value);
        case ErrorAction => Fail();
      }
    }

    /** The start: an unnamed root, current, in a frame for state 0. */
    method Begin()
      requires Valid() && !base.finished && |stack| == 0
      modifies this`stack, base`tree, base`currentNode
      ensures Valid()
      ensures fresh(base.tree) && base.tree.name == "" && base.tree.parent == null && base.tree.children == []
      ensures base.currentNode == base.tree && stack == [Frame(base.tree, "", 0)]
    {
      var root := new Tree("", null, []);
      base.tree, base.currentNode := root, root;
      stack := [Frame(root, "", 0)];
    }

    /** Shift: the token's node is the pending root child, or a new leaf named after the token's kind. */
    method Shift(symbol: string, target: int)
      requires Valid() && !base.finished && |stack| > 0
      requires |base.tokenStream| > 0 && base.tokenStream[0].kind == symbol
      requires 0 <= target < |table| && MinDepth[target] <= MinDepth[stack[|stack| - 1].state] + 1
      modifies this`stack, this`pending, base`tokenStream, base`currentNode, base.tree
      ensures Valid() && base.tree == old(base.tree) && !base.finished
      ensures base.tokenStream == old(base.tokenStream[1..]) && !pending
      ensures stack == old(stack) + [Frame(base.currentNode, symbol, target)]
      ensures old(pending) ==>
        base.tree.children == old(base.tree.children) && base.currentNode == base.tree.children[|base.tree.children| - 1]
      ensures !old(pending) ==>
        && fresh(base.currentNode) && base.currentNode.name == symbol
        && base.currentNode.parent == base.tree && base.currentNode.children == []
        && base.tree.children == old(base.tree.children) + [base.currentNode]
      ensures base.tree.name == old(base.tree.name) && base.tree.parent == old(base.tree.parent)
    {
      base.tokenStream := base.tokenStream[1..];
      if pending {
        base.currentNode := base.tree.Get(-1);
      } else {
        base.currentNode := base.tree.AddChild(symbol, -1, []);
      }
      pending := false;
      stack := stack + [Frame(base.currentNode, symbol, target)];
    }

    /** The loop both reductions share: pop `n` frames and the root's last `n` children, kept in order. */
    method PopFrames(n: nat) returns (popped: seq<Tree>)
      requires base.tree != null && n < |stack| && n <= |base.tree.children|
      modifies this`stack, base.tree
      ensures |stack| + n == |old(stack)| && stack == old(stack)[..|stack|]
      ensures |base.tree.children| + n == |old(base.tree.children)|
      ensures old(base.tree.children) == base.tree.children + popped
      ensures base.tree.name == old(base.tree.name) && base.tree.parent == old(base.tree.parent)
    {
      var root := base.tree;
      popped := [];
      for i := 0 to n
        invariant |stack| + i == |old(stack)| && stack == old(stack)[..|stack|]
        invariant |root.children| + i == |old(root.children)|
        invariant old(root.children) == root.children + popped
        invariant root.name == old(root.name) && root.parent == old(root.parent)
      {
        stack := stack[..|stack| - 1];
        var last := root.RemoveLastChild();
        popped := [last] + popped;
      }
    }

    /** Reduce: the production's left-hand side becomes the first token and adopts the root's last children. */
    method Reduce(p: Production)
      requires Valid() && !base.finished && |stack| > 0 && !pending
      requires p.rightSideLen <= MinDepth[stack[|stack| - 1].state] && p.leftSide in LeftSides(productions)
      modifies this`stack, this`pending, base`tokenStream, base`currentNode, base.tree
      modifies set c | c in base.tree.children
      ensures Valid() && base.tree == old(base.tree) && !base.finished
      ensures base.tokenStream == [P.Token(p.leftSide, p.leftSide)] + old(base.tokenStream) && pending
      ensures |stack| + p.rightSideLen == old(|stack|) && stack == old(stack)[..|stack|]
      ensures fresh(base.currentNode) && base.currentNode.name == p.leftSide && base.currentNode.parent == base.tree
      ensures |base.currentNode.children| == p.rightSideLen
      ensures forall c :: c in base.currentNode.children ==> c.parent == base.currentNode
      ensures forall c :: c in old(base.tree.children) ==> c.name == old(c.name) && c.children == old(c.children)
      ensures base.tree.name == old(base.tree.name) && base.tree.parent == old(base.tree.parent)
      ensures |base.tree.children| > 0 && base.tree.children[|base.tree.children| - 1] == base.currentNode
      ensures old(base.tree.children) == base.tree.children[..|base.tree.children| - 1] + base.currentNode.children
    {
      base.tokenStream := [P.Token(p.leftSide, p.leftSide)] + base.tokenStream;
      pending := true;
      var popped := PopFrames(p.rightSideLen);
      base.currentNode := base.tree.AddChild(p.leftSide, -1, popped);
    }

    /**
     * Shift then reduce: the token is consumed and the left-hand side takes its place.  A pending
     * node is the last of the `n` children it adopts; otherwise it adopts `n - 1` root children and
     * a new leaf for the token.
     */
    method ShiftReduce(symbol: string, p: Production)
      requires Valid() && !base.finished && |stack| > 0
      requires |base.tokenStream| > 0 && base.tokenStream[0].kind == symbol
      requires 1 <= p.rightSideLen <= MinDepth[stack[|stack| - 1].state] + 1 && p.leftSide in LeftSides(productions)
      modifies this`stack, this`pending, base`tokenStream, base`currentNode, base.tree
      modifies set c | c in base.tree.children
      ensures Valid() && base.tree == old(base.tree) && !base.finished
      ensures base.tokenStream == [P.Token(p.leftSide, p.leftSide)] + old(base.tokenStream[1..]) && pending
      ensures |stack| + p.rightSideLen == old(|stack|) + 1 && stack == old(stack)[..|stack|]
      ensures fresh(base.currentNode) && base.currentNode.name == p.leftSide && base.currentNode.parent == base.tree
      ensures |base.currentNode.children| == p.rightSideLen
      ensures forall c :: c in base.currentNode.children ==> c.parent == base.currentNode
      ensures forall c :: c in old(base.tree.children) ==> c.name == old(c.name) && c.children == old(c.children)
      ensures base.tree.name == old(base.tree.name) && base.tree.parent == old(base.tree.parent)
      ensures |base.tree.children| > 0 && base.tree.children[|base.tree.children| - 1] == base.currentNode
      ensures old(pending) ==>
        old(base.tree.children) == base.tree.children[..|base.tree.children| - 1] + base.currentNode.children
      ensures !old(pending) ==>
        var last := base.currentNode.children[p.rightSideLen - 1];
        && old(base.tree.children) == base.tree.children[..|base.tree.children| - 1] + base.currentNode.children[..p.rightSideLen - 1]
        && fresh(last) && last.name == symbol && last.children == []
    {
      if pending {
        ShiftReducePending(p);
      } else {
        ShiftReduceLeaf(symbol, p);
      }
    }

    /** Shift then reduce with a pending node: the left-hand side adopts the root's last `n` children. */
    method ShiftReducePending(p: Production)
      requires Valid() && !base.finished && |stack| > 0 && pending
      requires 1 <= p.rightSideLen <= MinDepth[stack[|stack| - 1].state] + 1 && p.leftSide in LeftSides(productions)
      modifies this`stack, base`tokenStream, base`currentNode, base.tree
      modifies set c | c in base.tree.children
      ensures Valid() && base.tree == old(base.tree) && !base.finished
      ensures base.tokenStream == [P.Token(p.leftSide, p.leftSide)] + old(base.tokenStream[1..]) && pending
      ensures |stack| + p.rightSideLen == old(|stack|) + 1 && stack == old(stack)[..|stack|]
      ensures fresh(base.currentNode) && base.currentNode.name == p.leftSide && base.currentNode.parent == base.tree
      ensures |base.currentNode.children| == p.rightSideLen
      ensures forall c :: c in base.currentNode.children ==> c.parent == base.currentNode
      ensures forall c :: c in old(base.tree.children) ==> c.name == old(c.name) && c.children == old(c.children)
      ensures base.tree.name == old(base.tree.name) && base.tree.parent == old(base.tree.parent)
      ensures |base.tree.children| > 0 && base.tree.children[|base.tree.children| - 1] == base.currentNode
      ensures old(base.tree.children) == base.tree.children[..|base.tree.children| - 1] + base.currentNode.children
    {
      base.tokenStream := [P.Token(p.leftSide, p.leftSide)] + base.tokenStream[1..];
      var popped := PopFrames(p.rightSideLen - 1);
      var last := base.tree.RemoveLastChild();
      popped := [last] + popped;
      base.currentNode := base.tree.AddChild(p.leftSide, -1, popped);
    }

    /** Shift then reduce without one: `n - 1` root children and a new leaf for the token. */
    method ShiftReduceLeaf(symbol: string, p: Production)
      requires Valid() && !base.finished && |stack| > 0 && !pending
      requires |base.tokenStream| > 0 && base.tokenStream[0].kind == symbol
      requires 1 <= p.rightSideLen <= MinDepth[stack[|stack| - 1].state] + 1 && p.leftSide in LeftSides(productions)
      modifies this`stack, this`pending, base`tokenStream, base`currentNode, base.tree
      modifies set c | c in base.tree.children
      ensures Valid() && base.tree == old(base.tree) && !base.finished
      ensures base.tokenStream == [P.Token(p.leftSide, p.leftSide)] + old(base.tokenStream[1..]) && pending
      ensures |stack| + p.rightSideLen == old(|stack|) + 1 && stack == old(stack)[..|stack|]
      ensures fresh(base.currentNode) && base.currentNode.name == p.leftSide && base.currentNode.parent == base.tree
      ensures |base.currentNode.children| == p.rightSideLen
      ensures forall c :: c in base.currentNode.children ==> c.parent == base.currentNode
      ensures forall c :: c in old(base.tree.children) ==> c.name == old(c.name) && c.children == old(c.children)
      ensures base.tree.name == old(base.tree.name) && base.tree.parent == old(base.tree.parent)
      ensures |base.tree.children| > 0 && base.tree.children[|base.tree.children| - 1] == base.currentNode
      ensures var last := base.currentNode.children[p.rightSideLen - 1];
        && old(base.tree.children) == base.tree.children[..|base.tree.children| - 1] + base.currentNode.children[..p.rightSideLen - 1]
        && fresh(last) && last.name == symbol && last.children == []
    {
      base.tokenStream := [P.Token(p.leftSide, p.leftSide)] + base.tokenStream[1..];
      var popped := PopFrames(p.rightSideLen - 1);
      base.currentNode := base.tree.AddChild(p.leftSide, -1, popped);
      var leaf := base.currentNode.AddChild(symbol, -1, []);
      pending := true;
    }
  }
}
