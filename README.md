# Parse Tree Visualizer — a Dafny model of the parsing core

Parse Tree Visualizer is a teaching tool. The user loads a BNF-like grammar description, then steps
one of three parsing engines through a token stream, watching the parse tree grow one action at a
time. This project models the core of that program in Dafny:

- **Grammar scanner** (`grammar.dfy`, module `Grammar`). This is the 14-state character automaton
  of `Grammar.__init__`.
  - One turn of its loop is the transition function `Step`.
  - The loop is the method `ParseGrammar`, proved equal to the fold `Parse`.
  - The scanner's loop invariant is proved once. Most properties of the scan follow from it:
    well-formed names, the token list, which errors can occur and where rules and items are
    appended.
- **Parse tree** (`tree.dfy`, module `Trees`). A class with `name`, `parent` and `children` fields,
  mutated in place by `AddChild` and `RemoveLastChild`.
- **Engine base** (`parser.dfy`, module `Parser`). The state every engine shares: grammar, tree,
  current node, token stream and finished flag. It also holds `node_on_stack`,
  `token_stream_to_str` and `input_grammar`.
- **The three stepwise engines.** Each `Step` method is specified branch by branch against the
  source's `step`. Each keeps an invariant (`Valid`) that makes every unguarded list access of the
  source safe.
  - `ll1_recursive_descent.dfy`: recursive descent simulated on an explicit call stack, over the
    constant calculator-language table. Frames always form a chain of pending calls, and the
    stack is always a path down the tree.
  - `ll1_table.dfy`: the table-driven LL(1) engine and its 12 × 21 table. The table is proved to
    describe exactly the same grammar as the recursive-descent table (`EnginesAgree`).
  - `slr_table.dfy`: the SLR(1) engine with shift, reduce, shift-then-reduce and error entries.
    - A per-state depth bound (`MinDepth`) is proved for every table entry.
    - Together with the invariant "root children = stack depth − 1, plus 1 while a reduced node
      is pending", it shows that no reduction ever pops the bottom frame or removes a child that
      is not there.
- **Grid** (`grid.dfy`, module `Grids`). The column-major, grow-on-demand table of optional items,
  with its per-row rightmost-entry index.
- **HTML rendering** (`html.dfy`, module `HTML`).
  - Escaping of `&`, `<` and `>`, proved to act character by character and to be undone by
    unescaping.
  - The stack-trace and code-listing documents.
- **Helpers.** `text.dfy` (`Text`) holds Python's `sep.join` and `str.split`, with the round trip
  between them. `wrappers.dfy` holds `Option` and `Result`, which stand for `None` and for raised
  exceptions.

The tables of all three engines are hard-coded constants for one calculator language in the
source (`generate_rules` ignores the loaded grammar). They are constants here too.

### Where the code departs from the textbook constructions (the model follows the code)

- **Tables.** A textbook LL(1) or SLR(1) engine builds its tables from the grammar: FIRST and
  FOLLOW sets, and LR(0) item sets. The code installs fixed tables for the calculator language.
- **Token list.**
  - A textbook terminal list keeps first-seen order and ends with the end marker `<eof>`.
  - The code deduplicates through `list(set(...))`, so the order is unspecified, and it adds no
    `<eof>`.
  - The model keeps first-seen order. It proves the list holds each non-empty terminal spelling
    exactly once (`Grammar.ParsedTokens`).
- **Unresolved names.** A grammar whose nonterminals do not name rules is normally rejected. The
  scanner performs no such check, and neither does the model.
- **Class hierarchy.** `LL1TableParser` and `SLRTableParser` derive from a `TableParser` class
  that lacks the `Parser` members they use, and `Parser.BaseParseStackFrame` is not defined. The
  model gives every engine the full shared `Parser` state, by composition (`base`), which is what
  the code evidently intends.

In a shift-then-reduce (`b`) move the code agrees with the textbook. The shifted symbol is the
production's last, and when it is a pending node that node is the root's last child. The new
left-hand-side node adopts the root's last `n` children in order, so the pending node becomes its
*last* child.

## Model

| member | source | states |
|---|---|---|
| `Grammar.ParseGrammar` | Source/Grammar.py:42-185 | The character loop, then the final-state check and token clean-up, returns exactly `Parse(description)`: the error of the first malformed character, "Grammar definition is incomplete", or the grammar. |
| `Grammar.Step` | Source/Grammar.py:51-178 | One turn of the loop, the branch of `match current_state` for one character. The "Something went wrong." error is raised exactly in a state outside 0–13. A successful turn lands in a state 0–13. Only a closing quote in state 10 adds a token, and that token is the literal just read. |
| `Grammar.Finish` | Source/Grammar.py:180-185 | After the loop, a scan ending outside states 0, 9 and 13 raises "Grammar definition is incomplete". Otherwise the grammar keeps the description and the scanned rules. Its token list holds each non-empty scanned spelling once and no `""`. |
| `Grammar.Parse` | Source/Grammar.py:42-185 | What `Grammar(description)` returns or raises: the first scanning error, else `Finish` of the scanned state. A built grammar keeps its description, and its tokens are distinct and non-empty. |
| `Grammar.DistinctTokens` | Source/Grammar.py:183-185 | The cleaned token list has no duplicates, no `""`, and holds exactly the non-empty spellings of the raw list. |
| `Grammar.InitialInv` | Source/Grammar.py:43-49 | The scanner's invariant holds before the first character: state 0, no rules, no tokens. |
| `Grammar.StepKeepsInv` | Source/Grammar.py:51-178 | Every branch of the `match` keeps the invariant: the state is a real state, rule and nonterminal names are well formed, a rule exists once a name was closed, and the token list has exactly the terminal spellings of the rules. |
| `Grammar.StepKeepsInvRuleName` | Source/Grammar.py:54-77 | States 0–2 (reading `<name>`) keep the invariant. Closing the name appends a rule with a well-formed name. |
| `Grammar.StepKeepsInvAlternatives` | Source/Grammar.py:78-120 | States 3–8 (`::=` and `<x>` items) keep the invariant. A closed nonterminal goes to the last rule with a well-formed name. |
| `Grammar.StepKeepsInvLiterals` | Source/Grammar.py:121-149 | States 9–10 keep the invariant. A `|` opens a rule with the same name. A closed literal is added both to the last rule and to the token list. |
| `Grammar.StepKeepsInvRuleEnd` | Source/Grammar.py:150-176 | States 11–13 (escapes, comments, after a literal) keep the invariant. |
| `Grammar.SymbolAppend` | Source/Grammar.py:62-71 | Appending a symbol character to an empty or well-formed name gives a well-formed (non-empty) name. |
| `Grammar.AppendRuleKeeps` | Source/Grammar.py:72-74 | Appending an empty rule with a well-formed name keeps all names valid and adds no terminal spelling. |
| `Grammar.AppendToLastNames` | Source/Grammar.py:116-117 | Appending an item to the last rule keeps all names valid when a nonterminal's name is well formed. |
| `Grammar.AppendToLastTerminals` | Source/Grammar.py:144-146 | Appending an item to the last rule adds its spelling to the rules' terminals exactly when it is a terminal. |
| `Grammar.OutsideRule` | Source/Grammar.py:54-61 | In state 0 whitespace is skipped, `<` starts a name, and anything else raises "All rules must start with '<'." |
| `Grammar.InsideName` | Source/Grammar.py:62-120 | Inside `<...>`, in the rule name (states 1, 2, lines 62-77) or a nonterminal (states 7, 8, lines 106-120), the step succeeds exactly on a letter, digit, `-` or `_`, which extends the name, or on `>` after at least one such character. Every other character raises "Symbols can only have letters, numbers, '_', or '-'." |
| `Grammar.ItemStart` | Source/Grammar.py:95-136 | Where an item may start (states 6 and 9) the step succeeds exactly on `<`, `"` or a blank other than newline, and after a nonterminal also on `\|`, a newline or `;`. Every other character raises "Symbol must begin with '<' or '\"'". |
| `Grammar.DefinedAs` | Source/Grammar.py:78-94 | In states 3–5 the step succeeds exactly for blanks other than newline before `::=`, then `:`, `:`, `=` with nothing between. Every failure is the "::=" error. |
| `Grammar.EscapeInLiteral` | Source/Grammar.py:142-156 | Inside a literal, `\` moves to the escape state. `\n` then appends a newline, and any other escaped character is appended literally. |
| `Grammar.NewlineInLiteral` | Source/Grammar.py:139-141 | A raw newline inside a literal raises "Symbol definition incomplete". |
| `Grammar.AfterLiteral` | Source/Grammar.py:162-176 | After a literal the step succeeds exactly on `<`, whitespace, `\|` or `;`. A second `"` or anything else raises "Symbol following literal must begin with '<'". |
| `Grammar.CommentSkipsLine` | Source/Grammar.py:157-161 | In a `;` comment every character is skipped until a newline returns to state 0. |
| `Grammar.NewRuleExactly` | Source/Grammar.py:72-170 | A step adds a rule exactly when it closes the rule name or reads `\|` after an alternative. The new rule is empty and carries the current rule name. |
| `Grammar.NewItemExactly` | Source/Grammar.py:112-147 | A step changes the rules without adding one exactly when it closes `<x>` or `"x"`. The item goes to the end of the most recent rule, and a literal's spelling to the end of the token list. |
| `Grammar.ScanAppend` | Source/Grammar.py:51-178 | Scanning `a + b` is scanning `a` then `b`. An error raised in `a` is the final result. |
| `Grammar.ScanKeepsInv` | Source/Grammar.py:51-178 | The invariant holds after any number of characters. |
| `Grammar.PrefixErrorIsFinal` | Source/Grammar.py:51-178 | If a prefix of the description already fails, the whole description fails with that prefix's error. |
| `Grammar.StepExtends` | Source/Grammar.py:112-170 | One step only appends rules, or appends an item to the last rule. Earlier rules never change. |
| `Grammar.ScanExtends` | Source/Grammar.py:51-178 | Over a whole scan, earlier rules never change and the last one only gains items at its end. |
| `Grammar.ScanNeverFailsInternally` | Source/Grammar.py:177-181 | The scan loop itself never raises "Something went wrong." or "Grammar definition is incomplete". |
| `Grammar.NeverSomethingWentWrong` | Source/Grammar.py:177-178 | The fallback case of the `match` is unreachable for every description. |
| `Grammar.IncompleteExactly` | Source/Grammar.py:180-181 | "Grammar definition is incomplete" is raised exactly when the scan succeeds but ends outside states 0, 9 and 13. |
| `Grammar.ParsedNamesValid` | Source/Grammar.py:62-120 | Every rule name and nonterminal of a constructed grammar is a non-empty string of letters, digits, `_` and `-`. |
| `Grammar.ParsedTokens` | Source/Grammar.py:183-185 | `tokens_list` of a constructed grammar has no duplicates, no `""`, and holds exactly the non-empty terminal spellings used in its rules. |
| `Trees.InsertPosition` | Source/Tree.py:42-44 | A negative index (or one past the end) appends, and an index in range inserts at that position. |
| `Trees.Tree.constructor` | Source/Tree.py:23-28 | The new node has the given name, parent and children. Every supplied child's parent becomes the new node. |
| `Trees.Tree.Len` | Source/Tree.py:33-38 | `len(t)` is the number of children. |
| `Trees.Tree.Get` | Source/Tree.py:30-31 | `t[i]` is `children[i]`, and a negative `i` counts from the end. |
| `Trees.Tree.AddChild` | Source/Tree.py:40-45 | The new child (named, with parent `self` and the given children, each re-parented) is inserted at the position and the other children keep their order. The count grows by one. |
| `Trees.Tree.RemoveLastChild` | Source/Tree.py:47-48 | Returns the former last child. The children are the former ones minus the last. |
| `Parser.Images` | Source/Parser.py:49-50 | The token images, one per token, in stream order. |
| `Parser.TokenStreamToStr` | Source/Parser.py:49-50 | The images joined by single spaces. One token shows as its image, and with more tokens the first image is followed by a space. |
| `Parser.EmptyStreamToStr` | Source/Parser.py:49-50 | An empty token stream is rendered as `''`. |
| `Parser.TokenStreamToStrSplits` | Source/Parser.py:49-50 | The rendering is the images joined by single spaces. Splitting it on spaces gives back the images of a non-empty stream whose images hold no space. |
| `Parser.NodeOnStack` | Source/Parser.py:46-47 | True exactly when some frame holds the node (identity for a class). |
| `Parser.IndexOf` | Source/LL1TableParser.py:135-136 | `list.index`: the position of the first occurrence. |
| `Parser.Parser.constructor` | Source/Parser.py:26-33 | A parser starts with no grammar, no tree, no current node, no tokens, not finished. |
| `Parser.Parser.InputGrammar` | Source/Parser.py:39-41 | A description that raises leaves `grammar` unchanged and reports the error. One that scans replaces `grammar`. |
| `Parser.Parser.NewCode` | Source/Parser.py:43-44 | The token stream becomes the given tokens. |
| `LL1RecursiveDescent.Alternative` | Source/LL1RecursiveDescentParser.py:148-150 | An alternative is found exactly when the frame's rule and captured lookahead have a table entry, and it is that entry. |
| `LL1RecursiveDescent.RuleNamesInRules` | Source/LL1RecursiveDescentParser.py:71-130 | The table has an entry for each of the 12 calculator-language rules. |
| `LL1RecursiveDescent.RulesInRuleNames` | Source/LL1RecursiveDescentParser.py:71-130 | The table has no entry other than those 12 rules. |
| `LL1RecursiveDescent.StatementTablesWellFormed` | Source/LL1RecursiveDescentParser.py:76-91 | Every alternative of `program`, `stmt_list` and `stmt` ends with the `''` sentinel (only there) and calls only existing rules. |
| `LL1RecursiveDescent.ExpressionTablesWellFormed` | Source/LL1RecursiveDescentParser.py:92-120 | The same for `cond`, `expr`, `term` and `factor`. |
| `LL1RecursiveDescent.TailTablesWellFormed` | Source/LL1RecursiveDescentParser.py:97-115 | The same for `term_tail` and `factor_tail`. |
| `LL1RecursiveDescent.OperatorTablesWellFormed` | Source/LL1RecursiveDescentParser.py:121-128 | The same for `ro`, `ao` and `mo`. |
| `LL1RecursiveDescent.RuleTableWellFormed` | Source/LL1RecursiveDescentParser.py:76-128 | The map of every rule of the table is well formed. |
| `LL1RecursiveDescent.RulesWellFormed` | Source/LL1RecursiveDescentParser.py:76-128 | Every alternative of the installed table ends with the sentinel, has it nowhere else, and calls only rules of the table. |
| `LL1RecursiveDescent.CallExtendsChain` | Source/LL1RecursiveDescentParser.py:162-168 | Pushing a frame for the rule the top frame is calling keeps the frames a chain of pending calls. |
| `LL1RecursiveDescent.MatchAdvancesChain` | Source/LL1RecursiveDescentParser.py:170-175 | Advancing the top frame's index past a matched token keeps the chain. |
| `LL1RecursiveDescent.ReturnShortensChain` | Source/LL1RecursiveDescentParser.py:155-161 | Popping a finished frame and advancing its caller past the call keeps the chain. |
| `LL1RecursiveDescent.RecursiveDescentParser.constructor` | Source/LL1RecursiveDescentParser.py:55-60 | Empty table and the reset state. |
| `LL1RecursiveDescent.RecursiveDescentParser.GenerateRules` | Source/LL1RecursiveDescentParser.py:71-131 | Installs the calculator-language table, whose alternatives are all non-empty. |
| `LL1RecursiveDescent.RecursiveDescentParser.InputGrammar` | Source/Parser.py:39-41 | On a scanning error, grammar and table are unchanged and the error is returned. Otherwise the grammar is stored and the table regenerated. |
| `LL1RecursiveDescent.RecursiveDescentParser.NodeOnStack` | Source/Parser.py:46-47 | True exactly when some frame holds the node. |
| `LL1RecursiveDescent.RecursiveDescentParser.Step` | Source/LL1RecursiveDescentParser.py:133-178 | Each branch is specified: start, finish, missing entry, return at the sentinel, descend, match, mismatch. Stack, tokens, current node, finished flag and the top node's children are pinned down. The top node keeps its name and parent, a return leaves its children as they were, and every appended child is a leaf under the top node. The call chain and tree-path invariant are kept. |
| `LL1RecursiveDescent.RecursiveDescentParser.Begin` | Source/LL1RecursiveDescentParser.py:135-141 | A fresh root named `program` is tree and current node. One frame is pushed with index 0 and the first token's kind. |
| `LL1RecursiveDescent.RecursiveDescentParser.Fail` | Source/LL1RecursiveDescentParser.py:151-153 | An `"ERROR"` leaf is appended under the top frame's node, becomes current, and parsing finishes. The node keeps its name and parent. |
| `LL1RecursiveDescent.RecursiveDescentParser.Return` | Source/LL1RecursiveDescentParser.py:155-161 | The top frame's node becomes current, the frame is popped, and the new top frame's index grows by one. |
| `LL1RecursiveDescent.RecursiveDescentParser.Descend` | Source/LL1RecursiveDescentParser.py:162-168 | One leaf named after the called rule is appended under the top node and becomes current. A frame for it is pushed with the current lookahead. Tokens are unchanged, and the top node keeps its name and parent. |
| `LL1RecursiveDescent.RecursiveDescentParser.MatchToken` | Source/LL1RecursiveDescentParser.py:170-175 | A leaf holding the token's image is appended under the top node, the token is removed from the front, and the top index grows by one. The top node keeps its name and parent. |
| `LL1RecursiveDescent.RecursiveDescentParser.AdvanceTop` | Source/LL1RecursiveDescentParser.py:175 | The top frame's index grows by one, and the frames below it, their nodes and the chain of pending calls are kept. |
| `LL1RecursiveDescent.RecursiveDescentParser.Reset` | Source/LL1RecursiveDescentParser.py:180-187 | No tree, no current node, empty stack and tokens, not finished. The table and grammar are kept. |
| `LL1Table.UpperRowsWellFormed` | Source/LL1TableParser.py:72-78 | Rows 0–5 have 21 cells, each -1 or a production index. |
| `LL1Table.LowerRowsWellFormed` | Source/LL1TableParser.py:79-84 | Rows 6–11 have 21 cells, each -1 or a production index. |
| `LL1Table.ProductionsNameRows` | Source/LL1TableParser.py:86-111 | Every nonterminal a production names is a row of the table. |
| `LL1Table.GeneratedTablesWellFormed` | Source/LL1TableParser.py:67-111 | 12 rows (one per rule) of 21 cells (one per token kind). Every non-negative cell indexes `ll_table_rules`, and every production's nonterminal is a row. |
| `LL1Table.EpsilonProductions` | Source/LL1TableParser.py:86-111 | The empty productions are exactly entries 3, 12 and 15. |
| `LL1Table.RowAgreesAt` | Source/LL1TableParser.py:72-111 | Each table row selects, column by column, the same alternatives as the recursive-descent map of the same rule. |
| `LL1Table.EnginesAgree` | Source/LL1TableParser.py:67-111 | For every rule and token kind, the cell is used exactly when the recursive-descent table has an alternative, and its production plus the sentinel is that alternative. |
| `LL1Table.SameRules` | Source/LL1TableParser.py:68-71 | The table's rows are exactly the recursive-descent rules, and their maps use only the table's columns. |
| `LL1Table.TableParser.constructor` | Source/LL1TableParser.py:41-45 | Empty tables and no parse in progress. |
| `LL1Table.TableParser.GenerateRules` | Source/LL1TableParser.py:67-111 | Installs the four constant tables, which are well formed. |
| `LL1Table.TableParser.InputGrammar` | Source/Parser.py:39-41 | On a scanning error, grammar and tables are unchanged. Otherwise the grammar is stored and the tables regenerated. |
| `LL1Table.TableParser.NodeOnStack` | Source/Parser.py:46-47 | True exactly when some frame holds the node. |
| `LL1Table.TableParser.PushRulesToStack` | Source/LL1TableParser.py:62-65 | A k-symbol production becomes the current node's first k children, in production order (fresh, named after the symbols). k frames are pushed with the first symbol on top, and the earlier children and frames are kept. |
| `LL1Table.TableParser.Step` | Source/LL1TableParser.py:113-142 | Each branch is specified: start, finish, or pop one frame and make its node current. Only a pop reads the first token. Then: terminal match renames and consumes, mismatch renames to `"ERROR"` and stops, a negative cell adds an `"ERROR"` leaf under the popped node and stops, a production is pushed as fresh leaves under it. The grammar is kept, the start root has no parent, and the popped node keeps its parent, and its name when it is a nonterminal. |
| `LL1Table.TableParser.Begin` | Source/LL1TableParser.py:115-119 | A fresh root with no parent and no children, named after `ll_table_rules[0][0]`, is tree and current node, and its frame is the whole stack. |
| `LL1Table.TableParser.Expand` | Source/LL1TableParser.py:134-142 | Looks up `table[index of rule][index of kind]`. A negative cell appends an `"ERROR"` leaf under the node and finishes. Otherwise the production is pushed as in `PushRulesToStack`, as fresh leaves whose parent is the node. The node keeps its name and parent. |
| `SLRTable.LeftSides` | Source/SLRTableParser.py:129-136 | Exactly the left-hand sides of the productions. |
| `SLRTable.RowFits` | Source/SLRTableParser.py:91-128 | Every entry of a state's row fits its depth bound. A shift's target is a state, and a reduction names production 1–17 and pops only frames above the bottom one. |
| `SLRTable.GeneratedTablesWellFormed` | Source/SLRTableParser.py:87-136 | 14 rows of 19 entries. Every `s` target is a state below 14, every `r`/`b` target a production 1–17, and every plain reduction is on a column the lexer can produce. |
| `SLRTable.SLRParser.constructor` | Source/SLRTableParser.py:55-61 | The reset state with empty tables. |
| `SLRTable.SLRParser.GenerateRules` | Source/SLRTableParser.py:87-136 | Installs the three constant tables, which are well formed. From the reset state the invariant then holds. |
| `SLRTable.SLRParser.InputGrammar` | Source/Parser.py:39-41 | On a scanning error, grammar and tables are unchanged. Otherwise the grammar is stored and the tables regenerated. |
| `SLRTable.SLRParser.Reset` | Source/SLRTableParser.py:188-200 | No tree, stack, tokens, not finished, nothing pending. The tables and grammar are kept. |
| `SLRTable.SLRParser.NodeOnStack` | Source/Parser.py:46-47 | True exactly when some frame holds the node. |
| `SLRTable.SLRParser.NextEntry` | Source/SLRTableParser.py:148-151 | The entry for the top state and the next kind. A shift's state fits one frame higher, a reduction never pops the bottom frame, and a plain reduction never happens while a node is pending. |
| `SLRTable.SLRParser.Step` | Source/SLRTableParser.py:138-186 | Each branch is specified: start, accept (`tree[0]` current), shift, reduce, shift-then-reduce, blank. The stack, tokens, pending flag, current node and the root's children are pinned down in every branch, and the grammar is kept. The start root has no parent, and the root then keeps its name and parent. A new leaf or `"ERROR"` node has the root as parent. The root's former children keep their names and children, and every node a reduction adopts gets the new node as parent. The invariant (root children = depth − 1 + pending, root not its own child) is kept. |
| `SLRTable.SLRParser.Act` | Source/SLRTableParser.py:147-186 | The action of the selected entry, with the same per-action results as `Step`, including the kept grammar and root name and parent, the root as parent of a new leaf or `"ERROR"` node, the root's former children keeping their names and children, and the adopted nodes' new parent. |
| `SLRTable.SLRParser.Begin` | Source/SLRTableParser.py:140-142 | A fresh root named `""`, with no parent and no children, is tree and current node, in a frame for state 0. |
| `SLRTable.SLRParser.Fail` | Source/SLRTableParser.py:184-186 | An `"ERROR"` leaf is appended under the root, becomes current, and parsing finishes. The root keeps its name and parent. |
| `SLRTable.SLRParser.Shift` | Source/SLRTableParser.py:153-157 | Consumes one token and clears the pending flag. The pending node (the root's last child) or a new leaf under the root named after the kind becomes current and is pushed with the target state. The root keeps its name and parent. |
| `SLRTable.SLRParser.PopFrames` | Source/SLRTableParser.py:163-166 | Pops n frames and the root's last n children, returned in their original order. |
| `SLRTable.SLRParser.Reduce` | Source/SLRTableParser.py:158-167 | Prepends the left-hand-side token and pops n frames. The root's last n children move, in order, under one new last root child named after the left-hand side, which becomes their parent. They keep their names and children, and the root keeps its name and parent. Sets the pending flag. |
| `SLRTable.SLRParser.ShiftReduce` | Source/SLRTableParser.py:168-183 | Consumes the token, prepends the left-hand side and pops n−1 frames. The new node adopts the root's last n children (the pending node last), or n−1 children plus a new leaf for the token. Every adopted node gets the new node as parent, and the root's former children keep their names and children. The root keeps its name and parent. Pending ends true. |
| `SLRTable.SLRParser.ShiftReducePending` | Source/SLRTableParser.py:170-179 | With a node pending, the new node adopts the root's last n children in order and becomes their parent. They keep their names and children, and the root keeps its name and parent. |
| `SLRTable.SLRParser.ShiftReduceLeaf` | Source/SLRTableParser.py:170-182 | Without one, the new node adopts the root's last n−1 children and then a new leaf named after the consumed kind, and becomes the parent of all n. The root's former children keep their names and children, and the root keeps its name and parent. |
| `Grids.Grid.constructor` | Source/Grid.py:27-29 | A 1×1 grid with an empty cell and entries `[-1]`. |
| `Grids.Grid.Width` | Source/Grid.py:31-33 | The number of columns, which is positive. |
| `Grids.Grid.Height` | Source/Grid.py:35-37 | The last column's length, which is every column's and the number of row entries. |
| `Grids.Grid.GetItem` | Source/Grid.py:64-65 | The cell's item, and nothing at or beyond the width or height. |
| `Grids.Grid.CellIsEmpty` | Source/Grid.py:39-40 | True exactly when the cell holds nothing. |
| `Grids.Grid.AppendRow` | Source/Grid.py:46-49 | One more `-1` entry and one more empty cell at the bottom of every column. |
| `Grids.Grid.Expand` | Source/Grid.py:45-51 | Width becomes max(width, w+1) and height max(height, h+1). Columns stay equally tall, the entries match the height, and every lookup and entry is as before. |
| `Grids.Grid.PlaceItem` | Source/Grid.py:53-62 | The grid grows to hold the cell, the cell holds the item and no other cell changes. Placing an item raises the row's entry to max(old, x). Placing nothing sets it to the rightmost column still holding an item, or leaves it as it was when the row is now empty. Other rows' entries are kept. |
| `Grids.Grid.RescanRow` | Source/Grid.py:55-59 | Searching from the right, the first column whose cell in the row holds an item becomes the row's entry. An empty row keeps its entry, and other rows' entries are kept. |
| `Grids.Grid.GetItemCoords` | Source/Grid.py:67-72 | The first holding cell, column by column then row by row, or (-1, -1) exactly when no cell holds the item. |
| `Grids.Grid.HasItem` | Source/Grid.py:42-43 | True exactly when some cell holds the item. |
| `Grids.Grid.GetItemXCoord` | Source/Grid.py:74-75 | The first column holding the item, or -1 exactly when none does. |
| `Grids.Grid.GetItemYCoord` | Source/Grid.py:77-78 | The row of the first holding cell, column by column then row by row, or -1 exactly when the item is nowhere. |
| `Grids.Grid.ClearSpace` | Source/Grid.py:84-85 | The cell becomes empty, nothing else changes, and the row's entry falls back to its rightmost item if any. |
| `Grids.Grid.MoveItem` | Source/Grid.py:80-82 | The source becomes empty. A distinct destination holds the source's former item, and every other cell is unchanged. Rows other than the two keep their entries. In another row, a destination that received an item has its entry raised to max(old, x). The source row, and a destination row that received nothing, fall back to their rightmost item. |
| `HTML.ReplaceChar` | Source/HTML.py:21 | `str.replace` of a character leaves a string without that character unchanged. |
| `HTML.AddEscapeSequences` | Source/HTML.py:20-21 | `&`, then `<`, then `>` are replaced by their entities. A text holding none of the three is returned unchanged. |
| `HTML.AddEscapeSequencesAppend` | Source/HTML.py:20-21 | Escaping distributes over concatenation. |
| `HTML.EscapeOneChar` | Source/HTML.py:21 | `&`, `<`, `>` become `&amp;`, `&lt;`, `&gt;`, and any other character is kept. |
| `HTML.EscapeIsPerCharacter` | Source/HTML.py:20-21 | The chained replacements escape each character on its own, in order. Because `&` goes first, `<` becomes exactly `&lt;`, never `&amp;lt;`. |
| `HTML.EscapedHasNoBrackets` | Source/HTML.py:20-21 | Escaped text contains no `<` and no `>`. |
| `HTML.UnescapeEscape` | Source/HTML.py:20-21 | Unescaping the escaped text gives the text back. |
| `HTML.EscapedLinesDecode` | Source/HTML.py:35-37 | Escaped lines joined with a `<`-initial separator split and unescape back to the lines. |
| `HTML.StackTraceHtml` | Source/HTML.py:34-37 | `StackTrace.make_html`, a definition without a contract of its own: the fixed start, the escaped stack lines joined by `<br>`, the fixed middle, the escaped token lines joined by `<br>` and three spaces, then the fixed end. `HTML.StackTraceSections` proves what it produces. |
| `HTML.StackTraceSections` | Source/HTML.py:35-37 | The document is start, stack section, middle, token section, end. The sections decode back to the stack lines (joined by `<br>`) and the token lines (joined by `<br>   `). |
| `HTML.LineHtml` | Source/HTML.py:51-53 | A line carries the highlight start tag exactly when its index is the highlighted one. Either way it decodes back to the line. |
| `HTML.NoHighlightOutOfRange` | Source/HTML.py:48-58 | With the highlighted line -1 or out of range, every line is only escaped and the body decodes back to the lines. |
| `HTML.Code.constructor` | Source/HTML.py:48 | The highlighted line starts at -1. |
| `HTML.Code.LineToHtml` | Source/HTML.py:50-53 | As `LineHtml` for the recorded highlighted line. |
| `HTML.Code.MakeHtml` | Source/HTML.py:55-58 | Records the highlighted line. The output is the start, the rendered lines joined by `<br>`, then the end. |

## Left out

- **Outside the model:**
  - The user interface (`Window.py`, `Ui_Window.py`, `Main.py`), the drawing coordinates of
    `GraphicsSettings.py`, and the worker thread that steps the engines with delays. These are
    UI, floating point and concurrency.
  - The code-listing generation (`make_code`, `update_code`, `code_box_text`, `RDCodeRules.py`),
    which is display text that plays no part in parsing.
  - Every highlight and scroll field (`highlight_line`, `remove_highlight`, the highlighted
    row/column and line fields).
  - `parse_stack_to_str`, `code_box_code_to_str`, `lines_of_code` and the table accessors
    (`table_height`, `table_width`, `table_top_row`, `table_left_col`, `get_table`). These are
    display helpers.
- **Missing from the source:** the lexer (`Grammar.lexer`), `Grammar.Token` and
  `Grammar.make_list` are referenced but not defined.
  - `Parser.Parser.NewCode` takes the token stream as given.
  - A token is a `(kind, image)` pair. The synthetic left-hand-side token of the SLR engine has
    both set to the left-hand side.
- **Lexer assumption.** The SLR invariant assumes the lexer never produces a token whose kind is
  a left-hand side of the grammar (for example `stmt`). The table relies on this.
  - `Parser.Parser.NewCode` does not establish `Valid` by itself.
  - A caller of `SLRTable.SLRParser.Step` starts from `Reset` and a stream that meets it.
- **Table construction.** No FIRST/FOLLOW sets and no LR item sets are computed: the source
  hard-codes its three tables.
- **Unicode.** `str.isalpha`, `str.isdigit` and `str.isspace` are read as their ASCII cases.
- **Exceptions stated as preconditions.** Python raises on `list.index` of a missing value, on
  `token_stream[0]` of an empty stream, on `tree[0]` of a childless root and on an index outside
  a node's children (`Trees.Tree.Get`). The model states these as `requires` of the `Step`
  methods and of `Trees.Tree.Get` (the invariants then show `tree[0]` is always
  present at acceptance).
- **Finished engines.** Each `Step` requires the engine not to be finished, because the window
  only calls `step` while parsing has not finished.
- **LL(1) table engine state.** It has no `reset` and its constructor does not set the shared
  state. `LL1Table.TableParser.constructor` starts from the state the other engines' `reset`
  gives.
- **Grid identity and coordinates.**
  - `Grid.Entry` objects (and their unused `x_pos`/`y_pos`) are not modelled. A cell holds an
    `Option` of the item.
  - Identity comparison (`is`) is `T`'s equality, which is identity for a class type.
  - Coordinates are `nat`. Python's negative indexing of `grid[x][y]` for negative coordinates
    is not modelled.
- **Code class attribute.** `HTML.Code`'s class attribute `_highlighted_line` is a field of a
  `Code` object.
- **Decoding needs at least one line.**
  - HTML.StackTraceSections: the decoding half needs at least one line per section, because
    `''.join([])` and `''.join([''])` render the same.
  - Parser.TokenStreamToStrSplits: likewise needs a non-empty stream.
- **Token order.** Grammar.ParsedTokens: the token list keeps first-seen order. The source's
  order, coming from a set, is unspecified.
