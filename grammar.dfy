/**
 * The grammar-description scanner of Grammar.py.
 *
 * A description is BNF-like text, one rule per line:
 *     <name> ::= <a> "b" | "" ;comment
 * It is read by a 14-state character automaton.  The loop over the characters is
 * `ParseGrammar`; one turn of that loop (the body of the `match current_state`) is the
 * transition function `Step`.  A successful scan yields one `Rule` per alternative, each
 * holding its items in source order, and the distinct non-empty terminal spellings.
 */
module Grammar {
  import opened Wrappers

  /** `Grammar.Item`: a nonterminal `<name>` or a terminal literal `"name"`. */
  datatype Item = Item(name: string, terminal: bool)

  /** `Grammar.Rule`: one alternative of a rule, i.e. a rule name and its items in order. */
  datatype Rule = Rule(name: string, items: seq<Item>)

  /** The distinct messages of `GrammarParsingError`, one per `raise` in the scanner. */
  datatype GrammarError =
    | RuleMustStartWithAngle            // "All rules must start with '<'."
    | BadSymbolCharacter                // "Symbols can only have letters, numbers, '_', or '-'."
    | ExpectedDefinedAs                 // "First symbol most be followed by '::='"
    | SymbolMustBeginWithAngleOrQuote   // "Symbol must begin with '<' or '\"'"
    | SymbolDefinitionIncomplete        // "Symbol definition incomplete"
    | LiteralFollowerMustBeginWithAngle // "Symbol following literal must begin with '<'"
    | SomethingWentWrong                // "Something went wrong."
    | DefinitionIncomplete              // "Grammar definition is incomplete"

  /** A successfully constructed `Grammar` object. */
  datatype Grammar = Grammar(description: string, rules: seq<Rule>, tokens: seq<string>)

  /** The scanner's local variables plus the two lists it builds. */
  datatype Scanner = Scanner(state: nat, current: string, ruleName: string, rules: seq<Rule>, tokens: seq<string>)

  const Initial := Scanner(0, "", "", [], [])

  // ASCII readings of str.isalpha, str.isdigit and str.isspace.
  predicate IsAlpha(c: char) { 'a' <= c <= 'z' || 'A' <= c <= 'Z' }
  predicate IsDigit(c: char) { '0' <= c <= '9' }
  predicate IsSpace(c: char) { c == ' ' || 9 <= c as int <= 13 || 28 <= c as int <= 31 }

  /** The characters allowed inside `<...>`. */
  predicate IsSymbolChar(c: char) { IsAlpha(c) || IsDigit(c) || c == '-' || c == '_' }

  /** A well-formed rule or nonterminal name. */
  predicate IsSymbol(s: string) { |s| > 0 && forall k :: 0 <= k < |s| ==> IsSymbolChar(s[k]) }

  /** `self.rules[-1].rules.append(item)` */
  function AppendToLast(rules: seq<Rule>, item: Item): (r: seq<Rule>)
    requires |rules| > 0
  {
    var last := rules[|rules| - 1];
    rules[..|rules| - 1] + [Rule(last.name, last.items + [item])]
  }

  /** What `Step` needs: the states that append to the last rule have one. */
  predicate Ready(st: Scanner) { st.state == 8 || st.state == 10 ==> |st.rules| > 0 }

  /** One turn of the scanner loop: the branch of `match current_state` for character `c`. */
  function Step(st: Scanner, c: char): (r: Result<Scanner, GrammarError>)
    requires Ready(st)
    // the fallback error belongs to states the automaton does not have
    ensures r == Err(SomethingWentWrong) <==> st.state > 13
    ensures r.Ok? ==> r.value.state <= 13
    // only a closing quote adds a token: the literal just read
    ensures r.Ok? && r.value.tokens != st.tokens ==>
      st.state == 10 && c == '"' && r.value.tokens == st.tokens + [st.current]
  {
    match st.state
    case 0 =>
      if c == '<' then Ok(st.(current := "", state := 1))
      else if IsSpace(c) then Ok(st)
      else Err(RuleMustStartWithAngle)
    case 1 =>
      if IsSymbolChar(c) then Ok(st.(current := st.current + [c], state := 2))
      else Err(BadSymbolCharacter)
    case 2 =>
      if IsSymbolChar(c) then Ok(st.(current := st.current + [c], state := 2))
      else if c == '>' then Ok(st.(ruleName := st.current, rules := st.rules + [Rule(st.current, [])], state := 3))
      else Err(BadSymbolCharacter)
    case 3 =>
      if c == ':' then Ok(st.(state := 4))
      else if IsSpace(c) && c != '\n' then Ok(st)
      else Err(ExpectedDefinedAs)
    case 4 =>
      if c == ':' then Ok(st.(state := 5)) else Err(ExpectedDefinedAs)
    case 5 =>
      if c == '=' then Ok(st.(state := 6)) else Err(ExpectedDefinedAs)
    case 6 =>
      if c == '<' then Ok(st.(current := "", state := 7))
      else if c == '"' then Ok(st.(current := "", state := 10))
      else if IsSpace(c) && c != '\n' then Ok(st)
      else Err(SymbolMustBeginWithAngleOrQuote)
    case 7 =>
      if IsSymbolChar(c) then Ok(st.(current := st.current + [c], state := 8))
      else Err(BadSymbolCharacter)
    case 8 =>
      if IsSymbolChar(c) then Ok(st.(current := st.current + [c], state := 8))
      else if c == '>' then Ok(st.(rules := AppendToLast(st.rules, Item(st.current, false)), state := 9))
      else Err(BadSymbolCharacter)
    case 9 =>
      if c == '<' then Ok(st.(current := "", state := 7))
      else if c == '"' then Ok(st.(current := "", state := 10))
      else if IsSpace(c) && c != '\n' then Ok(st)
      else if c == '|' then Ok(st.(rules := st.rules + [Rule(st.ruleName, [])], state := 6))
      else if c == '\n' then Ok(st.(state := 0))
      else if c == ';' then Ok(st.(state := 12))
      else Err(SymbolMustBeginWithAngleOrQuote)
    case 10 =>
      if c == '\n' then Err(SymbolDefinitionIncomplete)
      else if c == '\\' then Ok(st.(state := 11))
      else if c == '"' then
        Ok(st.(rules := AppendToLast(st.rules, Item(st.current, true)), tokens := st.tokens + [st.current], state := 13))
      else Ok(st.(current := st.current + [c]))
    case 11 =>
      if c == 'n' then Ok(st.(current := st.current + ['\n'], state := 10))
      else Ok(st.(current := st.current + [c], state := 10))
    case 12 =>
      if c == '\n' then Ok(st.(state := 0)) else Ok(st)
    case 13 =>
      if c == '<' then Ok(st.(current := "", state := 7))
      else if IsSpace(c) && c != '\n' then Ok(st)
      else if c == '|' then Ok(st.(rules := st.rules + [Rule(st.ruleName, [])], state := 6))
      else if c == '\n' then Ok(st.(state := 0))
      else if c == ';' then Ok(st.(state := 12))
      else Err(LiteralFollowerMustBeginWithAngle)
    case _ => Err(SomethingWentWrong)
  }

  /** The terminal spellings used by a sequence of items. */
  ghost function ItemTerminals(items: seq<Item>): set<string>
  {
    set i | 0 <= i < |items| && items[i].terminal :: items[i].name
  }

  /** The terminal spellings used anywhere in a sequence of rules. */
  ghost function RuleTerminals(rules: seq<Rule>): set<string>
  {
    if |rules| == 0 then {} else RuleTerminals(rules[..|rules| - 1]) + ItemTerminals(rules[|rules| - 1].items)
  }

  /** Every rule name and every nonterminal name is a well-formed symbol. */
  ghost predicate RuleNamesValid(r: Rule)
  {
    IsSymbol(r.name) && forall j :: 0 <= j < |r.items| && !r.items[j].terminal ==> IsSymbol(r.items[j].name)
  }

  ghost predicate NamesValid(rules: seq<Rule>)
  {
    forall i :: 0 <= i < |rules| ==> RuleNamesValid(rules[i])
  }

  /** The invariant of the scanner loop. */
  ghost predicate Inv(st: Scanner)
  {
    && st.state <= 13
    && (st.state >= 3 ==> |st.rules| > 0 && IsSymbol(st.ruleName))
    && (st.state == 1 || st.state == 7 ==> st.current == "")
    && (st.state == 2 || st.state == 8 ==> IsSymbol(st.current))
    && NamesValid(st.rules)
    && (set t | t in st.tokens) == RuleTerminals(st.rules)
  }

  /** The scanner run over `s` from `st`, stopping at the first error. */
  function ScanFrom(st: Scanner, s: string): Result<Scanner, GrammarError>
    requires Inv(st)
    decreases |s|
  {
    if |s| == 0 then Ok(st)
    else
      StepKeepsInv(st, s[0]);
      match Step(st, s[0])
      case Err(e) => Err(e)
      case Ok(next) => ScanFrom(next, s[1..])
  }

  /** `list(set(tokens))` without `''`: the distinct non-empty spellings, kept in first-seen order. */
  function DistinctTokens(ts: seq<string>): (r: seq<string>)
    ensures forall i, j :: 0 <= i < j < |r| ==> r[i] != r[j]
    ensures "" !in r
    ensures (set t | t in r) == (set t | t in ts) - {""}
  {
    if |ts| == 0 then []
    else
      var init := ts[..|ts| - 1];
      var r := DistinctTokens(init);
      var t := ts[|ts| - 1];
      assert ts == init + [t];
      assert (set x | x in ts) == (set x | x in init) + {t};
      if t == "" || t in r then r
      else
        assert (set x | x in r + [t]) == (set x | x in r) + {t};
        r + [t]
  }

  /** The check after the loop and the final clean-up of `tokens_list`. */
  function Finish(description: string, st: Scanner): (r: Result<Grammar, GrammarError>)
    ensures r.Err? ==> r.error == DefinitionIncomplete && st.state !in {0, 9, 13}
    ensures r.Ok? ==>
      && r.value.description == description && r.value.rules == st.rules
      && "" !in r.value.tokens && (set t | t in r.value.tokens) == (set t | t in st.tokens) - {""}
      && forall i, j :: 0 <= i < j < |r.value.tokens| ==> r.value.tokens[i] != r.value.tokens[j]
  {
    if st.state != 0 && st.state != 9 && st.state != 13 then Err(DefinitionIncomplete)
    else Ok(Grammar(description, st.rules, DistinctTokens(st.tokens)))
  }

  /** The scanner run over a whole description from the initial state. */
  function Scan(description: string): Result<Scanner, GrammarError>
  {
    InitialInv();
    ScanFrom(Initial, description)
  }

  /** What `Grammar(description)` produces or raises. */
  function Parse(description: string): (r: Result<Grammar, GrammarError>)
    ensures r.Ok? ==> r.value.description == description
    ensures r.Ok? ==>
      && "" !in r.value.tokens
      && forall i, j :: 0 <= i < j < |r.value.tokens| ==> r.value.tokens[i] != r.value.tokens[j]
  {
    match Scan(description)
    case Err(e) => Err(e)
    case Ok(st) => Finish(description, st)
  }

  /** `Grammar.__init__`: the character loop, then the final checks. */
  method ParseGrammar(description: string) returns (r: Result<Grammar, GrammarError>)
    ensures r == Parse(description)
  {
    InitialInv();
    var st := Initial;
    for i := 0 to |description|
      invariant Inv(st)
      invariant ScanFrom(Initial, description) == ScanFrom(st, description[i..])
    {
      assert description[i..][0] == description[i] && description[i..][1..] == description[i + 1..];
      StepKeepsInv(st, description[i]);
      var next := Step(st, description[i]);
      if next.Err? {
        return Err(next.error);
      }
      st := next.value;
    }
    assert description[|description|..] == [];
    r := Finish(description, st);
  }

  // ---------------------------------------------------------------------------------------
  // The invariant

  lemma InitialInv()
    ensures Inv(Initial)
  {
    assert (set t | t in Initial.tokens) == {};
  }

  lemma {:induction false} ItemTerminalsAppend(items: seq<Item>, it: Item)
    ensures ItemTerminals(items + [it]) == ItemTerminals(items) + (if it.terminal then {it.name} else {})
  {
    var xs := items + [it];
    forall t | t in ItemTerminals(xs)
      ensures t in ItemTerminals(items) + (if it.terminal then {it.name} else {})
    {
      var i :| 0 <= i < |xs| && xs[i].terminal && xs[i].name == t;
      if i < |items| { assert items[i] == xs[i]; }
    }
    forall t | t in ItemTerminals(items) ensures t in ItemTerminals(xs) {
      var i :| 0 <= i < |items| && items[i].terminal && items[i].name == t;
      assert xs[i] == items[i];
    }
    if it.terminal { assert xs[|items|] == it; }
  }

  lemma {:induction false} AppendToLastTerminals(rules: seq<Rule>, it: Item)
    requires |rules| > 0
    ensures RuleTerminals(AppendToLast(rules, it)) == RuleTerminals(rules) + (if it.terminal then {it.name} else {})
  {
    var r := AppendToLast(rules, it);
    var n := |rules| - 1;
    assert r[..n] == rules[..n];
    ItemTerminalsAppend(rules[n].items, it);
  }

  lemma {:induction false} AppendToLastNames(rules: seq<Rule>, it: Item)
    requires |rules| > 0 && NamesValid(rules)
    requires !it.terminal ==> IsSymbol(it.name)
    ensures NamesValid(AppendToLast(rules, it))
  {
    var r := AppendToLast(rules, it);
    var n := |rules| - 1;
    forall i | 0 <= i < |r| ensures RuleNamesValid(r[i]) {
      if i < n { assert r[i] == rules[i]; }
      else {
        assert RuleNamesValid(rules[n]);
        var items := rules[n].items + [it];
        assert r[i] == Rule(rules[n].name, items);
        forall j | 0 <= j < |items| && !items[j].terminal ensures IsSymbol(items[j].name) {
          if j < |rules[n].items| { assert items[j] == rules[n].items[j]; }
        }
      }
    }
  }

  lemma {:induction false} AppendRuleKeeps(rules: seq<Rule>, name: string)
    requires NamesValid(rules) && IsSymbol(name)
    ensures NamesValid(rules + [Rule(name, [])])
    ensures RuleTerminals(rules + [Rule(name, [])]) == RuleTerminals(rules)
  {
    var r := rules + [Rule(name, [])];
    assert r[..|r| - 1] == rules;
    assert ItemTerminals([]) == {};
    forall i | 0 <= i < |r| ensures RuleNamesValid(r[i]) {
      if i < |rules| { assert r[i] == rules[i]; }
    }
  }

  lemma SymbolAppend(s: string, c: char)
    requires s == "" || IsSymbol(s)
    requires IsSymbolChar(c)
    ensures IsSymbol(s + [c])
  {
    var t := s + [c];
    forall k | 0 <= k < |t| ensures IsSymbolChar(t[k]) {
      if k < |s| { assert t[k] == s[k]; }
    }
  }

  /** One step keeps the loop invariant. */
  lemma StepKeepsInv(st: Scanner, c: char)
    requires Inv(st)
    ensures Ready(st) && (Step(st, c).Ok? ==> Inv(Step(st, c).value))
  {
    if st.state <= 2 {
      StepKeepsInvRuleName(st, c);
    } else if st.state <= 8 {
      StepKeepsInvAlternatives(st, c);
    } else if st.state <= 10 {
      StepKeepsInvLiterals(st, c);
    } else {
      StepKeepsInvRuleEnd(st, c);
    }
  }

  /** States 0 to 2: reading the name of a rule up to its `>`. */
  lemma StepKeepsInvRuleName(st: Scanner, c: char)
    requires Inv(st) && st.state <= 2
    ensures Ready(st) && (Step(st, c).Ok? ==> Inv(Step(st, c).value))
  {
    if Step(st, c).Ok? {
      if (st.state == 1 || st.state == 2) && IsSymbolChar(c) {
        SymbolAppend(st.current, c);
      }
      if st.state == 2 && c == '>' {
        AppendRuleKeeps(st.rules, st.current);
      }
    }
  }

  /** States 3 to 8: the `::=` and the non-terminals of an alternative. */
  lemma StepKeepsInvAlternatives(st: Scanner, c: char)
    requires Inv(st) && 3 <= st.state <= 8
    ensures Ready(st) && (Step(st, c).Ok? ==> Inv(Step(st, c).value))
  {
    if Step(st, c).Ok? {
      if (st.state == 7 || st.state == 8) && IsSymbolChar(c) {
        SymbolAppend(st.current, c);
      }
      if st.state == 8 && c == '>' {
        AppendToLastNames(st.rules, Item(st.current, false));
        AppendToLastTerminals(st.rules, Item(st.current, false));
      }
    }
  }

  /** States 9 and 10: between symbols of an alternative, and inside a quoted terminal. */
  lemma StepKeepsInvLiterals(st: Scanner, c: char)
    requires Inv(st) && 9 <= st.state <= 10
    ensures Ready(st) && (Step(st, c).Ok? ==> Inv(Step(st, c).value))
  {
    if Step(st, c).Ok? {
      var next := Step(st, c).value;
      if st.state == 9 && c == '|' {
        AppendRuleKeeps(st.rules, st.ruleName);
      } else if st.state == 10 && c == '"' {
        AppendToLastNames(st.rules, Item(st.current, true));
        AppendToLastTerminals(st.rules, Item(st.current, true));
        assert (set t | t in next.tokens) == (set t | t in st.tokens) + {st.current};
      }
    }
  }

  /** States 11 to 13: the end of a rule and the `|` that may follow it on the next line. */
  lemma StepKeepsInvRuleEnd(st: Scanner, c: char)
    requires Inv(st) && 11 <= st.state <= 13
    ensures Ready(st) && (Step(st, c).Ok? ==> Inv(Step(st, c).value))
  {
    if Step(st, c).Ok? && st.state == 13 && c == '|' {
      AppendRuleKeeps(st.rules, st.ruleName);
    }
  }

  // ---------------------------------------------------------------------------------------
  // Properties of single transitions

  /** Outside a rule, whitespace is skipped, `<` opens the rule name and anything else is rejected. */
  lemma OutsideRule(st: Scanner, c: char)
    requires st.state == 0
    ensures IsSpace(c) ==> Step(st, c) == Ok(st)
    ensures c == '<' ==> Step(st, c) == Ok(st.(current := "", state := 1))
    ensures c != '<' && !IsSpace(c) ==> Step(st, c) == Err(RuleMustStartWithAngle)
  {
  }

  /**
   * Inside `<...>`, whether a rule name or a nonterminal, a symbol character extends the name, `>`
   * closes a non-empty name, and anything else is rejected.
   */
  lemma InsideName(st: Scanner, c: char)
    requires Ready(st) && st.state in {1, 2, 7, 8}
    ensures Step(st, c).Ok? <==> IsSymbolChar(c) || (c == '>' && st.state in {2, 8})
    ensures IsSymbolChar(c) ==> Step(st, c).value.current == st.current + [c]
    ensures Step(st, c).Err? ==> Step(st, c).error == BadSymbolCharacter
  {
  }

  /**
   * Where an item may start, after `::=` or `|` (state 6) or after a nonterminal (state 9): `<` or
   * `"` opens one and blanks other than a newline are skipped; after a nonterminal, `|`, a newline
   * or `;` are accepted as well.  Anything else is rejected.
   */
  lemma ItemStart(st: Scanner, c: char)
    requires st.state in {6, 9}
    ensures Step(st, c).Ok? <==>
      c == '<' || c == '"' || (IsSpace(c) && c != '\n') || (st.state == 9 && (c == '|' || c == '\n' || c == ';'))
    ensures Step(st, c).Err? ==> Step(st, c).error == SymbolMustBeginWithAngleOrQuote
  {
  }

  /** `::=` follows the rule name, after blanks other than a newline, with nothing between its characters. */
  lemma DefinedAs(st: Scanner, c: char)
    requires 3 <= st.state <= 5
    ensures Step(st, c).Ok? <==>
      (st.state == 3 && (c == ':' || (IsSpace(c) && c != '\n'))) ||
      (st.state == 4 && c == ':') || (st.state == 5 && c == '=')
    ensures Step(st, c).Err? ==> Step(st, c).error == ExpectedDefinedAs
  {
  }

  /** Inside a literal, `\n` stands for a newline and `\` followed by any other character keeps that character. */
  lemma EscapeInLiteral(st: Scanner, c: char)
    requires st.state == 10 && Ready(st)
    ensures Step(st, '\\') == Ok(st.(state := 11))
    ensures Step(st.(state := 11), c) == Ok(st.(current := st.current + [if c == 'n' then '\n' else c]))
  {
  }

  /** A raw newline inside a literal is an error. */
  lemma NewlineInLiteral(st: Scanner)
    requires st.state == 10 && Ready(st)
    ensures Step(st, '\n') == Err(SymbolDefinitionIncomplete)
  {
  }

  /** After a literal only `<`, blanks, `|`, a newline or `;` may follow; in particular not a second `"`. */
  lemma AfterLiteral(st: Scanner, c: char)
    requires st.state == 13
    ensures Step(st, c).Ok? <==> c == '<' || IsSpace(c) || c == '|' || c == ';'
    ensures Step(st, c).Err? ==> Step(st, c).error == LiteralFollowerMustBeginWithAngle
  {
  }

  /** `;` starts a comment that runs to the end of the line, where a new rule may begin. */
  lemma CommentSkipsLine(st: Scanner, c: char)
    requires st.state == 12
    ensures Step(st, c) == Ok(if c == '\n' then st.(state := 0) else st)
  {
  }

  /**
   * A step adds a rule exactly when it closes a rule name or reads `|` after an alternative; the
   * new rule is empty and carries the rule's name.
   */
  lemma NewRuleExactly(st: Scanner, c: char)
    requires Ready(st)
    ensures Step(st, c).Ok? ==>
      var next := Step(st, c).value;
      && (|next.rules| != |st.rules| <==>
            (st.state == 2 && c == '>') || ((st.state == 9 || st.state == 13) && c == '|'))
      && (|next.rules| != |st.rules| ==>
            next.rules == st.rules + [Rule(next.ruleName, [])]
            && next.ruleName == (if st.state == 2 then st.current else st.ruleName))
  {
  }

  /**
   * A step changes the rules without adding one exactly when it closes a `<x>` or a `"x"`; the item
   * goes to the end of the most recent rule, and a terminal's spelling to the end of the tokens.
   */
  lemma NewItemExactly(st: Scanner, c: char)
    requires Ready(st)
    ensures Step(st, c).Ok? ==>
      var next := Step(st, c).value;
      && (|next.rules| == |st.rules| && next.rules != st.rules <==>
            (st.state == 8 && c == '>') || (st.state == 10 && c == '"'))
      && (|next.rules| == |st.rules| && next.rules != st.rules ==>
            next.rules == AppendToLast(st.rules, Item(st.current, st.state == 10)))
      && (next.tokens != st.tokens <==> st.state == 10 && c == '"')
      && (next.tokens != st.tokens ==> next.tokens == st.tokens + [st.current])
  {
    if Step(st, c).Ok? && ((st.state == 8 && c == '>') || (st.state == 10 && c == '"')) {
      var after := Step(st, c).value.rules;
      var n := |st.rules| - 1;
      assert |after[n].items| == |st.rules[n].items| + 1;
    }
  }

  // ---------------------------------------------------------------------------------------
  // Properties of the whole scan

  /** Running the scanner over `a + b` is running it over `a`, then over `b`; an error in `a` is final. */
  lemma {:induction false} ScanAppend(st: Scanner, a: string, b: string)
    requires Inv(st)
    ensures ScanFrom(st, a).Err? ==> ScanFrom(st, a + b) == ScanFrom(st, a)
    ensures ScanFrom(st, a).Ok? ==>
      Inv(ScanFrom(st, a).value) && ScanFrom(st, a + b) == ScanFrom(ScanFrom(st, a).value, b)
    decreases |a|
  {
    ScanKeepsInv(st, a);
    if |a| == 0 {
      assert a + b == b;
    } else {
      assert (a + b)[0] == a[0] && (a + b)[1..] == a[1..] + b;
      StepKeepsInv(st, a[0]);
      if Step(st, a[0]).Ok? {
        ScanAppend(Step(st, a[0]).value, a[1..], b);
      }
    }
  }

  /** The loop invariant holds after any number of characters. */
  lemma {:induction false} ScanKeepsInv(st: Scanner, s: string)
    requires Inv(st)
    ensures ScanFrom(st, s).Ok? ==> Inv(ScanFrom(st, s).value)
    decreases |s|
  {
    if |s| > 0 {
      StepKeepsInv(st, s[0]);
      if Step(st, s[0]).Ok? {
        ScanKeepsInv(Step(st, s[0]).value, s[1..]);
      }
    }
  }

  /** A text whose prefix is already malformed is rejected with the error found in that prefix. */
  lemma PrefixErrorIsFinal(description: string, i: nat)
    requires i <= |description|
    ensures Scan(description[..i]).Err? ==> Parse(description) == Err(Scan(description[..i]).error)
  {
    InitialInv();
    assert description == description[..i] + description[i..];
    ScanAppend(Initial, description[..i], description[i..]);
  }

  /** `rules` only grows at its end: earlier rules are final, and the last one only gains items at its end. */
  ghost predicate Extends(before: seq<Rule>, after: seq<Rule>)
  {
    && |before| <= |after|
    && (forall i :: 0 <= i < |before| - 1 ==> after[i] == before[i])
    && (|before| > 0 ==>
          after[|before| - 1].name == before[|before| - 1].name &&
          before[|before| - 1].items <= after[|before| - 1].items)
  }

  lemma ExtendsTrans(a: seq<Rule>, b: seq<Rule>, c: seq<Rule>)
    requires Extends(a, b) && Extends(b, c)
    ensures Extends(a, c)
  {
    if |a| > 0 && |b| > |a| {
      assert c[|a| - 1] == b[|a| - 1];
    }
  }

  lemma StepExtends(st: Scanner, c: char)
    requires Ready(st)
    ensures Step(st, c).Ok? ==> Extends(st.rules, Step(st, c).value.rules)
  {
    if Step(st, c).Ok? {
      var after := Step(st, c).value.rules;
      if |st.rules| > 0 && |after| == |st.rules| && after != st.rules {
        var n := |st.rules| - 1;
        assert after[n].items == st.rules[n].items + [after[n].items[|after[n].items| - 1]];
      }
    }
  }

  /**
   * Items are only ever appended to the most recent rule: every rule that is not the last one
   * is final, and the last one only gains items at its end.
   */
  lemma {:induction false} ScanExtends(st: Scanner, s: string)
    requires Inv(st)
    ensures ScanFrom(st, s).Ok? ==> Extends(st.rules, ScanFrom(st, s).value.rules)
    decreases |s|
  {
    if |s| > 0 {
      StepKeepsInv(st, s[0]);
      StepExtends(st, s[0]);
      if Step(st, s[0]).Ok? {
        var next := Step(st, s[0]).value;
        ScanExtends(next, s[1..]);
        if ScanFrom(next, s[1..]).Ok? {
          ExtendsTrans(st.rules, next.rules, ScanFrom(next, s[1..]).value.rules);
        }
      }
    }
  }

  lemma {:induction false} ScanNeverFailsInternally(st: Scanner, s: string)
    requires Inv(st)
    ensures ScanFrom(st, s) != Err(SomethingWentWrong) && ScanFrom(st, s) != Err(DefinitionIncomplete)
    decreases |s|
  {
    if |s| > 0 {
      StepKeepsInv(st, s[0]);
      if Step(st, s[0]).Ok? {
        ScanNeverFailsInternally(Step(st, s[0]).value, s[1..]);
      }
    }
  }

  /** The fallback "Something went wrong." is unreachable. */
  lemma NeverSomethingWentWrong(description: string)
    ensures Parse(description) != Err(SomethingWentWrong)
  {
    InitialInv();
    ScanNeverFailsInternally(Initial, description);
  }

  /** "Grammar definition is incomplete" is raised exactly when the text ends outside states 0, 9 and 13. */
  lemma IncompleteExactly(description: string)
    ensures Parse(description) == Err(DefinitionIncomplete) <==>
      Scan(description).Ok? && Scan(description).value.state !in {0, 9, 13}
  {
    InitialInv();
    ScanNeverFailsInternally(Initial, description);
  }

  /** Every rule name and every nonterminal of a constructed grammar is a non-empty string of symbol characters. */
  lemma ParsedNamesValid(description: string)
    ensures Parse(description).Ok? ==> NamesValid(Parse(description).value.rules)
  {
    InitialInv();
    ScanKeepsInv(Initial, description);
  }

  /**
   * `tokens_list` holds each non-empty terminal spelling of the grammar exactly once, and nothing else.
   */
  lemma ParsedTokens(description: string)
    ensures Parse(description).Ok? ==>
      var g := Parse(description).value;
      && (forall i, j :: 0 <= i < j < |g.tokens| ==> g.tokens[i] != g.tokens[j])
      && "" !in g.tokens
      && (set t | t in g.tokens) == RuleTerminals(g.rules) - {""}
  {
    InitialInv();
    ScanKeepsInv(Initial, description);
  }
}
