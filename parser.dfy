/**
 * The state and the queries that Parser.py gives every parsing engine.
 *
 * The three engines own one `Parser` object each (the "input + tree + finished flag" part)
 * and add their own parse stack; the source shares these members by inheritance.
 */
module Parser {
  import opened Wrappers
  import Grammar
  import Text
  import opened Trees

  /** A lexer token: its kind (`name` in the source, matched against the grammar) and its text. */
  datatype Token = Token(kind: string, image: string)

  /** The token images, in stream order. */
  function Images(ts: seq<Token>): (r: seq<string>)
    ensures |r| == |ts| && forall i :: 0 <= i < |ts| ==> r[i] == ts[i].image
  {
    seq(|ts|, i requires 0 <= i < |ts| => ts[i].image)
  }

  /** `token_stream_to_str`: the images joined by single spaces. */
  function TokenStreamToStr(ts: seq<Token>): (r: string)
    ensures |ts| == 1 ==> r == ts[0].image
    ensures |ts| > 1 ==> ts[0].image + " " <= r
  {
    Text.Join(Images(ts), " ")
  }

  /** An empty stream is shown as the empty string. */
  lemma EmptyStreamToStr()
    ensures TokenStreamToStr([]) == ""
  {
  }

  /**
   * The rendering loses nothing: when no image contains a space (the lexer skips blanks), splitting
   * the line on spaces gives back the images of a non-empty stream, in order.
   */
  lemma TokenStreamToStrSplits(ts: seq<Token>)
    requires |ts| > 0
    requires forall i :: 0 <= i < |ts| ==> ' ' !in ts[i].image
    ensures Text.SplitOn(TokenStreamToStr(ts), " ") == Images(ts)
  {
    Text.SplitOnJoin(Images(ts), " ");
  }

  /**
   * `node_on_stack`: whether some frame holds node `n`; `nodeOf` reads the frame's node, since
   * each engine has its own kind of frame.
   */
  function NodeOnStack<F>(stack: seq<F>, nodeOf: F -> Tree, n: Tree): (b: bool)
    ensures b <==> exists i :: 0 <= i < |stack| && nodeOf(stack[i]) == n
  {
    if |stack| == 0 then false
    else nodeOf(stack[0]) == n || NodeOnStack(stack[1..], nodeOf, n)
  }

  /** Python's `list.index`: the position of the first occurrence of `x` (the engines require it present). */
  function IndexOf<T(==)>(s: seq<T>, x: T): (i: nat)
    requires x in s
    ensures i < |s| && s[i] == x
    ensures forall j :: 0 <= j < i ==> s[j] != x
  {
    if s[0] == x then 0 else 1 + IndexOf(s[1..], x)
  }

  /** The state every engine shares. */
  class Parser {
    var grammar: Option<Grammar.Grammar>
    var tree: Tree?
    var currentNode: Tree?
    var tokenStream: seq<Token>
    var finished: bool

    constructor ()
      ensures grammar == None && tree == null && currentNode == null && tokenStream == [] && !finished
    {
      grammar := None;
      tree := null;
      currentNode := null;
      tokenStream := [];
      finished := false;
    }

    /**
     * `input_grammar`: a description that does not scan leaves the previous grammar in place and
     * reports the error; one that scans replaces it.  The engines' tables that `generate_rules`
     * would then rebuild are constants of their modules.
     */
    method InputGrammar(description: string) returns (error: Option<Grammar.GrammarError>)
      modifies this`grammar
      ensures Grammar.Parse(description).Err? ==>
        grammar == old(grammar) && error == Some(Grammar.Parse(description).error)
      ensures Grammar.Parse(description).Ok? ==>
        grammar == Some(Grammar.Parse(description).value) && error == None
    {
      var r := Grammar.ParseGrammar(description);
      if r.Err? {
        return Some(r.error);
      }
      grammar := Some(r.value);
      error := None;
    }

    /** `new_code`: the token stream the lexer produced becomes the input. */
    method NewCode(tokens: seq<Token>)
      modifies this`tokenStream
      ensures tokenStream == tokens
    {
      tokenStream := tokens;
    }
  }
}
