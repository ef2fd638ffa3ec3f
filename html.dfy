/**
 * HTML.py: escaping text for HTML, and the two documents the window shows, the stack trace (stack
 * lines beside token lines) and the code listing with one highlighted line.
 */
module HTML {
  import Text

  /** `str.replace(c, r)` for a one-character pattern: every occurrence of `c` becomes `r`. */
  function ReplaceChar(s: string, c: char, r: string): (t: string)
    ensures c !in s ==> t == s
  {
    if |s| == 0 then ""
    else (if s[0] == c then r else [s[0]]) + ReplaceChar(s[1..], c, r)
  }

  /** `add_escape_sequences`: `&` is replaced first, then `<`, then `>`. */
  function AddEscapeSequences(text: string): (r: string)
    ensures '&' !in text && '<' !in text && '>' !in text ==> r == text
  {
    ReplaceChar(ReplaceChar(ReplaceChar(text, '&', "&amp;"), '<', "&lt;"), '>', "&gt;")
  }

  /** What one character becomes in HTML text. */
  function EscapeChar(c: char): string
  {
    if c == '&' then "&amp;" else if c == '<' then "&lt;" else if c == '>' then "&gt;" else [c]
  }

  /** The reference escaping: each character escaped on its own, in order. */
  function EscapeEach(text: string): string
  {
    if |text| == 0 then "" else EscapeChar(text[0]) + EscapeEach(text[1..])
  }

  /** The inverse: the three entities back to their characters, everything else kept. */
  function Unescape(s: string): string
    decreases |s|
  {
    if |s| == 0 then ""
    else if "&amp;" <= s then "&" + Unescape(s[5..])
    else if "&lt;" <= s then "<" + Unescape(s[4..])
    else if "&gt;" <= s then ">" + Unescape(s[4..])
    else [s[0]] + Unescape(s[1..])
  }

  lemma {:induction false} ReplaceCharAppend(a: string, b: string, c: char, r: string)
    ensures ReplaceChar(a + b, c, r) == ReplaceChar(a, c, r) + ReplaceChar(b, c, r)
  {
    if |a| > 0 {
      assert (a + b)[0] == a[0] && (a + b)[1..] == a[1..] + b;
      ReplaceCharAppend(a[1..], b, c, r);
    } else {
      assert a + b == b;
    }
  }

  /** Escaping distributes over concatenation. */
  lemma AddEscapeSequencesAppend(a: string, b: string)
    ensures AddEscapeSequences(a + b) == AddEscapeSequences(a) + AddEscapeSequences(b)
  {
    ReplaceCharAppend(a, b, '&', "&amp;");
    var a1, b1 := ReplaceChar(a, '&', "&amp;"), ReplaceChar(b, '&', "&amp;");
    ReplaceCharAppend(a1, b1, '<', "&lt;");
    ReplaceCharAppend(ReplaceChar(a1, '<', "&lt;"), ReplaceChar(b1, '<', "&lt;"), '>', "&gt;");
  }

  lemma ReplaceCharSingle(x: char, c: char, r: string)
    ensures ReplaceChar([x], c, r) == if x == c then r else [x]
  {
    assert [x][1..] == "";
  }

  lemma EscapeAmpersand()
    ensures AddEscapeSequences("&") == "&amp;"
  {
    ReplaceCharSingle('&', '&', "&amp;");
    assert '<' !in "&amp;" && '>' !in "&amp;";
  }

  lemma EscapeLess()
    ensures AddEscapeSequences("<") == "&lt;"
  {
    ReplaceCharSingle('<', '&', "&amp;");
    ReplaceCharSingle('<', '<', "&lt;");
    assert '>' !in "&lt;";
  }

  lemma EscapeGreater()
    ensures AddEscapeSequences(">") == "&gt;"
  {
    ReplaceCharSingle('>', '&', "&amp;");
    ReplaceCharSingle('>', '<', "&lt;");
    ReplaceCharSingle('>', '>', "&gt;");
  }

  /** One character escapes to its entity, or to itself. */
  lemma EscapeOneChar(c: char)
    ensures AddEscapeSequences([c]) == EscapeChar(c)
  {
    if c == '&' {
      EscapeAmpersand();
    } else if c == '<' {
      EscapeLess();
    } else if c == '>' {
      EscapeGreater();
    } else {
      ReplaceCharSingle(c, '&', "&amp;");
      ReplaceCharSingle(c, '<', "&lt;");
      ReplaceCharSingle(c, '>', "&gt;");
    }
  }

  /**
   * The chained replacements escape each character on its own: because `&` goes first, a `<`
   * becomes exactly `&lt;` (never `&amp;lt;`), and every other character is copied unchanged.
   */
  lemma {:induction false} EscapeIsPerCharacter(text: string)
    ensures AddEscapeSequences(text) == EscapeEach(text)
  {
    if |text| > 0 {
      assert text == [text[0]] + text[1..];
      AddEscapeSequencesAppend([text[0]], text[1..]);
      EscapeOneChar(text[0]);
      EscapeIsPerCharacter(text[1..]);
    }
  }

  lemma {:induction false} EscapeEachHasNoBrackets(text: string)
    ensures '<' !in EscapeEach(text) && '>' !in EscapeEach(text)
  {
    if |text| > 0 {
      EscapeEachHasNoBrackets(text[1..]);
    }
  }

  /** Escaped text contains no `<` and no `>`. */
  lemma EscapedHasNoBrackets(text: string)
    ensures '<' !in AddEscapeSequences(text) && '>' !in AddEscapeSequences(text)
  {
    EscapeIsPerCharacter(text);
    EscapeEachHasNoBrackets(text);
  }

  lemma {:induction false} UnescapeEscapeEach(text: string)
    ensures Unescape(EscapeEach(text)) == text
  {
    if |text| > 0 {
      var c, rest := text[0], text[1..];
      var e := EscapeEach(rest);
      UnescapeEscapeEach(rest);
      assert EscapeEach(text) == EscapeChar(c) + e;
      if c == '&' {
        assert "&amp;" <= "&amp;" + e && ("&amp;" + e)[5..] == e;
      } else if c == '<' {
        assert ("&lt;" + e)[1] == 'l' && "&amp;"[1] == 'a';
        assert "&lt;" <= "&lt;" + e && ("&lt;" + e)[4..] == e;
      } else if c == '>' {
        assert ("&gt;" + e)[1] == 'g' && "&amp;"[1] == 'a' && "&lt;"[1] == 'l';
        assert "&gt;" <= "&gt;" + e && ("&gt;" + e)[4..] == e;
      } else {
        assert ([c] + e)[0] == c && "&amp;"[0] == '&' && "&lt;"[0] == '&' && "&gt;"[0] == '&';
        assert ([c] + e)[1..] == e;
      }
      assert [c] + rest == text;
    }
  }

  /** Escaping loses nothing: unescaping gives the text back. */
  lemma UnescapeEscape(text: string)
    ensures Unescape(AddEscapeSequences(text)) == text
  {
    EscapeIsPerCharacter(text);
    UnescapeEscapeEach(text);
  }

  /** `map(add_escape_sequences, lines)` */
  function EscapeAll(lines: seq<string>): (r: seq<string>)
    ensures |r| == |lines|
  {
    seq(|lines|, i requires 0 <= i < |lines| => AddEscapeSequences(lines[i]))
  }

  /** Reading a section back: split on the separator, then unescape each piece. */
  function DecodeLines(s: string, sep: string): (r: seq<string>)
    requires |sep| > 0
  {
    var pieces := Text.SplitOn(s, sep);
    seq(|pieces|, i requires 0 <= i < |pieces| => Unescape(pieces[i]))
  }

  /** Lines escaped and joined with a separator starting with `<` decode back to the lines. */
  lemma EscapedLinesDecode(lines: seq<string>, sep: string)
    requires |lines| > 0 && |sep| > 0 && sep[0] == '<'
    ensures DecodeLines(Text.Join(EscapeAll(lines), sep), sep) == lines
  {
    var escaped := EscapeAll(lines);
    forall i | 0 <= i < |escaped|
      ensures sep[0] !in escaped[i] && Unescape(escaped[i]) == lines[i]
    {
      EscapedHasNoBrackets(lines[i]);
      UnescapeEscape(lines[i]);
    }
    Text.SplitOnJoin(escaped, sep);
  }

  const StackTraceHtmlStart := "<!DOCTYPE HTML>\n<html><head><meta charset=\"utf-8\" /><style type=\"text/css\">\np { white-space: pre-wrap; margin-top:0px; margin-bottom:0px; margin-left:0px; margin-right:0px; -qt-block-indent:0; text-indent:0px; }\n</style></head><body align=\"center\" style=\" font-family:'Segoe UI', sans-serif; font-size:9pt; font-weight:400; font-style:normal;\">\n<table border=\"0\" style=\" margin-top:0px; margin-bottom:0px; margin-left:0px; margin-right:0px;\" cellspacing=\"0\" cellpadding=\"0\">\n<tr><td><p align=\"right\" style=\" color:#00ff00;\">"
  const StackTraceHtmlMiddle := "</span></p></td><td><p align=\"left\">   "
  const StackTraceHtmlEnd := "</p></td></tr></table></body></html>"

  /**
   * `StackTrace.make_html`: the stack lines, escaped and joined by `<br>`, then the token lines,
   * escaped and joined by `<br>` and three spaces, inside the document's fixed frame.
   */
  function StackTraceHtml(stackText: seq<string>, tokenText: seq<string>): string
  {
    StackTraceHtmlStart + Text.Join(EscapeAll(stackText), "<br>")
    + StackTraceHtmlMiddle + Text.Join(EscapeAll(tokenText), "<br>   ") + StackTraceHtmlEnd
  }

  /** The stack-trace document is the frame around two sections, each decoding back to its lines. */
  lemma StackTraceSections(stackText: seq<string>, tokenText: seq<string>)
    requires |stackText| > 0 && |tokenText| > 0
    ensures exists a, b ::
      && StackTraceHtml(stackText, tokenText) == StackTraceHtmlStart + a + StackTraceHtmlMiddle + b + StackTraceHtmlEnd
      && DecodeLines(a, "<br>") == stackText && DecodeLines(b, "<br>   ") == tokenText
  {
    var a, b := Text.Join(EscapeAll(stackText), "<br>"), Text.Join(EscapeAll(tokenText), "<br>   ");
    EscapedLinesDecode(stackText, "<br>");
    EscapedLinesDecode(tokenText, "<br>   ");
    assert StackTraceHtml(stackText, tokenText) == StackTraceHtmlStart + a + StackTraceHtmlMiddle + b + StackTraceHtmlEnd;
  }

  const CodeHtmlStart := "<!DOCTYPE HTML>\n<html><head><meta charset=\"utf-8\" /><style type=\"text/css\">\np { white-space: pre-wrap; }\n</style></head><body style=\" font-family:'Courier New', monospace; font-size:9pt; font-weight:400; font-style:normal;\"><p>"
  const CodeHtmlEnd := "</p></body></html>"
  const HighlightStart := "<highlight style=\"background-color:red;\">"
  const HighlightEnd := " </highlight>"

  /** A rendered line without its highlight tags, if it has them. */
  function StripHighlight(r: string): string
  {
    if HighlightStart <= r && |r| >= |HighlightStart| + |HighlightEnd| && r[|r| - |HighlightEnd|..] == HighlightEnd
    then r[|HighlightStart|..|r| - |HighlightEnd|]
    else r
  }

  /**
   * `line_to_html` for line `i` while line `highlighted` is highlighted: the line carries the
   * highlight tags exactly when it is the highlighted one, and decodes back to its text either way.
   */
  function LineHtml(highlighted: int, i: int, line: string): (r: string)
    ensures HighlightStart <= r <==> i == highlighted
    ensures Unescape(StripHighlight(r)) == line
  {
    EscapedHasNoBrackets(line);
    UnescapeEscape(line);
    var e := AddEscapeSequences(line);
    if i == highlighted then
      var r := HighlightStart + e + HighlightEnd;
      assert r[|r| - |HighlightEnd|..] == HighlightEnd && r[|HighlightStart|..|r| - |HighlightEnd|] == e;
      r
    else
      assert |e| > 0 ==> e[0] != '<';
      e
  }

  /** The rendered lines of a listing whose line `highlighted` is highlighted. */
  function Rendered(text: seq<string>, highlighted: int): (r: seq<string>)
    ensures |r| == |text|
  {
    seq(|text|, i requires 0 <= i < |text| => LineHtml(highlighted, i, text[i]))
  }

  /**
   * With no line highlighted (-1, or any number that is not a line's), every line is only escaped,
   * and the listing's body decodes back to the lines.
   */
  lemma NoHighlightOutOfRange(text: seq<string>, highlighted: int)
    requires highlighted < 0 || highlighted >= |text|
    ensures Rendered(text, highlighted) == EscapeAll(text)
    ensures |text| > 0 ==> DecodeLines(Text.Join(Rendered(text, highlighted), "<br>"), "<br>") == text
  {
    if |text| > 0 {
      EscapedLinesDecode(text, "<br>");
    }
  }

  /** `Code`: its class attribute `_highlighted_line`, which `make_html` sets before rendering. */
  class Code {
    var highlightedLine: int

    constructor ()
      ensures highlightedLine == -1
    {
      highlightedLine := -1;
    }

    /** `line_to_html` for the pair `(i, line)` of `enumerate(text)`. */
    function LineToHtml(i: int, line: string): (r: string)
      reads this
      ensures HighlightStart <= r <==> i == highlightedLine
      ensures Unescape(StripHighlight(r)) == line
    {
      LineHtml(highlightedLine, i, line)
    }

    /** `make_html`: records the highlighted line, then renders every line inside the document's frame. */
    method MakeHtml(text: seq<string>, highlighted: int) returns (html: string)
      modifies this
      ensures highlightedLine == highlighted
      ensures html == CodeHtmlStart + Text.Join(Rendered(text, highlighted), "<br>") + CodeHtmlEnd
    {
      highlightedLine := highlighted;
      var lines := seq(|text|, i requires 0 <= i < |text| reads this => LineToHtml(i, text[i]));
      assert lines == Rendered(text, highlighted);
      html := CodeHtmlStart + Text.Join(lines, "<br>") + CodeHtmlEnd;
    }
  }
}
