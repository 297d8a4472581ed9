/**
 The command printer of the website's setup page (website/setup.js) and the part
 of the POSIX shell's token recognition (XCU Shell Command Language, sections 2.2
 and 2.3) that has to undo it.
 */
module ShellFormat {
  import opened Wrappers

  // ---------------------------------------------------------------- printer

  predicate BareChar(c: char) {
    'A' <= c <= 'Z' || 'a' <= c <= 'z' || '0' <= c <= '9' || c in {'_', '@', '%', '+', '=', ':', ',', '.', '/', '-'}
  }

  predicate BareToken(token: string) {
    token != "" && forall i :: 0 <= i < |token| ==> BareChar(token[i])
  }

  /** Every single quote is closed, double-quoted and reopened. */
  function EscapeQuotes(token: string): string {
    if token == "" then ""
    else (if token[0] == '\'' then "'\"'\"'" else [token[0]]) + EscapeQuotes(token[1..])
  }

  function QuoteToken(token: string): string {
    if BareToken(token) then token else "'" + EscapeQuotes(token) + "'"
  }

  /** `tokens.map(quoteToken).join(" ")` */
  function QuoteLine(tokens: seq<string>): string {
    if tokens == [] then ""
    else if |tokens| == 1 then QuoteToken(tokens[0])
    else QuoteToken(tokens[0]) + " " + QuoteLine(tokens[1..])
  }

  const CONTINUATION: string := " \\\n"

  /** `lines.join(" \\\n")` */
  function JoinLines(lines: seq<string>): string
    requires lines != []
  {
    if |lines| == 1 then lines[0]
    else JoinLines(lines[..|lines| - 1]) + CONTINUATION + lines[|lines| - 1]
  }

  /** Two tokens to a continued line, indented by two blanks. */
  function Continued(tail: seq<string>): string {
    if tail == [] then ""
    else if |tail| <= 2 then " \\\n" + ("  " + QuoteLine(tail))
    else " \\\n" + ("  " + QuoteLine(tail[..2])) + Continued(tail[2..])
  }

  /** The first five tokens on one line, then two tokens to a continued line. */
  function Layout(tokens: seq<string>): string {
    if |tokens| <= 5 then QuoteLine(tokens) else QuoteLine(tokens[..5]) + Continued(tokens[5..])
  }

  method FormatCommand(tokens: seq<string>) returns (text: string)
    ensures text == Layout(tokens) && Tokenize(text) == Some(tokens)
  {
    var headCount := if |tokens| < 5 then |tokens| else 5;
    var head := QuoteLine(tokens[..headCount]);
    var tail := tokens[headCount..];
    var lines := [head];
    var index := 0;
    while index < |tail|
      invariant 0 <= index && lines != []
      invariant JoinLines(lines) + Left(tail, index) == head + Left(tail, 0)
    {
      var end := if index + 2 < |tail| then index + 2 else |tail|;
      LineJoined(lines, tail, index, end);
      lines := lines + ["  " + QuoteLine(tail[index..end])];
      index := index + 2;
    }
    text := JoinLines(lines);
    LaidOut(tokens, headCount, text, index);
    LayoutPrints(tokens);
    PrintsTokenizes(text, tokens);
  }

  /** What is still to be laid out. */
  function Left(tail: seq<string>, index: nat): string {
    if index < |tail| then Continued(tail[index..]) else ""
  }

  lemma LineJoined(lines: seq<string>, tail: seq<string>, index: nat, end: nat)
    requires lines != [] && index < |tail| && end == if index + 2 < |tail| then index + 2 else |tail|
    ensures JoinLines(lines) + Left(tail, index)
         == JoinLines(lines + ["  " + QuoteLine(tail[index..end])]) + Left(tail, index + 2)
  {
    var line := "  " + QuoteLine(tail[index..end]);
    var more := lines + [line];
    assert more[..|more| - 1] == lines;
    ContinuedStep(tail, index, end);
    Regroup(JoinLines(lines), CONTINUATION, line, Left(tail, index + 2));
  }

  lemma Regroup(a: string, b: string, c: string, d: string)
    ensures a + (b + c + d) == a + b + c + d
  {
  }

  lemma LaidOut(tokens: seq<string>, headCount: nat, text: string, index: nat)
    requires headCount == if |tokens| < 5 then |tokens| else 5
    requires index >= |tokens| - headCount
    requires text + Left(tokens[headCount..], index) == QuoteLine(tokens[..headCount]) + Left(tokens[headCount..], 0)
    ensures text == Layout(tokens)
  {
    assert text + "" == text;
    if |tokens| <= 5 {
      assert tokens[..headCount] == tokens && QuoteLine(tokens) + "" == QuoteLine(tokens);
    } else {
      assert tokens[5..][0..] == tokens[5..];
    }
  }

  lemma LayoutPrints(tokens: seq<string>)
    ensures Prints(Layout(tokens), tokens)
  {
    if |tokens| <= 5 {
      LinePrints(tokens);
    } else {
      LinePrints(tokens[..5]);
      ContinuedPrints(QuoteLine(tokens[..5]), tokens[..5], tokens[5..]);
      assert tokens[..5] + tokens[5..] == tokens;
    }
  }

  /** Continued lines add their tokens to those of the text before them. */
  lemma {:induction false} ContinuedPrints(before: string, words: seq<string>, tail: seq<string>)
    requires Prints(before, words)
    ensures Prints(before + Continued(tail), words + tail)
    decreases |tail|
  {
    if tail == [] {
      assert before + "" == before && words + [] == words;
    } else {
      var end := if |tail| <= 2 then |tail| else 2;
      var line := tail[..end];
      LinePrints(line);
      Separators();
      GluedPrints(before, words, CONTINUATION + "  ", QuoteLine(line), line);
      ContinuedPrints(before + (CONTINUATION + "  ") + QuoteLine(line), words + line, tail[end..]);
      ContinuedStep(tail, 0, end);
      LinesRegroup(before, CONTINUATION, "  ", QuoteLine(line), Continued(tail[end..]));
      assert tail[0..] == tail && tail[0..end] == line;
      WordsRegroup(words, tail, end);
    }
  }

  lemma LinesRegroup(before: string, a: string, b: string, line: string, rest: string)
    ensures before + (a + (b + line) + rest) == before + (a + b) + line + rest
  {
  }

  lemma WordsRegroup(words: seq<string>, tail: seq<string>, end: nat)
    requires end <= |tail|
    ensures words + tail[..end] + tail[end..] == words + tail
  {
    assert tail[..end] + tail[end..] == tail;
  }

  lemma ContinuedStep(tail: seq<string>, index: nat, end: nat)
    requires index < |tail| && end == if index + 2 < |tail| then index + 2 else |tail|
    ensures Continued(tail[index..]) == CONTINUATION + ("  " + QuoteLine(tail[index..end])) + Continued(tail[end..])
    ensures Continued(tail[end..]) == Left(tail, index + 2)
  {
    var rest := tail[index..];
    if |rest| <= 2 {
      assert rest == tail[index..end] && tail[end..] == [];
    } else {
      assert rest[..2] == tail[index..end] && rest[2..] == tail[end..];
    }
  }

  /** A character that needs no quoting, by its code: letters, digits and ten signs. */
  predicate Harmless(c: char) {
    var code := c as int;
    65 <= code <= 90 || 97 <= code <= 122 || 48 <= code <= 57 || code in {95, 64, 37, 43, 61, 58, 44, 46, 47, 45}
  }

  /** A token is printed as it stands exactly when it is not empty and has harmless characters only. */
  lemma QuotedExactly(token: string)
    ensures QuoteToken(token) == token <==> token != "" && forall i :: 0 <= i < |token| ==> Harmless(token[i])
  {
    assert forall i :: 0 <= i < |token| ==> (Harmless(token[i]) <==> BareChar(token[i]));
    if !BareToken(token) {
      EscapedLength(token);
    }
  }

  lemma {:induction false} EscapedLength(token: string)
    ensures |EscapeQuotes(token)| >= |token|
  {
    if token != "" {
      EscapedLength(token[1..]);
    }
  }

  // -------------------------------------------------------------- tokeniser

  datatype Quoting = Unquoted | SingleQuoted | DoubleQuoted

  /** Characters that are not plain word characters when they stand unquoted. */
  predicate Special(c: char) {
    c in {'|', '&', ';', '<', '>', '(', ')', '$', '`', '"', '\'', '*', '?', '[', ']', '#', '~', '!', '{', '}', '^',
          '\n', '\r', '\0'}
  }

  function Push(word: Option<string>, c: string): Option<string> {
    Some((if word.Some? then word.value else "") + c)
  }

  function Prepend(words: seq<string>, rest: Option<seq<string>>): Option<seq<string>> {
    if rest.Some? then Some(words + rest.value) else None
  }

  function Flush(word: Option<string>): seq<string> {
    if word.Some? then [word.value] else []
  }

  /**
   Token recognition over one simple command. `word` is the word being collected.
   The result is None as soon as the text would be anything but one list of literal
   words: an operator, an expansion, an unquoted newline or an unclosed quotation.
   */
  function Lex(text: string, quoting: Quoting, word: Option<string>): Option<seq<string>>
    decreases |text|
  {
    if text == "" then
      if quoting == Unquoted then Some(Flush(word)) else None
    else
      var c := text[0];
      match quoting
      case SingleQuoted =>
        if c == '\'' then Lex(text[1..], Unquoted, Push(word, ""))
        else Lex(text[1..], SingleQuoted, Push(word, [c]))
      case DoubleQuoted =>
        if c == '"' then Lex(text[1..], Unquoted, Push(word, ""))
        else if c == '$' || c == '`' then None
        else if c == '\\' then
          if |text| == 1 then None
          else if text[1] == '\n' then Lex(text[2..], DoubleQuoted, word)
          else if text[1] in {'$', '`', '"', '\\'} then Lex(text[2..], DoubleQuoted, Push(word, [text[1]]))
          else Lex(text[2..], DoubleQuoted, Push(word, [c, text[1]]))
        else Lex(text[1..], DoubleQuoted, Push(word, [c]))
      case Unquoted =>
        if c == '\'' then Lex(text[1..], SingleQuoted, Push(word, ""))
        else if c == '"' then Lex(text[1..], DoubleQuoted, Push(word, ""))
        else if c == '\\' then
          if |text| == 1 then None
          else if text[1] == '\n' then Lex(text[2..], Unquoted, word)
          else Lex(text[2..], Unquoted, Push(word, [text[1]]))
        else if c == ' ' || c == '\t' then Prepend(Flush(word), Lex(text[1..], Unquoted, None))
        else if Special(c) then None
        else Lex(text[1..], Unquoted, Push(word, [c]))
  }

  function Tokenize(text: string): Option<seq<string>> {
    Lex(text, Unquoted, None)
  }

  // ------------------------------------------------------------------ proof

  /** What may follow a complete word. */
  predicate Boundary(rest: string) {
    rest == "" || rest[0] == ' '
  }

  /** In front of any boundary, `text` reads as exactly `words`. */
  ghost predicate Prints(text: string, words: seq<string>) {
    forall rest: string :: Boundary(rest) ==>
      Lex(text + rest, Unquoted, None) == Prepend(words, Lex(rest, Unquoted, None))
  }

  lemma PrintsTokenizes(text: string, words: seq<string>)
    requires Prints(text, words)
    ensures Tokenize(text) == Some(words)
  {
    assert text + "" == text;
    assert Lex("", Unquoted, None) == Some([]);
    assert words + [] == words;
  }

  lemma BareIsPlain(c: char)
    requires BareChar(c)
    ensures !Special(c) && c != '\'' && c != '"' && c != '\\' && c != ' ' && c != '\t'
  {
  }

  lemma {:induction false} BareLexes(token: string, word: string, rest: string)
    requires forall i :: 0 <= i < |token| ==> BareChar(token[i])
    ensures Lex(token + rest, Unquoted, Some(word)) == Lex(rest, Unquoted, Some(word + token))
  {
    if token == "" {
      assert token + rest == rest;
      assert word + token == word;
    } else {
      BareIsPlain(token[0]);
      assert (token + rest)[1..] == token[1..] + rest;
      BareLexes(token[1..], word + [token[0]], rest);
      assert word + [token[0]] + token[1..] == word + token;
    }
  }

  lemma {:induction false} EscapedLexes(token: string, word: string, rest: string)
    ensures Lex(EscapeQuotes(token) + "'" + rest, SingleQuoted, Some(word))
         == Lex(rest, Unquoted, Some(word + token))
  {
    var text := EscapeQuotes(token) + "'" + rest;
    if token == "" {
      assert text[1..] == rest;
      assert word + "" == word;
    } else {
      var more := EscapeQuotes(token[1..]) + "'" + rest;
      assert word + [token[0]] + token[1..] == word + token;
      if token[0] == '\'' {
        assert text == "'\"'\"'" + more;
        QuoteBreakLexes(word, more);
      } else {
        assert text[1..] == more;
      }
      EscapedLexes(token[1..], word + [token[0]], rest);
    }
  }

  lemma QuoteBreakLexes(word: string, more: string)
    ensures Lex("'\"'\"'" + more, SingleQuoted, Some(word)) == Lex(more, SingleQuoted, Some(word + "'"))
  {
    var text := "'\"'\"'" + more;
    assert text[1..] == "\"'\"'" + more;
    assert text[1..][1..] == "'\"'" + more;
    assert text[1..][1..][1..] == "\"'" + more;
    assert text[1..][1..][1..][1..] == "'" + more;
    assert text[1..][1..][1..][1..][1..] == more;
    assert word + "" == word;
    assert Lex(text, SingleQuoted, Some(word)) == Lex(text[1..], Unquoted, Some(word));
    assert Lex(text[1..], Unquoted, Some(word)) == Lex(text[1..][1..], DoubleQuoted, Some(word));
    assert Lex(text[1..][1..], DoubleQuoted, Some(word)) == Lex("\"'" + more, DoubleQuoted, Some(word + "'"));
    assert word + "'" + "" == word + "'";
    assert Lex("\"'" + more, DoubleQuoted, Some(word + "'")) == Lex("'" + more, Unquoted, Some(word + "'"));
  }

  lemma QuotedLexes(token: string, rest: string)
    ensures Lex("'" + EscapeQuotes(token) + "'" + rest, Unquoted, None) == Lex(rest, Unquoted, Some(token))
  {
    var text := "'" + EscapeQuotes(token) + "'" + rest;
    assert text[0] == '\'' && text[1..] == EscapeQuotes(token) + "'" + rest;
    assert "" + "" == "" && Push(None, "") == Some("");
    assert Lex(text, Unquoted, None) == Lex(text[1..], SingleQuoted, Some(""));
    EscapedLexes(token, "", rest);
    assert "" + token == token;
  }

  lemma TokenLexes(token: string, rest: string)
    ensures Lex(QuoteToken(token) + rest, Unquoted, None) == Lex(rest, Unquoted, Some(token))
  {
    if BareToken(token) {
      var text := token + rest;
      BareIsPlain(token[0]);
      assert text[1..] == token[1..] + rest;
      assert "" + [token[0]] == [token[0]];
      assert Lex(text, Unquoted, None) == Lex(text[1..], Unquoted, Some([token[0]]));
      BareLexes(token[1..], [token[0]], rest);
      assert [token[0]] + token[1..] == token;
    } else {
      QuotedLexes(token, rest);
      assert QuoteToken(token) + rest == "'" + EscapeQuotes(token) + "'" + rest;
    }
  }

  /** At a boundary the collected word is complete. */
  lemma WordEnds(word: string, rest: string)
    requires Boundary(rest)
    ensures Lex(rest, Unquoted, Some(word)) == Prepend([word], Lex(rest, Unquoted, None))
  {
    if rest == "" {
      assert [word] + [] == [word];
    } else {
      BlankSkipped(rest);
    }
  }

  lemma TokenPrints(token: string)
    ensures Prints(QuoteToken(token), [token])
  {
    forall rest: string | Boundary(rest)
      ensures Lex(QuoteToken(token) + rest, Unquoted, None) == Prepend([token], Lex(rest, Unquoted, None))
    {
      TokenLexes(token, rest);
      WordEnds(token, rest);
    }
  }

  lemma BlankSkipped(text: string)
    requires text != "" && text[0] == ' '
    ensures Lex(text, Unquoted, None) == Lex(text[1..], Unquoted, None)
  {
    var after := Lex(text[1..], Unquoted, None);
    assert after.Some? ==> [] + after.value == after.value;
  }

  lemma PrependAppends(a: seq<string>, b: seq<string>, rest: Option<seq<string>>)
    ensures Prepend(a, Prepend(b, rest)) == Prepend(a + b, rest)
  {
    if rest.Some? {
      assert a + (b + rest.value) == a + b + rest.value;
    }
  }

  /** A continued line joins the one before it, and its indentation is skipped. */
  lemma ContinuationSkipped(more: string)
    ensures Lex(CONTINUATION + "  " + more, Unquoted, None) == Lex(more, Unquoted, None)
  {
    var text, indented := CONTINUATION + "  " + more, "  " + more;
    BlankSkipped(text);
    var joined := text[1..];
    assert joined[0] == '\\' && joined[1] == '\n' && joined[2..] == indented;
    assert Lex(joined, Unquoted, None) == Lex(indented, Unquoted, None);
    BlankSkipped(indented);
    assert indented[1..] == " " + more;
    BlankSkipped(" " + more);
    assert (" " + more)[1..] == more;
  }

  /** White space between two words, possibly continued onto the next line. */
  ghost predicate Separates(glue: string) {
    forall more: string :: Boundary(glue + more) && Lex(glue + more, Unquoted, None) == Lex(more, Unquoted, None)
  }

  lemma Separators()
    ensures Separates(" ") && Separates(CONTINUATION + "  ")
  {
    forall more: string
      ensures Boundary(" " + more) && Lex(" " + more, Unquoted, None) == Lex(more, Unquoted, None)
    {
      BlankSkipped(" " + more);
      assert (" " + more)[1..] == more;
    }
    forall more: string
      ensures Boundary(CONTINUATION + "  " + more)
      ensures Lex(CONTINUATION + "  " + more, Unquoted, None) == Lex(more, Unquoted, None)
    {
      ContinuationSkipped(more);
    }
  }

  lemma GluedPrints(left: string, leftWords: seq<string>, glue: string, right: string, rightWords: seq<string>)
    requires Prints(left, leftWords) && Prints(right, rightWords) && Separates(glue)
    ensures Prints(left + glue + right, leftWords + rightWords)
  {
    forall rest: string | Boundary(rest)
      ensures Lex(left + glue + right + rest, Unquoted, None)
           == Prepend(leftWords + rightWords, Lex(rest, Unquoted, None))
    {
      var tail := glue + (right + rest);
      assert left + glue + right + rest == left + tail;
      assert Boundary(tail) && Lex(tail, Unquoted, None) == Lex(right + rest, Unquoted, None);
      assert Lex(left + tail, Unquoted, None) == Prepend(leftWords, Lex(tail, Unquoted, None));
      PrependAppends(leftWords, rightWords, Lex(rest, Unquoted, None));
    }
  }

  lemma {:induction false} LinePrints(tokens: seq<string>)
    ensures Prints(QuoteLine(tokens), tokens)
  {
    if tokens == [] {
      forall rest: string | Boundary(rest)
        ensures Lex("" + rest, Unquoted, None) == Prepend([], Lex(rest, Unquoted, None))
      {
        assert "" + rest == rest;
        var after := Lex(rest, Unquoted, None);
        assert after.Some? ==> [] + after.value == after.value;
      }
    } else if |tokens| == 1 {
      TokenPrints(tokens[0]);
      assert tokens == [tokens[0]];
    } else {
      TokenPrints(tokens[0]);
      LinePrints(tokens[1..]);
      Separators();
      GluedPrints(QuoteToken(tokens[0]), [tokens[0]], " ", QuoteLine(tokens[1..]), tokens[1..]);
      assert [tokens[0]] + tokens[1..] == tokens;
    }
  }

  /** The printed form determines the token, so no two commands print alike. */
  lemma QuoteTokenInjective(a: string, b: string)
    requires QuoteToken(a) == QuoteToken(b)
    ensures a == b
  {
    TokenPrints(a);
    TokenPrints(b);
    PrintsTokenizes(QuoteToken(a), [a]);
    PrintsTokenizes(QuoteToken(b), [b]);
    assert [a][0] == [b][0];
  }
}
