/** The quote and escape automaton of parser.go:99-155. */
module Tokenizer {

  datatype State = State(tokens: seq<string>, current: string, inQuote: bool, quoteChar: char, escaped: bool)

  const START := State([], "", false, '\0', false)

  function Unescaped(ch: char): char {
    match ch
    case 'n' => '\n'
    case 'r' => '\r'
    case 't' => '\t'
    case _ => ch
  }

  predicate IsQuote(ch: char) { ch == '"' || ch == '\'' }

  predicate IsBlank(ch: char) { ch == ' ' || ch == '\t' }

  function Cut(s: State): State {
    if s.current == "" then s else s.(tokens := s.tokens + [s.current], current := "")
  }

  function Feed(s: State, ch: char): State {
    if s.escaped then s.(current := s.current + [Unescaped(ch)], escaped := false)
    else if ch == '\\' then s.(escaped := true)
    else if s.inQuote then
      if ch == s.quoteChar then s.(inQuote := false) else s.(current := s.current + [ch])
    else if IsQuote(ch) then s.(inQuote := true, quoteChar := ch)
    else if IsBlank(ch) then Cut(s)
    else s.(current := s.current + [ch])
  }

  function Run(s: State, line: string): State {
    if line == "" then s else Feed(Run(s, line[..|line| - 1]), line[|line| - 1])
  }

  /** The tokens of a line; an unfinished quote or escape at its end is dropped. */
  function Tokens(line: string): seq<string> {
    Cut(Run(START, line)).tokens
  }

  lemma {:induction false} RunConcat(s: State, a: string, b: string)
    ensures Run(s, a + b) == Run(Run(s, a), b)
  {
    if b == "" {
      assert a + b == a;
    } else {
      var n := |b| - 1;
      assert (a + b)[..|a + b| - 1] == a + b[..n];
      RunConcat(s, a, b[..n]);
    }
  }

  lemma RunOne(s: State, ch: char)
    ensures Run(s, [ch]) == Feed(s, ch)
  {
    assert [ch][..0] == "";
  }

  /** No token is ever empty. */
  lemma {:induction false} TokensAreNotEmpty(s: State, line: string)
    requires forall t :: t in s.tokens ==> t != ""
    ensures forall t :: t in Run(s, line).tokens ==> t != ""
  {
    if line != "" {
      TokensAreNotEmpty(s, line[..|line| - 1]);
    }
  }

  method Tokenize(line: string) returns (tokens: seq<string>)
    ensures tokens == Tokens(line)
  {
    tokens := [];
    var current: string := "";
    var inQuote, quoteChar, escaped := false, '\0', false;
    for i := 0 to |line|
      invariant Run(START, line[..i]) == State(tokens, current, inQuote, quoteChar, escaped)
    {
      assert line[..i + 1][..i] == line[..i];
      var ch := line[i];
      if escaped {
        match ch {
          case 'n' => current := current + "\n";
          case 'r' => current := current + "\r";
          case 't' => current := current + "\t";
          case _ => current := current + [ch];
        }
        escaped := false;
        continue;
      }
      if ch == '\\' {
        escaped := true;
        continue;
      }
      if inQuote {
        if ch == quoteChar {
          inQuote := false;
        } else {
          current := current + [ch];
        }
      } else if ch == '"' || ch == '\'' {
        inQuote := true;
        quoteChar := ch;
      } else if ch == ' ' || ch == '\t' {
        if |current| > 0 {
          tokens := tokens + [current];
          current := "";
        }
      } else {
        current := current + [ch];
      }
    }
    assert line[..|line|] == line;
    if |current| > 0 {
      tokens := tokens + [current];
    }
  }

  function Join(parts: seq<string>): string {
    if parts == [] then ""
    else if |parts| == 1 then parts[0]
    else Join(parts[..|parts| - 1]) + " " + parts[|parts| - 1]
  }

  function NonEmpty(args: seq<string>): seq<string> {
    if args == [] then []
    else NonEmpty(args[..|args| - 1]) + (if args[|args| - 1] == "" then [] else [args[|args| - 1]])
  }

  /** Outside quotes and escapes, with the given tokens finished and one begun. */
  ghost predicate Outside(s: State, tokens: seq<string>, current: string) {
    !s.inQuote && !s.escaped && s.tokens == tokens && s.current == current
  }

  /** A rendering that the automaton reads back as the original, from between two tokens. */
  ghost predicate Renders(text: string, arg: string) {
    forall s, done :: Outside(s, done, "") ==> Outside(Run(s, text), done, arg)
  }

  lemma OneMore(front: string, done: seq<string>, text: string, arg: string)
    requires Outside(Cut(Run(START, front)), done, "") && Renders(text, arg)
    ensures Outside(Cut(Run(START, front + " " + text)), done + (if arg == "" then [] else [arg]), "")
  {
    var s := Run(START, front);
    RunConcat(START, front + " ", text);
    RunConcat(START, front, " ");
    RunOne(s, ' ');
    assert Outside(Feed(s, ' '), done, "");
    assert Outside(Run(Feed(s, ' '), text), done, arg);
  }

  lemma OnlyOne(text: string, arg: string)
    requires Renders(text, arg)
    ensures Outside(Cut(Run(START, Join([text]))), NonEmpty([arg]), "")
  {
    assert Outside(START, [], "") && Outside(Run(START, text), [], arg);
    assert NonEmpty([arg][..0]) == [];
  }

  /** Renderings survive being joined by spaces: only the empty arguments disappear. */
  lemma {:induction false} JoinedTokens(texts: seq<string>, args: seq<string>)
    requires |texts| == |args| && texts != []
    requires forall i :: 0 <= i < |args| ==> Renders(texts[i], args[i])
    ensures Outside(Cut(Run(START, Join(texts))), NonEmpty(args), "")
  {
    var n := |args| - 1;
    if n == 0 {
      OnlyOne(texts[0], args[0]);
      assert texts == [texts[0]] && args == [args[0]];
    } else {
      var front := Join(texts[..n]);
      JoinedTokens(texts[..n], args[..n]);
      OneMore(front, NonEmpty(args[..n]), texts[n], args[n]);
      assert Join(texts) == front + " " + texts[n];
    }
  }

  lemma {:induction false} NonEmptyKeepsAll(args: seq<string>)
    ensures NonEmpty(args) == args <==> "" !in args
    ensures |NonEmpty(args)| <= |args|
    ensures "" in args ==> |NonEmpty(args)| < |args|
  {
    if args != [] {
      var n := |args| - 1;
      NonEmptyKeepsAll(args[..n]);
      assert args == args[..n] + [args[n]];
    }
  }
}

/** mcp_server/client.py:148-153, the full escaper. */
module Quoting {
  import opened Tokenizer

  function Replace(s: string, ch: char, image: string): string {
    if s == "" then "" else Replace(s[..|s| - 1], ch, image) + (if s[|s| - 1] == ch then image else [s[|s| - 1]])
  }

  /** The first three replacements, of the characters that escape to themselves. */
  function Marks(s: string): string {
    Replace(Replace(Replace(s, '\\', "\\\\"), '"', "\\\""), '\'', "\\'")
  }

  /** The last three, of the control characters. */
  function Controls(s: string): string {
    Replace(Replace(Replace(s, '\n', "\\n"), '\r', "\\r"), '\t', "\\t")
  }

  function Escaped(s: string): string {
    Controls(Marks(s))
  }

  predicate Special(ch: char) {
    ch == ' ' || ch == '"' || ch == '\'' || ch == '\n' || ch == '\r' || ch == '\t' || ch == '\\'
  }

  function Quote(s: string): string {
    if s == "" || exists i :: 0 <= i < |s| && Special(s[i]) then "\"" + Escaped(s) + "\"" else s
  }

  /** What the six replacements together make of one character. */
  function EscapedChar(ch: char): string {
    match ch
    case '\\' => "\\\\"
    case '"' => "\\\""
    case '\'' => "\\'"
    case '\n' => "\\n"
    case '\r' => "\\r"
    case '\t' => "\\t"
    case _ => [ch]
  }

  lemma {:induction false} ReplaceConcat(a: string, b: string, ch: char, image: string)
    ensures Replace(a + b, ch, image) == Replace(a, ch, image) + Replace(b, ch, image)
  {
    if b == "" {
      assert a + b == a;
    } else {
      var n := |b| - 1;
      assert (a + b)[..|a + b| - 1] == a + b[..n];
      ReplaceConcat(a, b[..n], ch, image);
    }
  }

  lemma MarksConcat(a: string, b: string)
    ensures Marks(a + b) == Marks(a) + Marks(b)
  {
    ReplaceConcat(a, b, '\\', "\\\\");
    var a1, b1 := Replace(a, '\\', "\\\\"), Replace(b, '\\', "\\\\");
    ReplaceConcat(a1, b1, '"', "\\\"");
    ReplaceConcat(Replace(a1, '"', "\\\""), Replace(b1, '"', "\\\""), '\'', "\\'");
  }

  lemma ControlsConcat(a: string, b: string)
    ensures Controls(a + b) == Controls(a) + Controls(b)
  {
    ReplaceConcat(a, b, '\n', "\\n");
    var a1, b1 := Replace(a, '\n', "\\n"), Replace(b, '\n', "\\n");
    ReplaceConcat(a1, b1, '\r', "\\r");
    ReplaceConcat(Replace(a1, '\r', "\\r"), Replace(b1, '\r', "\\r"), '\t', "\\t");
  }

  lemma EscapedConcat(a: string, b: string)
    ensures Escaped(a + b) == Escaped(a) + Escaped(b)
  {
    MarksConcat(a, b);
    ControlsConcat(Marks(a), Marks(b));
  }

  lemma ReplaceOne(c: char, ch: char, image: string)
    ensures Replace([c], ch, image) == if c == ch then image else [c]
  {
    assert [c][..0] == "";
  }

  lemma {:induction false} Untouched(s: string, ch: char, image: string)
    requires ch !in s
    ensures Replace(s, ch, image) == s
  {
    if s != "" {
      Untouched(s[..|s| - 1], ch, image);
    }
  }

  predicate IsMark(c: char) { c == '\\' || c == '"' || c == '\'' }

  /** A later replacement leaves alone what an earlier one wrote. */
  lemma MarksOne(c: char)
    ensures Marks([c]) == if IsMark(c) then ['\\', c] else [c]
  {
    ReplaceOne(c, '\\', "\\\\");
    if c == '\\' {
      Untouched(['\\', c], '"', "\\\"");
      Untouched(['\\', c], '\'', "\\'");
    } else {
      ReplaceOne(c, '"', "\\\"");
      if c == '"' {
        Untouched(['\\', c], '\'', "\\'");
      } else {
        ReplaceOne(c, '\'', "\\'");
      }
    }
  }

  lemma ControlsOne(c: char)
    ensures Controls([c]) == if IsMark(c) then [c] else EscapedChar(c)
  {
    ReplaceOne(c, '\n', "\\n");
    if c == '\n' {
      Untouched("\\n", '\r', "\\r");
      Untouched("\\n", '\t', "\\t");
    } else {
      ReplaceOne(c, '\r', "\\r");
      if c == '\r' {
        Untouched("\\r", '\t', "\\t");
      } else {
        ReplaceOne(c, '\t', "\\t");
      }
    }
  }

  lemma {:induction false} NoControls(s: string)
    requires '\n' !in s && '\r' !in s && '\t' !in s
    ensures Controls(s) == s
  {
    Untouched(s, '\n', "\\n");
    Untouched(s, '\r', "\\r");
    Untouched(s, '\t', "\\t");
  }

  lemma EscapedOne(c: char)
    ensures Escaped([c]) == EscapedChar(c)
  {
    MarksOne(c);
    if IsMark(c) {
      var pair := ['\\', c];
      NoControls(pair);
    } else {
      ControlsOne(c);
    }
  }

  lemma EscapedCharIsRead(s: State, c: char)
    requires s.inQuote && s.quoteChar == '"' && !s.escaped
    ensures Run(s, EscapedChar(c)) == s.(current := s.current + [c])
  {
    var text := EscapedChar(c);
    if |text| == 2 {
      assert text == [text[0]] + [text[1]];
      RunConcat(s, [text[0]], [text[1]]);
      RunOne(s, text[0]);
      RunOne(Feed(s, text[0]), text[1]);
    } else {
      RunOne(s, c);
    }
  }

  /** Inside double quotes the automaton undoes the escaper, whatever the text. */
  lemma {:induction false} EscapedIsRead(s: State, arg: string)
    requires s.inQuote && s.quoteChar == '"' && !s.escaped
    ensures Run(s, Escaped(arg)) == s.(current := s.current + arg)
  {
    if arg != "" {
      var n := |arg| - 1;
      EscapedIsRead(s, arg[..n]);
      assert arg == arg[..n] + [arg[n]];
      EscapedConcat(arg[..n], [arg[n]]);
      EscapedOne(arg[n]);
      RunConcat(s, Escaped(arg[..n]), EscapedChar(arg[n]));
      EscapedCharIsRead(Run(s, Escaped(arg[..n])), arg[n]);
    }
  }

  lemma {:induction false} PlainIsRead(s: State, arg: string)
    requires !s.inQuote && !s.escaped && forall i :: 0 <= i < |arg| ==> !Special(arg[i])
    ensures Run(s, arg) == s.(current := s.current + arg)
  {
    if arg != "" {
      PlainIsRead(s, arg[..|arg| - 1]);
      assert arg == arg[..|arg| - 1] + [arg[|arg| - 1]];
    }
  }

  lemma QuoteRenders(arg: string)
    ensures Renders(Quote(arg), arg)
  {
    forall s, done | Outside(s, done, "") ensures Outside(Run(s, Quote(arg)), done, arg) {
      if Quote(arg) == arg && arg != "" && forall i :: 0 <= i < |arg| ==> !Special(arg[i]) {
        PlainIsRead(s, arg);
      } else {
        var inside := s.(inQuote := true, quoteChar := '"');
        RunConcat(s, "\"" + Escaped(arg), "\"");
        RunConcat(s, "\"", Escaped(arg));
        RunOne(s, '"');
        EscapedIsRead(inside, arg);
        RunOne(Run(inside, Escaped(arg)), '"');
      }
    }
  }

  function QuoteAll(args: seq<string>): (r: seq<string>)
    ensures |r| == |args| && forall i :: 0 <= i < |args| ==> r[i] == Quote(args[i])
  {
    seq(|args|, i requires 0 <= i < |args| => Quote(args[i]))
  }

  /** Reading back quoted and joined arguments returns them, backslashes, quotes, tabs and
      newlines included; only empty arguments are lost, so it is exact iff there are none. */
  lemma QuoteRoundTrip(args: seq<string>)
    ensures Tokens(Join(QuoteAll(args))) == NonEmpty(args)
    ensures Tokens(Join(QuoteAll(args))) == args <==> "" !in args
  {
    NonEmptyKeepsAll(args);
    if args != [] {
      forall i | 0 <= i < |args| ensures Renders(QuoteAll(args)[i], args[i]) {
        QuoteRenders(args[i]);
      }
      JoinedTokens(QuoteAll(args), args);
    }
  }

  lemma {:induction false} ReplaceGrows(s: string, ch: char, image: string)
    requires image != ""
    ensures |Replace(s, ch, image)| >= |s|
  {
    if s != "" {
      ReplaceGrows(s[..|s| - 1], ch, image);
    }
  }

  lemma EscapedGrows(s: string)
    ensures |Escaped(s)| >= |s|
  {
    hide Replace;
    ReplaceGrows(s, '\\', "\\\\");
    var a := Replace(s, '\\', "\\\\");
    ReplaceGrows(a, '"', "\\\"");
    ReplaceGrows(Replace(a, '"', "\\\""), '\'', "\\'");
    var m := Marks(s);
    ReplaceGrows(m, '\n', "\\n");
    var c := Replace(m, '\n', "\\n");
    ReplaceGrows(c, '\r', "\\r");
    ReplaceGrows(Replace(c, '\r', "\\r"), '\t', "\\t");
  }

  /** An argument is written as it stands exactly if it is not empty and has no blank, quote, backslash
      or control character in it. */
  lemma QuotedExactly(s: string)
    ensures Quote(s) == s <==>
      s != "" && forall i :: 0 <= i < |s| ==> s[i] !in {' ', '"', '\'', '\\', '\n', '\r', '\t'}
  {
    hide Escaped;
    EscapedGrows(s);
  }
}
