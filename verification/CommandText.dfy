/** Commands as text: parseLine (parser.go:86-96) and Command.String (types.go:16-29). */
module CommandText {
  import opened Text
  import opened Tokenizer
  import opened Quoting

  datatype Command = Command(name: string, args: seq<string>)

  datatype Parsed = Parsed(cmd: Command) | EmptyCommand

  function Upper(ch: char): char {
    if 'a' <= ch <= 'z' then 'A' + (ch - 'a') else ch
  }

  function ToUpper(s: string): (r: string)
    ensures |r| == |s| && forall i :: 0 <= i < |s| ==> r[i] == Upper(s[i])
  {
    seq(|s|, i requires 0 <= i < |s| => Upper(s[i]))
  }

  lemma Capitals(name: string)
    requires forall i :: 0 <= i < |name| ==> 'A' <= name[i] <= 'Z'
    ensures ToUpper(name) == name
  {
  }

  function ParseLine(line: string): Parsed {
    var tokens := Tokens(line);
    if tokens == [] then EmptyCommand else Parsed(Command(ToUpper(tokens[0]), tokens[1..]))
  }

  /** The reader's limit on a line with its newline, in bytes. */
  const MAX_LINE_LENGTH := 65536

  /** What Parse makes of one line followed by a newline. */
  function ParseOne(line: string): Option<Command> {
    if Size(line) + 1 > MAX_LINE_LENGTH || Chop(line) == "" then None
    else
      match ParseLine(Chop(line))
      case Parsed(cmd) => Some(cmd)
      case EmptyCommand => None
  }

  predicate NeedsQuotes(arg: string) { ' ' in arg || '"' in arg }

  function Render(arg: string): string {
    if NeedsQuotes(arg) then "\"" + Replace(arg, '"', "\\\"") + "\"" else arg
  }

  method Print(cmd: Command) returns (line: string)
    ensures line == TextOf(cmd)
  {
    var parts := [cmd.name];
    for i := 0 to |cmd.args|
      invariant parts == [cmd.name] + RenderAll(cmd.args[..i])
    {
      var arg := cmd.args[i];
      if ' ' in arg || '"' in arg {
        arg := Replace(arg, '"', "\\\"");
        parts := parts + ["\"" + arg + "\""];
      } else {
        parts := parts + [arg];
      }
      assert cmd.args[..i + 1][..i] == cmd.args[..i];
    }
    assert cmd.args[..|cmd.args|] == cmd.args;
    line := Join(parts);
  }

  function RenderAll(args: seq<string>): (r: seq<string>)
    ensures |r| == |args|
  {
    if args == [] then [] else RenderAll(args[..|args| - 1]) + [Render(args[|args| - 1])]
  }

  function TextOf(cmd: Command): string {
    Join([cmd.name] + RenderAll(cmd.args))
  }

  // ---------- which arguments survive ----------

  /** No backslash, not empty, and no single quote or tab unless double quotes are put around it. */
  predicate Kept(arg: string) {
    arg != "" && '\\' !in arg && (' ' in arg || '"' in arg || ('\'' !in arg && '\t' !in arg))
  }

  lemma {:induction false} BareIsRead(s: State, arg: string)
    requires !s.inQuote && !s.escaped
    requires '\\' !in arg && '\'' !in arg && '\t' !in arg && !NeedsQuotes(arg)
    ensures Run(s, arg) == s.(current := s.current + arg)
  {
    if arg != "" {
      BareIsRead(s, arg[..|arg| - 1]);
      assert arg == arg[..|arg| - 1] + [arg[|arg| - 1]];
    }
  }

  /** What the automaton makes of the escaped text of one character. */
  function FeedRendered(s: State, ch: char): State {
    if ch == '"' then Feed(Feed(s, '\\'), '"') else Feed(s, ch)
  }

  lemma RunRendered(s: State, arg: string)
    requires arg != ""
    ensures Run(s, Replace(arg, '"', "\\\""))
         == FeedRendered(Run(s, Replace(arg[..|arg| - 1], '"', "\\\"")), arg[|arg| - 1])
  {
    var n := |arg| - 1;
    var front := Replace(arg[..n], '"', "\\\"");
    if arg[n] == '"' {
      assert Replace(arg, '"', "\\\"") == (front + ['\\']) + ['"'];
      RunConcat(s, front + ['\\'], ['"']);
      RunConcat(s, front, ['\\']);
      RunOne(Run(s, front), '\\');
      RunOne(Feed(Run(s, front), '\\'), '"');
    } else {
      RunConcat(s, front, [arg[n]]);
      RunOne(Run(s, front), arg[n]);
    }
  }

  lemma QuotedStep(s: State, done: string, ch: char)
    requires s.inQuote && s.quoteChar == '"' && !s.escaped && ch != '\\'
    ensures FeedRendered(s.(current := s.current + done), ch) == s.(current := s.current + (done + [ch]))
  {
    assert s.current + done + [ch] == s.current + (done + [ch]);
  }

  lemma {:induction false} QuotedIsRead(s: State, arg: string)
    requires s.inQuote && s.quoteChar == '"' && !s.escaped && '\\' !in arg
    ensures Run(s, Replace(arg, '"', "\\\"")) == s.(current := s.current + arg)
  {
    if arg != "" {
      var front, ch := arg[..|arg| - 1], arg[|arg| - 1];
      QuotedIsRead(s, front);
      RunRendered(s, arg);
      QuotedStep(s, front, ch);
      assert arg == front + [ch];
    }
  }

  lemma RunQuoted(s: State, text: string)
    ensures Run(s, "\"" + text + "\"") == Feed(Run(Feed(s, '"'), text), '"')
  {
    RunConcat(s, "\"" + text, ['"']);
    RunConcat(s, ['"'], text);
    RunOne(s, '"');
    RunOne(Run(Feed(s, '"'), text), '"');
  }

  lemma KeptRenders(arg: string)
    requires Kept(arg)
    ensures Renders(Render(arg), arg)
  {
    forall s, done | Outside(s, done, "") ensures Outside(Run(s, Render(arg)), done, arg) {
      if NeedsQuotes(arg) {
        RunQuoted(s, Replace(arg, '"', "\\\""));
        QuotedIsRead(Feed(s, '"'), arg);
      } else {
        BareIsRead(s, arg);
      }
    }
  }

  lemma {:induction false} RenderAt(args: seq<string>, i: nat)
    requires i < |args|
    ensures RenderAll(args)[i] == Render(args[i])
  {
    if i < |args| - 1 {
      RenderAt(args[..|args| - 1], i);
    }
  }

  predicate PlainName(name: string) {
    name != "" && ToUpper(name) == name && Kept(name) && !NeedsQuotes(name)
  }

  // ---------- and no others do ----------

  function Total(tokens: seq<string>): nat {
    if tokens == [] then 0 else Total(tokens[..|tokens| - 1]) + |tokens[|tokens| - 1]|
  }

  /** The characters and the ends of tokens that have come out so far. */
  function Output(s: State): nat { Total(s.tokens) + |s.tokens| + |s.current| }

  /** Printing adds no character but these. */
  predicate Added(ch: char) { ch == ' ' || ch == '"' || ch == '\\' }

  /** The other characters of a text. */
  function Own(text: string): nat {
    if text == "" then 0 else Own(text[..|text| - 1]) + if Added(text[|text| - 1]) then 0 else 1
  }

  function OwnAll(tokens: seq<string>): nat {
    if tokens == [] then 0 else OwnAll(tokens[..|tokens| - 1]) + Own(tokens[|tokens| - 1])
  }

  function OwnOutput(s: State): nat { OwnAll(s.tokens) + Own(s.current) }

  lemma CutOutput(s: State)
    ensures Output(Cut(s)) == Output(s) + if s.current == "" then 0 else 1
    ensures OwnOutput(Cut(s)) == OwnOutput(s) && Cut(s).current == ""
  {
    assert (s.tokens + [s.current])[..|s.tokens|] == s.tokens;
  }

  lemma GrowOutput(s: State, ch: char)
    ensures var t := s.(current := s.current + [ch]);
      Output(t) == Output(s) + 1 && OwnOutput(t) == OwnOutput(s) + if Added(ch) then 0 else 1
  {
    assert (s.current + [ch])[..|s.current|] == s.current;
  }

  /** What one character adds to the output: itself, the end of a token, or nothing.  No character
      but the printed ones comes out that did not go in. */
  lemma FeedOutput(s: State, ch: char)
    ensures Output(s) <= Output(Feed(s, ch)) <= Output(s) + 1
    ensures OwnOutput(s) <= OwnOutput(Feed(s, ch)) <= OwnOutput(s) + if Added(ch) then 0 else 1
    ensures !s.escaped && ch == '\\' ==> Output(Feed(s, ch)) == Output(s)
    ensures InSingle(Feed(s, ch)) && !InSingle(s) ==> OwnOutput(Feed(s, ch)) == OwnOutput(s) && ch == '\''
  {
    CutOutput(s);
    GrowOutput(s, ch);
    GrowOutput(s, Unescaped(ch));
  }

  predicate InSingle(s: State) { s.inQuote && s.quoteChar != '"' }

  /** Of `own` characters not all have come out, or of `all` characters and ends of tokens not all
      have, outside single quotes, which have swallowed a character of its own. */
  ghost predicate Short(s: State, own: nat, all: nat) {
    OwnOutput(s) <= own && (OwnOutput(s) < own || (!InSingle(s) && Output(s) < all))
  }

  /** Short even if the character that is escaped comes out next. */
  ghost predicate VeryShort(s: State, own: nat, all: nat) {
    && Short(s, own, all)
    && (OwnOutput(s) < own || Output(s) + (if s.escaped then 1 else 0) < all)
  }

  lemma OwnStays(s: State, own: nat, all: nat, ch: char)
    requires Short(s, own, all)
    ensures Short(Feed(s, ch), own + if Added(ch) then 0 else 1, all + 1)
  {
    FeedOutput(s, ch);
  }

  lemma CharKeepsShort(s: State, own: nat, all: nat, ch: char)
    requires VeryShort(s, own, all)
    ensures VeryShort(FeedRendered(s, ch), own + if Added(ch) then 0 else 1, all + 1)
  {
    if ch == '"' {
      var t := Feed(s, '\\');
      FeedOutput(s, '\\');
      FeedOutput(t, '"');
      GrowOutput(s, '\\');
      GrowOutput(t, '"');
    } else {
      FeedOutput(s, ch);
    }
  }

  lemma QuoteKeepsShort(s: State, own: nat, all: nat)
    requires VeryShort(s, own, all)
    ensures VeryShort(Feed(s, '"'), own, all)
  {
    FeedOutput(s, '"');
    GrowOutput(s, '"');
  }

  lemma SpaceKeepsShort(s: State, own: nat, all: nat)
    requires Short(s, own, all)
    ensures VeryShort(Feed(s, ' '), own, all + 1)
  {
    FeedOutput(s, ' ');
  }

  lemma OwnGrows(text: string, ch: char)
    ensures Own(text + [ch]) == Own(text) + if Added(ch) then 0 else 1
  {
    assert (text + [ch])[..|text|] == text;
  }

  lemma {:induction false} BareKeepsShort(s: State, own: nat, all: nat, arg: string)
    requires VeryShort(s, own, all) && !NeedsQuotes(arg)
    ensures VeryShort(Run(s, arg), own + Own(arg), all + |arg|)
  {
    hide VeryShort, FeedRendered;
    if arg != "" {
      var n := |arg| - 1;
      BareKeepsShort(s, own, all, arg[..n]);
      CharKeepsShort(Run(s, arg[..n]), own + Own(arg[..n]), all + n, arg[n]);
      assert arg[n] != '"' && arg == arg[..n] + [arg[n]];
      FeedPlain(Run(s, arg[..n]), arg[n]);
    }
  }

  lemma FeedPlain(s: State, ch: char)
    requires ch != '"'
    ensures FeedRendered(s, ch) == Feed(s, ch)
  {
  }

  lemma {:induction false} QuotedKeepsShort(s: State, own: nat, all: nat, arg: string)
    requires VeryShort(s, own, all)
    ensures VeryShort(Run(s, Replace(arg, '"', "\\\"")), own + Own(arg), all + |arg|)
  {
    hide VeryShort, FeedRendered, Replace;
    if arg == "" {
      NothingReplaced(s);
    } else {
      var n := |arg| - 1;
      QuotedKeepsShort(s, own, all, arg[..n]);
      RunRendered(s, arg);
      CharKeepsShort(Run(s, Replace(arg[..n], '"', "\\\"")), own + Own(arg[..n]), all + n, arg[n]);
    }
  }

  lemma NothingReplaced(s: State)
    ensures Run(s, Replace("", '"', "\\\"")) == s && Own("") == 0
  {
  }

  /** A rendered argument keeps the output short. */
  lemma RenderedKeepsShort(s: State, own: nat, all: nat, arg: string)
    requires VeryShort(s, own, all)
    ensures VeryShort(Run(s, Render(arg)), own + Own(arg), all + |arg|)
  {
    hide VeryShort, Replace, Run, Feed, Own, NeedsQuotes;
    if NeedsQuotes(arg) {
      var text := Replace(arg, '"', "\\\"");
      RunQuoted(s, text);
      QuoteKeepsShort(s, own, all);
      QuotedKeepsShort(Feed(s, '"'), own, all, arg);
      QuoteKeepsShort(Run(Feed(s, '"'), text), own + Own(arg), all + |arg|);
    } else {
      BareKeepsShort(s, own, all, arg);
    }
  }

  /** The k-th token, done or begun, is another than `arg` and stays so. */
  ghost predicate Astray(s: State, k: nat, arg: string) {
    || (k < |s.tokens| && s.tokens[k] != arg)
    || (k == |s.tokens| && 0 < |arg| <= |s.current| && s.current[..|arg|] != arg)
  }

  lemma AstrayStays(s: State, k: nat, arg: string, ch: char)
    requires Astray(s, k, arg)
    ensures Astray(Feed(s, ch), k, arg) && Astray(Cut(s), k, arg)
  {
    if k == |s.tokens| {
      assert (s.current + [ch])[..|arg|] == s.current[..|arg|];
      assert (s.current + [Unescaped(ch)])[..|arg|] == s.current[..|arg|];
      assert s.current[..|s.current|] == s.current;
    }
  }

  lemma {:induction false} AstrayRuns(s: State, k: nat, arg: string, text: string)
    requires Astray(s, k, arg)
    ensures Astray(Run(s, text), k, arg)
  {
    hide Astray, Feed;
    if text != "" {
      AstrayRuns(s, k, arg, text[..|text| - 1]);
      AstrayStays(Run(s, text[..|text| - 1]), k, arg, text[|text| - 1]);
    }
  }

  predicate Swallowed(ch: char) { ch == '\\' || ch == '\'' || ch == '\t' }

  lemma BareBegins(s: State, done: string, ch: char)
    requires !s.inQuote && !s.escaped && s.current == done && Swallowed(ch)
    ensures Short(Feed(s, ch), OwnOutput(s) + (if Added(ch) then 0 else 1), Output(s) + 1)
  {
    CutOutput(s);
  }

  ghost predicate Swallows(text: string) {
    exists i :: 0 <= i < |text| && Swallowed(text[i])
  }

  lemma SwallowsMore(text: string, ch: char)
    ensures Swallows(text + [ch]) <==> Swallows(text) || Swallowed(ch)
  {
    var all := text + [ch];
    assert all[|text|] == ch;
    assert forall i :: 0 <= i < |text| ==> all[i] == text[i];
  }

  lemma NothingSwallowed(s: State, text: string)
    requires !s.inQuote && !s.escaped && s.current == "" && !NeedsQuotes(text) && !Swallows(text)
    ensures var t := Run(s, text);
      && !t.inQuote && !t.escaped && t.current == text
      && Output(t) == Output(s) + |text| && OwnOutput(t) == OwnOutput(s) + Own(text)
  {
    BareIsRead(s, text);
    BegunOutput(s, text);
    assert s.current + text == text;
  }

  /** Outside quotes one swallowed character is a loss that nothing later makes up for. */
  lemma {:induction false} BareLoses(s: State, arg: string)
    requires !s.inQuote && !s.escaped && s.current == "" && !NeedsQuotes(arg) && Swallows(arg)
    ensures Short(Run(s, arg), OwnOutput(s) + Own(arg), Output(s) + |arg|)
  {
    hide Short, Output, OwnOutput, Feed, Own, Swallows;
    assert arg != "" by { SwallowsSome(arg); }
    var n := |arg| - 1;
    var t := Run(s, arg[..n]);
    assert arg == arg[..n] + [arg[n]] && !NeedsQuotes(arg[..n]);
    OwnGrows(arg[..n], arg[n]);
    SwallowsMore(arg[..n], arg[n]);
    if Swallows(arg[..n]) {
      BareLoses(s, arg[..n]);
      OwnStays(t, OwnOutput(s) + Own(arg[..n]), Output(s) + n, arg[n]);
    } else {
      NothingSwallowed(s, arg[..n]);
      BareBegins(t, arg[..n], arg[n]);
    }
  }

  lemma SwallowsSome(arg: string)
    requires Swallows(arg)
    ensures arg != ""
  {
  }

  lemma UnkeptQuoted(arg: string)
    requires NeedsQuotes(arg) && !Kept(arg)
    ensures '\\' in arg
  {
  }

  lemma UnkeptSwallows(arg: string)
    requires !NeedsQuotes(arg) && !Kept(arg) && arg != ""
    ensures Swallows(arg)
  {
    var ch :| ch in "\\'\t" && ch in arg;
    var i :| 0 <= i < |arg| && arg[i] == ch;
    assert Swallowed(arg[i]);
  }

  lemma {:induction false} BegunOutput(s: State, text: string)
    ensures var t := s.(current := s.current + text);
      Output(t) == Output(s) + |text| && OwnOutput(t) == OwnOutput(s) + Own(text)
  {
    if text == "" {
      assert s.current + text == s.current;
    } else {
      var n := |text| - 1;
      BegunOutput(s, text[..n]);
      assert s.current + text == (s.current + text[..n]) + [text[n]];
      GrowOutput(s.(current := s.current + text[..n]), text[n]);
    }
  }

  /** After a text with a backslash in it, inside double quotes: too short, or with the escape
      pending that the backslash at the end has begun. */
  ghost predicate Lost(s: State, o: State, arg: string) {
    || VeryShort(s, OwnOutput(o) + Own(arg), Output(o) + |arg|)
    || (arg != "" && arg[|arg| - 1] == '\\' && s == o.(current := arg[..|arg| - 1], escaped := true))
  }

  lemma LostStays(s: State, o: State, arg: string, ch: char)
    requires Lost(s, o, arg) && o.current == "" && o.inQuote && o.quoteChar == '"'
    ensures Lost(FeedRendered(s, ch), o, arg + [ch])
  {
    hide Own, Total, OwnAll;
    OwnGrows(arg, ch);
    if VeryShort(s, OwnOutput(o) + Own(arg), Output(o) + |arg|) {
      CharKeepsShort(s, OwnOutput(o) + Own(arg), Output(o) + |arg|, ch);
    } else {
      var n := |arg| - 1;
      assert arg == arg[..n] + ['\\'];
      OwnGrows(arg[..n], '\\');
      BegunOutput(o, arg[..n]);
      assert o.current + arg[..n] == arg[..n];
      GrowOutput(s, Unescaped(ch));
      GrowOutput(s, '\\');
    }
  }

  lemma LostBegins(s: State, o: State, done: string)
    requires o.inQuote && o.quoteChar == '"' && !o.escaped && s == o.(current := done)
    ensures Lost(FeedRendered(s, '\\'), o, done + ['\\'])
  {
    assert (done + ['\\'])[..|done|] == done;
  }

  /** A backslash is lost inside double quotes too, unless the closing quote takes its place. */
  lemma {:induction false} QuotedLoses(o: State, arg: string)
    requires o.inQuote && o.quoteChar == '"' && !o.escaped && o.current == "" && '\\' in arg
    ensures Lost(Run(o, Replace(arg, '"', "\\\"")), o, arg)
  {
    hide Lost, FeedRendered, Run, Replace;
    var n := |arg| - 1;
    RunRendered(o, arg);
    assert arg == arg[..n] + [arg[n]];
    var t := Run(o, Replace(arg[..n], '"', "\\\""));
    if '\\' in arg[..n] {
      QuotedLoses(o, arg[..n]);
      LostStays(t, o, arg[..n], arg[n]);
    } else {
      QuotedIsRead(o, arg[..n]);
      assert o.current + arg[..n] == arg[..n];
      LostBegins(t, o, arg[..n]);
    }
  }

  lemma LostIsNotKept(s: State, o: State, arg: string)
    requires Lost(s, o, arg) && o.inQuote && o.quoteChar == '"' && o.current == ""
    ensures Bad(Feed(s, '"'), OwnOutput(o) + Own(arg), Output(o) + |arg|, |o.tokens|, arg)
  {
    if VeryShort(s, OwnOutput(o) + Own(arg), Output(o) + |arg|) {
      QuoteKeepsShort(s, OwnOutput(o) + Own(arg), Output(o) + |arg|);
    } else {
      var t := Feed(s, '"');
      assert t.current[|arg| - 1] == '"';
      assert t.current[..|arg|] == t.current;
    }
  }

  /** Too little has come out, or the k-th token is not `arg`. */
  ghost predicate Bad(s: State, own: nat, all: nat, k: nat, arg: string) {
    Short(s, own, all) || Astray(s, k, arg)
  }

  /** The first argument that is not kept, from between two tokens. */
  lemma FirstUnkept(s: State, arg: string)
    requires !s.inQuote && !s.escaped && s.current == "" && !Kept(arg) && arg != ""
    ensures Bad(Run(s, Render(arg)), OwnOutput(s) + Own(arg), Output(s) + |arg|, |s.tokens|, arg)
  {
    hide Short, Astray, Lost, Run, Replace, Output, OwnOutput, Own, Bad, Swallows, Kept, NeedsQuotes;
    if NeedsQuotes(arg) {
      var o, text := Feed(s, '"'), Replace(arg, '"', "\\\"");
      RunQuoted(s, text);
      OpenedOutput(s);
      UnkeptQuoted(arg);
      QuotedLoses(o, arg);
      LostIsNotKept(Run(o, text), o, arg);
    } else {
      UnkeptSwallows(arg);
      BareLoses(s, arg);
      ShortIsBad(Run(s, arg), OwnOutput(s) + Own(arg), Output(s) + |arg|, |s.tokens|, arg);
    }
  }

  lemma ShortIsBad(s: State, own: nat, all: nat, k: nat, arg: string)
    requires Short(s, own, all)
    ensures Bad(s, own, all, k, arg)
  {
  }

  lemma OpenedOutput(s: State)
    requires !s.inQuote && !s.escaped
    ensures var o := Feed(s, '"');
      o == s.(inQuote := true, quoteChar := '"') && Output(o) == Output(s) && OwnOutput(o) == OwnOutput(s)
  {
  }

  /** One argument more. */
  lemma BadStays(s: State, own: nat, all: nat, k: nat, first: string, arg: string)
    requires Bad(s, own, all, k, first)
    ensures Bad(Run(Feed(s, ' '), Render(arg)), own + Own(arg), all + 1 + |arg|, k, first)
  {
    hide Run, Render, Feed, Astray;
    if Short(s, own, all) {
      SpaceKeepsShort(s, own, all);
      RenderedKeepsShort(Feed(s, ' '), own, all + 1, arg);
    } else {
      AstrayStays(s, k, first, ' ');
      AstrayRuns(Feed(s, ' '), k, first, Render(arg));
    }
  }

  /** The characters of the arguments with a separator between any two. */
  function Length(args: seq<string>): nat
    requires args != []
  {
    Total(args) + |args| - 1
  }

  lemma BadAtEnd(s: State, args: seq<string>, k: nat)
    requires k < |args| && Bad(s, OwnAll(args), Length(args), k, args[k])
    ensures Cut(s).tokens != args
  {
    CutOutput(s);
    if !Short(s, OwnAll(args), Length(args)) {
      AstrayStays(s, k, args[k], ' ');
    }
  }

  lemma RunJoined(front: string, text: string)
    ensures Run(START, front + " " + text) == Run(Feed(Run(START, front), ' '), text)
  {
    RunConcat(START, front + " ", text);
    RunConcat(START, front, " ");
    RunOne(Run(START, front), ' ');
  }

  lemma OneMoreArg(args: seq<string>)
    requires args != []
    ensures var front, last := args[..|args| - 1], args[|args| - 1];
      && OwnAll(args) == OwnAll(front) + Own(last)
      && if front == [] then Join(RenderAll(args)) == Render(last) && Length(args) == |last|
         else
           && Join(RenderAll(args)) == Join(RenderAll(front)) + " " + Render(last)
           && Length(args) == Length(front) + 1 + |last|
  {
    hide Render;
    var front, last := args[..|args| - 1], args[|args| - 1];
    if front == [] {
      assert RenderAll(args) == RenderAll(front) + [Render(last)] == [Render(last)];
      assert Total(args) == Total(front) + |last| == |last|;
    } else {
      assert RenderAll(args)[..|front|] == RenderAll(front);
    }
  }

  lemma AllRender(args: seq<string>)
    requires forall i :: 0 <= i < |args| ==> Kept(args[i])
    ensures args != [] ==> Outside(Cut(Run(START, Join(RenderAll(args)))), args, "")
  {
    if args != [] {
      forall i | 0 <= i < |args| ensures Renders(RenderAll(args)[i], args[i]) {
        KeptRenders(args[i]);
        RenderAt(args, i);
      }
      JoinedTokens(RenderAll(args), args);
      assert "" !in args;
      NonEmptyKeepsAll(args);
    }
  }

  /** Between two tokens after kept arguments. */
  lemma AfterKept(s: State, args: seq<string>)
    requires Outside(Cut(s), args, "")
    ensures Outside(Feed(s, ' '), args, "")
    ensures Output(Feed(s, ' ')) == Total(args) + |args| && OwnOutput(Feed(s, ' ')) == OwnAll(args)
  {
    CutOutput(s);
  }

  /** From the first argument that is not kept on, nothing comes right again. */
  lemma {:induction false} UnkeptIsLost(args: seq<string>, k: nat)
    requires k < |args| && !Kept(args[k]) && "" !in args && forall i :: 0 <= i < k ==> Kept(args[i])
    ensures Bad(Run(START, Join(RenderAll(args))), OwnAll(args), Length(args), k, args[k])
  {
    hide Run, Join, RenderAll, Render, Bad, OwnAll, Length, Kept, Feed, Own, Output, OwnOutput, Total;
    var n := |args| - 1;
    var front, last := args[..n], args[n];
    var s := Run(START, Join(RenderAll(front)));
    OneMoreArg(args);
    assert args[k] in args && args[k] != "";
    if n > 0 {
      RunJoined(Join(RenderAll(front)), Render(last));
    }
    if k < n {
      assert front[k] == args[k] && forall i :: 0 <= i < k ==> front[i] == args[i];
      assert "" !in front;
      UnkeptIsLost(front, k);
      BadStays(s, OwnAll(front), Length(front), k, args[k], last);
    } else if n == 0 {
      FirstUnkept(START, last);
      OnlyArg(args);
    } else {
      AllRender(front);
      AfterKept(s, front);
      FirstUnkept(Feed(s, ' '), last);
      LengthIs(front);
    }
  }

  lemma OnlyArg(args: seq<string>)
    requires |args| == 1
    ensures OwnOutput(START) + Own(args[0]) == OwnAll(args) && Output(START) + |args[0]| == Length(args)
  {
    OneMoreArg(args);
  }

  lemma LengthIs(args: seq<string>)
    requires args != []
    ensures Length(args) + 1 == Total(args) + |args|
  {
  }

  /** Printed and joined arguments come back exactly if all of them are of the kept class. */
  lemma AllKeptExactly(args: seq<string>)
    requires args != []
    ensures Tokens(Join(RenderAll(args))) == args <==> forall i :: 0 <= i < |args| ==> Kept(args[i])
  {
    hide Run, Join, RenderAll, Kept, Bad;
    if forall i :: 0 <= i < |args| ==> Kept(args[i]) {
      AllRender(args);
    } else if "" in args {
      TokensAreNotEmpty(START, Join(RenderAll(args)));
      NoEmptyToken(Run(START, Join(RenderAll(args))));
      EmptyIsNotKept(args);
    } else {
      var k := FirstOf(args, 0);
      UnkeptIsLost(args, k);
      BadAtEnd(Run(START, Join(RenderAll(args))), args, k);
    }
  }

  lemma NoEmptyToken(s: State)
    requires forall t :: t in s.tokens ==> t != ""
    ensures "" !in Cut(s).tokens
  {
  }

  lemma EmptyIsNotKept(args: seq<string>)
    requires "" in args
    ensures exists i :: 0 <= i < |args| && !Kept(args[i])
  {
    var i :| 0 <= i < |args| && args[i] == "";
    assert !Kept(args[i]);
  }

  ghost function FirstOf(args: seq<string>, from: nat): (k: nat)
    requires from <= |args| && (forall i :: 0 <= i < from ==> Kept(args[i]))
    requires exists i :: from <= i < |args| && !Kept(args[i])
    ensures k < |args| && !Kept(args[k]) && forall i :: 0 <= i < k ==> Kept(args[i])
    decreases |args| - from
  {
    if !Kept(args[from]) then from else FirstOf(args, from + 1)
  }

  /** Exactly the kept arguments come back from their own rendering. */
  lemma KeptExactly(arg: string)
    ensures Tokens(Render(arg)) == [arg] <==> Kept(arg)
  {
    AllKeptExactly([arg]);
    OneMoreArg([arg]);
  }

  lemma {:induction false} TokensGrow(s: State, text: string)
    ensures s.tokens <= Run(s, text).tokens && s.tokens <= Cut(Run(s, text)).tokens
  {
    if text != "" {
      TokensGrow(s, text[..|text| - 1]);
    }
  }

  /** The name of a printed command is its first token, whatever its arguments. */
  lemma NameIsFirst(cmd: Command)
    requires PlainName(cmd.name)
    ensures Tokens(TextOf(cmd)) != [] && Tokens(TextOf(cmd))[0] == cmd.name
  {
    var s := Run(START, cmd.name);
    BareIsRead(START, cmd.name);
    assert START.current + cmd.name == cmd.name;
    if cmd.args == [] {
      assert TextOf(cmd) == cmd.name;
    } else {
      var rest := AfterName(cmd);
      RunJoined(cmd.name, rest);
      assert Feed(s, ' ').tokens == [cmd.name];
      TokensGrow(Feed(s, ' '), rest);
    }
  }

  lemma AfterName(cmd: Command) returns (rest: string)
    requires cmd.args != []
    ensures TextOf(cmd) == cmd.name + " " + rest
  {
    rest := Join(RenderAll(cmd.args));
    JoinFirst(cmd.name, RenderAll(cmd.args));
  }

  lemma {:induction false} JoinFirst(first: string, parts: seq<string>)
    requires parts != []
    ensures Join([first] + parts) == first + " " + Join(parts)
  {
    var n := |parts| - 1;
    var all := [first] + parts;
    assert all[..|all| - 1] == [first] + parts[..n];
    if n > 0 {
      JoinFirst(first, parts[..n]);
      assert first + " " + Join(parts[..n]) + " " + parts[n] == first + " " + (Join(parts[..n]) + " " + parts[n]);
    }
  }

  lemma {:induction false} RenderAllNamed(name: string, args: seq<string>)
    requires !NeedsQuotes(name)
    ensures RenderAll([name] + args) == [name] + RenderAll(args)
  {
    var all := [name] + args;
    if args == [] {
      assert all[..0] == [];
    } else {
      var n := |args| - 1;
      RenderAllNamed(name, args[..n]);
      assert all[..|all| - 1] == [name] + args[..n];
    }
  }

  /** A command is parsed back from its text exactly if all its arguments are of the kept class. */
  lemma TextRoundTrip(cmd: Command)
    requires PlainName(cmd.name)
    ensures ParseLine(TextOf(cmd)) == Parsed(cmd) <==> forall i :: 0 <= i < |cmd.args| ==> Kept(cmd.args[i])
    ensures Tokens(TextOf(cmd)) == [cmd.name] + cmd.args <==> forall i :: 0 <= i < |cmd.args| ==> Kept(cmd.args[i])
  {
    hide Tokens, RenderAll, Join;
    var all, tokens := [cmd.name] + cmd.args, Tokens(TextOf(cmd));
    AllKeptExactly(all);
    RenderAllNamed(cmd.name, cmd.args);
    assert (forall i :: 0 <= i < |all| ==> Kept(all[i])) <==> forall i :: 0 <= i < |cmd.args| ==> Kept(cmd.args[i]) by {
      assert forall i :: 0 <= i < |cmd.args| ==> all[i + 1] == cmd.args[i];
    }
    NameIsFirst(cmd);
    assert tokens == [tokens[0]] + tokens[1..];
  }
}
