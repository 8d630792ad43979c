/** A command line as a grammar: what each part of it stands for, whatever automaton reads it. */
module LineGrammar {
  import opened Tokenizer

  /** A character, or a backslash and a character. */
  datatype Sign = Char(ch: char) | Escape(ch: char) {
    function Text(): string {
      if Char? then [ch] else ['\\', ch]
    }

    function Value(): char {
      if Char? then ch
      else if ch == 'n' then '\n'
      else if ch == 'r' then '\r'
      else if ch == 't' then '\t'
      else ch
    }
  }

  datatype Part = Blank(ch: char) | Bare(sign: Sign) | Quoted(mark: char, signs: seq<Sign>) {
    function Text(): string {
      match this
      case Blank(ch) => [ch]
      case Bare(sign) => sign.Text()
      case Quoted(mark, signs) => [mark] + SignsText(signs) + [mark]
    }

    /** Blanks are blanks, a bare character means nothing special, and quoted text ends at its own
        mark and no other. */
    ghost predicate Valid() {
      match this
      case Blank(ch) => ch == ' ' || ch == '\t'
      case Bare(sign) => sign.Char? ==> sign.ch !in ['\\', '"', '\'', ' ', '\t']
      case Quoted(mark, signs) => (mark == '"' || mark == '\'') && Enclosed(mark, signs)
    }

    function Value(): string {
      match this
      case Blank(_) => ""
      case Bare(sign) => [sign.Value()]
      case Quoted(_, signs) => SignsValue(signs)
    }
  }

  /** How a line may end: after a whole part, after a backslash, or within quotes. */
  datatype Tail = Whole | Slash | Open(mark: char, signs: seq<Sign>, slash: bool) {
    function Text(): string {
      match this
      case Whole => ""
      case Slash => "\\"
      case Open(mark, signs, slash) => [mark] + SignsText(signs) + if slash then "\\" else ""
    }

    ghost predicate Valid() {
      Open? ==> (mark == '"' || mark == '\'') && Enclosed(mark, signs)
    }

    function Value(): string {
      if Open? then SignsValue(signs) else ""
    }
  }

  ghost predicate Enclosed(mark: char, signs: seq<Sign>) {
    forall i :: 0 <= i < |signs| && signs[i].Char? ==> signs[i].ch != '\\' && signs[i].ch != mark
  }

  function SignsText(signs: seq<Sign>): string {
    if signs == [] then "" else SignsText(signs[..|signs| - 1]) + signs[|signs| - 1].Text()
  }

  function SignsValue(signs: seq<Sign>): string {
    seq(|signs|, i requires 0 <= i < |signs| => signs[i].Value())
  }

  function PartsText(parts: seq<Part>): string {
    if parts == [] then "" else PartsText(parts[..|parts| - 1]) + parts[|parts| - 1].Text()
  }

  ghost predicate AllValid(parts: seq<Part>) {
    forall i :: 0 <= i < |parts| ==> parts[i].Valid()
  }

  ghost predicate Spells(parts: seq<Part>, tail: Tail, line: string) {
    AllValid(parts) && tail.Valid() && PartsText(parts) + tail.Text() == line
  }

  /** The words that blanks end, those that are not empty. */
  function Ended(parts: seq<Part>): seq<string> {
    if parts == [] then [] else
      var front, last := parts[..|parts| - 1], parts[|parts| - 1];
      Ended(front) + if last.Blank? && Begun(front) != "" then [Begun(front)] else []
  }

  /** The word since the last blank. */
  function Begun(parts: seq<Part>): string {
    if parts == [] then "" else
      var front, last := parts[..|parts| - 1], parts[|parts| - 1];
      if last.Blank? then "" else Begun(front) + last.Value()
  }

  /** The words of a line with this end: what is open counts as if it were closed. */
  function Words(parts: seq<Part>, tail: Tail): seq<string> {
    var last := Begun(parts) + tail.Value();
    Ended(parts) + if last == "" then [] else [last]
  }

  // ---------- the automaton reads it so ----------

  lemma SignIsRead(s: State, sign: Sign)
    requires !s.escaped && (sign.Char? ==> sign.ch != '\\')
    requires sign.Char? ==> if s.inQuote then sign.ch != s.quoteChar else !IsQuote(sign.ch) && !IsBlank(sign.ch)
    ensures Run(s, sign.Text()) == s.(current := s.current + [sign.Value()])
  {
    if sign.Char? {
      RunOne(s, sign.ch);
    } else {
      RunConcat(s, "\\", [sign.ch]);
      RunOne(s, '\\');
      RunOne(Feed(s, '\\'), sign.ch);
      assert sign.Text() == "\\" + [sign.ch];
    }
  }

  lemma {:induction false} SignsAreRead(s: State, signs: seq<Sign>)
    requires !s.escaped && s.inQuote && Enclosed(s.quoteChar, signs)
    ensures Run(s, SignsText(signs)) == s.(current := s.current + SignsValue(signs))
  {
    if signs != [] {
      var front, last := signs[..|signs| - 1], signs[|signs| - 1];
      SignsAreRead(s, front);
      RunConcat(s, SignsText(front), last.Text());
      SignIsRead(s.(current := s.current + SignsValue(front)), last);
      assert SignsValue(signs) == SignsValue(front) + [last.Value()];
    }
  }

  lemma QuotedIsRead(s: State, mark: char, signs: seq<Sign>)
    requires !s.escaped && !s.inQuote && Quoted(mark, signs).Valid()
    ensures Run(s, [mark] + SignsText(signs)) ==
      s.(inQuote := true, quoteChar := mark, current := s.current + SignsValue(signs))
    ensures Run(s, Quoted(mark, signs).Text()) == s.(quoteChar := mark, current := s.current + SignsValue(signs))
  {
    var open := s.(inQuote := true, quoteChar := mark);
    RunConcat(s, [mark], SignsText(signs));
    RunOne(s, mark);
    SignsAreRead(open, signs);
    RunConcat(s, [mark] + SignsText(signs), [mark]);
    RunOne(open.(current := s.current + SignsValue(signs)), mark);
  }

  lemma PartIsRead(s: State, part: Part)
    requires !s.escaped && !s.inQuote && part.Valid()
    ensures var t := Run(s, part.Text());
      && !t.escaped && !t.inQuote
      && t.current == (if part.Blank? then "" else s.current + part.Value())
      && t.tokens == s.tokens + if part.Blank? && s.current != "" then [s.current] else []
  {
    match part
    case Blank(ch) => RunOne(s, ch);
    case Bare(sign) => SignIsRead(s, sign);
    case Quoted(mark, signs) => QuotedIsRead(s, mark, signs);
  }

  lemma {:induction false} PartsAreRead(parts: seq<Part>)
    requires AllValid(parts)
    ensures Outside(Run(START, PartsText(parts)), Ended(parts), Begun(parts))
  {
    if parts != [] {
      var front, last := parts[..|parts| - 1], parts[|parts| - 1];
      PartsAreRead(front);
      RunConcat(START, PartsText(front), last.Text());
      PartIsRead(Run(START, PartsText(front)), last);
    }
  }

  lemma TailIsRead(s: State, tail: Tail)
    requires !s.escaped && !s.inQuote && tail.Valid()
    ensures Run(s, tail.Text()).tokens == s.tokens && Run(s, tail.Text()).current == s.current + tail.Value()
  {
    match tail
    case Whole =>
    case Slash => RunOne(s, '\\');
    case Open(mark, signs, slash) =>
      QuotedIsRead(s, mark, signs);
      if slash {
        RunConcat(s, [mark] + SignsText(signs), "\\");
        RunOne(Run(s, [mark] + SignsText(signs)), '\\');
      } else {
        assert tail.Text() == [mark] + SignsText(signs);
      }
  }

  /** The tokens of a line are the words of its parts. */
  lemma LineIsRead(parts: seq<Part>, tail: Tail)
    requires AllValid(parts) && tail.Valid()
    ensures Tokens(PartsText(parts) + tail.Text()) == Words(parts, tail)
  {
    PartsAreRead(parts);
    RunConcat(START, PartsText(parts), tail.Text());
    TailIsRead(Run(START, PartsText(parts)), tail);
  }

  // ---------- every line has such parts ----------

  lemma OnePartMore(parts: seq<Part>, part: Part)
    requires AllValid(parts) && part.Valid()
    ensures AllValid(parts + [part]) && PartsText(parts + [part]) == PartsText(parts) + part.Text()
  {
    assert (parts + [part])[..|parts|] == parts;
  }

  lemma OneSignMore(mark: char, signs: seq<Sign>, sign: Sign)
    requires Enclosed(mark, signs) && (sign.Char? ==> sign.ch != '\\' && sign.ch != mark)
    ensures Enclosed(mark, signs + [sign]) && SignsText(signs + [sign]) == SignsText(signs) + sign.Text()
  {
    assert (signs + [sign])[..|signs|] == signs;
  }

  lemma ExtendOpen(parts: seq<Part>, tail: Tail, ch: char) returns (parts': seq<Part>, tail': Tail)
    requires AllValid(parts) && tail.Valid() && tail.Open?
    ensures Spells(parts', tail', PartsText(parts) + (tail.Text() + [ch]))
  {
    hide SignsText, PartsText, Enclosed;
    var mark, signs := tail.mark, tail.signs;
    parts' := parts;
    if tail.slash {
      OneSignMore(mark, signs, Escape(ch));
      tail' := Open(mark, signs + [Escape(ch)], false);
      assert tail'.Text() == tail.Text() + [ch];
    } else if ch == mark {
      OnePartMore(parts, Quoted(mark, signs));
      parts', tail' := parts + [Quoted(mark, signs)], Whole;
      assert Quoted(mark, signs).Text() == tail.Text() + [ch];
    } else if ch == '\\' {
      tail' := Open(mark, signs, true);
      assert tail'.Text() == tail.Text() + [ch];
    } else {
      OneSignMore(mark, signs, Char(ch));
      tail' := Open(mark, signs + [Char(ch)], false);
      assert tail'.Text() == tail.Text() + [ch];
    }
  }

  lemma ExtendPart(parts: seq<Part>, tail: Tail, part: Part, ch: char)
    requires AllValid(parts) && part.Valid() && part.Text() == tail.Text() + [ch]
    ensures Spells(parts + [part], Whole, PartsText(parts) + (tail.Text() + [ch]))
  {
    OnePartMore(parts, part);
  }

  lemma Extend(parts: seq<Part>, tail: Tail, ch: char) returns (parts': seq<Part>, tail': Tail)
    requires AllValid(parts) && tail.Valid()
    ensures Spells(parts', tail', PartsText(parts) + (tail.Text() + [ch]))
  {
    hide PartsText, AllValid;
    if tail.Open? {
      parts', tail' := ExtendOpen(parts, tail, ch);
    } else if tail.Slash? {
      ExtendPart(parts, tail, Bare(Escape(ch)), ch);
      parts', tail' := parts + [Bare(Escape(ch))], Whole;
    } else if ch == '\\' {
      parts', tail' := parts, Slash;
    } else if IsQuote(ch) {
      parts', tail' := parts, Open(ch, [], false);
    } else {
      var part := if IsBlank(ch) then Blank(ch) else Bare(Char(ch));
      ExtendPart(parts, tail, part, ch);
      parts', tail' := parts + [part], Whole;
    }
  }

  lemma {:induction false} LineHasParts(line: string) returns (parts: seq<Part>, tail: Tail)
    ensures Spells(parts, tail, line)
  {
    parts, tail := [], Whole;
    if line != "" {
      var front, ch := line[..|line| - 1], line[|line| - 1];
      parts, tail := LineHasParts(front);
      assert PartsText(parts) + (tail.Text() + [ch]) == front + [ch];
      parts, tail := Extend(parts, tail, ch);
    }
  }

  /** A line can be taken apart in some way, and however it is, its tokens are the words of its parts. */
  lemma TokensAreWords(line: string)
    ensures exists parts, tail :: Spells(parts, tail, line)
    ensures forall parts, tail :: Spells(parts, tail, line) ==> Tokens(line) == Words(parts, tail)
  {
    var some, end := LineHasParts(line);
    assert Spells(some, end, line);
    forall parts, tail | Spells(parts, tail, line)
      ensures Tokens(line) == Words(parts, tail)
    {
      LineIsRead(parts, tail);
    }
  }

  // ---------- one quoted argument ----------

  lemma {:induction false} LiteralText(text: string) returns (signs: seq<Sign>)
    ensures SignsText(signs) == text && SignsValue(signs) == text
    ensures |signs| == |text| && forall i :: 0 <= i < |text| ==> signs[i] == Char(text[i])
  {
    signs := [];
    if text != "" {
      var front := LiteralText(text[..|text| - 1]);
      signs := front + [Char(text[|text| - 1])];
      assert signs[..|signs| - 1] == front;
    }
  }

  /** Text between two equal quote characters, the other one in it or not, is read as it stands. */
  lemma QuotedIsLiteral(s: State, q: char, text: string)
    requires !s.escaped && !s.inQuote && IsQuote(q) && q !in text && '\\' !in text
    ensures Outside(Run(s, [q] + text + [q]), s.tokens, s.current + text)
  {
    var signs := LiteralText(text);
    QuotedIsRead(s, q, signs);
  }

  /** As an argument of a line it is one token. */
  lemma QuotedArgument(before: string, q: char, text: string, after: string)
    requires IsQuote(q) && q !in text && '\\' !in text && text != ""
    requires !Run(START, before).escaped && !Run(START, before).inQuote
    ensures Tokens(before + " " + ([q] + text + [q]) + " " + after) == Tokens(before) + [text] + Tokens(after)
  {
    hide Run;
    var argument, s := [q] + text + [q], Run(START, before);
    var line := before + " " + argument + " ";
    RunConcat(START, before, " ");
    RunOne(s, ' ');
    var s1 := Run(START, before + " ");
    RunConcat(START, before + " ", argument);
    QuotedIsLiteral(s1, q, text);
    var s2 := Run(START, before + " " + argument);
    RunConcat(START, before + " " + argument, " ");
    RunOne(s2, ' ');
    assert s1.current == "" && s2.current == text && s2.tokens == Cut(s).tokens;
    RunConcat(START, line, after);
    assert Run(START, line) == Cut(s2) && Outside(Cut(s2), Tokens(before) + [text], "");
    RunOn(Run(START, line), after);
  }

  /** Between two tokens a line goes on as if it began there. */
  lemma {:induction false} RunOn(s: State, line: string)
    requires !s.escaped && !s.inQuote && s.current == ""
    ensures var t, u := Run(s, line), Run(START, line);
      && t.tokens == s.tokens + u.tokens && t.current == u.current
      && t.escaped == u.escaped && t.inQuote == u.inQuote && (u.inQuote ==> t.quoteChar == u.quoteChar)
  {
    if line != "" {
      RunOn(s, line[..|line| - 1]);
    }
  }
}
