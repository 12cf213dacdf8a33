/** A printer that is inverse to `parse_line`. */
module RoundTrip {
  import opened Base
  import opened Tokens
  import opened Parser

  /** Every character behind a backslash: quoting that no environment can undo. */
  function Escaped(word: string): string {
    if word == "" then "" else ['\\', word[0]] + Escaped(word[1..])
  }

  datatype Lexeme = Word(text: string) | Operator(text: string)

  function PrintLexemes(ls: seq<Lexeme>): string {
    if ls == [] then ""
    else (if ls[0].Word? then Escaped(ls[0].text) else ls[0].text) + " " + PrintLexemes(ls[1..])
  }

  function Texts(ls: seq<Lexeme>): seq<string> {
    if ls == [] then [] else [ls[0].text] + Texts(ls[1..])
  }

  function Words(ws: seq<string>): seq<Lexeme> {
    if ws == [] then [] else [Word(ws[0])] + Words(ws[1..])
  }

  function InLexemes(target: Option<string>): seq<Lexeme> {
    if target.Some? then [Operator("<"), Word(target.value)] else []
  }

  function OutLexemes(target: Option<(string, bool)>): seq<Lexeme> {
    if target.Some? then [Operator(if target.value.1 then ">>" else ">"), Word(target.value.0)]
    else []
  }

  function CommandLexemes(c: SimpleCommand): seq<Lexeme> {
    Words([c.program] + c.args)
    + InLexemes(c.stdin) + OutLexemes(c.stdout)
  }

  function PipelineLexemes(cs: seq<SimpleCommand>): seq<Lexeme> {
    if cs == [] then []
    else if |cs| == 1 then CommandLexemes(cs[0])
    else CommandLexemes(cs[0]) + [Operator("|")] + PipelineLexemes(cs[1..])
  }

  function OpText(op: ChainOp): string {
    match op case Always => ";" case And => "&&" case Or => "||"
  }

  /** Segments after the first are introduced by the operator that chains them. */
  function SegmentLexemes(segments: seq<Segment>): seq<Lexeme> {
    if segments == [] then []
    else if |segments| == 1 then PipelineLexemes(segments[0].commands)
    else PipelineLexemes(segments[0].commands)
         + [Operator(OpText(segments[1].op))] + SegmentLexemes(segments[1..])
  }

  function Print(line: ParsedLine): string {
    PrintLexemes(SegmentLexemes(line.segments))
  }

  // Tokenizing what was printed

  ghost predicate Printable(ls: seq<Lexeme>) {
    forall i | 0 <= i < |ls| :: if ls[i].Word? then ls[i].text != "" else OperatorToken(ls[i].text)
  }

  lemma ScanStep(s: Scanner, env: Env)
    requires s.rest != ""
    ensures Scan(s, env) == Before(Step(s, env).0, Scan(Step(s, env).1, env))
  {
  }

  lemma StepEscaped(c: char, rest: string, cur: string, env: Env)
    ensures Step(Scanner(['\\', c] + rest, cur, false, false), env)
         == ([], Scanner(rest, cur + [c], false, false))
  {
    var s := ['\\', c] + rest;
    assert s[1..] == [c] + rest;
    assert s[1..][1..] == rest && s[1..][..1] == [c];
  }

  lemma EscapedFront(word: string, rest: string)
    requires word != ""
    ensures Escaped(word) + rest == ['\\', word[0]] + (Escaped(word[1..]) + rest)
  {
  }

  lemma {:induction false} ScanEscaped(word: string, rest: string, cur: string, env: Env)
    ensures Scan(Scanner(Escaped(word) + rest, cur, false, false), env)
         == Scan(Scanner(rest, cur + word, false, false), env)
    decreases |word|
  {
    hide Scan, Step;
    if word == "" {
      assert Escaped(word) + rest == rest && cur + word == cur;
    } else {
      EscapedFront(word, rest);
      hide Escaped;
      var tail := Escaped(word[1..]) + rest;
      StepEscaped(word[0], tail, cur, env);
      ScanStep(Scanner(Escaped(word) + rest, cur, false, false), env);
      BeforeBefore([], [], Scan(Scanner(tail, cur + [word[0]], false, false), env));
      ScanEscaped(word[1..], rest, cur + [word[0]], env);
      assert (cur + [word[0]]) + word[1..] == cur + word;
    }
  }

  lemma ScanBlank(rest: string, cur: string, env: Env)
    ensures Scan(Scanner(" " + rest, cur, false, false), env)
         == Before(Flushed(cur), Scan(Scanner(rest, "", false, false), env))
  {
    assert (" " + rest)[1..] == rest;
  }

  lemma StepOperator(op: string, rest: string, env: Env)
    requires OperatorToken(op)
    ensures Step(Scanner(op + (" " + rest), "", false, false), env)
         == ([op], Scanner(" " + rest, "", false, false))
  {
    var s := op + (" " + rest);
    assert s[..|op|] == op && s[|op|] == ' ';
    assert |op| == 1 ==> s[..2][1] == ' ';
    assert OperatorAt(s) == op;
    assert s[|op|..] == " " + rest;
    assert Flushed("") + [op] == [op];
  }

  lemma ScanOperator(op: string, rest: string, env: Env)
    requires OperatorToken(op)
    ensures Scan(Scanner(op + (" " + rest), "", false, false), env)
         == Before([op], Scan(Scanner(rest, "", false, false), env))
  {
    hide Scan, Step;
    StepOperator(op, rest, env);
    ScanStep(Scanner(op + (" " + rest), "", false, false), env);
    ScanBlank(rest, "", env);
    BeforeBefore([], [], Scan(Scanner(rest, "", false, false), env));
  }

  lemma ScanWord(word: string, rest: string, env: Env)
    requires word != ""
    ensures Scan(Scanner(Escaped(word) + (" " + rest), "", false, false), env)
         == Before([word], Scan(Scanner(rest, "", false, false), env))
  {
    ScanEscaped(word, " " + rest, "", env);
    assert "" + word == word;
    ScanBlank(rest, word, env);
  }

  lemma PrintFirst(ls: seq<Lexeme>)
    requires ls != []
    ensures PrintLexemes(ls) ==
            (if ls[0].Word? then Escaped(ls[0].text) else ls[0].text) + (" " + PrintLexemes(ls[1..]))
  {
    hide Escaped;
    var head := if ls[0].Word? then Escaped(ls[0].text) else ls[0].text;
    assert (head + " ") + PrintLexemes(ls[1..]) == head + (" " + PrintLexemes(ls[1..]));
  }

  /** Printed lexemes come back as exactly their texts. */
  lemma {:induction false} TokensOfPrinted(ls: seq<Lexeme>, env: Env)
    requires Printable(ls)
    ensures Tokens.Tokens(PrintLexemes(ls), env) == Ok(Texts(ls))
    decreases |ls|
  {
    if ls != [] {
      PrintFirst(ls);
      hide Scan, Escaped, PrintLexemes;
      TokensOfPrinted(ls[1..], env);
      if ls[0].Word? {
        ScanWord(ls[0].text, PrintLexemes(ls[1..]), env);
      } else {
        ScanOperator(ls[0].text, PrintLexemes(ls[1..]), env);
      }
    }
  }

  lemma {:induction false} TextsConcat(a: seq<Lexeme>, b: seq<Lexeme>)
    ensures Texts(a + b) == Texts(a) + Texts(b)
    decreases |a|
  {
    if a == [] {
      assert a + b == b;
    } else {
      assert (a + b)[1..] == a[1..] + b;
      TextsConcat(a[1..], b);
    }
  }

  lemma TextsAround(a: seq<Lexeme>, l: Lexeme, b: seq<Lexeme>)
    ensures Texts(a + [l] + b) == Texts(a) + ([l.text] + Texts(b))
  {
    assert a + [l] + b == a + ([l] + b);
    assert ([l] + b)[1..] == b;
    TextsConcat(a, [l] + b);
  }

  lemma Regroup(a: seq<string>, b: seq<string>, c: seq<string>, d: seq<string>)
    ensures (a + (b + c)) + d == a + (b + (c + d))
  {
  }

  lemma {:induction false} TextsOfWords(ws: seq<string>)
    ensures Texts(Words(ws)) == ws
  {
    if ws != [] {
      TextsOfWords(ws[1..]);
      assert Words(ws)[1..] == Words(ws[1..]);
    }
  }

  lemma TextsOfTwo(a: Lexeme, b: Lexeme)
    ensures Texts([a, b]) == [a.text, b.text]
  {
    assert [a, b][1..] == [b] && [b][1..] == [];
    assert Texts([b]) == [b.text] + Texts([]);
  }

  // Parsing the tokens back

  lemma {:induction false} ParseWords(ws: seq<string>, rest: seq<string>, p: Partial)
    requires forall i | 0 <= i < |ws| :: PlainWord(ws[i])
    ensures ParseFrom(ws + rest, p) == ParseFrom(rest, p.(words := p.words + ws))
    decreases |ws|
  {
    if ws == [] {
      assert ws + rest == rest && p.words + ws == p.words;
    } else {
      var p' := p.(words := p.words + [ws[0]]);
      assert (ws + rest)[1..] == ws[1..] + rest;
      ParseWords(ws[1..], rest, p');
      assert p'.words + ws[1..] == p.words + ws;
    }
  }

  /** The partial state in which exactly the parts of `c` are pending. */
  function Pending(p: Partial, c: SimpleCommand): Partial {
    p.(words := [c.program] + c.args, stdin := c.stdin, stdout := c.stdout)
  }

  predicate Idle(p: Partial) {
    p.words == [] && p.stdin.None? && p.stdout.None?
  }

  lemma ParseIn(target: Option<string>, rest: seq<string>, p: Partial)
    requires p.stdin.None?
    ensures ParseFrom(Texts(InLexemes(target)) + rest, p) == ParseFrom(rest, p.(stdin := target))
  {
    if target.Some? {
      TextsOfTwo(Operator("<"), Word(target.value));
    } else {
      assert Texts(InLexemes(target)) + rest == rest;
    }
  }

  lemma ParseOut(target: Option<(string, bool)>, rest: seq<string>, p: Partial)
    requires p.stdout.None?
    ensures ParseFrom(Texts(OutLexemes(target)) + rest, p) == ParseFrom(rest, p.(stdout := target))
  {
    if target.Some? {
      var op := if target.value.1 then ">>" else ">";
      TextsOfTwo(Operator(op), Word(target.value.0));
    } else {
      assert Texts(OutLexemes(target)) + rest == rest;
    }
  }

  lemma CommandTexts(c: SimpleCommand, rest: seq<string>)
    ensures Texts(CommandLexemes(c)) + rest
         == ([c.program] + c.args) + (Texts(InLexemes(c.stdin)) + (Texts(OutLexemes(c.stdout)) + rest))
  {
    var ws := [c.program] + c.args;
    TextsConcat(Words(ws) + InLexemes(c.stdin), OutLexemes(c.stdout));
    TextsConcat(Words(ws), InLexemes(c.stdin));
    TextsOfWords(ws);
  }

  lemma ParseCommand(c: SimpleCommand, rest: seq<string>, p: Partial)
    requires GoodCommand(c) && Idle(p)
    ensures ParseFrom(Texts(CommandLexemes(c)) + rest, p) == ParseFrom(rest, Pending(p, c))
  {
    var ws, outs := [c.program] + c.args, Texts(OutLexemes(c.stdout)) + rest;
    CommandTexts(c, rest);
    ParseWords(ws, Texts(InLexemes(c.stdin)) + outs, p);
    assert p.words + ws == ws;
    ParseIn(c.stdin, outs, p.(words := ws));
    ParseOut(c.stdout, rest, p.(words := ws, stdin := c.stdin));
  }

  lemma ParsePipeToken(tail: seq<string>, p: Partial)
    requires p.words != []
    ensures ParseFrom(["|"] + tail, p) == ParseFrom(tail, Flush(p))
  {
    assert (["|"] + tail)[1..] == tail;
  }

  lemma ParseChainToken(op: ChainOp, tail: seq<string>, p: Partial)
    requires Flush(p).pipeline != []
    ensures ParseFrom([OpText(op)] + tail, p) == ParseFrom(tail, CloseSegment(Flush(p), op))
  {
    assert ([OpText(op)] + tail)[1..] == tail;
  }

  lemma ParseEnd(p: Partial)
    ensures ParseFrom([], p) == Ok(Finish(p))
  {
  }

  lemma FlushPending(p: Partial, c: SimpleCommand)
    requires Idle(p)
    ensures Flush(Pending(p, c)) == p.(pipeline := p.pipeline + [c])
  {
    assert ([c.program] + c.args)[1..] == c.args;
  }

  /** The state after all of `cs`, the last command still pending. */
  function PendingPipeline(p: Partial, cs: seq<SimpleCommand>): Partial
    requires cs != []
  {
    Pending(p.(pipeline := p.pipeline + cs[..|cs| - 1]), cs[|cs| - 1])
  }

  lemma {:induction false} ParsePipeline(cs: seq<SimpleCommand>, rest: seq<string>, p: Partial)
    requires cs != [] && GoodCommands(cs) && Idle(p)
    ensures ParseFrom(Texts(PipelineLexemes(cs)) + rest, p) == ParseFrom(rest, PendingPipeline(p, cs))
    decreases |cs|
  {
    hide ParseFrom, Texts, CommandLexemes, Flush;
    var c, cs' := cs[0], cs[1..];
    if cs' == [] {
      ParseCommand(c, rest, p);
      assert p.pipeline + cs[..0] == p.pipeline;
    } else {
      var tail := Texts(PipelineLexemes(cs')) + rest;
      TextsAround(CommandLexemes(c), Operator("|"), PipelineLexemes(cs'));
      Regroup(Texts(CommandLexemes(c)), ["|"], Texts(PipelineLexemes(cs')), rest);
      ParseCommand(c, ["|"] + tail, p);
      ParsePipeToken(tail, Pending(p, c));
      FlushPending(p, c);
      var p' := p.(pipeline := p.pipeline + [c]);
      ParsePipeline(cs', rest, p');
      assert p'.pipeline + cs'[..|cs'| - 1] == p.pipeline + cs[..|cs| - 1];
    }
  }

  lemma CloseRead(p: Partial, cs: seq<SimpleCommand>, next: ChainOp)
    requires cs != [] && Idle(p) && p.pipeline == []
    ensures Flush(PendingPipeline(p, cs)).pipeline == cs
    ensures CloseSegment(Flush(PendingPipeline(p, cs)), next)
         == p.(segments := p.segments + [Segment(p.op, cs)], op := next)
  {
    var init := cs[..|cs| - 1];
    var q := p.(pipeline := p.pipeline + init);
    FlushPending(q, cs[|cs| - 1]);
    assert (p.pipeline + init) + [cs[|cs| - 1]] == cs;
  }

  lemma SegmentTexts(segments: seq<Segment>)
    requires |segments| > 1
    ensures Texts(SegmentLexemes(segments))
         == Texts(PipelineLexemes(segments[0].commands))
            + ([OpText(segments[1].op)] + Texts(SegmentLexemes(segments[1..])))
  {
    TextsAround(PipelineLexemes(segments[0].commands), Operator(OpText(segments[1].op)),
                SegmentLexemes(segments[1..]));
  }

  /** A whole pipeline and the chain operator after it close one segment. */
  lemma ParseSegment(s: Segment, op: ChainOp, tail: seq<string>, p: Partial)
    requires GoodSegment(s) && s.op == p.op && Idle(p) && p.pipeline == []
    ensures ParseFrom(Texts(PipelineLexemes(s.commands)) + ([OpText(op)] + tail), p)
         == ParseFrom(tail, p.(segments := p.segments + [s], op := op))
  {
    hide ParseFrom, Texts, PipelineLexemes, Flush, OpText;
    ParsePipeline(s.commands, [OpText(op)] + tail, p);
    CloseRead(p, s.commands, op);
    ParseChainToken(op, tail, PendingPipeline(p, s.commands));
  }

  lemma {:induction false} ParseSegments(segments: seq<Segment>, p: Partial)
    requires segments != [] && segments[0].op == p.op
    requires forall i | 0 <= i < |segments| :: GoodSegment(segments[i])
    requires Idle(p) && p.pipeline == []
    ensures ParseFrom(Texts(SegmentLexemes(segments)), p) == Ok(ParsedLine(p.segments + segments))
    decreases |segments|
  {
    hide ParseFrom, Texts, PipelineLexemes, OpText, Flush;
    var s, rest := segments[0], segments[1..];
    if rest == [] {
      ParseEnd(PendingPipeline(p, s.commands));
      assert p.segments + [s] == p.segments + segments;
      assert Texts(PipelineLexemes(s.commands)) + [] == Texts(PipelineLexemes(s.commands));
      ParsePipeline(s.commands, [], p);
      CloseRead(p, s.commands, Always);
    } else {
      SegmentTexts(segments);
      ParseSegment(s, rest[0].op, Texts(SegmentLexemes(rest)), p);
      var p' := p.(segments := p.segments + [s], op := rest[0].op);
      ParseSegments(rest, p');
      assert (p.segments + [s]) + rest == p.segments + segments;
    }
  }

  // Printability

  lemma {:induction false} WordsPrintable(ws: seq<string>)
    requires forall i | 0 <= i < |ws| :: ws[i] != ""
    ensures Printable(Words(ws))
  {
    if ws != [] {
      WordsPrintable(ws[1..]);
    }
  }

  lemma CommandPrintable(c: SimpleCommand)
    requires GoodCommand(c)
    ensures Printable(CommandLexemes(c))
  {
    WordsPrintable([c.program] + c.args);
  }

  lemma {:induction false} PipelinePrintable(cs: seq<SimpleCommand>)
    requires GoodCommands(cs)
    ensures Printable(PipelineLexemes(cs))
  {
    if cs != [] {
      CommandPrintable(cs[0]);
      PipelinePrintable(cs[1..]);
    }
  }

  lemma {:induction false} SegmentsPrintable(segments: seq<Segment>)
    requires forall i | 0 <= i < |segments| :: GoodSegment(segments[i])
    ensures Printable(SegmentLexemes(segments))
  {
    if segments != [] {
      PipelinePrintable(segments[0].commands);
      SegmentsPrintable(segments[1..]);
    }
  }

  /** Parsing undoes printing: every line that parsing can return, printed and parsed again in
      any environment, is that line. */
  lemma ParseOfPrint(line: ParsedLine, env: Env)
    requires GoodLine(line)
    ensures Line(Print(line), env) == Ok(line)
  {
    SegmentsPrintable(line.segments);
    TokensOfPrinted(SegmentLexemes(line.segments), env);
    if line.segments != [] {
      ParseSegments(line.segments, START);
      assert START.segments + line.segments == line.segments;
    }
  }

  /** Printing what was parsed is a normal form: it parses to the same line in every
      environment, and printing again changes nothing. */
  lemma PrintIsNormalForm(input: string, env: Env, other: Env)
    requires Line(input, env).Ok?
    ensures Line(Print(Line(input, env).value), other) == Line(input, env)
    ensures Print(Line(Print(Line(input, env).value), other).value) == Print(Line(input, env).value)
  {
    ParsedLinesGood(input, env);
    ParseOfPrint(Line(input, env).value, other);
  }

  /** The printable lines are exactly those some input parses to. */
  lemma ParsedLinesExactly(line: ParsedLine)
    ensures GoodLine(line) <==> exists input, env :: Line(input, env) == Ok(line)
  {
    if GoodLine(line) {
      ParseOfPrint(line, map[]);
    }
    if input, env :| Line(input, env) == Ok(line) {
      ParsedLinesGood(input, env);
    }
  }

  // Where the syntax is looser than it looks

  /** Between single quotes every character but the quote is itself. */
  lemma StepSingle(c: char, rest: string, cur: string, env: Env)
    ensures Step(Scanner([c] + rest, cur, true, false), env)
         == ([], if c == '\'' then Scanner(rest, cur, false, false) else Scanner(rest, cur + [c], true, false))
  {
    assert ([c] + rest)[1..] == rest;
  }

  /** Text in single quotes joins the pending word, whatever it is. */
  lemma {:induction false} ScanQuoted(text: string, rest: string, cur: string, env: Env)
    requires '\'' !in text
    ensures Scan(Scanner(text + "'" + rest, cur, true, false), env)
         == Scan(Scanner(rest, cur + text, false, false), env)
    decreases |text|
  {
    hide Scan, Step;
    var s := Scanner(text + "'" + rest, cur, true, false);
    ScanStep(s, env);
    if text == "" {
      assert text + "'" + rest == "'" + rest && cur + text == cur;
      StepSingle('\'', rest, cur, env);
      BeforeBefore([], [], Scan(Scanner(rest, cur, false, false), env));
    } else {
      var tail := text[1..] + "'" + rest;
      assert text + "'" + rest == [text[0]] + tail;
      StepSingle(text[0], tail, cur, env);
      BeforeBefore([], [], Scan(Scanner(tail, cur + [text[0]], true, false), env));
      ScanQuoted(text[1..], rest, cur + [text[0]], env);
      assert (cur + [text[0]]) + text[1..] == cur + text;
    }
  }

  lemma OpenQuote(rest: string, cur: string, env: Env)
    ensures Scan(Scanner("'" + rest, cur, false, false), env) == Scan(Scanner(rest, cur, true, false), env)
  {
    assert ("'" + rest)[1..] == rest;
    BeforeBefore([], [], Scan(Scanner(rest, cur, true, false), env));
  }

  /** Tokens lose their quoting: between words, an operator in quotes is the operator. */
  lemma QuotedOperatorIsOperator(op: string, rest: string, env: Env)
    requires OperatorToken(op)
    ensures Tokens.Tokens("'" + op + "' " + rest, env) == Tokens.Tokens(op + " " + rest, env)
  {
    hide Scan;
    assert "'" + op + "' " + rest == "'" + (op + "'" + (" " + rest));
    OpenQuote(op + "'" + (" " + rest), "", env);
    ScanQuoted(op, " " + rest, "", env);
    assert "" + op == op;
    ScanBlank(rest, op, env);
    ScanOperator(op, rest, env);
    assert op + " " + rest == op + (" " + rest);
  }
}
