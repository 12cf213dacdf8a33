/** `parse_line`: from tokens to chained pipelines of simple commands. */
module Parser {
  import opened Base
  import opened Tokens

  datatype SimpleCommand = SimpleCommand(
    program: string,
    args: seq<string>,
    stdin: Option<string>,
    stdout: Option<(string, bool)>)  // target, append

  datatype ChainOp = Always | And | Or

  datatype Segment = Segment(op: ChainOp, commands: seq<SimpleCommand>)

  datatype ParsedLine = ParsedLine(segments: seq<Segment>)

  type ParseResult = Result<ParsedLine, ShellError>

  predicate ChainToken(t: string) { t == "&&" || t == "||" || t == ";" }

  predicate RedirectToken(t: string) { t == "<" || t == ">" || t == ">>" }

  predicate OperatorToken(t: string) { t == "|" || ChainToken(t) || RedirectToken(t) }

  function OpOf(t: string): ChainOp {
    if t == "&&" then And else if t == "||" then Or else Always
  }

  /** The variables of the loop: finished segments, the operator the next one is chained by,
      the open pipeline, and the parts of the open command. */
  datatype Partial = Partial(
    segments: seq<Segment>,
    op: ChainOp,
    pipeline: seq<SimpleCommand>,
    words: seq<string>,
    stdin: Option<string>,
    stdout: Option<(string, bool)>)

  const START: Partial := Partial([], Always, [], [], None, None)

  /** `flush_command`: with no words there is no command, and pending redirects stay pending. */
  function Flush(p: Partial): Partial {
    if p.words == [] then p
    else p.(pipeline := p.pipeline + [SimpleCommand(p.words[0], p.words[1..], p.stdin, p.stdout)],
            words := [], stdin := None, stdout := None)
  }

  function CloseSegment(p: Partial, next: ChainOp): Partial {
    p.(segments := p.segments + [Segment(p.op, p.pipeline)], pipeline := [], op := next)
  }

  function Redirect(p: Partial, op: string, target: string): Partial {
    if op == "<" then p.(stdin := Some(target)) else p.(stdout := Some((target, op == ">>")))
  }

  function Finish(p: Partial): ParsedLine {
    var q := Flush(p);
    ParsedLine(if q.pipeline == [] then q.segments else CloseSegment(q, Always).segments)
  }

  /** The variables of the loop once it has read `ts`. */
  function Advance(ts: seq<string>, p: Partial): Result<Partial, ShellError>
    decreases |ts|
  {
    if ts == [] then Ok(p)
    else
      var t, rest := ts[0], ts[1..];
      if t == "|" then
        if p.words == [] then Err(Parse("unexpected pipe")) else Advance(rest, Flush(p))
      else if ChainToken(t) then
        if Flush(p).pipeline == [] then Err(Parse("empty command chain segment"))
        else Advance(rest, CloseSegment(Flush(p), OpOf(t)))
      else if RedirectToken(t) then
        if rest == [] then Err(Parse("missing redirect target"))
        else Advance(rest[1..], Redirect(p, t, rest[0]))
      else Advance(rest, p.(words := p.words + [t]))
  }

  /** The line that `ts` completes, starting from what was parsed before. */
  function ParseFrom(ts: seq<string>, p: Partial): ParseResult {
    match Advance(ts, p)
    case Ok(q) => Ok(Finish(q))
    case Err(e) => Err(e)
  }

  function Line(input: string, env: Env): ParseResult {
    match Tokens.Tokens(input, env)
    case Err(e) => Err(e)
    case Ok(tokens) => ParseFrom(tokens, START)
  }

  method ParseLine(input: string, env: Env) returns (r: ParseResult)
    ensures r == Line(input, env)
  {
    hide Tokens.Tokens;
    var scanned := Tokenize(input, env);
    if scanned.Err? {
      return Err(scanned.error);
    }
    var tokens := scanned.value;
    if tokens == [] {
      return Ok(ParsedLine([]));
    }
    var segments: seq<Segment> := [];
    var op := Always;
    var pipeline: seq<SimpleCommand> := [];
    var words: seq<string> := [];
    var stdin: Option<string> := None;
    var stdout: Option<(string, bool)> := None;
    var i := 0;
    assert tokens[0..] == tokens;
    while i < |tokens|
      invariant 0 <= i <= |tokens|
      invariant ParseFrom(tokens, START)
             == ParseFrom(tokens[i..], Partial(segments, op, pipeline, words, stdin, stdout))
    {
      assert tokens[i..][1..] == tokens[i + 1..];
      var t := tokens[i];
      if t == "|" {
        if words == [] {
          return Err(Parse("unexpected pipe"));
        }
        pipeline := pipeline + [SimpleCommand(words[0], words[1..], stdin, stdout)];
        words, stdin, stdout := [], None, None;
      } else if t == "&&" || t == "||" || t == ";" {
        if words != [] {
          pipeline := pipeline + [SimpleCommand(words[0], words[1..], stdin, stdout)];
          words, stdin, stdout := [], None, None;
        }
        if pipeline == [] {
          return Err(Parse("empty command chain segment"));
        }
        segments := segments + [Segment(op, pipeline)];
        pipeline := [];
        op := OpOf(t);
      } else if t == ">" || t == ">>" || t == "<" {
        i := i + 1;
        if i >= |tokens| {
          return Err(Parse("missing redirect target"));
        }
        assert tokens[i..][1..] == tokens[i + 1..];
        if t == "<" {
          stdin := Some(tokens[i]);
        } else {
          stdout := Some((tokens[i], t == ">>"));
        }
      } else {
        words := words + [t];
      }
      i := i + 1;
    }
    if words != [] {
      pipeline := pipeline + [SimpleCommand(words[0], words[1..], stdin, stdout)];
    }
    if pipeline != [] {
      segments := segments + [Segment(op, pipeline)];
    }
    r := Ok(ParsedLine(segments));
  }

  // The lines that parsing can return

  predicate PlainWord(w: string) { w != "" && !OperatorToken(w) }

  ghost predicate GoodCommand(c: SimpleCommand) {
    && PlainWord(c.program)
    && (forall i | 0 <= i < |c.args| :: PlainWord(c.args[i]))
    && (c.stdin.Some? ==> c.stdin.value != "")
    && (c.stdout.Some? ==> c.stdout.value.0 != "")
  }

  ghost predicate GoodCommands(cs: seq<SimpleCommand>) {
    forall i | 0 <= i < |cs| :: GoodCommand(cs[i])
  }

  ghost predicate GoodSegment(s: Segment) {
    s.commands != [] && GoodCommands(s.commands)
  }

  ghost predicate GoodSegments(segments: seq<Segment>) {
    && (segments != [] ==> segments[0].op == Always)
    && forall i | 0 <= i < |segments| :: GoodSegment(segments[i])
  }

  ghost predicate GoodLine(line: ParsedLine) {
    GoodSegments(line.segments)
  }

  ghost predicate GoodPartial(p: Partial) {
    && GoodSegments(p.segments)
    && (p.segments == [] ==> p.op == Always)
    && GoodCommands(p.pipeline)
    && (forall i | 0 <= i < |p.words| :: PlainWord(p.words[i]))
    && (p.stdin.Some? ==> p.stdin.value != "")
    && (p.stdout.Some? ==> p.stdout.value.0 != "")
  }

  lemma CloseKeepsGood(p: Partial, next: ChainOp)
    requires GoodPartial(p) && p.pipeline != []
    ensures GoodPartial(CloseSegment(p, next))
  {
  }

  lemma {:induction false} ParseFromGood(ts: seq<string>, p: Partial)
    requires GoodPartial(p) && NonEmptyTokens(ts)
    ensures ParseFrom(ts, p).Ok? ==> GoodLine(ParseFrom(ts, p).value)
    decreases |ts|
  {
    if ts == [] {
      if Flush(p).pipeline != [] {
        CloseKeepsGood(Flush(p), Always);
      }
    } else {
      var t, rest := ts[0], ts[1..];
      if t == "|" {
        ParseFromGood(rest, Flush(p));
      } else if ChainToken(t) {
        if Flush(p).pipeline != [] {
          CloseKeepsGood(Flush(p), OpOf(t));
          ParseFromGood(rest, CloseSegment(Flush(p), OpOf(t)));
        }
      } else if RedirectToken(t) {
        if rest != [] {
          ParseFromGood(rest[1..], Redirect(p, t, rest[0]));
        }
      } else {
        ParseFromGood(rest, p.(words := p.words + [t]));
      }
    }
  }

  /** Every successful parse yields a line whose first segment runs unconditionally, whose
      pipelines are non-empty, and whose words are non-empty and no operators. */
  lemma ParsedLinesGood(input: string, env: Env)
    requires Line(input, env).Ok?
    ensures GoodLine(Line(input, env).value)
  {
    TokensNonEmpty(Scanner(input, "", false, false), env);
    ParseFromGood(Tokens.Tokens(input, env).value, START);
  }
}
