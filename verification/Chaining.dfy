/** When `;`, `&&` and `||` separate, and when quotes protect. */
module Chaining {
  import opened Base
  import opened Tokens
  import opened Parser
  import opened RoundTrip

  // Parsing in two steps

  lemma {:induction false} AdvanceConcat(a: seq<string>, b: seq<string>, p: Partial)
    requires Advance(a, p).Ok?
    ensures Advance(a + b, p) == Advance(b, Advance(a, p).value)
    decreases |a|
  {
    if a == [] {
      assert a + b == b;
    } else {
      var t, rest := a[0], a[1..];
      assert (a + b)[1..] == rest + b;
      if t == "|" {
        AdvanceConcat(rest, b, Flush(p));
      } else if ChainToken(t) {
        AdvanceConcat(rest, b, CloseSegment(Flush(p), OpOf(t)));
      } else if RedirectToken(t) {
        assert (rest + b)[1..] == rest[1..] + b;
        AdvanceConcat(rest[1..], b, Redirect(p, t, rest[0]));
      } else {
        AdvanceConcat(rest, b, p.(words := p.words + [t]));
      }
    }
  }

  /** Segments behind others, the first chained by `op`. */
  function Relink(segments: seq<Segment>, op: ChainOp): seq<Segment> {
    if segments == [] then [] else [segments[0].(op := op)] + segments[1..]
  }

  /** The same variables, with finished segments in front and `op` between. */
  function Behind(front: seq<Segment>, op: ChainOp, p: Partial): Partial {
    p.(segments := front + Relink(p.segments, op), op := if p.segments == [] then op else p.op)
  }

  lemma CloseBehind(front: seq<Segment>, op: ChainOp, p: Partial, next: ChainOp)
    ensures CloseSegment(Behind(front, op, p), next) == Behind(front, op, CloseSegment(p, next))
  {
    var mine := [Segment(Behind(front, op, p).op, p.pipeline)];
    assert Relink(p.segments + [Segment(p.op, p.pipeline)], op) == Relink(p.segments, op) + mine by {
      if p.segments != [] {
        assert (p.segments + [Segment(p.op, p.pipeline)])[1..] == p.segments[1..] + [Segment(p.op, p.pipeline)];
      }
    }
    assert front + Relink(p.segments, op) + mine == front + (Relink(p.segments, op) + mine);
  }

  /** Finished segments do not influence what follows them. */
  lemma {:induction false} AdvanceBehind(front: seq<Segment>, op: ChainOp, ts: seq<string>, p: Partial)
    ensures Advance(ts, Behind(front, op, p)) ==
            match Advance(ts, p)
            case Ok(q) => Ok(Behind(front, op, q))
            case Err(e) => Err(e)
    decreases |ts|
  {
    hide Relink;
    if ts != [] {
      var t, rest := ts[0], ts[1..];
      if t == "|" {
        AdvanceBehind(front, op, rest, Flush(p));
      } else if ChainToken(t) {
        CloseBehind(front, op, Flush(p), OpOf(t));
        AdvanceBehind(front, op, rest, CloseSegment(Flush(p), OpOf(t)));
      } else if RedirectToken(t) {
        if rest != [] {
          AdvanceBehind(front, op, rest[1..], Redirect(p, t, rest[0]));
        }
      } else {
        AdvanceBehind(front, op, rest, p.(words := p.words + [t]));
      }
    }
  }

  // When a chain operator splits a line

  /** A line, an operator, and then another line; the second's error if it has one. */
  function InTurn(first: ParsedLine, op: ChainOp, second: ParseResult): ParseResult {
    match second
    case Ok(line) => Ok(ParsedLine(first.segments + Relink(line.segments, op)))
    case Err(e) => Err(e)
  }

  /** Whatever follows the operator is parsed as if it stood alone. */
  ghost predicate Splits(a: seq<string>, op: ChainOp)
    requires ParseFrom(a, START).Ok?
  {
    forall b ::
      ParseFrom(a + [OpText(op)] + b, START) == InTurn(ParseFrom(a, START).value, op, ParseFrom(b, START))
  }

  /** Reading `a` leaves a command to close and no redirect that waits for one. */
  predicate Settled(a: seq<string>)
    requires Advance(a, START).Ok?
  {
    var p := Flush(Advance(a, START).value);
    p.pipeline != [] && p.stdin.None? && p.stdout.None?
  }

  lemma OperatorStep(a: seq<string>, op: ChainOp, b: seq<string>)
    requires Advance(a, START).Ok?
    ensures var p := Flush(Advance(a, START).value);
            ParseFrom(a + [OpText(op)] + b, START) ==
              if p.pipeline == [] then Err(Parse("empty command chain segment"))
              else ParseFrom(b, CloseSegment(p, op))
  {
    assert a + [OpText(op)] + b == a + ([OpText(op)] + b);
    AdvanceConcat(a, [OpText(op)] + b, START);
    assert ([OpText(op)] + b)[1..] == b;
    assert OpOf(OpText(op)) == op;
  }

  lemma SettledSplits(a: seq<string>, op: ChainOp, b: seq<string>)
    requires Advance(a, START).Ok? && Settled(a)
    ensures ParseFrom(a + [OpText(op)] + b, START) == InTurn(ParseFrom(a, START).value, op, ParseFrom(b, START))
  {
    hide Advance;
    OperatorStep(a, op, b);
    var p := Flush(Advance(a, START).value);
    var front := p.segments + [Segment(p.op, p.pipeline)];
    assert front + [] == front;
    assert CloseSegment(p, op) == Behind(front, op, START);
    AdvanceBehind(front, op, b, START);
    if Advance(b, START).Ok? {
      CloseBehind(front, op, Flush(Advance(b, START).value), Always);
    }
  }

  lemma UnsettledFails(a: seq<string>, op: ChainOp)
    requires Advance(a, START).Ok? && !Settled(a)
    ensures ParseFrom(a + [OpText(op)] + [], START) != InTurn(ParseFrom(a, START).value, op, ParseFrom([], START))
         || ParseFrom(a + [OpText(op)] + ["x"], START) != InTurn(ParseFrom(a, START).value, op, ParseFrom(["x"], START))
    ensures !Splits(a, op)
  {
    var p := Flush(Advance(a, START).value);
    if p.pipeline == [] {
      OperatorStep(a, op, []);
      assert ParseFrom([], START) == Ok(ParsedLine([]));
    } else {
      OperatorStep(a, op, ["x"]);
      LoneWord("x", START);
      LoneWord("x", CloseSegment(p, op));
      var whole := ParseFrom(a + [OpText(op)] + ["x"], START).value.segments;
      var apart := InTurn(ParseFrom(a, START).value, op, ParseFrom(["x"], START)).value.segments;
      assert whole[|whole| - 1].commands[0] != apart[|apart| - 1].commands[0];
    }
  }

  lemma LoneWord(w: string, p: Partial)
    requires PlainWord(w) && p.pipeline == [] && p.words == []
    ensures ParseFrom([w], p)
         == Ok(ParsedLine(p.segments + [Segment(p.op, [SimpleCommand(w, [], p.stdin, p.stdout)])]))
  {
    assert [w][1..] == [];
    assert p.words + [w] == [w];
    var read, c := p.(words := [w]), SimpleCommand(w, [], p.stdin, p.stdout);
    assert Advance([w], p) == Advance([], read);
    assert p.pipeline + [c] == [c];
    assert Flush(read) == p.(pipeline := [c], stdin := None, stdout := None);
  }

  /** A chain operator after `a` separates, whatever comes next, if and only if `a` ends in a
      command and leaves no redirect pending: none follows its last pipe or chain operator
      without a word beside it. */
  lemma SplitsIffSettled(a: seq<string>, op: ChainOp)
    requires ParseFrom(a, START).Ok?
    ensures Splits(a, op) <==> Settled(a)
  {
    if Settled(a) {
      forall b
        ensures ParseFrom(a + [OpText(op)] + b, START) == InTurn(ParseFrom(a, START).value, op, ParseFrom(b, START))
      {
        SettledSplits(a, op, b);
      }
    } else {
      UnsettledFails(a, op);
    }
  }

  /** A word at its end settles a line. */
  lemma WordSettles(a: seq<string>, w: string)
    requires Advance(a, START).Ok? && PlainWord(w)
    ensures Advance(a + [w], START).Ok? && Settled(a + [w])
  {
    AdvanceConcat(a, [w], START);
    assert [w][1..] == [];
  }

  // A line where it does not

  /** After a trailing pipe a redirect outlives the `;` and goes to the command beyond it. */
  lemma RedirectOutlivesChain(a: string, target: string, b: string, env: Env)
    requires PlainWord(a) && target != "" && PlainWord(b)
    ensures Line(PrintLexemes([Word(a), Operator("|"), Operator(">"), Word(target), Operator(";"), Word(b)]), env)
         == Ok(ParsedLine([Segment(Always, [SimpleCommand(a, [], None, None)]),
                           Segment(Always, [SimpleCommand(b, [], None, Some((target, false)))])]))
    ensures ParseFrom([a, "|", ">", target], START).Ok? && !Splits([a, "|", ">", target], Always)
  {
    var line := [Word(a), Operator("|"), Operator(">"), Word(target), Operator(";"), Word(b)];
    TokensOfPrinted(line, env);
    SixTexts(line);
    var ts := [a, "|", ">", target];
    AfterTrailingPipe(a, target);
    OperatorStep(ts, Always, [b]);
    assert ts + [";"] + [b] == [a, "|", ">", target, ";", b];
    var first, held := SimpleCommand(a, [], None, None), Some((target, false));
    var closed := Partial([Segment(Always, [first])], Always, [], [], None, held);
    assert [] + [Segment(Always, [first])] == [Segment(Always, [first])];
    assert CloseSegment(Flush(Advance(ts, START).value), Always) == closed;
    LoneWord(b, closed);
    var last := Segment(Always, [SimpleCommand(b, [], None, held)]);
    assert closed.segments + [last] == [Segment(Always, [first]), last];
    assert Texts(line) == ts + [";"] + [b];
    UnsettledFails(ts, Always);
  }

  lemma SixTexts(ls: seq<Lexeme>)
    requires |ls| == 6
    ensures Texts(ls) == [ls[0].text, ls[1].text, ls[2].text, ls[3].text, ls[4].text, ls[5].text]
  {
    assert ls == [ls[0]] + ([ls[1]] + ([ls[2]] + ([ls[3]] + ([ls[4]] + [ls[5]]))));
    forall l: Lexeme
      ensures Texts([l]) == [l.text]
    {
    }
    TextsConcat([ls[4]], [ls[5]]);
    TextsConcat([ls[3]], [ls[4]] + [ls[5]]);
    TextsConcat([ls[2]], [ls[3]] + ([ls[4]] + [ls[5]]));
    TextsConcat([ls[1]], [ls[2]] + ([ls[3]] + ([ls[4]] + [ls[5]])));
    TextsConcat([ls[0]], [ls[1]] + ([ls[2]] + ([ls[3]] + ([ls[4]] + [ls[5]]))));
  }

  lemma AfterTrailingPipe(a: string, target: string)
    requires PlainWord(a)
    ensures Advance([a, "|", ">", target], START)
         == Ok(Partial([], Always, [SimpleCommand(a, [], None, None)], [], None, Some((target, false))))
  {
    var ts := [a, "|", ">", target];
    assert ts[1..] == ["|", ">", target];
    assert ["|", ">", target][1..] == [">", target];
    assert [">", target][1..][1..] == [];
    assert [] + [a] == [a] && [a][1..] == [];
    assert [] + [SimpleCommand(a, [], None, None)] == [SimpleCommand(a, [], None, None)];
    var read := START.(words := [a]);
    assert Advance(ts, START) == Advance(["|", ">", target], read);
    var piped := Flush(read);
    assert Advance(["|", ">", target], read) == Advance([">", target], piped);
    assert Advance([">", target], piped) == Advance([], Redirect(piped, ">", target));
  }

  // The same for input lines

  /** Reading the text ends in a backslash that waits for a character. */
  predicate EndsEscaping(s: Scanner, env: Env)
    decreases |s.rest|
  {
    if s.rest == "" then false
    else if s.rest == "\\" then !s.single
    else EndsEscaping(Step(s, env).1, env)
  }

  lemma {:induction false} NameEndsAtBlank(x: string, z: string)
    ensures NameLength(x + (" " + z)) == NameLength(x)
    decreases |x|
  {
    if x != "" {
      assert (x + (" " + z))[1..] == x[1..] + (" " + z);
      NameEndsAtBlank(x[1..], z);
    }
  }

  lemma OperatorEndsAtBlank(x: string, z: string)
    requires x != ""
    ensures OperatorAt(x + (" " + z)) == OperatorAt(x)
  {
    var whole := x + (" " + z);
    assert whole[..1] == x[..1];
    if |x| >= 2 {
      assert whole[..2] == x[..2];
    } else {
      assert whole[..2][1] == ' ';
    }
  }

  lemma NameBeforeBlank(x: string, z: string, env: Env)
    ensures var n := NameLength(x);
            && NameLength(x + (" " + z)) == n && (x + (" " + z))[..n] == x[..n]
            && (x + (" " + z))[n..] == x[n..] + (" " + z)
  {
    NameEndsAtBlank(x, z);
  }

  /** A turn of the loop sees no further than the blank put behind its text. */
  ghost predicate BlindBeyond(s: Scanner, z: string, env: Env)
    requires s.rest != ""
  {
    var (emitted, next) := Step(s, env);
    Step(s.(rest := s.rest + (" " + z)), env) == (emitted, next.(rest := next.rest + (" " + z)))
  }

  lemma EscapeBeforeBlank(s: Scanner, z: string, env: Env)
    requires |s.rest| >= 2 && s.rest[0] == '\\' && !s.single
    ensures BlindBeyond(s, z, env)
  {
    hide NameLength, OperatorAt, Lookup, OperatorChar;
    var tail, blank := s.rest[1..], " " + z;
    assert (s.rest + blank)[1..] == tail + blank;
    assert (tail + blank)[..1] == tail[..1] && (tail + blank)[1..] == tail[1..] + blank;
  }

  lemma VariableBeforeBlank(s: Scanner, z: string, env: Env)
    requires s.rest != "" && s.rest[0] == '$' && !s.single
    ensures BlindBeyond(s, z, env)
  {
    hide NameLength, OperatorAt, Lookup, OperatorChar;
    var tail, blank := s.rest[1..], " " + z;
    assert (s.rest + blank)[1..] == tail + blank;
    NameBeforeBlank(tail, z, env);
  }

  lemma OperatorBeforeBlank(s: Scanner, z: string, env: Env)
    requires s.rest != "" && OperatorChar(s.rest[0]) && !s.Quoted()
    ensures BlindBeyond(s, z, env)
  {
    hide NameLength, OperatorAt, Lookup;
    OperatorEndsAtBlank(s.rest, z);
    var n, blank := |OperatorAt(s.rest)|, " " + z;
    assert (s.rest + blank)[0] == s.rest[0];
    assert (s.rest + blank)[n..] == s.rest[n..] + blank;
  }

  lemma StepBeforeBlank(s: Scanner, z: string, env: Env)
    requires s.rest != "" && !(s.rest == "\\" && !s.single)
    ensures BlindBeyond(s, z, env)
  {
    var c := s.rest[0];
    if c == '\\' && !s.single {
      EscapeBeforeBlank(s, z, env);
    } else if c == '$' && !s.single {
      VariableBeforeBlank(s, z, env);
    } else if OperatorChar(c) && !s.Quoted() {
      OperatorBeforeBlank(s, z, env);
    } else {
      hide NameLength, OperatorAt, Lookup, OperatorChar;
      assert (s.rest + (" " + z))[1..] == s.rest[1..] + (" " + z);
    }
  }

  lemma {:induction false} ScanBeforeBlank(s: Scanner, z: string, env: Env)
    requires Scan(s, env).Ok? && !EndsEscaping(s, env)
    ensures Scan(s.(rest := s.rest + (" " + z)), env)
         == Before(Scan(s, env).value, Scan(Scanner(z, "", false, false), env))
    decreases |s.rest|
  {
    if s.rest == "" {
      assert s.rest + (" " + z) == " " + z;
      ScanBlank(z, s.cur, env);
    } else {
      var (emitted, next) := Step(s, env);
      ScanStep(s, env);
      ScanStep(s.(rest := s.rest + (" " + z)), env);
      hide Step, Scan;
      StepBeforeBlank(s, z, env);
      ScanBeforeBlank(next, z, env);
      BeforeBefore(emitted, Scan(next, env).value, Scan(Scanner(z, "", false, false), env));
    }
  }

  /** Two lines joined by an operator with a blank on either side. */
  function Joined(x: string, op: ChainOp, y: string): string {
    x + (" " + (OpText(op) + (" " + y)))
  }

  /** A line that parses and does not end in a waiting backslash keeps its tokens in front of an
      operator, and what follows keeps its own. */
  lemma TokensOfJoined(x: string, op: ChainOp, y: string, env: Env)
    requires Tokens.Tokens(x, env).Ok? && !EndsEscaping(Scanner(x, "", false, false), env)
    ensures Tokens.Tokens(Joined(x, op, y), env)
         == Before(Tokens.Tokens(x, env).value + [OpText(op)], Tokens.Tokens(y, env))
  {
    hide Scan, EndsEscaping;
    ScanBeforeBlank(Scanner(x, "", false, false), OpText(op) + (" " + y), env);
    ScanOperator(OpText(op), y, env);
    BeforeBefore(Tokens.Tokens(x, env).value, [OpText(op)], Tokens.Tokens(y, env));
  }

  // A backslash at the end swallows the blank

  lemma {:induction false} EscapedEnd(s: Scanner, env: Env) returns (front: seq<string>, word: string)
    requires Scan(s, env).Ok? && EndsEscaping(s, env)
    ensures Scan(s, env).value == front + Flushed(word)
    ensures forall z :: Scan(s.(rest := s.rest + (" " + z)), env)
                     == Before(front, Scan(Scanner(z, word + " ", false, false), env))
    decreases |s.rest|
  {
    ScanStep(s, env);
    if s.rest == "\\" {
      front, word := [], s.cur;
      assert s.rest[1..] == "" && [] + Flushed(s.cur) == Flushed(s.cur);
      BackslashEnds(s, env);
      forall z
        ensures Scan(s.(rest := s.rest + (" " + z)), env)
             == Before(front, Scan(Scanner(z, word + " ", false, false), env))
      {
        assert s.rest + (" " + z) == ['\\', ' '] + z;
        StepEscaped(' ', z, s.cur, env);
        ScanStep(s.(rest := s.rest + (" " + z)), env);
      }
    } else {
      var (emitted, next) := Step(s, env);
      var tail;
      hide Step, Scan;
      tail, word := EscapedEnd(next, env);
      front := emitted + tail;
      assert emitted + (tail + Flushed(word)) == front + Flushed(word);
      forall z
        ensures Scan(s.(rest := s.rest + (" " + z)), env)
             == Before(front, Scan(Scanner(z, word + " ", false, false), env))
      {
        StepBeforeBlank(s, z, env);
        ScanStep(s.(rest := s.rest + (" " + z)), env);
        BeforeBefore(emitted, tail, Scan(Scanner(z, word + " ", false, false), env));
      }
    }
  }

  lemma BackslashEnds(s: Scanner, env: Env)
    requires s.rest == "\\" && !s.single && Scan(s, env).Ok?
    ensures !s.double && Scan(s, env).value == Flushed(s.cur)
  {
    assert Step(s, env) == ([], s.(rest := ""));
    assert [] + Flushed(s.cur) == Flushed(s.cur);
  }

  lemma OperatorAfterWord(op: ChainOp, y: string, cur: string, env: Env)
    requires cur != ""
    ensures Scan(Scanner(OpText(op) + (" " + y), cur, false, false), env)
         == Before([cur, OpText(op)], Scan(Scanner(y, "", false, false), env))
  {
    var text, rest := OpText(op), OpText(op) + (" " + y);
    StepOperator(text, y, env);
    assert rest != "" && OperatorChar(rest[0]) && OperatorAt(rest) == text && rest[|text|..] == " " + y;
    assert Step(Scanner(rest, cur, false, false), env)
        == (Flushed(cur) + [text], Scanner(" " + y, "", false, false));
    assert Flushed(cur) + [text] == [cur, text];
    ScanStep(Scanner(rest, cur, false, false), env);
    hide Scan, Step;
    ScanBlank(y, "", env);
    BeforeBefore([], [], Scan(Scanner(y, "", false, false), env));
  }

  /** With a redirect pending, the command after the operator shows it. */
  lemma PendingShows(a: seq<string>, op: ChainOp, first: ParsedLine)
    requires Advance(a, START).Ok?
    requires !Settled(a) && Flush(Advance(a, START).value).pipeline != []
    ensures ParseFrom(a + [OpText(op)] + ["x"], START) != InTurn(first, op, ParseFrom(["x"], START))
  {
    var p := Flush(Advance(a, START).value);
    OperatorStep(a, op, ["x"]);
    LoneWord("x", START);
    LoneWord("x", CloseSegment(p, op));
    var whole := ParseFrom(a + [OpText(op)] + ["x"], START).value.segments;
    var apart := InTurn(first, op, ParseFrom(["x"], START)).value.segments;
    assert whole[|whole| - 1].commands[0] != apart[|apart| - 1].commands[0];
  }

  /** If the last token is a redirect's target, it is so whatever it says. */
  lemma {:induction false} DanglingTarget(front: seq<string>, w: string, v: string, p: Partial)
      returns (q: Partial, t: string)
    requires Advance(front, p).Err? && Advance(front + [w], p).Ok?
    ensures RedirectToken(t)
    ensures Advance(front + [w], p) == Ok(Redirect(q, t, w)) && Advance(front + [v], p) == Ok(Redirect(q, t, v))
    decreases |front|
  {
    var head, rest := front[0], front[1..];
    assert (front + [w])[1..] == rest + [w] && (front + [v])[1..] == rest + [v];
    if head == "|" {
      q, t := DanglingTarget(rest, w, v, Flush(p));
    } else if ChainToken(head) {
      q, t := DanglingTarget(rest, w, v, CloseSegment(Flush(p), OpOf(head)));
    } else if RedirectToken(head) {
      if rest == [] {
        q, t := p, head;
        assert (rest + [w])[1..] == [] && (rest + [v])[1..] == [];
      } else {
        assert (rest + [w])[1..] == rest[1..] + [w] && (rest + [v])[1..] == rest[1..] + [v];
        q, t := DanglingTarget(rest[1..], w, v, Redirect(p, head, rest[0]));
      }
    } else {
      q, t := DanglingTarget(rest, w, v, p.(words := p.words + [head]));
    }
  }

  lemma FlushedCommand(p: Partial)
    requires p.words != []
    ensures var segments := Finish(p).segments;
            && segments == p.segments + [Segment(p.op, Flush(p).pipeline)]
            && Flush(p).pipeline == p.pipeline + [SimpleCommand(p.words[0], p.words[1..], p.stdin, p.stdout)]
  {
  }

  lemma LongerPlainDiffers(p: Partial, w: string, v: string)
    requires w != v
    ensures Finish(p.(words := p.words + [v])) != Finish(p.(words := p.words + [w]))
  {
    var q, q' := p.(words := p.words + [w]), p.(words := p.words + [v]);
    FlushedCommand(q);
    FlushedCommand(q');
    assert q.words[|p.words|] != q'.words[|p.words|];
    var c, c' := SimpleCommand(q.words[0], q.words[1..], p.stdin, p.stdout),
                 SimpleCommand(q'.words[0], q'.words[1..], p.stdin, p.stdout);
    assert [c.program] + c.args == q.words && [c'.program] + c'.args == q'.words;
    assert Finish(q).segments[|p.segments|].commands[|p.pipeline|] == c;
    assert Finish(q').segments[|p.segments|].commands[|p.pipeline|] == c';
  }

  /** A word more makes another line than leaving the command as it is. */
  lemma OneMoreDiffers(p: Partial, v: string, line: ParsedLine)
    requires line.segments == p.segments || line.segments == p.segments + [Segment(p.op, Flush(p).pipeline)]
    ensures Finish(p.(words := p.words + [v])) != line
  {
    var q := p.(words := p.words + [v]);
    FlushedCommand(q);
    var c := SimpleCommand(q.words[0], q.words[1..], p.stdin, p.stdout);
    assert |c.args| == |p.words|;
    assert Finish(q).segments[|p.segments|].commands == p.pipeline + [c];
    if line.segments != p.segments {
      assert line.segments[|p.segments|].commands == Flush(p).pipeline;
      assert p.words != [] ==> Flush(p).pipeline[|p.pipeline|].args == p.words[1..];
      assert (p.pipeline + [c])[|p.pipeline|] == c;
    }
  }

  /** A longer last word makes another line. */
  lemma LongerWordDiffers(p: Partial, w: string)
    requires w == "" || Advance([w], p).Ok?
    ensures Finish(p.(words := p.words + [w + " "]))
         != Finish(if w == "" then p else Advance([w], p).value)
  {
    var v := w + " ";
    assert |v| != |w|;
    if w == "" {
      OneMoreDiffers(p, v, Finish(p));
    } else {
      assert [w][1..] == [];
      if PlainWord(w) {
        assert Advance([w], p) == Advance([], p.(words := p.words + [w]));
        LongerPlainDiffers(p, w, v);
      } else if w == "|" {
        assert Advance([w], p) == Advance([], Flush(p));
        OneMoreDiffers(p, v, Finish(Flush(p)));
      } else {
        var q := CloseSegment(Flush(p), OpOf(w));
        assert Advance([w], p) == Advance([], q);
        OneMoreDiffers(p, v, Finish(q));
      }
    }
  }

  lemma LongerTargetDiffers(q: Partial, t: string, w: string)
    requires RedirectToken(t) && q.words != []
    ensures Finish(Redirect(q, t, w + " ")) != Finish(Redirect(q, t, w))
  {
    var p, p' := Redirect(q, t, w), Redirect(q, t, w + " ");
    FlushedCommand(p);
    FlushedCommand(p');
    assert |w + " "| != |w|;
    assert Finish(p).segments[|q.segments|].commands[|q.pipeline|]
        != Finish(p').segments[|q.segments|].commands[|q.pipeline|];
  }

  /** A last word that takes in the blank leaves another line, or a pending redirect. */
  lemma EatenBlankShows(front: seq<string>, w: string)
    requires ParseFrom(front + Flushed(w), START).Ok?
    ensures Advance(front + [w + " "], START).Ok?
    ensures Settled(front + [w + " "]) ==>
              ParseFrom(front + [w + " "], START) != ParseFrom(front + Flushed(w), START)
  {
    var v := w + " ";
    assert v != "" && v[|w|] == ' ' && PlainWord(v);
    if Advance(front, START).Ok? {
      var p := Advance(front, START).value;
      AdvanceConcat(front, [v], START);
      AdvanceConcat(front, Flushed(w), START);
      assert [v][1..] == [] && Advance([v], p) == Advance([], p.(words := p.words + [v]));
      LongerWordDiffers(p, w);
    } else {
      assert front + [] == front;
      assert Flushed(w) == [w];
      hide Advance;
      var q, t := DanglingTarget(front, w, v, START);
      if q.words != [] {
        LongerTargetDiffers(q, t, w);
      }
    }
  }

  /** So it never parses as if it had not. */
  lemma EatenBlankFails(front: seq<string>, w: string, op: ChainOp)
    requires ParseFrom(front + Flushed(w), START).Ok?
    ensures var a, a' := front + Flushed(w), front + [w + " "];
            || ParseFrom(a' + [OpText(op)] + [], START) != InTurn(ParseFrom(a, START).value, op, ParseFrom([], START))
            || ParseFrom(a' + [OpText(op)] + ["x"], START)
               != InTurn(ParseFrom(a, START).value, op, ParseFrom(["x"], START))
  {
    var a, a' := front + Flushed(w), front + [w + " "];
    var first := ParseFrom(a, START).value;
    assert ParseFrom([], START) == Ok(ParsedLine([]));
    assert first.segments + [] == first.segments;
    EatenBlankShows(front, w);
    hide Advance;
    OperatorStep(a', op, []);
    if Settled(a') {
      EndsThere(a', op);
    } else if Flush(Advance(a', START).value).pipeline != [] {
      PendingShows(a', op, first);
    }
  }

  lemma EndsThere(a: seq<string>, op: ChainOp)
    requires Advance(a, START).Ok? && Settled(a)
    ensures ParseFrom(a + [OpText(op)] + [], START) == ParseFrom(a, START)
  {
    SettledSplits(a, op, []);
    assert ParseFrom([], START) == Ok(ParsedLine([]));
    assert ParseFrom(a, START).value.segments + [] == ParseFrom(a, START).value.segments;
  }

  // On input lines

  /** What follows the operator is parsed as if it stood alone, whatever it is. */
  ghost predicate LineSplits(x: string, op: ChainOp, env: Env)
    requires Line(x, env).Ok?
  {
    forall y :: Line(Joined(x, op, y), env) == InTurn(Line(x, env).value, op, Line(y, env))
  }

  lemma LoneTokens(env: Env)
    ensures Tokens.Tokens("x", env) == Ok(["x"]) && Tokens.Tokens("", env) == Ok([])
  {
    assert "x"[1..] == "" && "" + "x" == "x" && [] + ["x"] == ["x"];
    assert Step(Scanner("x", "", false, false), env) == ([], Scanner("", "x", false, false));
  }

  lemma SettledLineSplits(x: string, op: ChainOp, env: Env)
    requires Line(x, env).Ok? && !EndsEscaping(Scanner(x, "", false, false), env)
    ensures LineSplits(x, op, env) <==> Settled(Tokens.Tokens(x, env).value)
  {
    var a := Tokens.Tokens(x, env).value;
    hide EndsEscaping, Advance, Settled;
    forall y
      ensures Tokens.Tokens(y, env).Ok? ==>
        Line(Joined(x, op, y), env) == ParseFrom(a + [OpText(op)] + Tokens.Tokens(y, env).value, START)
      ensures Tokens.Tokens(y, env).Err? ==> Line(Joined(x, op, y), env) == Line(y, env)
    {
      TokensOfJoined(x, op, y, env);
    }
    if Settled(a) {
      forall y
        ensures Line(Joined(x, op, y), env) == InTurn(Line(x, env).value, op, Line(y, env))
      {
        if Tokens.Tokens(y, env).Ok? {
          SettledSplits(a, op, Tokens.Tokens(y, env).value);
        }
      }
    } else {
      UnsettledFails(a, op);
      LoneTokens(env);
      assert Line(Joined(x, op, ""), env) != InTurn(Line(x, env).value, op, Line("", env))
          || Line(Joined(x, op, "x"), env) != InTurn(Line(x, env).value, op, Line("x", env));
    }
  }

  lemma EscapingLineFails(x: string, op: ChainOp, env: Env)
    requires Line(x, env).Ok? && EndsEscaping(Scanner(x, "", false, false), env)
    ensures !LineSplits(x, op, env)
  {
    hide EndsEscaping, Scan, Advance;
    var front, w := EscapedEnd(Scanner(x, "", false, false), env);
    forall y
      ensures Tokens.Tokens(Joined(x, op, y), env) == Before(front + [w + " ", OpText(op)], Tokens.Tokens(y, env))
    {
      OperatorAfterWord(op, y, w + " ", env);
      BeforeBefore(front, [w + " ", OpText(op)], Tokens.Tokens(y, env));
    }
    EatenBlankFails(front, w, op);
    LoneTokens(env);
    assert front + [w + " ", OpText(op)] == front + [w + " "] + [OpText(op)];
    assert Line(Joined(x, op, ""), env) != InTurn(Line(x, env).value, op, Line("", env))
        || Line(Joined(x, op, "x"), env) != InTurn(Line(x, env).value, op, Line("x", env));
  }

  /** On input lines: `x ; y`, `x && y` and `x || y` are `x` and then `y`, whatever `y` is, if and
      only if `x` ends in a command, leaves no redirect pending, and does not end in a backslash
      that escapes the blank. */
  lemma LineSplitsIffSettled(x: string, op: ChainOp, env: Env)
    requires Line(x, env).Ok?
    ensures LineSplits(x, op, env)
       <==> Settled(Tokens.Tokens(x, env).value) && !EndsEscaping(Scanner(x, "", false, false), env)
  {
    hide EndsEscaping, Settled, LineSplits;
    if EndsEscaping(Scanner(x, "", false, false), env) {
      EscapingLineFails(x, op, env);
    } else {
      SettledLineSplits(x, op, env);
    }
  }

  // When quotes protect

  /** The line that reads as a first word, a quoted text, and a last word. */
  function QuotedLine(a: string, text: string, b: string): string {
    Escaped(a) + (" " + ("'" + (text + "'" + (" " + (Escaped(b) + (" " + ""))))))
  }

  lemma QuotedTokens(a: string, text: string, b: string, env: Env)
    requires a != "" && text != "" && '\'' !in text && b != ""
    ensures Tokens.Tokens(QuotedLine(a, text, b), env) == Ok([a, text, b])
  {
    hide Scan, Escaped;
    var last := Escaped(b) + (" " + "");
    ScanWord(a, "'" + (text + "'" + (" " + last)), env);
    OpenQuote(text + "'" + (" " + last), "", env);
    ScanQuoted(text, " " + last, "", env);
    assert "" + text == text;
    ScanBlank(last, text, env);
    ScanWord(b, "", env);
    ScanEnd(env);
    assert [b] + [] == [b] && [text] + [b] == [text, b] && [a] + [text, b] == [a, text, b];
  }

  lemma ScanEnd(env: Env)
    ensures Scan(Scanner("", "", false, false), env) == Ok([])
  {
  }

  lemma ThreeTokens(a: string, t: string, b: string)
    requires PlainWord(a) && PlainWord(b) && t != ""
    ensures ParseFrom([a, t, b], START) == Ok(ParsedLine([Segment(Always, [SimpleCommand(a, [t, b], None, None)])]))
       <==> !OperatorToken(t)
  {
    var ts := [a, t, b];
    assert ts[1..] == [t, b] && [t, b][1..] == [b] && [b][1..] == [];
    assert [] + [a] == [a];
    var read := START.(words := [a]);
    assert Advance(ts, START) == Advance([t, b], read);
    if !OperatorToken(t) {
      assert [a] + [t] == [a, t] && [a, t] + [b] == [a, t, b] && [a, t, b][1..] == [t, b];
      assert Advance([t, b], read) == Advance([b], START.(words := [a, t]));
      assert Advance([b], START.(words := [a, t])) == Advance([], START.(words := [a, t, b]));
      assert [] + [SimpleCommand(a, [t, b], None, None)] == [SimpleCommand(a, [t, b], None, None)];
      assert [] + [Segment(Always, [SimpleCommand(a, [t, b], None, None)])]
          == [Segment(Always, [SimpleCommand(a, [t, b], None, None)])];
    } else if t == "|" {
      var piped := Flush(read);
      assert Advance([b], piped) == Advance([], piped.(words := [] + [b]));
      assert |ParseFrom(ts, START).value.segments[0].commands| == 2;
    } else if ChainToken(t) {
      LoneWord(b, CloseSegment(Flush(read), OpOf(t)));
      assert |ParseFrom(ts, START).value.segments| == 2;
    } else {
      assert Advance([t, b], read) == Advance([], Redirect(read, t, b));
      assert ParseFrom(ts, START).value.segments[0].commands[0].args == [];
    }
  }

  /** The line `a '' b`: empty quotes vanish, and the argument with them. */
  lemma EmptyQuotesVanish(a: string, b: string, env: Env)
    requires PlainWord(a) && PlainWord(b)
    ensures Tokens.Tokens(QuotedLine(a, "", b), env) == Ok([a, b])
    ensures Line(QuotedLine(a, "", b), env) == Ok(ParsedLine([Segment(Always, [SimpleCommand(a, [b], None, None)])]))
  {
    hide Scan, Escaped, Advance;
    var last := Escaped(b) + (" " + "");
    ScanWord(a, "'" + ("" + "'" + (" " + last)), env);
    OpenQuote("" + "'" + (" " + last), "", env);
    ScanQuoted("", " " + last, "", env);
    assert "" + "" == "";
    ScanBlank(last, "", env);
    ScanWord(b, "", env);
    ScanEnd(env);
    assert [b] + [] == [b] && [] + [b] == [b] && [a] + [b] == [a, b];
    TwoWords(a, b);
  }

  lemma TwoWords(a: string, b: string)
    requires PlainWord(a) && PlainWord(b)
    ensures ParseFrom([a, b], START) == Ok(ParsedLine([Segment(Always, [SimpleCommand(a, [b], None, None)])]))
  {
    ParseWords([a, b], [], START);
    assert [a, b] + [] == [a, b] && [] + [a, b] == [a, b] && [a, b][1..] == [b];
    var read, c := START.(words := [a, b]), SimpleCommand(a, [b], None, None);
    assert START.words + [a, b] == [a, b];
    ParseEnd(read);
    assert [] + [c] == [c] && [] + [Segment(Always, [c])] == [Segment(Always, [c])];
    assert Flush(read) == START.(pipeline := [c]);
  }

  /** Quoted between two words, a text is an argument like any other if and only if it is
      neither empty nor one of the operators. */
  lemma QuotesProtectIff(a: string, text: string, b: string, env: Env)
    requires PlainWord(a) && PlainWord(b) && '\'' !in text
    ensures Line(QuotedLine(a, text, b), env)
         == Ok(ParsedLine([Segment(Always, [SimpleCommand(a, [text, b], None, None)])]))
       <==> PlainWord(text)
  {
    if text == "" {
      EmptyQuotesVanish(a, b, env);
    } else {
      QuotedTokens(a, text, b, env);
      ThreeTokens(a, text, b);
    }
  }
}
