/** What single lines do: unknown commands, assignments, redirects. */
module ShellEffects {
  import opened Base
  import opened Text
  import opened Paths
  import opened VfsTree
  import opened VfsEffects
  import opened Tokens
  import opened Parser
  import opened Shell
  import ShellLaws
  import Quoting

  // Commands that no one has registered

  predicate Unknown(reg: Registry, c: SimpleCommand) {
    c.program !in reg && c.stdin.None? && c.stdout.None?
  }

  function NotFoundResult(c: SimpleCommand): CommandResult {
    CommandResult("", c.program + ": command not found\n", 127)
  }

  /** The context with status 127 shown, and otherwise as it was. */
  function Status127(ctx: Ctx): Ctx {
    ctx.(lastExit := 127, env := ctx.env["?" := "127"])
  }

  lemma Decimal127()
    ensures Decimal(127) == "127" && Decimal(0) == "0"
  {
    assert Digits(1) == "1" && Digits(12) == "12" && Digits(127) == "127";
  }

  lemma UnknownRun(reg: Registry, ctx: Ctx, c: SimpleCommand)
    requires Unknown(reg, c)
    ensures RunSettled(reg, ctx, [c]) == (Status127(ctx), NotFoundResult(c))
  {
    Decimal127();
    assert [c][1..] == [];
    assert Stage(reg, ctx, c, "") == Running(ctx, NotFoundResult(c));
    assert Stages(reg, Running(ctx, Success("")), [c]) == Stages(reg, Running(ctx, NotFoundResult(c)), []);
    hide Decimal;
  }

  /** A line of one command that no one has registered answers with the message and status 127,
      shown in `$?`, and leaves everything else alone. */
  lemma UnknownCommand(reg: Registry, ctx: Ctx, input: string, c: SimpleCommand)
    requires Assignment(input).None? && Line(input, ctx.env) == Ok(ParsedLine([Segment(Always, [c])]))
    requires Unknown(reg, c)
    ensures Execute(reg, ctx, input) == (Status127(ctx), Ok(NotFoundResult(c)))
  {
    hide Assignment, Line, RunSettled;
    UnknownRun(reg, ctx, c);
    ShellLaws.OneSegment(reg, ctx, Segment(Always, [c]), Success(""));
  }

  /** After an unknown command `&&` skips the next pipeline, and `||` and `;` run it from there. */
  lemma UnknownThen(reg: Registry, ctx: Ctx, input: string, c: SimpleCommand, op: ChainOp, cs: seq<SimpleCommand>)
    requires Assignment(input).None?
    requires Line(input, ctx.env) == Ok(ParsedLine([Segment(Always, [c]), Segment(op, cs)])) && Unknown(reg, c)
    ensures op.And? ==> Execute(reg, ctx, input) == (Status127(ctx), Ok(NotFoundResult(c)))
    ensures !op.And? ==>
              var (ctx', r) := RunSettled(reg, Status127(ctx), cs);
              Execute(reg, ctx, input) == (ctx', Ok(r))
  {
    hide Assignment, Line, RunSettled;
    UnknownRun(reg, ctx, c);
    var two := [Segment(Always, [c]), Segment(op, cs)];
    assert two[1..] == [Segment(op, cs)];
    ShellLaws.OneSegment(reg, Status127(ctx), Segment(op, cs), NotFoundResult(c));
  }

  // Assignments

  ghost predicate AllWhite(s: string) {
    forall i | 0 <= i < |s| :: Whitespace(s[i])
  }

  ghost predicate NoWhite(s: string) {
    forall i | 0 <= i < |s| :: !Whitespace(s[i])
  }

  /** A name that can be assigned to. */
  predicate Identifier(name: string) {
    && name != "" && !('0' <= name[0] <= '9')
    && forall i | 0 <= i < |name| ::
         'a' <= name[i] <= 'z' || 'A' <= name[i] <= 'Z' || '0' <= name[i] <= '9' || name[i] == '_'
  }

  lemma TrimFirst(c: char, s: string)
    requires Whitespace(c)
    ensures Trim([c] + s) == Trim(s)
  {
    assert ([c] + s)[1..] == s;
  }

  lemma TrimLast(s: string, c: char)
    requires Whitespace(c) && s != "" && !Whitespace(s[0])
    ensures Trim(s + [c]) == Trim(s)
  {
    assert (s + [c])[..|s|] == s;
  }

  lemma {:induction false} TrimLeft(left: string, s: string)
    requires AllWhite(left)
    ensures Trim(left + s) == Trim(s)
    decreases |left|
  {
    hide Whitespace, Trim;
    if left == "" {
      assert left + s == s;
    } else {
      assert left + s == [left[0]] + (left[1..] + s);
      TrimFirst(left[0], left[1..] + s);
      TrimLeft(left[1..], s);
    }
  }

  lemma {:induction false} TrimRight(core: string, right: string)
    requires NoWhite(core) && core != "" && AllWhite(right)
    ensures Trim(core + right) == Trim(core)
    decreases |right|
  {
    hide Whitespace, Trim;
    if right == "" {
      assert core + right == core;
    } else {
      var init, c := right[..|right| - 1], right[|right| - 1];
      assert core + right == core + init + [c];
      TrimLast(core + init, c);
      TrimRight(core, init);
    }
  }

  lemma TrimNothing(core: string)
    requires NoWhite(core)
    ensures Trim(core) == core
  {
    hide Whitespace;
  }

  lemma TrimCore(left: string, core: string, right: string)
    requires AllWhite(left) && NoWhite(core) && AllWhite(right)
    ensures Trim(left + (core + right)) == core
  {
    hide Whitespace, Trim;
    TrimLeft(left, core + right);
    TrimNothing(core);
    if core == "" {
      assert core + right == right && right + "" == right;
      TrimLeft(right, "");
    } else {
      TrimRight(core, right);
    }
  }

  lemma {:induction false} TrimSplits(s: string) returns (left: string, right: string)
    ensures AllWhite(left) && AllWhite(right) && s == left + (Trim(s) + right)
    decreases |s|
  {
    left, right := "", "";
    if s != "" && Whitespace(s[0]) {
      left, right := TrimSplits(s[1..]);
      left := [s[0]] + left;
    } else if s != "" && Whitespace(s[|s| - 1]) {
      left, right := TrimSplits(s[..|s| - 1]);
      assert s == s[..|s| - 1] + [s[|s| - 1]];
      right := right + [s[|s| - 1]];
    } else {
      assert s == "" + (s + "");
    }
  }

  /** The line is the assignment, perhaps with white space around it. */
  ghost predicate Assigns(input: string, name: string, value: string) {
    exists left, right ::
      AllWhite(left) && AllWhite(right) && input == left + (name + "=" + value + right)
  }

  lemma {:induction false} EqualsAfterName(name: string, value: string)
    requires forall i | 0 <= i < |name| :: name[i] != '='
    ensures FindEquals(name + "=" + value) == |name|
  {
    if name == "" {
      assert name + "=" + value == "=" + value;
    } else {
      assert (name + "=" + value)[1..] == name[1..] + "=" + value;
      EqualsAfterName(name[1..], value);
    }
  }

  lemma IdentifierIsName(name: string)
    ensures Identifier(name) <==> VariableName(name)
  {
  }

  lemma WhiteParts(name: string, value: string)
    requires Identifier(name)
    ensures NoWhite(name + "=" + value) <==> NoWhite(value)
  {
    var s := name + "=" + value;
    forall i | 0 <= i < |s|
      ensures s[i] == if i < |name| then name[i] else if i == |name| then '=' else value[i - |name| - 1]
    {
    }
    forall i | 0 <= i < |value|
      ensures value[i] == s[|name| + 1 + i]
    {
    }
  }

  lemma AssignmentOf(s: string, name: string, value: string)
    requires s == name + "=" + value && Identifier(name) && NoWhite(value)
    ensures NoWhite(s) && FindEquals(s) == |name| && s[..|name|] == name && s[|name| + 1..] == value
  {
    EqualsAfterName(name, value);
    WhiteParts(name, value);
  }

  /** A line is an assignment if and only if, white space around it aside, it is a name that is an
      identifier, an equals sign, and a value without white space. */
  lemma AssignmentIff(input: string, name: string, value: string)
    ensures Assignment(input) == Some((name, value))
       <==> Identifier(name) && NoWhite(value) && Assigns(input, name, value)
  {
    hide Trim, Whitespace;
    IdentifierIsName(name);
    var s := Trim(input);
    if Assignment(input) == Some((name, value)) {
      var left, right := TrimSplits(input);
      assert s == name + "=" + value;
      assert NoWhite(s);
      WhiteParts(name, value);
      assert Assigns(input, name, value);
    }
    if Identifier(name) && NoWhite(value) && Assigns(input, name, value) {
      var left, right :| AllWhite(left) && AllWhite(right) && input == left + (name + "=" + value + right);
      AssignmentOf(name + "=" + value, name, value);
      TrimCore(left, name + "=" + value, right);
      assert s == name + "=" + value;
    }
  }

  /** An assignment binds exactly that name to exactly that value, and shows success. */
  lemma AssignmentEffect(reg: Registry, ctx: Ctx, input: string, name: string, value: string)
    requires Identifier(name) && NoWhite(value) && Assigns(input, name, value)
    ensures Execute(reg, ctx, input)
         == (ctx.(lastExit := 0, env := ctx.env[name := value]["?" := "0"]), Ok(CommandResult("", "", 0)))
  {
    AssignmentIff(input, name, value);
    Decimal127();
    hide Assignment;
  }

  /** And a command typed afterwards with `$NAME` is given that value, as one argument. */
  lemma AssignThenUse(reg: Registry, ctx: Ctx, input: string, name: string, value: string, a: string)
    requires Identifier(name) && PlainWord(value) && NoWhite(value) && Assigns(input, name, value)
    requires Quoting.Bareword(a)
    ensures var ctx' := Execute(reg, ctx, input).0;
            Line(a + (" " + ("$" + name)), ctx'.env)
            == Ok(ParsedLine([Segment(Always, [SimpleCommand(a, [value], None, None)])]))
  {
    AssignmentEffect(reg, ctx, input, name, value);
    var ctx' := Execute(reg, ctx, input).0;
    assert !Identifier("?") by {
      assert "?"[0] == '?';
    }
    hide Line, Execute;
    Quoting.VariableLine(a, name, ctx'.env);
  }

  // Redirects

  /** A command whose output goes to a file: if the file cannot be written the pipeline stops with
      the reason and status 1, though the command has run; else the file holds the output, after
      its old content or in its place, and the pipe gets nothing. */
  lemma OutputRedirect(reg: Registry, ctx: Ctx, c: SimpleCommand, piped: string, path: string, append: bool)
    requires c.program in reg && c.stdin.None? && c.stdout == Some((path, append)) && path != ""
    requires WellFormed(reg[c.program](ctx, c.args, piped).0.fs)
    ensures var (after, out) := reg[c.program](ctx, c.args, piped);
            var key := Normalize(after.cwd, path).value;
            match WriteProblem(after.fs, key)
            case Some(e) =>
              Stage(reg, ctx, c, piped) == Stopped(after, CommandResult("", ErrorText(e) + "\n", 1))
            case None =>
              var flow := Stage(reg, ctx, c, piped);
              && flow.Running? && flow.last == CommandResult("", out.stderr, out.exitCode)
              && flow.ctx == after.(fs := flow.ctx.fs)
              && flow.ctx.fs.Keys == after.fs.Keys + {key}
              && (forall other | other in after.fs && other != key :: flow.ctx.fs[other] == after.fs[other])
              && flow.ctx.fs[key] ==
                   var content := Some((if append then Held(after.fs, key) else "") + out.stdout);
                   if key in after.fs then after.fs[key].(content := content)
                   else Node(key, File, Meta(after.user, after.user, 0x1A4), content)
  {
    var (after, out) := reg[c.program](ctx, c.args, piped);
    hide WriteOp, WellFormed, Normalize, RedirectPath, WriteProblem;
    ShellLaws.RedirectIsRelative(after.fs, after.cwd, path, out.stdout, append, after.user);
    WriteExact(after.fs, after.cwd, path, out.stdout, append, after.user);
  }

  /** A command whose input comes from a file gets the file's content instead of the pipe's; if
      there is no such file it does not run, and the pipeline stops with the reason and
      status 1. */
  lemma InputRedirect(reg: Registry, ctx: Ctx, c: SimpleCommand, piped: string, path: string)
    requires c.stdin == Some(path) && path != ""
    ensures var key := Normalize(ctx.cwd, path).value;
            Stage(reg, ctx, c, piped) ==
              if key in ctx.fs && ctx.fs[key].kind == File then
                Stage(reg, ctx, c.(stdin := None), Held(ctx.fs, key))
              else
                var reason := if key in ctx.fs then "not a file: " else "path not found: ";
                Stopped(ctx, CommandResult("", reason + key + "\n", 1))
  {
    ReadExact(ctx.fs, ctx.cwd, path);
    hide ReadOp, Normalize;
  }

  /** Nothing runs after a stage that stopped, and its result is the pipeline's. */
  lemma StoppedStageEnds(reg: Registry, ctx: Ctx, before: seq<SimpleCommand>, rest: seq<SimpleCommand>)
    requires Stages(reg, Running(ctx, Success("")), before).Stopped?
    ensures RunPipeline(reg, ctx, before + rest) == RunPipeline(reg, ctx, before)
  {
    ShellLaws.StagesConcat(reg, Running(ctx, Success("")), before, rest);
  }

  /** Two registered commands in a pipe: the second gets the context and the output that the
      first leaves, its result is the result, and its exit code the status shown. */
  lemma TwoStages(reg: Registry, ctx: Ctx, a: SimpleCommand, b: SimpleCommand)
    requires a.program in reg && a.stdin.None? && a.stdout.None?
    requires b.program in reg && b.stdin.None? && b.stdout.None?
    ensures var (mid, out) := reg[a.program](ctx, a.args, "");
            var (end, r) := reg[b.program](mid, b.args, out.stdout);
            RunSettled(reg, ctx, [a, b])
            == (end.(lastExit := r.exitCode, env := end.env["?" := Decimal(r.exitCode)]), r)
  {
    hide Decimal;
    assert [a, b][1..] == [b] && [b][1..] == [];
    var (mid, out) := reg[a.program](ctx, a.args, "");
    assert Stage(reg, ctx, a, "") == Running(mid, out);
    assert Stages(reg, Running(ctx, Success("")), [a, b]) == Stages(reg, Running(mid, out), [b]);
    var (end, r) := reg[b.program](mid, b.args, out.stdout);
    assert Stage(reg, mid, b, out.stdout) == Running(end, r);
    assert Stages(reg, Running(mid, out), [b]) == Stages(reg, Running(end, r), []);
  }

  // A new session

  lemma NamesDiffer()
    ensures "USER" != "HOME" && "USER" != "PWD" && "USER" != "PATH" && "USER" != "NODE" && "USER" != "?"
    ensures "HOME" != "PWD" && "HOME" != "PATH" && "HOME" != "NODE" && "HOME" != "?"
    ensures "PWD" != "PATH" && "PWD" != "NODE" && "PWD" != "?"
    ensures "PATH" != "NODE" && "PATH" != "?" && "NODE" != "?"
  {
    assert "USER"[0] == 'U' && "HOME"[0] == 'H' && "PATH"[0] == 'P' && "NODE"[0] == 'N';
    assert |"PWD"| == 3 && |"?"| == 1;
  }

  /** What the variables of a new session read as. */
  lemma NewSession(fs: Tree, user: string, node: string, other: string)
    ensures var ctx := NewCtx(fs, user, node);
            && Quoting.ValueOf("USER", ctx.env) == ctx.user == user
            && Quoting.ValueOf("HOME", ctx.env) == Quoting.ValueOf("PWD", ctx.env) == ctx.cwd == "/home"
            && Quoting.ValueOf("PATH", ctx.env) == "/bin:/usr/bin"
            && Quoting.ValueOf("NODE", ctx.env) == ctx.node == node
            && Quoting.ValueOf("?", ctx.env) == "0" && ctx.lastExit == 0 && ctx.fs == fs
    ensures other != "USER" && other != "HOME" && other != "PWD" && other != "PATH" && other != "NODE" && other != "?"
        ==> Quoting.ValueOf(other, NewCtx(fs, user, node).env) == ""
  {
    NamesDiffer();
  }
}
