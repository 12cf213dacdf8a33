/** AND-OR evaluation, exit status, and pipes as files. */
module ShellLaws {
  import opened Base
  import opened Text
  import opened Paths
  import opened VfsTree
  import opened VfsLaws
  import opened Tokens
  import opened Parser
  import opened Shell

  // Chains: the flat loop is left-associative AND-OR evaluation grouped at ';'

  datatype AndOr =
    | Pipe(commands: seq<SimpleCommand>)
    | AndIf(left: AndOr, commands: seq<SimpleCommand>)
    | OrIf(left: AndOr, commands: seq<SimpleCommand>)

  /** Section 2.9.3 of the POSIX.1-2017 Shell Command Language: the right side of `&&` runs if
      the left side succeeded, that of `||` if it failed; otherwise the left result stands. */
  function EvalAndOr(reg: Registry, ctx: Ctx, t: AndOr): (Ctx, CommandResult) {
    match t
    case Pipe(cs) => RunSettled(reg, ctx, cs)
    case AndIf(left, cs) =>
      var (ctx', r) := EvalAndOr(reg, ctx, left);
      if r.exitCode == 0 then RunSettled(reg, ctx', cs) else (ctx', r)
    case OrIf(left, cs) =>
      var (ctx', r) := EvalAndOr(reg, ctx, left);
      if r.exitCode == 0 then (ctx', r) else RunSettled(reg, ctx', cs)
  }

  /** The lists between ';' in turn; only the last result is kept. */
  function EvalLists(reg: Registry, ctx: Ctx, lists: seq<AndOr>): (Ctx, CommandResult)
    decreases |lists|
  {
    if lists == [] then (ctx, Success(""))
    else EvalAndOr(reg, EvalLists(reg, ctx, lists[..|lists| - 1]).0, lists[|lists| - 1])
  }

  function Extend(t: AndOr, s: Segment): AndOr {
    if s.op.And? then AndIf(t, s.commands) else OrIf(t, s.commands)
  }

  /** A segment opens a new list, or extends the last one to the left-associative right. */
  function AddSegment(lists: seq<AndOr>, s: Segment): seq<AndOr> {
    if s.op.Always? || lists == [] then lists + [Pipe(s.commands)]
    else lists[..|lists| - 1] + [Extend(lists[|lists| - 1], s)]
  }

  function GroupFrom(lists: seq<AndOr>, segments: seq<Segment>): seq<AndOr>
    decreases |segments|
  {
    if segments == [] then lists else GroupFrom(AddSegment(lists, segments[0]), segments[1..])
  }

  function Group(segments: seq<Segment>): seq<AndOr> {
    GroupFrom([], segments)
  }

  function FlattenAndOr(t: AndOr): seq<Segment> {
    match t
    case Pipe(cs) => [Segment(Always, cs)]
    case AndIf(left, cs) => FlattenAndOr(left) + [Segment(And, cs)]
    case OrIf(left, cs) => FlattenAndOr(left) + [Segment(Or, cs)]
  }

  function Flatten(lists: seq<AndOr>): seq<Segment>
    decreases |lists|
  {
    if lists == [] then [] else Flatten(lists[..|lists| - 1]) + FlattenAndOr(lists[|lists| - 1])
  }

  lemma ListsSnoc(reg: Registry, ctx: Ctx, front: seq<AndOr>, t: AndOr)
    ensures EvalLists(reg, ctx, front + [t]) == EvalAndOr(reg, EvalLists(reg, ctx, front).0, t)
    ensures Flatten(front + [t]) == Flatten(front) + FlattenAndOr(t)
  {
    assert (front + [t])[..|front|] == front;
  }

  /** One more segment is one more turn of the loop, from the state the lists so far leave. */
  lemma AddedSegment(reg: Registry, ctx: Ctx, lists: seq<AndOr>, s: Segment)
    requires lists == [] ==> s.op == Always
    ensures var (ctx', r) := EvalLists(reg, ctx, lists);
            EvalLists(reg, ctx, AddSegment(lists, s))
            == (if ShouldRun(s.op, r.exitCode) then RunSettled(reg, ctx', s.commands) else (ctx', r))
    ensures Flatten(AddSegment(lists, s)) == Flatten(lists) + [s]
  {
    if s.op.Always? || lists == [] {
      ListsSnoc(reg, ctx, lists, Pipe(s.commands));
    } else {
      ListsSnoc(reg, ctx, lists[..|lists| - 1], Extend(lists[|lists| - 1], s));
    }
  }

  lemma {:induction false} LoopFrom(reg: Registry, ctx: Ctx, lists: seq<AndOr>, segments: seq<Segment>)
    requires lists == [] && segments != [] ==> segments[0].op == Always
    ensures var (ctx', r) := EvalLists(reg, ctx, lists);
            EvalLists(reg, ctx, GroupFrom(lists, segments)) == RunSegments(reg, ctx', segments, r)
    decreases |segments|
  {
    if segments != [] {
      AddedSegment(reg, ctx, lists, segments[0]);
      LoopFrom(reg, ctx, AddSegment(lists, segments[0]), segments[1..]);
    }
  }

  /** The flat loop with its carried result computes what the tree evaluator computes. */
  lemma FlatLoopIsAndOrEvaluation(reg: Registry, ctx: Ctx, segments: seq<Segment>)
    requires segments != [] ==> segments[0].op == Always
    ensures RunSegments(reg, ctx, segments, Success("")) == EvalLists(reg, ctx, Group(segments))
  {
    LoopFrom(reg, ctx, [], segments);
  }

  /** The same for a typed line: it is grouped and evaluated as POSIX says. */
  lemma ExecuteIsAndOrEvaluation(reg: Registry, ctx: Ctx, input: string)
    requires Assignment(input).None? && Line(input, ctx.env).Ok?
    ensures var (ctx', r) := EvalLists(reg, ctx, Group(Line(input, ctx.env).value.segments));
            Execute(reg, ctx, input) == (ctx', Ok(r))
  {
    ParsedLinesGood(input, ctx.env);
    FlatLoopIsAndOrEvaluation(reg, ctx, Line(input, ctx.env).value.segments);
  }

  lemma {:induction false} FlattenFrom(reg: Registry, ctx: Ctx, lists: seq<AndOr>, segments: seq<Segment>)
    requires lists == [] && segments != [] ==> segments[0].op == Always
    ensures Flatten(GroupFrom(lists, segments)) == Flatten(lists) + segments
    decreases |segments|
  {
    hide AddSegment, EvalLists;
    if segments != [] {
      AddedSegment(reg, ctx, lists, segments[0]);
      FlattenFrom(reg, ctx, AddSegment(lists, segments[0]), segments[1..]);
      assert [segments[0]] + segments[1..] == segments;
    }
  }

  /** Grouping loses nothing: flattening the lists gives the segments back. */
  lemma FlattenGroup(segments: seq<Segment>)
    requires segments != [] ==> segments[0].op == Always
    ensures Flatten(Group(segments)) == segments
  {
    FlattenFrom(map[], NewCtx(map[], "", ""), [], segments);
  }

  lemma OneSegment(reg: Registry, ctx: Ctx, s: Segment, carried: CommandResult)
    ensures RunSegments(reg, ctx, [s], carried)
         == if ShouldRun(s.op, carried.exitCode) then RunSettled(reg, ctx, s.commands) else (ctx, carried)
  {
    assert [s][1..] == [];
  }

  // The exit status

  ghost predicate StatusShown(ctx: Ctx) {
    "?" in ctx.env && ctx.env["?"] == Decimal(ctx.lastExit)
  }

  lemma {:induction false} RunSegmentsStatus(reg: Registry, ctx: Ctx, segments: seq<Segment>, carried: CommandResult)
    requires StatusShown(ctx) && ctx.lastExit == carried.exitCode
    ensures var (ctx', r) := RunSegments(reg, ctx, segments, carried);
            StatusShown(ctx') && ctx'.lastExit == r.exitCode
    decreases |segments|
  {
    if segments != [] {
      if ShouldRun(segments[0].op, carried.exitCode) {
        var (ctx1, r1) := RunSettled(reg, ctx, segments[0].commands);
        RunSegmentsStatus(reg, ctx1, segments[1..], r1);
      } else {
        RunSegmentsStatus(reg, ctx, segments[1..], carried);
      }
    }
  }

  /** Whatever a context or its commands did to `$?` before, a line that does anything leaves
      it at the exit code of the line's result; any other line leaves the context alone. */
  lemma ExecuteStatus(reg: Registry, ctx: Ctx, input: string)
    ensures var (ctx', r) := Execute(reg, ctx, input);
            if r.Err? || (Assignment(input).None? && Line(input, ctx.env).value.segments == []) then
              ctx' == ctx
            else
              StatusShown(ctx') && ctx'.lastExit == r.value.exitCode
  {
    if Assignment(input).None? && Line(input, ctx.env).Ok? {
      ParsedLinesGood(input, ctx.env);
      var segments := Line(input, ctx.env).value.segments;
      if segments != [] {
        var (ctx1, r1) := RunSettled(reg, ctx, segments[0].commands);
        RunSegmentsStatus(reg, ctx1, segments[1..], r1);
      }
    }
  }

  function Session(reg: Registry, ctx: Ctx, inputs: seq<string>): Ctx
    decreases |inputs|
  {
    if inputs == [] then ctx else Session(reg, Execute(reg, ctx, inputs[0]).0, inputs[1..])
  }

  lemma {:induction false} SessionKeepsStatus(reg: Registry, ctx: Ctx, inputs: seq<string>)
    requires StatusShown(ctx)
    ensures StatusShown(Session(reg, ctx, inputs))
    decreases |inputs|
  {
    if inputs != [] {
      ExecuteStatus(reg, ctx, inputs[0]);
      SessionKeepsStatus(reg, Execute(reg, ctx, inputs[0]).0, inputs[1..]);
    }
  }

  /** Over every session and any commands, `$?` is the decimal of the last exit code. */
  lemma SessionStatus(reg: Registry, fs: Tree, user: string, node: string, inputs: seq<string>)
    ensures StatusShown(Session(reg, NewCtx(fs, user, node), inputs))
  {
    SessionKeepsStatus(reg, NewCtx(fs, user, node), inputs);
  }

  /** So `$?` tells exit codes apart: two sessions show the same status if and only if they ended
      with the same code, whatever each of them ran. */
  lemma StatusTellsCodesApart(reg: Registry, ctx: Ctx, inputs: seq<string>,
                              reg': Registry, ctx': Ctx, inputs': seq<string>)
    requires StatusShown(ctx) && StatusShown(ctx')
    ensures var x, y := Session(reg, ctx, inputs), Session(reg', ctx', inputs');
            && StatusShown(x) && StatusShown(y)
            && (x.env["?"] == y.env["?"] <==> x.lastExit == y.lastExit)
  {
    hide Decimal;
    SessionKeepsStatus(reg, ctx, inputs);
    SessionKeepsStatus(reg', ctx', inputs');
    DecimalInjective(Session(reg, ctx, inputs).lastExit, Session(reg', ctx', inputs').lastExit);
  }

  // Redirects

  /** The redirect's write to the pre-normalised path is a write relative to the directory. */
  lemma RedirectIsRelative(m: Tree, cwd: string, path: string, data: string, append: bool, owner: string)
    ensures WriteOp(m, "/", RedirectPath(cwd, path), data, append, owner)
         == WriteOp(m, cwd, path, data, append, owner)
  {
    if path != "" {
      NormalizeIsNormal(cwd, path);
      NormalizeFixpoint("/", Normalize(cwd, path).value);
    }
  }

  // A pipe is a temporary file

  /** A command that depends on its arguments and input only, and changes nothing. */
  ghost predicate PureHandler(h: Handler) {
    forall c, c', args, input ::
      h(c, args, input).0 == c && h(c, args, input).1 == h(c', args, input).1
  }

  ghost predicate PureCommands(reg: Registry, cs: seq<SimpleCommand>) {
    forall i | 0 <= i < |cs| && cs[i].program in reg :: PureHandler(reg[cs[i].program])
  }

  /** No redirect of `c` touches `file`, or writes right below it. */
  ghost predicate Avoids(c: SimpleCommand, cwd: string, file: string) {
    && (c.stdin.Some? ==> Normalize(cwd, c.stdin.value) != Ok(file))
    && (c.stdout.Some? ==>
          var target := Normalize(cwd, c.stdout.value.0);
          target.Ok? ==> target.value != file && ParentPath(target.value) != file)
  }

  ghost predicate AllAvoid(cs: seq<SimpleCommand>, cwd: string, file: string) {
    forall i | 0 <= i < |cs| :: Avoids(cs[i], cwd, file)
  }

  ghost predicate SameExcept(a: Tree, b: Tree, file: string) {
    forall key | key != file :: (key in a <==> key in b) && (key in a ==> a[key] == b[key])
  }

  /** Two flows that differ in the file and in recorded statuses only. */
  ghost predicate Alike(x: Flow, y: Flow, file: string) {
    && x.Running? == y.Running?
    && x.last == y.last
    && x.ctx.cwd == y.ctx.cwd && x.ctx.user == y.ctx.user && x.ctx.node == y.ctx.node
    && SameExcept(x.ctx.fs, y.ctx.fs, file)
  }

  lemma {:induction false} StagesConcat(reg: Registry, flow: Flow, a: seq<SimpleCommand>, b: seq<SimpleCommand>)
    ensures Stages(reg, flow, a + b) == Stages(reg, Stages(reg, flow, a), b)
    decreases |a|
  {
    if a == [] {
      assert a + b == b;
    } else if flow.Running? {
      assert (a + b)[1..] == a[1..] + b;
      StagesConcat(reg, Stage(reg, flow.ctx, a[0], flow.last.stdout), a[1..], b);
    }
  }

  lemma WriteKeySame(a: Tree, b: Tree, file: string, key: string, data: string, append: bool, owner: string)
    requires SameExcept(a, b, file) && key != file && ParentPath(key) != file
    ensures WriteKey(a, key, data, append, owner).1 == WriteKey(b, key, data, append, owner).1
    ensures SameExcept(WriteKey(a, key, data, append, owner).0, WriteKey(b, key, data, append, owner).0, file)
  {
    assert ParentProblem(a, key) == ParentProblem(b, key);
    var a', b' := TouchKey(a, key, owner).0, TouchKey(b, key, owner).0;
    assert SameExcept(a', b', file);
  }

  lemma StageOutputAlike(x: Ctx, y: Ctx, c: SimpleCommand, out: CommandResult, file: string)
    requires Alike(Running(x, out), Running(y, out), file) && Avoids(c, x.cwd, file)
    ensures Alike(StageOutput(x, c, out), StageOutput(y, c, out), file)
    ensures StageOutput(x, c, out).ctx.env == x.env && StageOutput(y, c, out).ctx.env == y.env
    ensures StageOutput(x, c, out).ctx.cwd == x.cwd
  {
    if c.stdout.Some? {
      var (path, append) := c.stdout.value;
      RedirectIsRelative(x.fs, x.cwd, path, out.stdout, append, x.user);
      RedirectIsRelative(y.fs, x.cwd, path, out.stdout, append, x.user);
      if path != "" {
        WriteKeySame(x.fs, y.fs, file, Normalize(x.cwd, path).value, out.stdout, append, x.user);
      }
    }
  }

  lemma StageAlike(reg: Registry, x: Ctx, y: Ctx, c: SimpleCommand, piped: string, file: string)
    requires Alike(Running(x, Success("")), Running(y, Success("")), file)
    requires c.program in reg ==> PureHandler(reg[c.program])
    requires Avoids(c, x.cwd, file)
    ensures Alike(Stage(reg, x, c, piped), Stage(reg, y, c, piped), file)
    ensures Stage(reg, x, c, piped).ctx.env == x.env && Stage(reg, y, c, piped).ctx.env == y.env
    ensures Stage(reg, x, c, piped).ctx.cwd == x.cwd
  {
    assert StageInput(x, c, piped) == StageInput(y, c, piped);
    if StageInput(x, c, piped).Ok? {
      var input := StageInput(x, c, piped).value;
      StageOutputAlike(x, y, c, Invoke(reg, x, c, input).1, file);
    }
  }

  lemma {:induction false} StagesAlike(reg: Registry, x: Flow, y: Flow, cs: seq<SimpleCommand>, file: string)
    requires Alike(x, y, file) && PureCommands(reg, cs) && AllAvoid(cs, x.ctx.cwd, file)
    ensures Alike(Stages(reg, x, cs), Stages(reg, y, cs), file)
    ensures Stages(reg, x, cs).ctx.env == x.ctx.env && Stages(reg, y, cs).ctx.env == y.ctx.env
    decreases |cs|
  {
    if cs != [] && x.Running? {
      StageAlike(reg, x.ctx, y.ctx, cs[0], x.last.stdout, file);
      StagesAlike(reg, Stage(reg, x.ctx, cs[0], x.last.stdout), Stage(reg, y.ctx, cs[0], x.last.stdout), cs[1..], file);
    }
  }

  lemma WritableKept(m: Tree, file: string, key: string, data: string, append: bool, owner: string)
    requires Writable(m, file)
    ensures Writable(WriteKey(m, key, data, append, owner).0, file)
  {
  }

  /** Pure stages change the filesystem only by redirects, so `file` stays writable. */
  lemma {:induction false} PureStagesKeep(reg: Registry, flow: Flow, cs: seq<SimpleCommand>, file: string)
    requires PureCommands(reg, cs) && Writable(flow.ctx.fs, file)
    ensures var end := Stages(reg, flow, cs).ctx;
            && Writable(end.fs, file)
            && end == flow.ctx.(fs := end.fs)
    decreases |cs|
  {
    if cs != [] && flow.Running? {
      var c, ctx := cs[0], flow.ctx;
      var input := StageInput(ctx, c, flow.last.stdout);
      if input.Ok? {
        if c.stdout.Some? && RedirectPath(ctx.cwd, c.stdout.value.0) != "" {
          var key := Normalize("/", RedirectPath(ctx.cwd, c.stdout.value.0)).value;
          WritableKept(ctx.fs, file, key, Invoke(reg, ctx, c, input.value).1.stdout, c.stdout.value.1, ctx.user);
        }
      }
      PureStagesKeep(reg, Stage(reg, ctx, c, flow.last.stdout), cs[1..], file);
    }
  }

  lemma WriteThenRead(m: Tree, key: string, data: string, owner: string)
    requires Writable(m, key)
    ensures var (m', r) := WriteKey(m, key, data, false, owner);
            r.Ok? && ReadKey(m', key) == Ok(data) && SameExcept(m, m', key)
  {
  }

  /** Writing the output of `a` to the file instead of the pipe. */
  lemma WriteSide(reg: Registry, ctx: Ctx, a: SimpleCommand, f: string, piped: string)
    requires f != "" && Writable(ctx.fs, Normalize(ctx.cwd, f).value)
    requires a.stdout.None? && Stage(reg, ctx, a, piped).Running?
    requires a.program in reg ==> PureHandler(reg[a.program])
    ensures var file := Normalize(ctx.cwd, f).value;
            var x := Stage(reg, ctx, a, piped);
            var y := Stage(reg, ctx, a.(stdout := Some((f, false))), piped);
            && x.ctx == ctx
            && y.Running? && y.last.exitCode == x.last.exitCode
            && y.ctx == ctx.(fs := y.ctx.fs)
            && SameExcept(ctx.fs, y.ctx.fs, file)
            && ReadKey(y.ctx.fs, file) == Ok(x.last.stdout)
  {
    hide Names, Render, WriteKey, ReadKey, SameExcept, Writable;
    var input := StageInput(ctx, a, piped).value;
    var out := Invoke(reg, ctx, a, input).1;
    RedirectIsRelative(ctx.fs, ctx.cwd, f, out.stdout, false, ctx.user);
    WriteThenRead(ctx.fs, Normalize(ctx.cwd, f).value, out.stdout, ctx.user);
  }

  /** Reading the file back hands the second command what the pipe would have. */
  lemma ReadSide(reg: Registry, x: Ctx, y: Ctx, b: SimpleCommand, f: string, data: string)
    requires f != "" && b.stdin.None?
    requires b.program in reg ==> PureHandler(reg[b.program])
    requires Avoids(b, x.cwd, Normalize(x.cwd, f).value)
    requires Alike(Running(x, Success("")), Running(y, Success("")), Normalize(x.cwd, f).value)
    requires ReadKey(y.fs, Normalize(x.cwd, f).value) == Ok(data)
    ensures Alike(Stage(reg, x, b, data), Stage(reg, y, b.(stdin := Some(f)), ""), Normalize(x.cwd, f).value)
    ensures Stage(reg, x, b, data).ctx.env == x.env
    ensures Stage(reg, x, b, data).ctx.cwd == x.cwd
    ensures Stage(reg, y, b.(stdin := Some(f)), "").ctx.env == y.env
  {
    assert StageInput(y, b.(stdin := Some(f)), "") == Ok(data);
    StageOutputAlike(x, y, b, Invoke(reg, x, b, data).1, Normalize(x.cwd, f).value);
  }

  function ToFile(a: SimpleCommand, f: string): SimpleCommand {
    a.(stdout := Some((f, false)))
  }

  function FromFile(b: SimpleCommand, f: string): SimpleCommand {
    b.(stdin := Some(f))
  }

  /** A run up to and including command `c`. */
  lemma StagesThrough(reg: Registry, ctx: Ctx, before: seq<SimpleCommand>, c: SimpleCommand)
    ensures Stages(reg, Running(ctx, Success("")), before + [c]) == (
              var mid := Stages(reg, Running(ctx, Success("")), before);
              if mid.Stopped? then mid else Stage(reg, mid.ctx, c, mid.last.stdout))
  {
    StagesConcat(reg, Running(ctx, Success("")), before, [c]);
  }

  /** The first half, with its output in the pipe and in the file. */
  lemma FirstHalves(reg: Registry, ctx: Ctx, before: seq<SimpleCommand>, a: SimpleCommand, f: string)
    requires f != "" && Writable(ctx.fs, Normalize(ctx.cwd, f).value)
    requires a.stdout.None? && PureCommands(reg, before + [a])
    requires Stages(reg, Running(ctx, Success("")), before + [a]).Running?
    ensures var x := Stages(reg, Running(ctx, Success("")), before + [a]);
            var y := Stages(reg, Running(ctx, Success("")), before + [ToFile(a, f)]);
            var file := Normalize(ctx.cwd, f).value;
            && x.ctx == ctx.(fs := x.ctx.fs)
            && y.Running? && y.last.exitCode == x.last.exitCode
            && y.ctx == x.ctx.(fs := y.ctx.fs)
            && SameExcept(x.ctx.fs, y.ctx.fs, file)
            && ReadKey(y.ctx.fs, file) == Ok(x.last.stdout)
  {
    var mid := Stages(reg, Running(ctx, Success("")), before);
    PureBefore(reg, before, a);
    PureStagesKeep(reg, Running(ctx, Success("")), before, Normalize(ctx.cwd, f).value);
    StagesThrough(reg, ctx, before, a);
    StagesThrough(reg, ctx, before, ToFile(a, f));
    WriteSide(reg, mid.ctx, a, f, mid.last.stdout);
  }

  /** The second half, fed from the pipe and from the file. */
  lemma SecondHalves(reg: Registry, x: Flow, y: Ctx, b: SimpleCommand, after: seq<SimpleCommand>, f: string)
    requires f != "" && b.stdin.None? && x.Running? && PureCommands(reg, [b] + after)
    requires AllAvoid([b] + after, x.ctx.cwd, Normalize(x.ctx.cwd, f).value)
    requires Alike(Running(x.ctx, Success("")), Running(y, Success("")), Normalize(x.ctx.cwd, f).value)
    requires ReadKey(y.fs, Normalize(x.ctx.cwd, f).value) == Ok(x.last.stdout)
    ensures var whole := Stages(reg, x, [b] + after);
            var second := Stages(reg, Running(y, Success("")), [FromFile(b, f)] + after);
            && Alike(whole, second, Normalize(x.ctx.cwd, f).value)
            && whole.ctx.env == x.ctx.env && second.ctx.env == y.env
  {
    PureAfter(reg, b, after, x.ctx.cwd, Normalize(x.ctx.cwd, f).value);
    ReadSide(reg, x.ctx, y, b, f, x.last.stdout);
    StagesAlike(reg, Stage(reg, x.ctx, b, x.last.stdout), Stage(reg, y, FromFile(b, f), ""), after,
                Normalize(x.ctx.cwd, f).value);
  }

  /** Both halves together, with the recorded status in between. */
  lemma CutPipeline(reg: Registry, ctx: Ctx, before: seq<SimpleCommand>, a: SimpleCommand,
                    b: SimpleCommand, after: seq<SimpleCommand>, f: string)
    requires f != "" && Writable(ctx.fs, Normalize(ctx.cwd, f).value)
    requires a.stdout.None? && b.stdin.None?
    requires PureCommands(reg, before + [a]) && PureCommands(reg, [b] + after)
    requires Stages(reg, Running(ctx, Success("")), before + [a]).Running?
    requires AllAvoid([b] + after, ctx.cwd, Normalize(ctx.cwd, f).value)
    ensures var (x, r) := RunSettled(reg, ctx, before + [a] + ([b] + after));
            var (y, q) := RunSettled(reg, RunSettled(reg, ctx, before + [ToFile(a, f)]).0, [FromFile(b, f)] + after);
            && q == r
            && y == x.(fs := y.fs)
            && SameExcept(x.fs, y.fs, Normalize(ctx.cwd, f).value)
  {
    hide Stage, Normalize;
    var x := Stages(reg, Running(ctx, Success("")), before + [a]);
    var y := Stages(reg, Running(ctx, Success("")), before + [ToFile(a, f)]);
    FirstHalves(reg, ctx, before, a, f);
    SecondHalves(reg, x, Settle(y.ctx, y.last.exitCode), b, after, f);
    StagesConcat(reg, Running(ctx, Success("")), before + [a], [b] + after);
  }

  /** Cutting a pipeline at any boundary, with `> f ; ... < f` in place of the pipe, gives the
      same result and the same context, and the filesystem differs at `f` only. The commands
      depend on arguments and input only, the part before the cut meets no I/O error, `f` can
      be written, and no redirect after the cut uses it. */
  lemma PipeIsTemporaryFile(reg: Registry, ctx: Ctx, before: seq<SimpleCommand>, a: SimpleCommand,
                            b: SimpleCommand, after: seq<SimpleCommand>, f: string)
    requires f != "" && Writable(ctx.fs, Normalize(ctx.cwd, f).value)
    requires a.stdout.None? && b.stdin.None?
    requires PureCommands(reg, before + [a]) && PureCommands(reg, [b] + after)
    requires Stages(reg, Running(ctx, Success("")), before + [a]).Running?
    requires AllAvoid([b] + after, ctx.cwd, Normalize(ctx.cwd, f).value)
    ensures var piped := [Segment(Always, before + [a] + ([b] + after))];
            var cut := [Segment(Always, before + [ToFile(a, f)]), Segment(Always, [FromFile(b, f)] + after)];
            var (x, r) := RunSegments(reg, ctx, piped, Success(""));
            var (y, q) := RunSegments(reg, ctx, cut, Success(""));
            && q == r
            && y == x.(fs := y.fs)
            && SameExcept(x.fs, y.fs, Normalize(ctx.cwd, f).value)
  {
    CutPipeline(reg, ctx, before, a, b, after, f);
    OneSegment(reg, ctx, Segment(Always, before + [a] + ([b] + after)), Success(""));
    TwoSegments(reg, ctx, before + [ToFile(a, f)], [FromFile(b, f)] + after);
  }

  ghost predicate NoRedirects(cs: seq<SimpleCommand>) {
    forall i | 0 <= i < |cs| :: cs[i].stdin.None? && cs[i].stdout.None?
  }

  /** Without redirects nothing can end a pipeline early. */
  lemma {:induction false} PlainStagesRun(reg: Registry, flow: Flow, cs: seq<SimpleCommand>)
    requires flow.Running? && NoRedirects(cs)
    ensures Stages(reg, flow, cs).Running?
    decreases |cs|
  {
    if cs != [] {
      PlainStagesRun(reg, Stage(reg, flow.ctx, cs[0], flow.last.stdout), cs[1..]);
    }
  }

  /** The plain case: any pipeline of pure commands without redirects, cut anywhere. */
  lemma PlainPipeIsTemporaryFile(reg: Registry, ctx: Ctx, cs: seq<SimpleCommand>, at: nat, f: string)
    requires 0 < at < |cs| && PureCommands(reg, cs) && NoRedirects(cs)
    requires f != "" && Writable(ctx.fs, Normalize(ctx.cwd, f).value)
    ensures var cut := [Segment(Always, cs[..at - 1] + [ToFile(cs[at - 1], f)]),
                        Segment(Always, [FromFile(cs[at], f)] + cs[at + 1..])];
            var (x, r) := RunSegments(reg, ctx, [Segment(Always, cs)], Success(""));
            var (y, q) := RunSegments(reg, ctx, cut, Success(""));
            && q == r
            && y == x.(fs := y.fs)
            && SameExcept(x.fs, y.fs, Normalize(ctx.cwd, f).value)
  {
    var before, a, b, after := cs[..at - 1], cs[at - 1], cs[at], cs[at + 1..];
    assert cs == before + [a] + ([b] + after);
    assert forall i | 0 <= i < |before + [a]| :: (before + [a])[i] == cs[i];
    assert forall i | 0 <= i < |[b] + after| :: ([b] + after)[i] == cs[at + i];
    PlainStagesRun(reg, Running(ctx, Success("")), before + [a]);
    PipeIsTemporaryFile(reg, ctx, before, a, b, after, f);
  }

  lemma PureBefore(reg: Registry, before: seq<SimpleCommand>, a: SimpleCommand)
    requires PureCommands(reg, before + [a])
    ensures PureCommands(reg, before)
    ensures a.program in reg ==> PureHandler(reg[a.program])
  {
    assert (before + [a])[|before|] == a;
    assert forall i | 0 <= i < |before| :: (before + [a])[i] == before[i];
  }

  lemma PureAfter(reg: Registry, b: SimpleCommand, after: seq<SimpleCommand>, cwd: string, file: string)
    requires PureCommands(reg, [b] + after) && AllAvoid([b] + after, cwd, file)
    ensures PureCommands(reg, after) && AllAvoid(after, cwd, file)
    ensures b.program in reg ==> PureHandler(reg[b.program])
    ensures Avoids(b, cwd, file)
  {
    assert ([b] + after)[0] == b;
    assert forall i | 0 <= i < |after| :: ([b] + after)[i + 1] == after[i];
  }

  lemma TwoSegments(reg: Registry, ctx: Ctx, first: seq<SimpleCommand>, second: seq<SimpleCommand>)
    ensures RunSegments(reg, ctx, [Segment(Always, first), Segment(Always, second)], Success(""))
         == RunSettled(reg, RunSettled(reg, ctx, first).0, second)
  {
    var two := [Segment(Always, first), Segment(Always, second)];
    assert two[1..] == [Segment(Always, second)];
    OneSegment(reg, RunSettled(reg, ctx, first).0, two[1], RunSettled(reg, ctx, first).1);
  }
}
