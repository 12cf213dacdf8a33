/** `ShellEngine`: pipelines over the filesystem and chains of pipelines, as functions on the
    value of the execution context. */
module Shell {
  import opened Base
  import opened Text
  import opened Paths
  import opened VfsTree
  import opened Tokens
  import opened Parser

  datatype CommandResult = CommandResult(stdout: string, stderr: string, exitCode: int)

  function Success(stdout: string): CommandResult {
    CommandResult(stdout, "", 0)
  }

  function Failure(stderr: string, exitCode: int): CommandResult {
    CommandResult("", stderr, exitCode)
  }

  datatype Ctx = Ctx(fs: Tree, cwd: string, user: string, node: string, env: Env, lastExit: int)

  function NewCtx(fs: Tree, user: string, node: string): Ctx {
    Ctx(fs, "/home", user, node,
        map["USER" := user, "HOME" := "/home", "PWD" := "/home",
            "PATH" := "/bin:/usr/bin", "NODE" := node, "?" := "0"],
        0)
  }

  /** A command may read and replace the whole context. */
  type Handler = (Ctx, seq<string>, string) -> (Ctx, CommandResult)

  type Registry = map<string, Handler>

  function ErrorText(e: VfsError): string {
    match e
    case NotFound(p) => "path not found: " + p
    case NotDirectory(p) => "not a directory: " + p
    case NotFile(p) => "not a file: " + p
    case RemoveRoot => "cannot remove root"
    case InvalidPath => "invalid path"
  }

  // Pipelines

  /** A pipeline under way: still running, with the last result, or ended early by an I/O error. */
  datatype Flow = Running(ctx: Ctx, last: CommandResult) | Stopped(ctx: Ctx, last: CommandResult)

  function StageInput(ctx: Ctx, c: SimpleCommand, piped: string): Outcome<string> {
    if c.stdin.Some? then ReadOp(ctx.fs, ctx.cwd, c.stdin.value) else Ok(piped)
  }

  function Invoke(reg: Registry, ctx: Ctx, c: SimpleCommand, input: string): (Ctx, CommandResult) {
    if c.program in reg then reg[c.program](ctx, c.args, input)
    else (ctx, Failure(c.program + ": command not found\n", 127))
  }

  /** The path a redirect writes to: normalised, or as given when it cannot be. */
  function RedirectPath(cwd: string, path: string): string {
    var n := Normalize(cwd, path);
    if n.Ok? then n.value else path
  }

  function StageOutput(ctx: Ctx, c: SimpleCommand, out: CommandResult): Flow {
    if c.stdout.None? then Running(ctx, out)
    else
      var (path, append) := c.stdout.value;
      var (fs, r) := WriteOp(ctx.fs, "/", RedirectPath(ctx.cwd, path), out.stdout, append, ctx.user);
      if r.Err? then Stopped(ctx.(fs := fs), Failure(ErrorText(r.error) + "\n", 1))
      else Running(ctx.(fs := fs), out.(stdout := ""))
  }

  function Stage(reg: Registry, ctx: Ctx, c: SimpleCommand, piped: string): Flow {
    var input := StageInput(ctx, c, piped);
    if input.Err? then Stopped(ctx, Failure(ErrorText(input.error) + "\n", 1))
    else
      var (ctx', out) := Invoke(reg, ctx, c, input.value);
      StageOutput(ctx', c, out)
  }

  function Stages(reg: Registry, flow: Flow, cs: seq<SimpleCommand>): Flow
    decreases |cs|
  {
    if cs == [] || flow.Stopped? then flow
    else Stages(reg, Stage(reg, flow.ctx, cs[0], flow.last.stdout), cs[1..])
  }

  function RunPipeline(reg: Registry, ctx: Ctx, cs: seq<SimpleCommand>): (Ctx, CommandResult) {
    var flow := Stages(reg, Running(ctx, Success("")), cs);
    (flow.ctx, flow.last)
  }

  // Chains

  /** Record an exit code in both places that hold it. */
  function Settle(ctx: Ctx, exitCode: int): Ctx {
    ctx.(lastExit := exitCode, env := ctx.env["?" := Decimal(exitCode)])
  }

  function RunSettled(reg: Registry, ctx: Ctx, cs: seq<SimpleCommand>): (Ctx, CommandResult) {
    var (ctx', r) := RunPipeline(reg, ctx, cs);
    (Settle(ctx', r.exitCode), r)
  }

  predicate ShouldRun(op: ChainOp, exitCode: int) {
    op.Always? || (op.And? && exitCode == 0) || (op.Or? && exitCode != 0)
  }

  /** The flat loop over the segments, carrying the last result. */
  function RunSegments(reg: Registry, ctx: Ctx, segments: seq<Segment>, carried: CommandResult)
      : (Ctx, CommandResult)
    decreases |segments|
  {
    if segments == [] then (ctx, carried)
    else if ShouldRun(segments[0].op, carried.exitCode) then
      var (ctx', r) := RunSettled(reg, ctx, segments[0].commands);
      RunSegments(reg, ctx', segments[1..], r)
    else RunSegments(reg, ctx, segments[1..], carried)
  }

  // Lines

  predicate Whitespace(c: char) {
    '\t' <= c <= '\r' || c == ' ' || c == '\U{85}' || c == '\U{A0}' || c == '\U{1680}'
    || '\U{2000}' <= c <= '\U{200A}' || c == '\U{2028}' || c == '\U{2029}' || c == '\U{202F}'
    || c == '\U{205F}' || c == '\U{3000}'
  }

  function Trim(s: string): string {
    if s != "" && Whitespace(s[0]) then Trim(s[1..])
    else if s != "" && Whitespace(s[|s| - 1]) then Trim(s[..|s| - 1])
    else s
  }

  predicate Letter(c: char) { 'a' <= c <= 'z' || 'A' <= c <= 'Z' }

  predicate VariableName(s: string) {
    && s != ""
    && (Letter(s[0]) || s[0] == '_')
    && forall i | 0 <= i < |s| :: Letter(s[i]) || '0' <= s[i] <= '9' || s[i] == '_'
  }

  /** The position of the first '=', or the length. */
  function FindEquals(s: string): (i: nat)
    ensures i <= |s|
    ensures i < |s| ==> s[i] == '='
    ensures forall j | 0 <= j < i :: s[j] != '='
  {
    if s == "" || s[0] == '=' then 0 else 1 + FindEquals(s[1..])
  }

  /** The name and value of a bare `NAME=value` line. */
  function Assignment(input: string): Option<(string, string)> {
    var s := Trim(input);
    var eq := FindEquals(s);
    if (exists i | 0 <= i < |s| :: Whitespace(s[i])) || eq == |s| || !VariableName(s[..eq]) then None
    else Some((s[..eq], s[eq + 1..]))
  }

  function Execute(reg: Registry, ctx: Ctx, input: string): (Ctx, Result<CommandResult, ShellError>) {
    var binding := Assignment(input);
    if binding.Some? then
      var (name, value) := binding.value;
      (Settle(ctx.(env := ctx.env[name := value]), 0), Ok(Success("")))
    else
      match Line(input, ctx.env)
      case Err(e) => (ctx, Err(e))
      case Ok(line) =>
        var (ctx', r) := RunSegments(reg, ctx, line.segments, Success(""));
        (ctx', Ok(r))
  }
}
