/** The engine itself: an execution context that shares a filesystem object, and the loops that
    update both while a line runs. */
module ShellEngine {
  import opened Base
  import opened Text
  import opened Paths
  import opened VfsTree
  import opened VfsStore
  import opened Tokens
  import opened Parser
  import opened Shell
  import opened ShellLaws

  class ExecutionContext {
    const vfs: Vfs
    var cwd: string
    var user: string
    var node: string
    var env: Env
    var lastExit: int

    constructor (vfs: Vfs, user: string, node: string)
      ensures this.vfs == vfs
      ensures State() == NewCtx(vfs.nodes, user, node)
      ensures StatusShown(State())
    {
      this.vfs := vfs;
      this.user := user;
      this.node := node;
      this.cwd := "/home";
      this.env := map["USER" := user, "HOME" := "/home", "PWD" := "/home",
                      "PATH" := "/bin:/usr/bin", "NODE" := node, "?" := "0"];
      this.lastExit := 0;
    }

    function State(): Ctx
      reads this, vfs
    {
      Ctx(vfs.nodes, cwd, user, node, env, lastExit)
    }

    /** What a command does to the context it is given. */
    method Become(c: Ctx)
      modifies this, vfs
      ensures State() == c
    {
      vfs.nodes := c.fs;
      cwd, user, node, env, lastExit := c.cwd, c.user, c.node, c.env, c.lastExit;
    }
  }

  class Engine {
    const registry: Registry

    constructor (registry: Registry)
      ensures this.registry == registry
    {
      this.registry := registry;
    }

    method Execute(ctx: ExecutionContext, input: string) returns (r: Result<CommandResult, ShellError>)
      modifies ctx, ctx.vfs
      ensures (ctx.State(), r) == Shell.Execute(registry, old(ctx.State()), input)
      ensures old(StatusShown(ctx.State())) ==> StatusShown(ctx.State())
    {
      ExecuteStatus(registry, ctx.State(), input);
      var binding := Assignment(input);
      if binding.Some? {
        ctx.env := ctx.env[binding.value.0 := binding.value.1];
        ctx.lastExit := 0;
        ctx.env := ctx.env["?" := "0"];
        return Ok(Success(""));
      }
      var parsed := ParseLine(input, ctx.env);
      if parsed.Err? {
        return Err(parsed.error);
      }
      var segments := parsed.value.segments;
      var result := Success("");
      ghost var start := ctx.State();
      assert segments[0..] == segments;
      for i := 0 to |segments|
        invariant RunSegments(registry, start, segments, Success(""))
               == RunSegments(registry, ctx.State(), segments[i..], result)
      {
        assert segments[i..][1..] == segments[i + 1..];
        var segment := segments[i];
        var shouldRun :=
          match segment.op
          case Always => true
          case And => result.exitCode == 0
          case Or => result.exitCode != 0;
        if shouldRun {
          result := ExecutePipeline(ctx, segment.commands);
          ctx.lastExit := result.exitCode;
          ctx.env := ctx.env["?" := Decimal(ctx.lastExit)];
        }
      }
      r := Ok(result);
    }

    method ExecutePipeline(ctx: ExecutionContext, commands: seq<SimpleCommand>) returns (last: CommandResult)
      modifies ctx, ctx.vfs
      ensures (ctx.State(), last) == RunPipeline(registry, old(ctx.State()), commands)
    {
      var stdinBuf := "";
      last := Success("");
      ghost var start := Running(ctx.State(), last);
      assert commands[0..] == commands;
      for i := 0 to |commands|
        invariant stdinBuf == last.stdout
        invariant Stages(registry, start, commands)
               == Stages(registry, Running(ctx.State(), last), commands[i..])
      {
        assert commands[i..][1..] == commands[i + 1..];
        var stopped, out := RunStage(ctx, commands[i], stdinBuf);
        if stopped {
          return out;
        }
        stdinBuf := out.stdout;
        last := out;
      }
    }

    /** One turn of the pipeline loop; an I/O error on a redirect ends the pipeline. */
    method RunStage(ctx: ExecutionContext, command: SimpleCommand, stdinBuf: string)
        returns (stopped: bool, out: CommandResult)
      modifies ctx, ctx.vfs
      ensures Stage(registry, old(ctx.State()), command, stdinBuf)
           == if stopped then Stopped(ctx.State(), out) else Running(ctx.State(), out)
    {
      var effectiveInput := stdinBuf;
      if command.stdin.Some? {
        var read := ctx.vfs.ReadFile(ctx.cwd, command.stdin.value);
        if read.Err? {
          return true, Failure(ErrorText(read.error) + "\n", 1);
        }
        effectiveInput := read.value;
      }
      if command.program in registry {
        var (after, result) := registry[command.program](ctx.State(), command.args, effectiveInput);
        ctx.Become(after);
        out := result;
      } else {
        out := Failure(command.program + ": command not found\n", 127);
      }
      if command.stdout.Some? {
        var (path, append) := command.stdout.value;
        var normalized := NormalizePath(ctx.cwd, path);
        var target := if normalized.Ok? then normalized.value else path;
        var written := ctx.vfs.WriteFile("/", target, out.stdout, append, ctx.user);
        if written.Err? {
          return true, Failure(ErrorText(written.error) + "\n", 1);
        }
        out := out.(stdout := "");
      }
      stopped := false;
    }
  }
}
