// shellcmd.py, second half: running a parsed pipeline (without its verbose output).
module ShellRun {
  import opened Wrappers
  import opened ShellParse

  // A command with the directory it runs in.
  datatype Stage = Stage(command: Node, cwd: string)

  // What a pipeline amounts to: commands piped together, then what the operator behind
  // them leads to. Broken: a `cd` is reached that names no directory or ends the list.
  datatype Chain =
    | End(stages: seq<Stage>)
    | Then(stages: seq<Stage>, op: Node, rest: Chain)
    | Broken(stages: seq<Stage>)

  predicate Absolute(name: string) {
    name != "" && name[0] == '/'
  }

  // os.path.join
  function Join(path: string, name: string): string {
    if Absolute(name) then name
    else if path == "" || path[|path| - 1] == '/' then path + name
    else path + "/" + name
  }

  // A path with the slash that a name needs in front of it.
  function Folder(path: string): string {
    if path == "" || path[|path| - 1] == '/' then path else path + "/"
  }

  // An absolute name replaces the path and any other goes behind it, so a `cd` after a `cd` leads where
  // one `cd` to the joined name leads.
  lemma JoinIsAPath(path: string, name: string, below: string)
    ensures Absolute(name) ==> Join(path, name) == name
    ensures !Absolute(name) ==>
              && Join(path, name) == Folder(path) + name
              && path <= Folder(path) && |Folder(path)| <= |path| + 1
              && (path != "" ==> Folder(path)[|Folder(path)| - 1] == '/')
    ensures Join(Join(path, name), below) == Join(path, Join(name, below))
  {
    hide Folder;
    FolderIsPath(path);
    FolderIsPath(name);
    FolderOfJoin(path, name);
    JoinFolder(path, name);
    JoinFolder(name, below);
    JoinFolder(Join(path, name), below);
    if !Absolute(name) && !Absolute(below) {
      BelowFolder(path, name, below);
      assert (Folder(path) + Folder(name)) + below == Folder(path) + (Folder(name) + below);
    }
  }

  lemma JoinFolder(path: string, name: string)
    ensures Join(path, name) == if Absolute(name) then name else Folder(path) + name
  {
  }

  lemma FolderIsPath(path: string)
    ensures path <= Folder(path) && |Folder(path)| <= |path| + 1
    ensures path != "" ==> Folder(path)[|Folder(path)| - 1] == '/'
  {
  }

  lemma FolderOfJoin(path: string, name: string)
    ensures Folder(Folder(path) + name) == Folder(path) + Folder(name)
  {
    var both := Folder(path) + name;
    if name == "" {
      assert both == Folder(path) && Folder(path) + Folder("") == Folder(path);
    } else {
      assert both[|both| - 1] == name[|name| - 1];
      assert Folder(path) + (name + "/") == both + "/";
    }
  }

  lemma BelowFolder(path: string, name: string, below: string)
    requires !Absolute(name) && !Absolute(below)
    ensures !Absolute(Folder(name) + below)
    ensures Join(path, Folder(name) + below) == Folder(path) + (Folder(name) + below)
  {
    if name == "" {
      assert Folder(name) + below == below;
    }
  }

  // WellFormed, read from the left.
  predicate Runnable(ns: seq<Node>)
    decreases |ns|
  {
    && ns != [] && IsNode(ns[0])
    && (|ns| > 1 ==> |ns| > 2 && LinkOk(ns[0], ns[1]) && Runnable(ns[2..]))
  }

  lemma {:induction false} WellFormedIsRunnable(ns: seq<Node>)
    requires WellFormed(ns)
    ensures Runnable(ns)
    decreases |ns|
  {
    if |ns| > 1 {
      NodesAlternate(ns, 0);
      FirstPair(ns[..|ns| - 1]);
      assert ns[..|ns| - 1][2..] == ns[2..][..|ns[2..]| - 1];
      WellFormedIsRunnable(ns[2..]);
    }
  }

  lemma {:induction false} FirstPair(ns: seq<Node>)
    requires PairsOk(ns) && ns != []
    ensures |ns| >= 2 && NodeOk(ns[0]) && LinkOk(ns[0], ns[1]) && PairsOk(ns[2..])
    decreases |ns|
  {
    if |ns| > 2 {
      FirstPair(ns[..|ns| - 2]);
      assert ns[..|ns| - 2][2..] == ns[2..][..|ns[2..]| - 2];
    } else {
      assert ns[2..] == [];
    }
  }

  // The chain of the nodes `ns`, reached in `cwd` with `stages` already in the pipe. A
  // `cd ... &&` inside a pipe joins what follows to that pipe.
  function ChainOf(ns: seq<Node>, cwd: string, stages: seq<Stage>): Chain
    requires Runnable(ns)
    decreases |ns|
  {
    if ns[0].Chdir? then
      if |ns| == 1 || ns[0].dir.None? then Broken(stages)
      else ChainOf(ns[2..], Join(cwd, ns[0].dir.value), stages)
    else
      var all := stages + [Stage(ns[0], cwd)];
      if |ns| == 1 then End(all)
      else if ns[1] == Pipe then ChainOf(ns[2..], cwd, all)
      else Then(all, ns[1], ChainOf(ns[2..], cwd, []))
  }

  // ----- what happens in the outside world

  datatype Source = ParentStdin | FromFile(id: nat) | FromPrevious

  datatype Sink = ParentStream | PipeSink | OwnStdout | DevNull | IntoFile(id: nat)

  // Files and processes are numbered in the order of their creation.
  datatype Event =
    | Open(id: nat, file: string, write: bool)
    | Spawn(argv: seq<string>, stdin: Source, stdout: Sink, stderr: Sink, env: seq<(string, string)>,
            cwd: Option<string>)
    | Wait(process: nat)
    | Close(id: nat)

  predicate IsNull(file: string) {
    file == "NUL:" || file == "/dev/null"
  }

  // Opening what one stage needs, and starting it.
  datatype Launch = Launch(events: seq<Event>, files: seq<nat>, fileCount: nat)

  function Nothing(fileCount: nat): Launch { Launch([], [], fileCount) }

  function Opening(l: Launch, file: string, write: bool): Launch {
    Launch(l.events + [Open(l.fileCount, file, write)], l.files + [l.fileCount], l.fileCount + 1)
  }

  function WithStdin(l: Launch, c: Node, first: bool): (Launch, Source)
    requires c.Command?
  {
    if !first then (l, FromPrevious)
    else if c.stdin.Some? then (Opening(l, c.stdin.value, false), FromFile(l.fileCount))
    else (l, ParentStdin)
  }

  function WithFile(l: Launch, file: string): (Launch, Sink) {
    if IsNull(file) then (l, DevNull) else (Opening(l, file, true), IntoFile(l.fileCount))
  }

  function WithStdout(l: Launch, c: Node): (Launch, Sink)
    requires c.Command?
  {
    match c.stdout
    case Inherit => (l, ParentStream)
    case ToPipe => (l, PipeSink)
    case ToFile(f) => WithFile(l, f)
  }

  function WithStderr(l: Launch, c: Node): (Launch, Sink)
    requires c.Command?
  {
    match c.stderr
    case SameAsParent => (l, ParentStream)
    case SameAsStdout => (l, OwnStdout)
    case ErrorFile(f) => WithFile(l, f)
  }

  function LaunchStage(l: Launch, s: Stage, first: bool): Launch
    requires s.command.Command?
  {
    var c := s.command;
    var (l1, stdin) := WithStdin(l, c, first);
    var (l2, stdout) := WithStdout(l1, c);
    var (l3, stderr) := WithStderr(l2, c);
    l3.(events := l3.events + [Spawn(c.argv, stdin, stdout, stderr, c.env, if s.cwd == "." then None else Some(s.cwd))])
  }

  predicate AllCommands(stages: seq<Stage>) {
    forall i :: 0 <= i < |stages| ==> stages[i].command.Command?
  }

  // Stage after stage of a pipe; all but the first read from the one before.
  function LaunchAll(stages: seq<Stage>, fileCount: nat): Launch
    requires AllCommands(stages)
  {
    if stages == [] then Nothing(fileCount)
    else
      var k := |stages| - 1;
      LaunchStage(LaunchAll(stages[..k], fileCount), stages[k], k == 0)
  }

  function Waits(from: nat, n: nat): seq<Event> {
    seq(n, i requires 0 <= i < n => Wait(from + i))
  }

  function Closes(files: seq<nat>): seq<Event> {
    seq(|files|, i requires 0 <= i < |files| => Close(files[i]))
  }

  datatype Outcome = Exit(status: int) | Raises

  datatype Effect = Effect(events: seq<Event>, outcome: Outcome)

  predicate Proper(c: Chain) {
    AllCommands(c.stages)
    && (!c.Broken? ==> c.stages != [])
    && (c.Then? ==> (c.op == And || c.op == Or) && Proper(c.rest))
  }

  // Does the list stop behind an operator, given the status in front of it?
  predicate Stops(op: Node, status: int) {
    if op == Or then status == 0 else status != 0
  }

  // A pipe is started, awaited and its files closed; its status is that of its last
  // stage. `exit` gives the status of each process.
  function Exec(c: Chain, exit: nat -> int, fileCount: nat, spawned: nat): Effect
    requires Proper(c)
  {
    var l := LaunchAll(c.stages, fileCount);
    if c.Broken? then Effect(l.events, Raises)
    else
      var n := |c.stages|;
      var done := l.events + Waits(spawned, n) + Closes(l.files);
      var status := exit(spawned + n - 1);
      if c.End? || Stops(c.op, status) then Effect(done, Exit(status))
      else
        var rest := Exec(c.rest, exit, l.fileCount, spawned + n);
        Effect(done + rest.events, rest.outcome)
  }

  lemma {:induction false} ChainIsProper(ns: seq<Node>, cwd: string, stages: seq<Stage>)
    requires Runnable(ns) && AllCommands(stages)
    ensures Proper(ChainOf(ns, cwd, stages))
    decreases |ns|
  {
    if |ns| > 2 {
      if ns[0].Chdir? {
        if ns[0].dir.Some? {
          ChainIsProper(ns[2..], Join(cwd, ns[0].dir.value), stages);
        }
      } else if ns[1] == Pipe {
        ChainIsProper(ns[2..], cwd, stages + [Stage(ns[0], cwd)]);
      } else {
        ChainIsProper(ns[2..], cwd, []);
      }
    }
  }

  // ----- the program

  // The operating system, as far as it is used.
  class World {
    const exit: nat -> int
    var trace: seq<Event>
    var fileCount: nat
    var spawned: nat

    constructor (exit: nat -> int)
      ensures this.exit == exit && trace == [] && fileCount == 0 && spawned == 0
    {
      this.exit := exit;
      trace, fileCount, spawned := [], 0, 0;
    }

    method OpenFile(file: string, write: bool) returns (id: nat)
      modifies `trace, `fileCount
      ensures id == old(fileCount) && fileCount == id + 1 && trace == old(trace) + [Open(id, file, write)]
    {
      id := fileCount;
      trace := trace + [Open(id, file, write)];
      fileCount := fileCount + 1;
    }

    method Popen(argv: seq<string>, stdin: Source, stdout: Sink, stderr: Sink, env: seq<(string, string)>,
                 cwd: Option<string>)
      returns (process: nat)
      modifies `trace, `spawned
      ensures process == old(spawned) && spawned == process + 1
      ensures trace == old(trace) + [Spawn(argv, stdin, stdout, stderr, env, cwd)]
    {
      process := spawned;
      trace := trace + [Spawn(argv, stdin, stdout, stderr, env, cwd)];
      spawned := spawned + 1;
    }

    method Await(process: nat) returns (status: int)
      modifies `trace
      ensures status == exit(process) && trace == old(trace) + [Wait(process)]
    {
      trace := trace + [Wait(process)];
      status := exit(process);
    }

    method CloseFile(id: nat)
      modifies `trace
      ensures trace == old(trace) + [Close(id)]
    {
      trace := trace + [Close(id)];
    }

    // _exec_piped_commands
    method ExecPipedCommands(commands: seq<nat>) returns (retval: int)
      requires commands != [] && forall i :: 0 <= i < |commands| ==> commands[i] == commands[0] + i
      modifies `trace
      ensures trace == old(trace) + Waits(commands[0], |commands|)
      ensures retval == exit(commands[0] + |commands| - 1)
    {
      var retvals: seq<int> := [];
      for i := 0 to |commands|
        invariant |retvals| == i && forall j :: 0 <= j < i ==> retvals[j] == exit(commands[j])
        invariant trace == old(trace) + Waits(commands[0], i)
      {
        var status := Await(commands[i]);
        retvals := retvals + [status];
        assert Waits(commands[0], i + 1) == Waits(commands[0], i) + [Wait(commands[i])];
      }
      retval := 0;
      for i := 0 to |retvals|
        invariant retval == 0 && forall j :: 0 <= j < i ==> retvals[j] == 0
      {
        if retvals[i] != 0 {
          retval := retvals[|retvals| - 1];
          break;
        }
      }
      assert retvals[|retvals| - 1] == exit(commands[|commands| - 1]);
    }

    // The `finally` blocks: close everything but the null device, which is not listed.
    method CloseAll(files: seq<nat>)
      modifies `trace
      ensures trace == old(trace) + Closes(files)
    {
      for i := 0 to |files|
        invariant trace == old(trace) + Closes(files[..i])
      {
        CloseFile(files[i]);
        assert Closes(files[..i + 1]) == Closes(files[..i]) + [Close(files[i])];
      }
      assert files[..|files|] == files;
    }

    // _open_out_file, and the entry in files_to_close.
    method OpenOutFile(file: string, files: seq<nat>, ghost l: Launch, ghost base: seq<Event>)
      returns (sink: Sink, files': seq<nat>)
      requires trace == base + l.events && files == l.files && fileCount == l.fileCount
      modifies `trace, `fileCount
      ensures sink == WithFile(l, file).1
      ensures Tracks(base, WithFile(l, file).0, files')
    {
      if IsNull(file) {
        return DevNull, files;
      }
      var id := OpenFile(file, true);
      return IntoFile(id), files + [id];
    }

    ghost predicate Tracks(base: seq<Event>, l: Launch, files: seq<nat>)
      reads this
    {
      trace == base + l.events && files == l.files && fileCount == l.fileCount
    }

    method ConnectStdin(cmd: Node, piped: bool, files: seq<nat>, ghost l: Launch, ghost base: seq<Event>)
      returns (stdin: Source, files': seq<nat>)
      requires cmd.Command? && Tracks(base, l, files)
      modifies `trace, `fileCount
      ensures stdin == WithStdin(l, cmd, !piped).1 && Tracks(base, WithStdin(l, cmd, !piped).0, files')
    {
      if piped {
        return FromPrevious, files;
      } else if cmd.stdin != None {
        var id := OpenFile(cmd.stdin.value, false);
        return FromFile(id), files + [id];
      }
      return ParentStdin, files;
    }

    method ConnectStdout(cmd: Node, files: seq<nat>, ghost l: Launch, ghost base: seq<Event>)
      returns (stdout: Sink, files': seq<nat>)
      requires cmd.Command? && Tracks(base, l, files)
      modifies `trace, `fileCount
      ensures stdout == WithStdout(l, cmd).1 && Tracks(base, WithStdout(l, cmd).0, files')
    {
      stdout, files' := ParentStream, files;
      if cmd.stdout == ToPipe {
        stdout := PipeSink;
      } else if cmd.stdout != Inherit {
        stdout, files' := OpenOutFile(cmd.stdout.file, files, l, base);
      }
    }

    method ConnectStderr(cmd: Node, files: seq<nat>, ghost l: Launch, ghost base: seq<Event>)
      returns (stderr: Sink, files': seq<nat>)
      requires cmd.Command? && Tracks(base, l, files)
      modifies `trace, `fileCount
      ensures stderr == WithStderr(l, cmd).1 && Tracks(base, WithStderr(l, cmd).0, files')
    {
      stderr, files' := ParentStream, files;
      if cmd.stderr == SameAsStdout {
        stderr := OwnStdout;
      } else if cmd.stderr != SameAsParent {
        stderr, files' := OpenOutFile(cmd.stderr.file, files, l, base);
      }
    }

    // Start one command of a pipe.
    method StartCommand(cmd: Node, cwd: string, piped: bool, files: seq<nat>, ghost l: Launch, ghost base: seq<Event>)
      returns (process: nat, files': seq<nat>)
      requires cmd.Command? && Tracks(base, l, files)
      modifies `trace, `fileCount, `spawned
      ensures Tracks(base, LaunchStage(l, Stage(cmd, cwd), !piped), files')
      ensures process == old(spawned) && spawned == process + 1
    {
      hide WithStdin, WithStdout, WithStderr;
      var stdin, stdout, stderr;
      stdin, files' := ConnectStdin(cmd, piped, files, l, base);
      ghost var l1 := WithStdin(l, cmd, !piped).0;
      stdout, files' := ConnectStdout(cmd, files', l1, base);
      ghost var l2 := WithStdout(l1, cmd).0;
      stderr, files' := ConnectStderr(cmd, files', l2, base);
      process := Popen(cmd.argv, stdin, stdout, stderr, cmd.env, if cwd == "." then None else Some(cwd));
    }

    // Await a pipe and close its files.
    method FinishPipe(piped: seq<nat>, files: seq<nat>) returns (status: int)
      requires piped != [] && forall i :: 0 <= i < |piped| ==> piped[i] == piped[0] + i
      modifies `trace
      ensures trace == old(trace) + Waits(piped[0], |piped|) + Closes(files)
      ensures status == exit(piped[0] + |piped| - 1)
    {
      status := ExecPipedCommands(piped);
      CloseAll(files);
    }

    // run (), for a pipeline as the parser builds it.
    method Run(nodes: seq<Node>) returns (r: Outcome)
      requires Runnable(nodes) && trace == [] && fileCount == 0 && spawned == 0
      modifies this
      ensures Proper(ChainOf(nodes, ".", []))
      ensures Effect(trace, r) == Exec(ChainOf(nodes, ".", []), exit, 0, 0)
    {
      hide ChainOf, Exec, Proper, LaunchAll, LaunchStage, Waits, Closes, Join, Stops, Runnable, AllCommands, After;
      NotEmpty(nodes);
      ChainIsProper(nodes, ".", []);
      NothingLaunched(0);
      var pipeline := nodes;
      var files: seq<nat>, piped: seq<nat>, piping, cwd := [], [], false, ".";
      // the stages of the current pipe, and the counters and trace in front of it
      ghost var stages: seq<Stage>, o0: nat, s0: nat, base: seq<Event> := [], 0, 0, [];
      ghost var full := Exec(ChainOf(nodes, ".", []), exit, 0, 0);
      AfterNothing(full);
      while true
        invariant pipeline != [] && Runnable(pipeline) && AllCommands(stages) && Proper(ChainOf(pipeline, cwd, stages))
        invariant full == After(base, Exec(ChainOf(pipeline, cwd, stages), exit, o0, s0))
        invariant Tracks(base, LaunchAll(stages, o0), files)
        invariant |piped| == |stages| && spawned == s0 + |stages| && piping == (stages != [])
        invariant forall i :: 0 <= i < |piped| ==> piped[i] == s0 + i
        decreases |pipeline|
      {
        var node := pipeline[0];
        ChainStep(pipeline, cwd, stages);
        if node.Chdir? {
          if |pipeline| == 1 || node.dir == None {
            ExecBroken(stages, exit, o0, s0);
            AfterEvents(base, LaunchAll(stages, o0).events, Raises);
            return Raises;
          }
          cwd := Join(cwd, node.dir.value);
          pipeline := pipeline[2..];
        } else {
          var process;
          LaunchOneMore(stages, Stage(node, cwd), o0);
          process, files := StartCommand(node, cwd, piping, files, LaunchAll(stages, o0), base);
          piped := piped + [process];
          stages := stages + [Stage(node, cwd)];
          if |pipeline| == 1 {
            ExecEnd(stages, exit, o0, s0);
            ghost var done := LaunchAll(stages, o0).events + Waits(s0, |stages|) + Closes(files);
            Grouped(base, LaunchAll(stages, o0).events, Waits(s0, |stages|), Closes(files));
            var retval := FinishPipe(piped, files);
            AfterEvents(base, done, Exit(retval));
            return Exit(retval);
          }
          var next := pipeline[1];
          pipeline := pipeline[2..];
          if next == Pipe {
            piping := true;
          } else {
            ghost var done := LaunchAll(stages, o0).events + Waits(s0, |stages|) + Closes(files);
            AfterAfter(base, done, Exec(ChainOf(pipeline, cwd, []), exit, fileCount, spawned));
            ExecThen(stages, next, ChainOf(pipeline, cwd, []), exit, o0, s0);
            Grouped(base, LaunchAll(stages, o0).events, Waits(s0, |stages|), Closes(files));
            var status := FinishPipe(piped, files);
            AfterEvents(base, done, Exit(status));
            if Stops(next, status) {
              return Exit(status);
            }
            base := trace;
            o0, s0 := fileCount, spawned;
            files, piped, piping, stages := [], [], false, [];
            NothingLaunched(o0);
          }
        }
      }
    }
  }

  // An effect with earlier events in front.
  function After(base: seq<Event>, e: Effect): Effect {
    Effect(base + e.events, e.outcome)
  }

  lemma Grouped(base: seq<Event>, a: seq<Event>, b: seq<Event>, c: seq<Event>)
    ensures base + (a + b + c) == base + a + b + c
  {
  }

  lemma AfterNothing(e: Effect)
    ensures After([], e) == e
  {
    assert [] + e.events == e.events;
  }

  lemma AfterEvents(base: seq<Event>, events: seq<Event>, outcome: Outcome)
    ensures After(base, Effect(events, outcome)) == Effect(base + events, outcome)
  {
  }

  lemma AfterAfter(base: seq<Event>, done: seq<Event>, e: Effect)
    ensures After(base, After(done, e)) == After(base + done, e)
  {
    assert base + (done + e.events) == base + done + e.events;
  }

  lemma NothingLaunched(fileCount: nat)
    ensures AllCommands([]) && LaunchAll([], fileCount) == Launch([], [], fileCount)
  {
  }

  lemma NotEmpty(ns: seq<Node>)
    requires Runnable(ns)
    ensures ns != []
  {
  }

  lemma LaunchOneMore(stages: seq<Stage>, s: Stage, fileCount: nat)
    requires AllCommands(stages) && s.command.Command?
    ensures AllCommands(stages + [s])
    ensures LaunchAll(stages + [s], fileCount) == LaunchStage(LaunchAll(stages, fileCount), s, stages == [])
  {
    assert (stages + [s])[..|stages|] == stages;
  }

  lemma ChainStep(ns: seq<Node>, cwd: string, stages: seq<Stage>)
    requires Runnable(ns) && AllCommands(stages) && Proper(ChainOf(ns, cwd, stages))
    ensures ns[0].Command? || ns[0].Chdir?
    ensures |ns| > 1 ==> |ns| > 2 && Runnable(ns[2..])
    ensures ns[0].Chdir? && (|ns| == 1 || ns[0].dir.None?) ==> ChainOf(ns, cwd, stages) == Broken(stages)
    ensures ns[0].Chdir? && |ns| > 1 && ns[0].dir.Some? ==>
              ChainOf(ns, cwd, stages) == ChainOf(ns[2..], Join(cwd, ns[0].dir.value), stages)
    ensures var all := stages + [Stage(ns[0], cwd)];
            ns[0].Command? ==>
              && (|ns| == 1 ==> ChainOf(ns, cwd, stages) == End(all))
              && (|ns| > 1 && ns[1] == Pipe ==> ChainOf(ns, cwd, stages) == ChainOf(ns[2..], cwd, all))
              && (|ns| > 1 && ns[1] != Pipe ==>
                    ChainOf(ns, cwd, stages) == Then(all, ns[1], ChainOf(ns[2..], cwd, []))
                    && Proper(ChainOf(ns[2..], cwd, [])) && (ns[1] == And || ns[1] == Or))
  {
  }

  lemma ExecBroken(stages: seq<Stage>, exit: nat -> int, fileCount: nat, spawned: nat)
    requires Proper(Broken(stages))
    ensures Exec(Broken(stages), exit, fileCount, spawned) == Effect(LaunchAll(stages, fileCount).events, Raises)
  {
  }

  lemma ExecEnd(stages: seq<Stage>, exit: nat -> int, fileCount: nat, spawned: nat)
    requires Proper(End(stages))
    ensures var l := LaunchAll(stages, fileCount);
            Exec(End(stages), exit, fileCount, spawned)
            == Effect(l.events + Waits(spawned, |stages|) + Closes(l.files), Exit(exit(spawned + |stages| - 1)))
  {
  }

  lemma ExecThen(stages: seq<Stage>, op: Node, rest: Chain, exit: nat -> int, fileCount: nat, spawned: nat)
    requires Proper(Then(stages, op, rest)) && Proper(rest)
    ensures var l := LaunchAll(stages, fileCount);
            var done := l.events + Waits(spawned, |stages|) + Closes(l.files);
            var status := exit(spawned + |stages| - 1);
            Exec(Then(stages, op, rest), exit, fileCount, spawned)
            == if Stops(op, status) then Effect(done, Exit(status))
               else After(done, Exec(rest, exit, l.fileCount, spawned + |stages|))
  {
  }
}
