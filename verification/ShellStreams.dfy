// Where the processes of a pipeline read and write: as the program wires them, and as a POSIX shell
// does for the same tokens.
module ShellStreams {
  import opened Wrappers
  import opened ShellParse
  import opened ShellRun

  // A file by its name, and the directory the name starts from.
  datatype Place = Place(dir: string, file: string)

  function PlaceOf(cwd: string, file: string): Place {
    Place(if Absolute(file) then "/" else cwd, file)
  }

  // A stream of the parent, by its descriptor, a pipe to the neighbour, or a file with the way it is
  // opened.
  datatype Stream = Parent(fd: nat) | Piped | File(place: Place, write: bool)

  // A member of a pipe. Only a shell can have a `cd` there.
  datatype Member =
    | Process(argv: seq<string>, env: seq<(string, string)>, cwd: string,
              stdin: Stream, stdout: Stream, stderr: Stream)
    | DirectoryChange(dir: Option<string>)

  // ----- the program

  // Files are opened by the parent, which stays where it was started.
  function Written(file: string): Stream {
    File(PlaceOf(".", if IsNull(file) then "/dev/null" else file), true)
  }

  function OutputOf(c: Node): Stream
    requires c.Command?
  {
    match c.stdout
    case Inherit => Parent(1)
    case ToPipe => Piped
    case ToFile(f) => Written(f)
  }

  // Behind a | the input comes from the pipe, whatever the command names.
  function ByProgram(s: Stage, first: bool): Member {
    match s.command
    case Command(_, argv, stdin, _, stderr, env) =>
      var out := OutputOf(s.command);
      Process(argv, env, s.cwd,
              if !first then Piped else if stdin.Some? then File(PlaceOf(".", stdin.value), false) else Parent(0),
              out,
              match stderr case SameAsParent => Parent(2) case SameAsStdout => out case ErrorFile(f) => Written(f))
    case Chdir(dir) => DirectoryChange(dir)
    case _ => DirectoryChange(None)
  }

  function PipeByProgram(stages: seq<Stage>): seq<Member> {
    seq(|stages|, i requires 0 <= i < |stages| => ByProgram(stages[i], i == 0))
  }

  // ----- what the events of a run say

  // How a file was opened.
  datatype Opened = Opened(file: string, write: bool)

  // `names` are the files opened so far.
  function FileAt(id: nat, names: map<nat, Opened>): Stream {
    if id in names then File(PlaceOf(".", names[id].file), names[id].write) else Piped
  }

  function SourceOf(s: Source, names: map<nat, Opened>): Stream {
    match s
    case ParentStdin => Parent(0)
    case FromPrevious => Piped
    case FromFile(id) => FileAt(id, names)
  }

  function SinkOf(s: Sink, names: map<nat, Opened>, parent: Stream, out: Stream): Stream {
    match s
    case ParentStream => parent
    case PipeSink => Piped
    case OwnStdout => out
    case DevNull => File(PlaceOf(".", "/dev/null"), true)
    case IntoFile(id) => FileAt(id, names)
  }

  function NamesAfter(events: seq<Event>, names: map<nat, Opened>): map<nat, Opened> {
    if events == [] then names
    else
      match events[0]
      case Open(id, file, write) => NamesAfter(events[1..], names[id := Opened(file, write)])
      case _ => NamesAfter(events[1..], names)
  }

  // The processes that a run starts, in order.
  function ProcessesOf(events: seq<Event>, names: map<nat, Opened>): seq<Member> {
    if events == [] then []
    else
      match events[0]
      case Open(id, file, write) => ProcessesOf(events[1..], names[id := Opened(file, write)])
      case Spawn(argv, stdin, stdout, stderr, env, cwd) =>
        var out := SinkOf(stdout, names, Parent(1), Parent(1));
        [Process(argv, env, if cwd.Some? then cwd.value else ".", SourceOf(stdin, names), out,
                 SinkOf(stderr, names, Parent(2), out))]
        + ProcessesOf(events[1..], names)
      case _ => ProcessesOf(events[1..], names)
  }

  lemma {:induction false} ProcessesAppend(a: seq<Event>, b: seq<Event>, names: map<nat, Opened>)
    ensures ProcessesOf(a + b, names) == ProcessesOf(a, names) + ProcessesOf(b, NamesAfter(a, names))
    ensures NamesAfter(a + b, names) == NamesAfter(b, NamesAfter(a, names))
    decreases |a|
  {
    hide SourceOf, SinkOf;
    if a == [] {
      assert a + b == b;
    } else {
      assert (a + b)[1..] == a[1..] + b;
      ProcessesAppend(a[1..], b, if a[0].Open? then names[a[0].id := Opened(a[0].file, a[0].write)] else names);
    }
  }

  lemma NoneByOpen(id: nat, file: string, write: bool, names: map<nat, Opened>)
    ensures ProcessesOf([Open(id, file, write)], names) == []
    ensures NamesAfter([Open(id, file, write)], names) == names[id := Opened(file, write)]
  {
    assert [Open(id, file, write)][1..] == [];
  }

  lemma {:induction false} NoneByWaiting(events: seq<Event>, names: map<nat, Opened>)
    requires forall i :: 0 <= i < |events| ==> events[i].Wait? || events[i].Close?
    ensures ProcessesOf(events, names) == [] && NamesAfter(events, names) == names
    decreases |events|
  {
    if events != [] {
      NoneByWaiting(events[1..], names);
    }
  }

  // What an opened launch knows of its files.
  ghost predicate Knows(l: Launch, names: map<nat, Opened>, made: seq<Member>, names': map<nat, Opened>) {
    ProcessesOf(l.events, names) == made && NamesAfter(l.events, names) == names'
  }

  lemma OpeningKnows(l: Launch, file: string, write: bool, names: map<nat, Opened>, made: seq<Member>,
                     names': map<nat, Opened>)
    requires Knows(l, names, made, names')
    ensures Knows(Opening(l, file, write), names, made, names'[l.fileCount := Opened(file, write)])
  {
    hide ProcessesOf, NamesAfter;
    ProcessesAppend(l.events, [Open(l.fileCount, file, write)], names);
    NoneByOpen(l.fileCount, file, write, names');
    assert made + [] == made;
  }

  // Later files change nothing about the earlier ones.
  ghost predicate Extends(names: map<nat, Opened>, names': map<nat, Opened>, n: nat) {
    forall id: nat :: id < n ==> (id in names' <==> id in names) && (id in names ==> names'[id] == names[id])
  }

  lemma InputKnown(l: Launch, c: Node, first: bool, names: map<nat, Opened>, made: seq<Member>,
                   names0: map<nat, Opened>)
    returns (names': map<nat, Opened>)
    requires c.Command? && Knows(l, names, made, names0)
    ensures var (l', stdin) := WithStdin(l, c, first);
            && Knows(l', names, made, names') && l.fileCount <= l'.fileCount
            && (stdin.FromFile? ==> stdin.id < l'.fileCount)
            && SourceOf(stdin, names')
               == if !first then Piped
                  else if c.stdin.Some? then File(PlaceOf(".", c.stdin.value), false) else Parent(0)
  {
    hide Knows;
    names' := names0;
    if first && c.stdin.Some? {
      OpeningKnows(l, c.stdin.value, false, names, made, names0);
      names' := names0[l.fileCount := Opened(c.stdin.value, false)];
    }
  }

  lemma FileKnown(l: Launch, file: string, names: map<nat, Opened>, made: seq<Member>, names0: map<nat, Opened>)
    returns (names': map<nat, Opened>)
    requires Knows(l, names, made, names0)
    ensures var (l', sink) := WithFile(l, file);
            && Knows(l', names, made, names') && l.fileCount <= l'.fileCount && Extends(names0, names', l.fileCount)
            && (sink.IntoFile? ==> sink.id < l'.fileCount)
            && (sink.IntoFile? || sink.DevNull?)
            && forall parent, out :: SinkOf(sink, names', parent, out) == Written(file)
  {
    hide Knows;
    names' := names0;
    if !IsNull(file) {
      OpeningKnows(l, file, true, names, made, names0);
      names' := names0[l.fileCount := Opened(file, true)];
    }
  }

  lemma OutputKnown(l: Launch, c: Node, names: map<nat, Opened>, made: seq<Member>, names0: map<nat, Opened>)
    returns (names': map<nat, Opened>)
    requires c.Command? && Knows(l, names, made, names0)
    ensures var (l', sink) := WithStdout(l, c);
            && Knows(l', names, made, names') && l.fileCount <= l'.fileCount && Extends(names0, names', l.fileCount)
            && (sink.IntoFile? ==> sink.id < l'.fileCount)
            && SinkOf(sink, names', Parent(1), Parent(1)) == OutputOf(c)
  {
    hide Knows, WithFile, Written;
    names' := names0;
    if c.stdout.ToFile? {
      names' := FileKnown(l, c.stdout.file, names, made, names0);
    }
  }

  lemma ErrorKnown(l: Launch, c: Node, names: map<nat, Opened>, made: seq<Member>, names0: map<nat, Opened>)
    returns (names': map<nat, Opened>)
    requires c.Command? && Knows(l, names, made, names0)
    ensures var (l', sink) := WithStderr(l, c);
            && Knows(l', names, made, names') && l.fileCount <= l'.fileCount && Extends(names0, names', l.fileCount)
            && forall out ::
                 SinkOf(sink, names', Parent(2), out)
                 == match c.stderr
                    case SameAsParent => Parent(2)
                    case SameAsStdout => out
                    case ErrorFile(f) => Written(f)
  {
    hide Knows, WithFile, Written;
    names' := names0;
    if c.stderr.ErrorFile? {
      names' := FileKnown(l, c.stderr.file, names, made, names0);
    }
  }

  lemma StageStarts(l: Launch, s: Stage, first: bool, names: map<nat, Opened>, made: seq<Member>,
                    names0: map<nat, Opened>)
    returns (names': map<nat, Opened>)
    requires s.command.Command? && Knows(l, names, made, names0)
    ensures Knows(LaunchStage(l, s, first), names, made + [ByProgram(s, first)], names')
  {
    hide Knows, WithStdin, WithStdout, WithStderr, OutputOf, Written;
    var c := s.command;
    var (l1, stdin) := WithStdin(l, c, first);
    var (l2, stdout) := WithStdout(l1, c);
    var (l3, stderr) := WithStderr(l2, c);
    var names1 := InputKnown(l, c, first, names, made, names0);
    var names2 := OutputKnown(l1, c, names, made, names1);
    names' := ErrorKnown(l2, c, names, made, names2);
    var spawn := Spawn(c.argv, stdin, stdout, stderr, c.env, if s.cwd == "." then None else Some(s.cwd));
    SpawnKnows(l3, spawn, names, made, names');
    assert SourceOf(stdin, names') == SourceOf(stdin, names1);
    assert SinkOf(stdout, names', Parent(1), Parent(1)) == OutputOf(c);
    assert ByProgram(s, first) == Spawned(spawn, names');
  }

  function Spawned(e: Event, names: map<nat, Opened>): Member
    requires e.Spawn?
  {
    var out := SinkOf(e.stdout, names, Parent(1), Parent(1));
    Process(e.argv, e.env, if e.cwd.Some? then e.cwd.value else ".", SourceOf(e.stdin, names), out,
            SinkOf(e.stderr, names, Parent(2), out))
  }

  lemma SpawnKnows(l: Launch, e: Event, names: map<nat, Opened>, made: seq<Member>, names': map<nat, Opened>)
    requires e.Spawn? && Knows(l, names, made, names')
    ensures Knows(l.(events := l.events + [e]), names, made + [Spawned(e, names')], names')
  {
    ProcessesAppend(l.events, [e], names);
    assert [e][1..] == [];
  }

  // Launching a pipe starts the processes wired so.
  lemma {:induction false} LaunchStarts(stages: seq<Stage>, fileCount: nat, names: map<nat, Opened>)
    returns (names': map<nat, Opened>)
    requires AllCommands(stages)
    ensures Knows(LaunchAll(stages, fileCount), names, PipeByProgram(stages), names')
  {
    hide LaunchStage, ByProgram;
    if stages == [] {
      names' := names;
    } else {
      var k := |stages| - 1;
      var names0 := LaunchStarts(stages[..k], fileCount, names);
      names' := StageStarts(LaunchAll(stages[..k], fileCount), stages[k], k == 0, names, PipeByProgram(stages[..k]),
                            names0);
      assert PipeByProgram(stages) == PipeByProgram(stages[..k]) + [ByProgram(stages[k], k == 0)];
    }
  }

  // ----- the shell

  // A command or `cd` of a shell's pipeline. Redirections are done from the left; `early` says that
  // the error output was joined to the output in front of a redirection of the output.
  datatype Part = Part(node: Node, early: bool)

  // Section 2.7 of the POSIX Shell Command Language: the pipes of section 2.9.2 are connected first,
  // and files are opened by the command, where it runs.
  function ByShell(p: Part, cwd: string, first: bool, last: bool): Member {
    match p.node
    case Command(_, argv, stdin, stdout, stderr, env) =>
      var out := if last then Parent(1) else Piped;
      var out' := if stdout.ToFile? then File(PlaceOf(cwd, stdout.file), true) else out;
      Process(argv, env, cwd,
              if stdin.Some? then File(PlaceOf(cwd, stdin.value), false) else if first then Parent(0) else Piped,
              out',
              match stderr
              case SameAsParent => Parent(2)
              case SameAsStdout => if p.early then out else out'
              case ErrorFile(f) => File(PlaceOf(cwd, f), true))
    case Chdir(dir) => DirectoryChange(dir)
    case _ => DirectoryChange(None)
  }

  function PipeByShell(pipe: seq<Part>, cwd: string): seq<Member> {
    seq(|pipe|, i requires 0 <= i < |pipe| => ByShell(pipe[i], cwd, i == 0, i == |pipe| - 1))
  }

  // Whether the error output of each node was joined early, with `early` for the node begun.
  function Marks(st: State, tokens: seq<string>, early: bool): seq<bool>
    decreases |tokens|
  {
    if tokens == [] then [early]
    else
      match Next(st, tokens[0])
      case None => []
      case Some(st') =>
        if st'.pipeline != st.pipeline then [early, false] + Marks(st', tokens[1..], false)
        else Marks(st', tokens[1..], early || JoinedBefore(st, tokens[0]))
  }

  // The output is redirected and the error output has been joined to it.
  predicate JoinedBefore(st: State, token: string) {
    st.mode == InCommand && token == ">" && st.current.Some? && st.current.value.Command?
    && st.current.value.stderr == SameAsStdout
  }

  // The mark of a node by the number of nodes and operators from there on.
  function Early(tokens: seq<string>): nat -> bool {
    var marks := Marks(START, tokens, false);
    (n: nat) => 0 < n <= |marks| && marks[|marks| - n]
  }

  // There is a mark for every node and operator.
  lemma {:induction false} MarksFit(st: State, tokens: seq<string>, early: bool)
    requires Feed(st, tokens).Some? && ShellParse.Close(Feed(st, tokens).value).Some?
    ensures |st.pipeline| + |Marks(st, tokens, early)| == |ShellParse.Close(Feed(st, tokens).value).value|
    decreases |tokens|
  {
    if tokens != [] {
      var st' := Next(st, tokens[0]).value;
      PipelineGrows(st, tokens[0]);
      MarksFit(st', tokens[1..],
               if st'.pipeline != st.pipeline then false else early || JoinedBefore(st, tokens[0]));
    }
  }

  lemma PipelineGrows(st: State, token: string)
    requires Next(st, token).Some?
    ensures Next(st, token).value.pipeline == st.pipeline || |Next(st, token).value.pipeline| == |st.pipeline| + 2
  {
    hide EnvMatch;
  }

  // ----- the condition for one command


  // No input named behind a |, no file by a relative name behind a `cd`, no output to what is the
  // null device elsewhere, and no error output joined in front of a redirection of the output.
  predicate WiredAlike(c: Node, piped: bool, moved: bool, early: bool)
    requires c.Command?
  {
    && (c.stdin.Some? ==> !piped && (moved ==> Absolute(c.stdin.value)))
    && (c.stdout.ToFile? ==>
          && (moved ==> Absolute(c.stdout.file)) && c.stdout.file != "NUL:"
          && !(early && c.stderr.SameAsStdout?))
    && (c.stderr.ErrorFile? ==> (moved ==> Absolute(c.stderr.file)) && c.stderr.file != "NUL:")
  }

  lemma WiredAlikeExactly(c: Node, cwd: string, first: bool, last: bool, early: bool)
    requires c.Command? && (c.stdout == ToPipe <==> !last)
    ensures ByProgram(Stage(c, cwd), first) == ByShell(Part(c, early), cwd, first, last)
       <==> WiredAlike(c, !first, cwd != ".", early)
  {
  }
}
