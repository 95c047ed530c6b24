// In which order a run opens files, starts processes, waits for them and closes the files.
module ShellOrder {
  import opened Wrappers
  import opened ShellParse
  import opened ShellRun

  // The processes started and awaited so far, the files opened so far, and those still open.
  datatype Books = Books(spawned: nat, awaited: nat, fileCount: nat, inUse: set<nat>)

  predicate SourceOpen(s: Source, inUse: set<nat>) {
    s.FromFile? ==> s.id in inUse
  }

  predicate SinkOpen(s: Sink, inUse: set<nat>) {
    s.IntoFile? ==> s.id in inUse
  }

  // A file gets a new number. A process finds its files open; the first of a pipe is started when
  // all before it have been awaited, the others while the one in front of them has not. Processes are
  // awaited in order, and a file is closed once every process has been.
  function PlayEvent(e: Event, b: Books): Option<Books> {
    match e
    case Open(id, _, _) =>
      if id == b.fileCount then Some(b.(fileCount := id + 1, inUse := b.inUse + {id})) else None
    case Spawn(_, stdin, stdout, stderr, _, _) =>
      if SourceOpen(stdin, b.inUse) && SinkOpen(stdout, b.inUse) && SinkOpen(stderr, b.inUse)
         && (stdin == FromPrevious <==> b.awaited < b.spawned)
      then Some(b.(spawned := b.spawned + 1)) else None
    case Wait(p) => if p == b.awaited && p < b.spawned then Some(b.(awaited := p + 1)) else None
    case Close(id) => if b.awaited == b.spawned && id in b.inUse then Some(b.(inUse := b.inUse - {id})) else None
  }

  function Play(events: seq<Event>, b: Books): Option<Books>
    decreases |events|
  {
    if events == [] then Some(b)
    else
      match PlayEvent(events[0], b)
      case None => None
      case Some(b') => Play(events[1..], b')
  }

  lemma {:induction false} PlayAppend(a: seq<Event>, b: seq<Event>, books: Books)
    ensures Play(a + b, books) == match Play(a, books) case None => None case Some(books') => Play(b, books')
    decreases |a|
  {
    hide PlayEvent;
    if a == [] {
      assert a + b == b;
    } else {
      assert (a + b)[1..] == a[1..] + b;
      if PlayEvent(a[0], books).Some? {
        PlayAppend(a[1..], b, PlayEvent(a[0], books).value);
      }
    }
  }

  predicate AtLeast(id: nat, n: nat) { id >= n }

  function FilesFrom(n: nat, m: nat): set<nat> {
    set id: nat | id < m && AtLeast(id, n)
  }

  // The books after opening files up to `m` and starting `n` processes.
  function Grown(b: Books, n: nat, m: nat): Books {
    b.(spawned := b.spawned + n, fileCount := m, inUse := b.inUse + FilesFrom(b.fileCount, m))
  }

  // A pipe being launched from these books: files opened, and `n` processes started.
  ghost predicate Launched(l: Launch, b: Books, n: nat) {
    && b.fileCount <= l.fileCount && |l.files| == l.fileCount - b.fileCount
    && (forall i :: 0 <= i < |l.files| ==> l.files[i] == b.fileCount + i)
    && Play(l.events, b) == Some(Grown(b, n, l.fileCount))
  }

  lemma PlayOne(e: Event, b: Books)
    ensures Play([e], b) == PlayEvent(e, b)
  {
    hide PlayEvent;
    assert [e][1..] == [];
  }

  lemma OpeningLaunched(l: Launch, b: Books, n: nat, file: string, write: bool)
    requires Launched(l, b, n)
    ensures Launched(Opening(l, file, write), b, n)
  {
    hide Play;
    var e := Open(l.fileCount, file, write);
    var books := Grown(b, n, l.fileCount);
    PlayAppend(l.events, [e], b);
    PlayOne(e, books);
    assert books.inUse + {l.fileCount} == b.inUse + FilesFrom(b.fileCount, l.fileCount + 1);
  }

  // The number of a file among those opened since `b`.
  predicate Since(b: Books, l: Launch, id: nat) {
    b.fileCount <= id < l.fileCount
  }

  lemma InputLaunched(l: Launch, b: Books, n: nat, c: Node, first: bool)
    requires c.Command? && Launched(l, b, n)
    ensures var (l', s) := WithStdin(l, c, first);
            && Launched(l', b, n) && l.fileCount <= l'.fileCount && (s.FromFile? ==> Since(b, l', s.id))
            && (s == FromPrevious <==> !first)
  {
    hide Launched;
    assert b.fileCount <= l.fileCount by { Counted(l, b, n); }
    if first && c.stdin.Some? {
      OpeningLaunched(l, b, n, c.stdin.value, false);
    }
  }

  lemma Counted(l: Launch, b: Books, n: nat)
    requires Launched(l, b, n)
    ensures b.fileCount <= l.fileCount
  {
  }

  lemma FileLaunched(l: Launch, b: Books, n: nat, file: string)
    requires Launched(l, b, n)
    ensures var (l', s) := WithFile(l, file);
            Launched(l', b, n) && l.fileCount <= l'.fileCount && (s.IntoFile? ==> Since(b, l', s.id))
  {
    hide Launched;
    Counted(l, b, n);
    if !IsNull(file) {
      OpeningLaunched(l, b, n, file, true);
    }
  }

  lemma StageLaunched(l: Launch, b: Books, n: nat, s: Stage)
    requires s.command.Command? && Launched(l, b, n) && b.awaited == b.spawned
    ensures Launched(LaunchStage(l, s, n == 0), b, n + 1)
  {
    hide Launched, WithStdin, WithFile;
    var c := s.command;
    var (l1, stdin) := WithStdin(l, c, n == 0);
    var (l2, stdout) := WithStdout(l1, c);
    var (l3, stderr) := WithStderr(l2, c);
    InputLaunched(l, b, n, c, n == 0);
    if c.stdout.ToFile? {
      FileLaunched(l1, b, n, c.stdout.file);
    }
    if c.stderr.ErrorFile? {
      FileLaunched(l2, b, n, c.stderr.file);
    }
    var spawn := Spawn(c.argv, stdin, stdout, stderr, c.env, if s.cwd == "." then None else Some(s.cwd));
    SpawnLaunched(l3, b, n, spawn);
  }

  lemma SpawnLaunched(l: Launch, b: Books, n: nat, e: Event)
    requires Launched(l, b, n) && b.awaited == b.spawned && e.Spawn? && (e.stdin == FromPrevious <==> n > 0)
    requires e.stdin.FromFile? ==> Since(b, l, e.stdin.id)
    requires e.stdout.IntoFile? ==> Since(b, l, e.stdout.id)
    requires e.stderr.IntoFile? ==> Since(b, l, e.stderr.id)
    ensures Launched(l.(events := l.events + [e]), b, n + 1)
  {
    hide Play;
    var books := Grown(b, n, l.fileCount);
    PlayAppend(l.events, [e], b);
    PlayOne(e, books);
  }

  lemma {:induction false} PipeLaunched(stages: seq<Stage>, b: Books)
    requires AllCommands(stages) && b.awaited == b.spawned
    ensures Launched(LaunchAll(stages, b.fileCount), b, |stages|)
  {
    hide LaunchStage;
    if stages == [] {
      NothingLaunched(b);
    } else {
      var k := |stages| - 1;
      PipeLaunched(stages[..k], b);
      StageLaunched(LaunchAll(stages[..k], b.fileCount), b, k, stages[k]);
    }
  }

  lemma NothingLaunched(b: Books)
    ensures Launched(Nothing(b.fileCount), b, 0)
  {
    assert b.inUse + FilesFrom(b.fileCount, b.fileCount) == b.inUse;
  }

  lemma {:induction false} WaitsPlay(b: Books, n: nat)
    requires b.awaited + n <= b.spawned
    ensures Play(Waits(b.awaited, n), b) == Some(b.(awaited := b.awaited + n))
  {
    hide Play;
    if n == 0 {
      PlayNothing(Waits(b.awaited, 0), b);
    } else {
      WaitsPlay(b, n - 1);
      var e := Wait(b.awaited + n - 1);
      assert Waits(b.awaited, n) == Waits(b.awaited, n - 1) + [e];
      PlayAppend(Waits(b.awaited, n - 1), [e], b);
      PlayOne(e, b.(awaited := b.awaited + n - 1));
    }
  }

  lemma PlayNothing(events: seq<Event>, b: Books)
    requires events == []
    ensures Play(events, b) == Some(b)
  {
  }

  lemma {:induction false} ClosesPlay(files: seq<nat>, b: Books, n: nat)
    requires b.awaited == b.spawned && (forall i :: 0 <= i < |files| ==> files[i] == n + i)
    requires b.inUse == FilesFrom(n, n + |files|)
    ensures Play(Closes(files), b) == Some(b.(inUse := {}))
    decreases |files|
  {
    hide Play;
    if files == [] {
      PlayNothing(Closes(files), b);
      assert b.inUse == {};
    } else {
      var b' := b.(inUse := b.inUse - {n});
      assert Closes(files) == [Event.Close(n)] + Closes(files[1..]);
      PlayAppend([Event.Close(n)], Closes(files[1..]), b);
      PlayOne(Event.Close(n), b);
      assert b'.inUse == FilesFrom(n + 1, n + 1 + |files[1..]|);
      ClosesPlay(files[1..], b', n + 1);
    }
  }

  // One pipe, from its first file to its last.
  lemma PipePlays(stages: seq<Stage>, spawned: nat, fileCount: nat)
    requires AllCommands(stages)
    ensures var l := LaunchAll(stages, fileCount);
            Play(l.events + Waits(spawned, |stages|) + Closes(l.files), Books(spawned, spawned, fileCount, {}))
            == Some(Books(spawned + |stages|, spawned + |stages|, l.fileCount, {}))
  {
    hide Play, LaunchAll;
    var l, n, b := LaunchAll(stages, fileCount), |stages|, Books(spawned, spawned, fileCount, {});
    PipeLaunched(stages, b);
    assert b.inUse + FilesFrom(fileCount, l.fileCount) == FilesFrom(fileCount, l.fileCount);
    var b1 := Books(spawned + n, spawned, l.fileCount, FilesFrom(fileCount, l.fileCount));
    PlayAppend(l.events, Waits(spawned, n), b);
    WaitsPlay(b1, n);
    PlayAppend(l.events + Waits(spawned, n), Closes(l.files), b);
    ClosesPlay(l.files, b1.(awaited := spawned + n), fileCount);
  }

  // Every run keeps this order; one that ends with a status leaves no file open and no process unawaited.
  lemma {:induction false} RunPlays(c: Chain, exit: nat -> int, fileCount: nat, spawned: nat)
    requires Proper(c)
    ensures var (e, b) := (Exec(c, exit, fileCount, spawned), Books(spawned, spawned, fileCount, {}));
            var r := Play(e.events, b);
            r.Some? && (e.outcome.Exit? ==> r.value.awaited == r.value.spawned && r.value.inUse == {})
    decreases c
  {
    hide Play, LaunchAll, Waits, Closes;
    var l, n, b := LaunchAll(c.stages, fileCount), |c.stages|, Books(spawned, spawned, fileCount, {});
    if c.Broken? {
      PipeLaunched(c.stages, b);
    } else {
      PipePlays(c.stages, spawned, fileCount);
      if c.Then? && !Stops(c.op, exit(spawned + n - 1)) {
        var rest := Exec(c.rest, exit, l.fileCount, spawned + n);
        PlayAppend(l.events + Waits(spawned, n) + Closes(l.files), rest.events, b);
        RunPlays(c.rest, exit, l.fileCount, spawned + n);
      }
    }
  }
}
