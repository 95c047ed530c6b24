// What running a pipeline guarantees: when it raises, and that nothing it opened or started
// is left behind.
module ShellLists {
  import opened ShellParse
  import opened ShellRun

  // ----- when it raises

  // No `cd` in the chain is at the end of the list or without a directory.
  predicate Whole(c: Chain) {
    match c
    case End(_) => true
    case Broken(_) => false
    case Then(_, _, rest) => Whole(rest)
  }

  predicate EndsInCommand(ns: seq<Node>) {
    && ns != [] && ns[|ns| - 1].Command?
    && forall i :: 0 <= i < |ns| && ns[i].Chdir? ==> ns[i].dir.Some?
  }

  lemma {:induction false} WholeExactly(ns: seq<Node>, cwd: string, stages: seq<Stage>)
    requires Runnable(ns)
    ensures Whole(ChainOf(ns, cwd, stages)) <==> EndsInCommand(ns)
    decreases |ns|
  {
    if |ns| > 1 {
      var rest := ns[2..];
      assert rest[|rest| - 1] == ns[|ns| - 1];
      assert EndsInCommand(ns) <==> EndsInCommand(rest) && (ns[0].Chdir? ==> ns[0].dir.Some?) by {
        assert forall i :: 2 <= i < |ns| ==> rest[i - 2] == ns[i];
      }
      if ns[0].Chdir? {
        if ns[0].dir.Some? {
          WholeExactly(rest, Join(cwd, ns[0].dir.value), stages);
        }
      } else if ns[1] == Pipe {
        WholeExactly(rest, cwd, stages + [Stage(ns[0], cwd)]);
      } else {
        WholeExactly(rest, cwd, []);
      }
    }
  }

  // Statuses with which no operator stops the list.
  function GoOn(c: Chain, spawned: nat, k: nat): int {
    if c.Then? then
      if k < spawned + |c.stages| then (if c.op == Or then 1 else 0) else GoOn(c.rest, spawned + |c.stages|, k)
    else 0
  }

  lemma {:induction false} WholeNeverRaises(c: Chain, exit: nat -> int, fileCount: nat, spawned: nat)
    requires Proper(c) && Whole(c)
    ensures Exec(c, exit, fileCount, spawned).outcome.Exit?
    decreases c
  {
    if c.Then? {
      WholeNeverRaises(c.rest, exit, LaunchAll(c.stages, fileCount).fileCount, spawned + |c.stages|);
    }
  }

  lemma {:induction false} BrokenIsReached(c: Chain, exit: nat -> int, fileCount: nat, spawned: nat)
    requires Proper(c) && !Whole(c)
    requires forall k :: k >= spawned ==> exit(k) == GoOn(c, spawned, k)
    ensures Exec(c, exit, fileCount, spawned).outcome.Raises?
    decreases c
  {
    if c.Then? {
      var next := spawned + |c.stages|;
      assert exit(next - 1) == GoOn(c, spawned, next - 1);
      BrokenIsReached(c.rest, exit, LaunchAll(c.stages, fileCount).fileCount, next);
    }
  }

  // A parsed pipeline runs to an exit status, whatever its processes return, exactly
  // when it ends in a command and every `cd` names a directory.
  lemma NeverRaisesExactly(ns: seq<Node>)
    requires WellFormed(ns)
    ensures Runnable(ns) && Proper(ChainOf(ns, ".", []))
    ensures (forall exit :: Exec(ChainOf(ns, ".", []), exit, 0, 0).outcome.Exit?) <==> EndsInCommand(ns)
  {
    WellFormedIsRunnable(ns);
    ChainIsProper(ns, ".", []);
    WholeExactly(ns, ".", []);
    var c := ChainOf(ns, ".", []);
    if Whole(c) {
      forall exit ensures Exec(c, exit, 0, 0).outcome.Exit? {
        WholeNeverRaises(c, exit, 0, 0);
      }
    } else {
      BrokenIsReached(c, (k: nat) => GoOn(c, 0, k), 0, 0);
    }
  }

  // ----- nothing is left behind

  function Opens(es: seq<Event>): seq<nat> {
    if es == [] then []
    else Opens(es[..|es| - 1]) + if es[|es| - 1].Open? then [es[|es| - 1].id] else []
  }

  function Closed(es: seq<Event>): seq<nat> {
    if es == [] then []
    else Closed(es[..|es| - 1]) + if es[|es| - 1].Close? then [es[|es| - 1].id] else []
  }

  function Awaited(es: seq<Event>): seq<nat> {
    if es == [] then []
    else Awaited(es[..|es| - 1]) + if es[|es| - 1].Wait? then [es[|es| - 1].process] else []
  }

  // The argument vectors of the processes started.
  function Started(es: seq<Event>): seq<seq<string>> {
    if es == [] then []
    else Started(es[..|es| - 1]) + if es[|es| - 1].Spawn? then [es[|es| - 1].argv] else []
  }

  lemma OneMore(es: seq<Event>, e: Event)
    ensures Opens(es + [e]) == Opens(es) + if e.Open? then [e.id] else []
    ensures Closed(es + [e]) == Closed(es) + if e.Close? then [e.id] else []
    ensures Awaited(es + [e]) == Awaited(es) + if e.Wait? then [e.process] else []
    ensures Started(es + [e]) == Started(es) + if e.Spawn? then [e.argv] else []
  {
    assert (es + [e])[..|es|] == es;
  }

  lemma {:induction false} Split(a: seq<Event>, b: seq<Event>)
    ensures Opens(a + b) == Opens(a) + Opens(b) && Closed(a + b) == Closed(a) + Closed(b)
    ensures Awaited(a + b) == Awaited(a) + Awaited(b) && Started(a + b) == Started(a) + Started(b)
    decreases |b|
  {
    hide Opens, Closed, Awaited, Started;
    if b == [] {
      SplitNothing(a);
    } else {
      SplitStep(a, b);
      Split(a, b[..|b| - 1]);
    }
  }

  lemma SplitNothing(a: seq<Event>)
    ensures a + [] == a && Opens([]) == [] && Closed([]) == [] && Awaited([]) == [] && Started([]) == []
  {
  }

  lemma SplitStep(a: seq<Event>, b: seq<Event>)
    requires b != []
    ensures var c, e := b[..|b| - 1], b[|b| - 1];
            && Opens(a + b) == Opens(a + c) + (if e.Open? then [e.id] else [])
            && Opens(b) == Opens(c) + (if e.Open? then [e.id] else [])
            && Closed(a + b) == Closed(a + c) + (if e.Close? then [e.id] else [])
            && Closed(b) == Closed(c) + (if e.Close? then [e.id] else [])
            && Awaited(a + b) == Awaited(a + c) + (if e.Wait? then [e.process] else [])
            && Awaited(b) == Awaited(c) + (if e.Wait? then [e.process] else [])
            && Started(a + b) == Started(a + c) + (if e.Spawn? then [e.argv] else [])
            && Started(b) == Started(c) + (if e.Spawn? then [e.argv] else [])
  {
    hide Opens, Closed, Awaited, Started;
    var c, e := b[..|b| - 1], b[|b| - 1];
    assert b == c + [e] && a + b == (a + c) + [e];
    OneMore(c, e);
    OneMore(a + c, e);
  }

  function From(n: nat, count: nat): seq<nat> {
    seq(count, i requires 0 <= i < count => n + i)
  }

  // Events and files of a launch, taken together.
  ghost predicate Accounted(l: Launch, start: nat, started: seq<seq<string>>) {
    && start <= l.fileCount && l.files == From(start, l.fileCount - start)
    && Opens(l.events) == l.files && Closed(l.events) == [] && Awaited(l.events) == []
    && Started(l.events) == started
  }

  lemma OpeningAccounted(l: Launch, start: nat, started: seq<seq<string>>, file: string, write: bool)
    requires Accounted(l, start, started)
    ensures Accounted(Opening(l, file, write), start, started)
  {
    var e := Open(l.fileCount, file, write);
    assert (l.events + [e])[..|l.events|] == l.events;
  }

  lemma StageAccounted(l: Launch, start: nat, started: seq<seq<string>>, s: Stage, first: bool)
    requires Accounted(l, start, started) && s.command.Command?
    ensures Accounted(LaunchStage(l, s, first), start, started + [s.command.argv])
  {
    hide Accounted, Opening;
    var c := s.command;
    if first && c.stdin.Some? {
      OpeningAccounted(l, start, started, c.stdin.value, false);
    }
    var l1 := WithStdin(l, c, first).0;
    if c.stdout.ToFile? {
      OpeningAccounted(l1, start, started, c.stdout.file, true);
    }
    var l2 := WithStdout(l1, c).0;
    if c.stderr.ErrorFile? {
      OpeningAccounted(l2, start, started, c.stderr.file, true);
    }
    var (l3, stderr) := WithStderr(l2, c);
    SpawnAccounted(l3, start, started, LaunchStage(l, s, first).events[|l3.events|]);
  }

  lemma SpawnAccounted(l: Launch, start: nat, started: seq<seq<string>>, e: Event)
    requires Accounted(l, start, started) && e.Spawn?
    ensures Accounted(l.(events := l.events + [e]), start, started + [e.argv])
  {
    assert (l.events + [e])[..|l.events|] == l.events;
  }

  function Argvs(stages: seq<Stage>): seq<seq<string>>
    requires AllCommands(stages)
  {
    seq(|stages|, i requires 0 <= i < |stages| => stages[i].command.argv)
  }

  lemma {:induction false} AllAccounted(stages: seq<Stage>, start: nat)
    requires AllCommands(stages)
    ensures Accounted(LaunchAll(stages, start), start, Argvs(stages))
  {
    hide LaunchStage;
    if stages != [] {
      var k := |stages| - 1;
      AllAccounted(stages[..k], start);
      StageAccounted(LaunchAll(stages[..k], start), start, Argvs(stages[..k]), stages[k], k == 0);
      assert Argvs(stages) == Argvs(stages[..k]) + [stages[k].command.argv];
    }
  }

  lemma {:induction false} WaitsAre(from: nat, n: nat)
    ensures Awaited(Waits(from, n)) == From(from, n)
    ensures Opens(Waits(from, n)) == [] && Closed(Waits(from, n)) == [] && Started(Waits(from, n)) == []
  {
    if n > 0 {
      WaitsAre(from, n - 1);
      assert Waits(from, n)[..n - 1] == Waits(from, n - 1);
    }
  }

  lemma {:induction false} ClosesAre(files: seq<nat>)
    ensures Closed(Closes(files)) == files
    ensures Opens(Closes(files)) == [] && Awaited(Closes(files)) == [] && Started(Closes(files)) == []
  {
    if files != [] {
      var k := |files| - 1;
      ClosesAre(files[..k]);
      assert Closes(files)[..k] == Closes(files[..k]);
    }
  }

  // The pipes that are run, counted from the front of the chain.
  function PipesRun(c: Chain, exit: nat -> int, spawned: nat): nat
    requires Proper(c)
  {
    if c.Then? && !Stops(c.op, exit(spawned + |c.stages| - 1)) then 1 + PipesRun(c.rest, exit, spawned + |c.stages|)
    else 1
  }

  // The commands of the first `n` pipes.
  function FirstPipes(c: Chain, n: nat): seq<seq<string>>
    requires Proper(c)
  {
    if n == 0 then [] else Argvs(c.stages) + if c.Then? then FirstPipes(c.rest, n - 1) else []
  }

  // The events start these commands, await each process once and in order, and close
  // each file that they open, once and in order.
  ghost predicate Clean(es: seq<Event>, started: seq<seq<string>>, fileCount: nat, spawned: nat) {
    && Started(es) == started
    && Awaited(es) == From(spawned, |started|)
    && Closed(es) == Opens(es) == From(fileCount, |Opens(es)|)
  }

  lemma CleanAppend(a: seq<Event>, startedA: seq<seq<string>>, b: seq<Event>, startedB: seq<seq<string>>,
                    fileCount: nat, spawned: nat)
    requires Clean(a, startedA, fileCount, spawned)
    requires Clean(b, startedB, fileCount + |Opens(a)|, spawned + |startedA|)
    ensures Clean(a + b, startedA + startedB, fileCount, spawned)
  {
    Split(a, b);
    assert From(spawned, |startedA|) + From(spawned + |startedA|, |startedB|) == From(spawned, |startedA| + |startedB|);
    var n, k := |Opens(a)|, |Opens(b)|;
    assert From(fileCount, n) + From(fileCount + n, k) == From(fileCount, n + k);
  }

  lemma PipeIsClean(stages: seq<Stage>, fileCount: nat, spawned: nat)
    requires AllCommands(stages)
    ensures var l := LaunchAll(stages, fileCount);
            var done := l.events + Waits(spawned, |stages|) + Closes(l.files);
            Clean(done, Argvs(stages), fileCount, spawned) && l.fileCount == fileCount + |Opens(done)|
  {
    hide LaunchAll, Waits, Closes, Opens, Closed, Awaited, Started;
    var l := LaunchAll(stages, fileCount);
    AllAccounted(stages, fileCount);
    WaitsAre(spawned, |stages|);
    ClosesAre(l.files);
    Split(l.events, Waits(spawned, |stages|));
    Split(l.events + Waits(spawned, |stages|), Closes(l.files));
  }

  lemma FirstPipesStep(c: Chain, n: nat)
    requires Proper(c)
    ensures FirstPipes(c, n + 1) == Argvs(c.stages) + if c.Then? then FirstPipes(c.rest, n) else []
    ensures FirstPipes(c, 1) == Argvs(c.stages)
  {
  }

  // A run that does not raise has started exactly the commands of the pipes up to the
  // one it stopped behind, in order; has awaited each process once, in order; and has
  // closed each file it opened once.
  lemma {:induction false} NothingLeftBehind(c: Chain, exit: nat -> int, fileCount: nat, spawned: nat)
    requires Proper(c) && Exec(c, exit, fileCount, spawned).outcome.Exit?
    ensures Clean(Exec(c, exit, fileCount, spawned).events, FirstPipes(c, PipesRun(c, exit, spawned)),
                  fileCount, spawned)
    decreases c
  {
    hide LaunchAll, Waits, Closes, Stops, AllCommands, Clean, FirstPipes, Argvs, Opens;
    var l := LaunchAll(c.stages, fileCount);
    var done := l.events + Waits(spawned, |c.stages|) + Closes(l.files);
    PipeIsClean(c.stages, fileCount, spawned);
    FirstPipesStep(c, 0);
    if c.Then? && !Stops(c.op, exit(spawned + |c.stages| - 1)) {
      var next := spawned + |c.stages|;
      ArgvsCount(c.stages);
      NothingLeftBehind(c.rest, exit, l.fileCount, next);
      FirstPipesStep(c, PipesRun(c.rest, exit, next));
      CleanAppend(done, Argvs(c.stages), Exec(c.rest, exit, l.fileCount, next).events,
                  FirstPipes(c.rest, PipesRun(c.rest, exit, next)), fileCount, spawned);
    }
  }

  lemma ArgvsCount(stages: seq<Stage>)
    requires AllCommands(stages)
    ensures |Argvs(stages)| == |stages|
  {
  }
}
