// Which commands a pipeline starts, compared with what a POSIX shell starts for the same tokens.
// Words are taken as they are, as if quoted.
module PosixLists {
  import opened Wrappers
  import opened ShellParse
  import opened ShellRun
  import opened ShellLists
  import opened ShellStreams

  // The pipes that were run, in order, and the status of the list.
  datatype Ran<T> = Ran(pipes: seq<seq<T>>, status: int)

  function Before<T>(pipe: seq<T>, r: Ran<T>): Ran<T> {
    Ran([pipe] + r.pipes, r.status)
  }

  // ----- the program

  // What a chain runs: what stands behind an operator is its operand as a whole.
  function ChainRuns(c: Chain, exit: nat -> int, spawned: nat): Ran<Stage>
    requires Proper(c) && Whole(c)
  {
    var next := spawned + |c.stages|;
    var status := exit(next - 1);
    if c.Then? && !Stops(c.op, status) then Before(c.stages, ChainRuns(c.rest, exit, next))
    else Ran([c.stages], status)
  }

  // The events of pipes that are run one after the other.
  function EventsOf(pipes: seq<seq<Stage>>, fileCount: nat, spawned: nat): seq<Event>
    requires forall i :: 0 <= i < |pipes| ==> AllCommands(pipes[i])
  {
    if pipes == [] then []
    else
      var l := LaunchAll(pipes[0], fileCount);
      var n := |pipes[0]|;
      l.events + Waits(spawned, n) + Closes(l.files) + EventsOf(pipes[1..], l.fileCount, spawned + n)
  }

  lemma {:induction false} ChainRunsCommands(c: Chain, exit: nat -> int, spawned: nat)
    requires Proper(c) && Whole(c)
    ensures forall i :: 0 <= i < |ChainRuns(c, exit, spawned).pipes| ==>
              AllCommands(ChainRuns(c, exit, spawned).pipes[i])
    decreases c
  {
    hide AllCommands;
    if c.Then? && !Stops(c.op, exit(spawned + |c.stages| - 1)) {
      ChainRunsCommands(c.rest, exit, spawned + |c.stages|);
    }
  }

  // A run does exactly that: its events are those of these pipes and its outcome is this status.
  lemma {:induction false} ExecRunsChain(c: Chain, exit: nat -> int, fileCount: nat, spawned: nat)
    requires Proper(c) && Whole(c)
    ensures var r := ChainRuns(c, exit, spawned);
            && (forall i :: 0 <= i < |r.pipes| ==> AllCommands(r.pipes[i]))
            && Exec(c, exit, fileCount, spawned) == Effect(EventsOf(r.pipes, fileCount, spawned), Exit(r.status))
    decreases c
  {
    hide AllCommands, LaunchAll, Waits, Closes;
    ChainRunsCommands(c, exit, spawned);
    var r := ChainRuns(c, exit, spawned);
    var l, next := LaunchAll(c.stages, fileCount), spawned + |c.stages|;
    var done := l.events + Waits(spawned, |c.stages|) + Closes(l.files);
    if c.Then? && !Stops(c.op, exit(next - 1)) {
      ExecRunsChain(c.rest, exit, l.fileCount, next);
      assert r.pipes[1..] == ChainRuns(c.rest, exit, next).pipes;
    } else {
      assert r.pipes[1..] == [];
      assert done + [] == done;
    }
  }

  // The processes of these pipes, with their streams.
  function Wired(r: Ran<Stage>): Ran<Member> {
    Ran(seq(|r.pipes|, i requires 0 <= i < |r.pipes| => PipeByProgram(r.pipes[i])), r.status)
  }

  function ProgramRuns(c: Chain, exit: nat -> int, spawned: nat): Ran<Member>
    requires Proper(c) && Whole(c)
  {
    Wired(ChainRuns(c, exit, spawned))
  }

  function Flat<T>(pipes: seq<seq<T>>): seq<T> {
    if pipes == [] then [] else pipes[0] + Flat(pipes[1..])
  }

  lemma ProgramStep(c: Chain, exit: nat -> int, spawned: nat)
    requires Proper(c) && Whole(c)
    ensures var next := spawned + |c.stages|;
            var status := exit(next - 1);
            ProgramRuns(c, exit, spawned)
            == if c.Then? && !Stops(c.op, status)
               then Before(PipeByProgram(c.stages), ProgramRuns(c.rest, exit, next))
               else Ran([PipeByProgram(c.stages)], status)
  {
    hide PipeByProgram;
  }

  lemma FirstEvents(pipes: seq<seq<Stage>>, fileCount: nat, spawned: nat)
    requires pipes != [] && forall i :: 0 <= i < |pipes| ==> AllCommands(pipes[i])
    ensures var l, n := LaunchAll(pipes[0], fileCount), |pipes[0]|;
            EventsOf(pipes, fileCount, spawned)
            == l.events + (Waits(spawned, n) + Closes(l.files) + EventsOf(pipes[1..], l.fileCount, spawned + n))
  {
    hide AllCommands, LaunchAll, Waits, Closes;
  }

  lemma FirstWired(pipes: seq<seq<Stage>>, status: int)
    requires pipes != []
    ensures Flat(Wired(Ran(pipes, status)).pipes)
            == PipeByProgram(pipes[0]) + Flat(Wired(Ran(pipes[1..], status)).pipes)
  {
    hide PipeByProgram;
    assert Wired(Ran(pipes, status)).pipes[1..] == Wired(Ran(pipes[1..], status)).pipes;
  }

  // So the processes that the events of a run start are these.
  lemma {:induction false} EventsStart(pipes: seq<seq<Stage>>, status: int, fileCount: nat, spawned: nat,
                                       names: map<nat, Opened>)
    requires forall i :: 0 <= i < |pipes| ==> AllCommands(pipes[i])
    ensures ProcessesOf(EventsOf(pipes, fileCount, spawned), names) == Flat(Wired(Ran(pipes, status)).pipes)
    decreases |pipes|
  {
    hide AllCommands, LaunchAll, Waits, Closes, ProcessesOf, NamesAfter, PipeByProgram, EventsOf, Wired, Flat;
    if pipes == [] {
      NoneStarted(fileCount, spawned, status, names);
    } else {
      var l, n := LaunchAll(pipes[0], fileCount), |pipes[0]|;
      var names' := LaunchStarts(pipes[0], fileCount, names);
      var after := Waits(spawned, n) + Closes(l.files);
      var rest := EventsOf(pipes[1..], l.fileCount, spawned + n);
      StartsNothing(spawned, n, l.files, names');
      FirstEvents(pipes, fileCount, spawned);
      FirstWired(pipes, status);
      ProcessesAppend(l.events, after + rest, names);
      ProcessesAppend(after, rest, names');
      EventsStart(pipes[1..], status, l.fileCount, spawned + n, names');
      assert [] + ProcessesOf(rest, names') == ProcessesOf(rest, names');
    }
  }

  lemma NoneStarted(fileCount: nat, spawned: nat, status: int, names: map<nat, Opened>)
    ensures ProcessesOf(EventsOf([], fileCount, spawned), names) == [] == Flat(Wired(Ran([], status)).pipes)
  {
  }

  lemma StartsNothing(spawned: nat, n: nat, files: seq<nat>, names: map<nat, Opened>)
    ensures var after := Waits(spawned, n) + Closes(files);
            ProcessesOf(after, names) == [] && NamesAfter(after, names) == names
  {
    NoneByWaiting(Waits(spawned, n) + Closes(files), names);
  }

  lemma ExecStarts(c: Chain, exit: nat -> int)
    requires Proper(c) && Whole(c)
    ensures ProcessesOf(Exec(c, exit, 0, 0).events, map[]) == Flat(ProgramRuns(c, exit, 0).pipes)
    ensures Exec(c, exit, 0, 0).outcome == Exit(ProgramRuns(c, exit, 0).status)
  {
    ExecRunsChain(c, exit, 0, 0);
    var r := ChainRuns(c, exit, 0);
    EventsStart(r.pipes, r.status, 0, 0, map[]);
  }

  // ----- the shell

  // Section 2.9.3 of the POSIX Shell Command Language: pipelines joined by && and ||. A `cd` is a
  // command of its pipeline like any other.
  datatype List = Last(pipe: seq<Part>) | More(pipe: seq<Part>, op: Node, rest: List)

  // The list that the nodes `ns` continue, `front` being the pipeline so far. The mark of a node is
  // found by the number of nodes from there on.
  function Reading(ns: seq<Node>, early: nat -> bool, front: seq<Part>): List
    requires Runnable(ns)
    decreases |ns|
  {
    var pipe := front + [Part(ns[0], early(|ns|))];
    if |ns| == 1 then Last(pipe)
    else if ns[1] == Pipe then Reading(ns[2..], early, pipe)
    else More(pipe, ns[1], Reading(ns[2..], early, []))
  }

  function Commands(pipe: seq<Part>): nat {
    if pipe == [] then 0 else Commands(pipe[..|pipe| - 1]) + if pipe[|pipe| - 1].node.Command? then 1 else 0
  }

  predicate IsCd(pipe: seq<Part>) {
    |pipe| == 1 && pipe[0].node.Chdir? && pipe[0].node.dir.Some?
  }

  // The status of a pipeline is that of its last command; a `cd` is taken to succeed.
  function StatusOf(pipe: seq<Part>, exit: nat -> int, spawned: nat): int {
    if pipe != [] && pipe[|pipe| - 1].node.Command? && Commands(pipe) > 0 then exit(spawned + Commands(pipe) - 1)
    else 0
  }

  // What stands behind && is run if the status so far is zero, behind || if it is not.
  predicate Proceeds(op: Node, status: int) {
    (op == And && status == 0) || (op == Or && status != 0)
  }

  lemma ProceedsExactly(op: Node, status: int)
    requires op == And || op == Or
    ensures Proceeds(op, status) <==> !Stops(op, status)
  {
  }

  // && and || have equal precedence and associate to the left: a skipped pipeline leaves the
  // status as it was, and the next operator looks at that. `go` says whether the pipeline in
  // front is run. A `cd` alone changes the directory; inside a pipeline it does so for itself
  // only.
  function ListRuns(l: List, go: bool, status: int, cwd: string, exit: nat -> int, spawned: nat): Ran<Member> {
    var status' := if go then StatusOf(l.pipe, exit, spawned) else status;
    var cwd' := if go && IsCd(l.pipe) then Join(cwd, l.pipe[0].node.dir.value) else cwd;
    var spawned' := if go then spawned + Commands(l.pipe) else spawned;
    var rest := if l.Last? then Ran([], status')
                else ListRuns(l.rest, Proceeds(l.op, status'), status', cwd', exit, spawned');
    if go && !IsCd(l.pipe) then Before(PipeByShell(l.pipe, cwd), rest) else rest
  }

  // ----- the condition

  predicate BehindPipe(ns: seq<Node>, i: nat) {
    0 < i < |ns| && ns[i - 1] == Pipe
  }

  predicate AndBehindCommand(ns: seq<Node>, i: nat) {
    0 < i < |ns| && ns[i] == And && ns[i - 1].Command?
  }

  predicate NoCdInPipe(ns: seq<Node>) {
    forall i :: 0 <= i < |ns| && ns[i].Chdir? ==> !BehindPipe(ns, i)
  }

  predicate NoAndBehindOr(ns: seq<Node>) {
    forall i, j :: 0 <= i < j < |ns| && ns[i] == Or ==> ns[j] != And
  }

  predicate NoOrBehindAnd(ns: seq<Node>) {
    forall i, j :: 0 <= i < j < |ns| && AndBehindCommand(ns, i) ==> ns[j] != Or
  }

  // No `cd` behind a |, and no mix of && and || but for the && of a `cd` in front of everything.
  predicate ReadsAlike(ns: seq<Node>) {
    NoCdInPipe(ns) && NoAndBehindOr(ns) && NoOrBehindAnd(ns)
  }

  // The first node continues a pipeline if `piped`, and comes behind a `cd` if `moved`.
  predicate StreamsAlike(ns: seq<Node>, early: nat -> bool, moved: bool, piped: bool) {
    forall i :: 0 <= i < |ns| ==> NodeAlike(ns, early, moved, piped, i)
  }

  predicate NodeAlike(ns: seq<Node>, early: nat -> bool, moved: bool, piped: bool, i: nat)
    requires i < |ns|
  {
    ns[i].Command? ==>
      WiredAlike(ns[i], if i == 0 then piped else ns[i - 1] == Pipe, moved || BehindCd(ns, i), early(|ns| - i))
  }

  predicate BehindCd(ns: seq<Node>, i: nat) {
    exists j :: 0 <= j < i && j < |ns| && ns[j].Chdir?
  }

  // `op` is an operator of the list.
  predicate Has(ns: seq<Node>, op: Node) {
    exists i :: 0 <= i < |ns| && ns[i] == op
  }

  lemma TailNodes(ns: seq<Node>)
    requires |ns| > 2
    ensures forall i :: 2 <= i < |ns| ==> ns[2..][i - 2] == ns[i]
  {
  }

  lemma HasStep(ns: seq<Node>, op: Node)
    requires |ns| > 2
    ensures Has(ns, op) <==> ns[0] == op || ns[1] == op || Has(ns[2..], op)
  {
    var tail := ns[2..];
    if Has(ns, op) && ns[0] != op && ns[1] != op {
      var i :| 0 <= i < |ns| && ns[i] == op;
      assert tail[i - 2] == op;
    }
    if Has(tail, op) {
      var i :| 0 <= i < |tail| && tail[i] == op;
      assert ns[i + 2] == op;
    }
  }

  // The condition, node by node.
  lemma AlikeStep(ns: seq<Node>)
    requires Runnable(ns) && |ns| > 1
    ensures ReadsAlike(ns)
       <==> && ReadsAlike(ns[2..])
            && (ns[1] == Pipe ==> !ns[2].Chdir?)
            && (ns[1] == Or ==> !Has(ns[2..], And))
            && (ns[1] == And && ns[0].Command? ==> !Has(ns[2..], Or))
  {
    CdStep(ns);
    OrStep(ns);
    AndStep(ns);
  }

  lemma CdStep(ns: seq<Node>)
    requires Runnable(ns) && |ns| > 1
    ensures NoCdInPipe(ns) <==> NoCdInPipe(ns[2..]) && (ns[1] == Pipe ==> !ns[2].Chdir?)
  {
    var tail := ns[2..];
    assert IsNode(tail[0]) && !ns[1].Chdir?;
    if NoCdInPipe(ns) {
      assert ns[1] == Pipe ==> BehindPipe(ns, 2);
      forall i | 0 <= i < |tail| && tail[i].Chdir? ensures !BehindPipe(tail, i) {
        assert tail[i] == ns[i + 2] && !BehindPipe(ns, i + 2);
      }
    }
    if NoCdInPipe(tail) && (ns[1] == Pipe ==> !ns[2].Chdir?) {
      forall i | 0 <= i < |ns| && ns[i].Chdir? ensures !BehindPipe(ns, i) {
        if i > 2 {
          assert tail[i - 2] == ns[i] && tail[i - 3] == ns[i - 1] && !BehindPipe(tail, i - 2);
        }
      }
    }
  }

  lemma OrStep(ns: seq<Node>)
    requires Runnable(ns) && |ns| > 1
    ensures NoAndBehindOr(ns) <==> NoAndBehindOr(ns[2..]) && (ns[1] == Or ==> !Has(ns[2..], And))
  {
    var tail := ns[2..];
    TailNodes(ns);
    if NoAndBehindOr(ns) {
      forall i, j | 0 <= i < j < |tail| && tail[i] == Or ensures tail[j] != And {
        assert ns[i + 2] == Or && ns[j + 2] == tail[j];
      }
    }
    if NoAndBehindOr(tail) && (ns[1] == Or ==> !Has(tail, And)) {
      forall i, j | 0 <= i < j < |ns| && ns[i] == Or ensures ns[j] != And {
        if j >= 2 {
          assert tail[j - 2] == ns[j];
          assert i >= 2 ==> tail[i - 2] == ns[i];
        }
      }
    }
  }

  lemma AndStep(ns: seq<Node>)
    requires Runnable(ns) && |ns| > 1
    ensures NoOrBehindAnd(ns) <==> NoOrBehindAnd(ns[2..]) && (ns[1] == And && ns[0].Command? ==> !Has(ns[2..], Or))
  {
    var tail := ns[2..];
    TailNodes(ns);
    assert IsNode(tail[0]) && tail[0] == ns[2];
    assert ns[1] == And && ns[0].Command? <==> AndBehindCommand(ns, 1);
    if NoOrBehindAnd(ns) {
      forall i, j | 0 <= i < j < |tail| && AndBehindCommand(tail, i) ensures tail[j] != Or {
        assert AndBehindCommand(ns, i + 2) && ns[j + 2] == tail[j];
      }
    }
    if NoOrBehindAnd(tail) && (ns[1] == And && ns[0].Command? ==> !Has(tail, Or)) {
      forall i, j | 0 <= i < j < |ns| && AndBehindCommand(ns, i) ensures ns[j] != Or {
        if j >= 2 {
          assert tail[j - 2] == ns[j];
          assert i > 2 ==> AndBehindCommand(tail, i - 2);
        }
      }
    }
  }

  lemma CdBefore(ns: seq<Node>, i: nat)
    requires Runnable(ns) && |ns| > 1 && i < |ns| - 2
    ensures BehindCd(ns, i + 2) <==> ns[0].Chdir? || BehindCd(ns[2..], i)
  {
    var tail := ns[2..];
    if j :| 0 <= j < i + 2 && ns[j].Chdir? {
      assert j >= 2 ==> tail[j - 2] == ns[j];
    }
    if j :| 0 <= j < i && tail[j].Chdir? {
      assert ns[j + 2].Chdir?;
    }
  }

  lemma NodeShifted(ns: seq<Node>, early: nat -> bool, moved: bool, piped: bool, i: nat)
    requires Runnable(ns) && |ns| > 1 && 2 <= i < |ns|
    ensures NodeAlike(ns, early, moved, piped, i)
       <==> NodeAlike(ns[2..], early, moved || ns[0].Chdir?, ns[1] == Pipe, i - 2)
  {
    hide WiredAlike, BehindCd, Runnable;
    CdBefore(ns, i - 2);
    var tail := ns[2..];
    assert tail[i - 2] == ns[i] && |tail| - (i - 2) == |ns| - i;
    assert i > 2 ==> tail[i - 3] == ns[i - 1];
  }

  lemma StreamsStep(ns: seq<Node>, early: nat -> bool, moved: bool, piped: bool)
    requires Runnable(ns)
    ensures StreamsAlike(ns, early, moved, piped)
       <==> && (ns[0].Command? ==> WiredAlike(ns[0], piped, moved, early(|ns|)))
            && (|ns| > 1 ==> StreamsAlike(ns[2..], early, moved || ns[0].Chdir?, ns[1] == Pipe))
  {
    hide NodeAlike;
    FirstNode(ns, early, moved, piped);
    if |ns| > 1 {
      var tail, moved', piped' := ns[2..], moved || ns[0].Chdir?, ns[1] == Pipe;
      forall i | 2 <= i < |ns|
        ensures NodeAlike(ns, early, moved, piped, i) <==> NodeAlike(tail, early, moved', piped', i - 2)
      {
        NodeShifted(ns, early, moved, piped, i);
      }
      OperatorAlike(ns, early, moved, piped);
      if StreamsAlike(ns, early, moved, piped) {
        forall i | 0 <= i < |tail| ensures NodeAlike(tail, early, moved', piped', i) {
          assert NodeAlike(ns, early, moved, piped, i + 2);
        }
      }
    }
  }

  lemma FirstNode(ns: seq<Node>, early: nat -> bool, moved: bool, piped: bool)
    requires ns != []
    ensures NodeAlike(ns, early, moved, piped, 0) <==> (ns[0].Command? ==> WiredAlike(ns[0], piped, moved, early(|ns|)))
  {
  }

  lemma OperatorAlike(ns: seq<Node>, early: nat -> bool, moved: bool, piped: bool)
    requires Runnable(ns) && |ns| > 1
    ensures NodeAlike(ns, early, moved, piped, 1)
  {
  }

  lemma CompleteStep(ns: seq<Node>)
    requires Runnable(ns) && EndsInCommand(ns)
    ensures ns[0].Chdir? ==> ns[0].dir.Some? && |ns| > 1 && ns[1] == And
    ensures |ns| > 1 ==> EndsInCommand(ns[2..])
  {
    if |ns| > 1 {
      var tail := ns[2..];
      assert tail[|tail| - 1] == ns[|ns| - 1];
      assert forall i :: 0 <= i < |tail| ==> tail[i] == ns[i + 2];
    }
  }

  // ----- skipping

  // Once the list is skipping, it goes on to skip as long as no operator fits the status.
  lemma {:induction false} SkipsAll(ns: seq<Node>, early: nat -> bool, front: seq<Part>, status: int, cwd: string,
                                    exit: nat -> int, spawned: nat)
    requires Runnable(ns) && !Has(ns, if status == 0 then And else Or)
    ensures ListRuns(Reading(ns, early, front), false, status, cwd, exit, spawned) == Ran([], status)
    decreases |ns|
  {
    hide PipeByShell;
    if |ns| > 1 {
      HasStep(ns, if status == 0 then And else Or);
      assert LinkOk(ns[0], ns[1]);
      var pipe := front + [Part(ns[0], early(|ns|))];
      SkipsAll(ns[2..], early, if ns[1] == Pipe then pipe else [], status, cwd, exit, spawned);
    }
  }

  lemma CdAlone(p: Part, exit: nat -> int, spawned: nat)
    requires p.node.Chdir?
    ensures Commands([p]) == 0 && StatusOf([p], exit, spawned) == 0
  {
    assert [p][..0] == [];
  }

  // A list that is run, and ends in a command, starts something.
  lemma {:induction false} RunsSomething(ns: seq<Node>, early: nat -> bool, front: seq<Part>, cwd: string,
                                         exit: nat -> int, spawned: nat)
    requires Runnable(ns) && EndsInCommand(ns)
    ensures ListRuns(Reading(ns, early, front), true, 0, cwd, exit, spawned).pipes != []
    decreases |ns|
  {
    hide PipeByShell;
    CompleteStep(ns);
    if |ns| > 1 {
      var p := Part(ns[0], early(|ns|));
      if ns[1] == Pipe {
        RunsSomething(ns[2..], early, front + [p], cwd, exit, spawned);
      } else if IsCd(front + [p]) {
        CdAlone(p, exit, spawned);
        assert front == [] && front + [p] == [p];
        RunsSomething(ns[2..], early, [], Join(cwd, ns[0].dir.value), exit, spawned);
      }
    }
  }

  // The status in front of a pipeline that is run does not matter.
  lemma StatusForgotten(l: List, status: int, status': int, cwd: string, exit: nat -> int, spawned: nat)
    ensures ListRuns(l, true, status, cwd, exit, spawned) == ListRuns(l, true, status', cwd, exit, spawned)
  {
  }

  // A skipping list that still has an operator to fit the status starts something.
  lemma {:induction false} Resumes(ns: seq<Node>, early: nat -> bool, front: seq<Part>, status: int, cwd: string,
                                   exit: nat -> int, spawned: nat)
    requires Runnable(ns) && EndsInCommand(ns) && Has(ns, if status == 0 then And else Or)
    ensures ListRuns(Reading(ns, early, front), false, status, cwd, exit, spawned).pipes != []
    decreases |ns|
  {
    hide PipeByShell;
    CompleteStep(ns);
    if |ns| > 1 {
      HasStep(ns, if status == 0 then And else Or);
      assert LinkOk(ns[0], ns[1]);
      if ns[1] == Pipe {
        Resumes(ns[2..], early, front + [Part(ns[0], early(|ns|))], status, cwd, exit, spawned);
      } else if Stops(ns[1], status) {
        Resumes(ns[2..], early, [], status, cwd, exit, spawned);
      } else {
        RunsSomething(ns[2..], early, [], cwd, exit, spawned);
        StatusForgotten(Reading(ns[2..], early, []), 0, status, cwd, exit, spawned);
      }
    }
  }

  // ----- the two side by side

  // A pipeline that goes on: commands that write to a pipe.
  predicate Piping(pipe: seq<Part>) {
    forall i :: 0 <= i < |pipe| ==> pipe[i].node.Command? && pipe[i].node.stdout == ToPipe
  }

  // A whole one.
  predicate Plain(pipe: seq<Part>) {
    && pipe != [] && Piping(pipe[..|pipe| - 1])
    && pipe[|pipe| - 1].node.Command? && pipe[|pipe| - 1].node.stdout != ToPipe
  }

  lemma {:induction false} PipingCommands(pipe: seq<Part>)
    requires forall i :: 0 <= i < |pipe| ==> pipe[i].node.Command?
    ensures Commands(pipe) == |pipe| && !IsCd(pipe)
  {
    if pipe != [] {
      PipingCommands(pipe[..|pipe| - 1]);
    }
  }

  function At(pipe: seq<Part>, cwd: string): seq<Stage> {
    seq(|pipe|, i requires 0 <= i < |pipe| => Stage(pipe[i].node, cwd))
  }

  predicate PartAlike(p: Part, first: bool, moved: bool) {
    p.node.Command? ==> WiredAlike(p.node, !first, moved, p.early)
  }

  predicate PartsAlike(pipe: seq<Part>, moved: bool) {
    forall i :: 0 <= i < |pipe| ==> PartAlike(pipe[i], i == 0, moved)
  }

  // Program and shell connect a pipeline alike exactly when they do each of its commands.
  lemma PipeAlikeExactly(pipe: seq<Part>, cwd: string)
    requires Plain(pipe)
    ensures PipeByProgram(At(pipe, cwd)) == PipeByShell(pipe, cwd) <==> PartsAlike(pipe, cwd != ".")
  {
    hide ByProgram, ByShell, WiredAlike;
    var stages, n := At(pipe, cwd), |pipe|;
    var a, b := PipeByProgram(stages), PipeByShell(pipe, cwd);
    forall i | 0 <= i < n
      ensures a[i] == b[i] <==> PartAlike(pipe[i], i == 0, cwd != ".")
    {
      assert i < n - 1 ==> pipe[..n - 1][i] == pipe[i];
      WiredAlikeExactly(pipe[i].node, cwd, i == 0, i == n - 1, pipe[i].early);
    }
  }

  // The chain and the list at the same node, with the same pipeline begun in front of it.
  ghost predicate SideBySide(ns: seq<Node>, front: seq<Part>) {
    && Runnable(ns) && EndsInCommand(ns) && Piping(front)
    && ns[|ns| - 1].stdout != ToPipe
  }

  // The directory is given by its path from where everything started.
  predicate Path(cwd: string, moved: bool) {
    cwd != "" && (moved <==> cwd != ".")
  }

  lemma PathJoin(cwd: string, moved: bool, dir: string)
    requires Path(cwd, moved)
    ensures Path(Join(cwd, dir), true)
  {
    var path := Join(cwd, dir);
    if !Absolute(dir) {
      assert cwd[|cwd| - 1] == '/' ==> path[|cwd| - 1] == '/';
      assert cwd[|cwd| - 1] != '/' ==> path[|cwd|] == '/';
    }
  }

  function ChainAt(ns: seq<Node>, front: seq<Part>, cwd: string): Chain
    requires Runnable(ns)
  {
    ChainOf(ns, cwd, At(front, cwd))
  }

  lemma ChainAtIsWhole(ns: seq<Node>, front: seq<Part>, cwd: string)
    requires SideBySide(ns, front)
    ensures Proper(ChainAt(ns, front, cwd)) && Whole(ChainAt(ns, front, cwd))
  {
    ChainIsProper(ns, cwd, At(front, cwd));
    WholeExactly(ns, cwd, At(front, cwd));
  }

  // A `cd` that stands alone.
  lemma AtCd(ns: seq<Node>, early: nat -> bool, cwd: string, exit: nat -> int, spawned: nat)
    requires SideBySide(ns, []) && ns[0].Chdir?
    ensures |ns| > 2 && ns[1] == And && SideBySide(ns[2..], []) && ns[0].dir.Some?
    ensures var cwd' := Join(cwd, ns[0].dir.value);
            && ChainAt(ns, [], cwd) == ChainAt(ns[2..], [], cwd')
            && ListRuns(Reading(ns, early, []), true, 0, cwd, exit, spawned)
               == ListRuns(Reading(ns[2..], early, []), true, 0, cwd', exit, spawned)
  {
    hide PipeByShell;
    CompleteStep(ns);
    var p := Part(ns[0], early(|ns|));
    CdAlone(p, exit, spawned);
    assert [] + [p] == [p];
    assert At([], cwd) == At([], Join(cwd, ns[0].dir.value)) == [];
  }

  // A command with a | behind it.
  lemma AtPipe(ns: seq<Node>, early: nat -> bool, front: seq<Part>, cwd: string)
    requires SideBySide(ns, front) && ns[0].Command? && |ns| > 1 && ns[1] == Pipe
    ensures var pipe := front + [Part(ns[0], early(|ns|))];
            && SideBySide(ns[2..], pipe)
            && ChainAt(ns, front, cwd) == ChainAt(ns[2..], pipe, cwd)
            && Reading(ns, early, front) == Reading(ns[2..], early, pipe)
  {
    CompleteStep(ns);
    var pipe := front + [Part(ns[0], early(|ns|))];
    assert LinkOk(ns[0], ns[1]);
    assert At(pipe, cwd) == At(front, cwd) + [Stage(ns[0], cwd)];
  }

  // The last command of a pipeline.
  lemma AtEnd(ns: seq<Node>, early: nat -> bool, front: seq<Part>, cwd: string, exit: nat -> int, spawned: nat)
    requires SideBySide(ns, front) && ns[0].Command? && (|ns| > 1 ==> ns[1] != Pipe)
    ensures var pipe := front + [Part(ns[0], early(|ns|))];
            && Plain(pipe) && Commands(pipe) == |pipe| == |At(pipe, cwd)| && !IsCd(pipe)
            && StatusOf(pipe, exit, spawned) == exit(spawned + |pipe| - 1)
            && (|ns| == 1 ==> ChainAt(ns, front, cwd) == End(At(pipe, cwd)) && Reading(ns, early, front) == Last(pipe))
            && (|ns| > 1 ==>
                  && SideBySide(ns[2..], [])
                  && (ns[1] == And || ns[1] == Or)
                  && ChainAt(ns, front, cwd) == Then(At(pipe, cwd), ns[1], ChainAt(ns[2..], [], cwd))
                  && Reading(ns, early, front) == More(pipe, ns[1], Reading(ns[2..], early, [])))
  {
    CompleteStep(ns);
    var pipe := front + [Part(ns[0], early(|ns|))];
    assert |ns| > 1 ==> LinkOk(ns[0], ns[1]);
    assert pipe[..|pipe| - 1] == front;
    PipingCommands(pipe);
    assert At(pipe, cwd) == At(front, cwd) + [Stage(ns[0], cwd)];
    assert At([], cwd) == [];
  }

  // What both run from there: this pipeline, and if the operator behind it lets them, the rest.
  lemma EndRuns(ns: seq<Node>, early: nat -> bool, front: seq<Part>, cwd: string, exit: nat -> int, spawned: nat)
    requires SideBySide(ns, front) && ns[0].Command? && (|ns| > 1 ==> ns[1] != Pipe && SideBySide(ns[2..], []))
    ensures Proper(ChainAt(ns, front, cwd)) && Whole(ChainAt(ns, front, cwd))
    ensures |ns| > 1 ==> Proper(ChainAt(ns[2..], [], cwd)) && Whole(ChainAt(ns[2..], [], cwd))
    ensures var pipe, next := front + [Part(ns[0], early(|ns|))], spawned + |front| + 1;
            var status := exit(next - 1);
            var a := ProgramRuns(ChainAt(ns, front, cwd), exit, spawned);
            var b := ListRuns(Reading(ns, early, front), true, 0, cwd, exit, spawned);
            && a == (if |ns| > 1 && !Stops(ns[1], status)
                     then Before(PipeByProgram(At(pipe, cwd)), ProgramRuns(ChainAt(ns[2..], [], cwd), exit, next))
                     else Ran([PipeByProgram(At(pipe, cwd))], status))
            && b == Before(PipeByShell(pipe, cwd),
                           if |ns| > 1 then ListRuns(Reading(ns[2..], early, []), Proceeds(ns[1], status), status, cwd,
                                                     exit, next)
                           else Ran([], status))
  {
    hide ChainAt, Reading, PipeByProgram, PipeByShell, SideBySide, ProgramRuns, Plain;
    ChainAtIsWhole(ns, front, cwd);
    SideIsRunnable(ns, front);
    AtEnd(ns, early, front, cwd, exit, spawned);
    ProgramStep(ChainAt(ns, front, cwd), exit, spawned);
    if |ns| > 1 {
      ChainAtIsWhole(ns[2..], [], cwd);
    }
  }

  // The whole condition at a node, the pipeline begun in front of it included.
  ghost predicate Alike(ns: seq<Node>, early: nat -> bool, front: seq<Part>, moved: bool) {
    && ReadsAlike(ns) && (front != [] && ns != [] ==> ns[0].Command?)
    && PartsAlike(front, moved) && StreamsAlike(ns, early, moved, front != [])
  }

  lemma AlikeAtCd(ns: seq<Node>, early: nat -> bool, moved: bool)
    requires Runnable(ns) && |ns| > 1 && ns[0].Chdir? && ns[1] == And
    ensures Alike(ns, early, [], moved) <==> Alike(ns[2..], early, [], true)
  {
    hide ReadsAlike, StreamsAlike, Has;
    AlikeStep(ns);
    StreamsStep(ns, early, moved, false);
    assert PartsAlike([], true) && PartsAlike([], moved);
  }

  lemma AlikeAtPipe(ns: seq<Node>, early: nat -> bool, front: seq<Part>, moved: bool)
    requires Runnable(ns) && |ns| > 1 && ns[0].Command? && ns[1] == Pipe
    ensures Alike(ns, early, front, moved) <==> Alike(ns[2..], early, front + [Part(ns[0], early(|ns|))], moved)
  {
    hide ReadsAlike, StreamsAlike, Has, WiredAlike;
    AlikeStep(ns);
    StreamsStep(ns, early, moved, front != []);
    MoreAlike(front, Part(ns[0], early(|ns|)), moved);
    assert Runnable(ns[2..]) && IsNode(ns[2..][0]);
  }

  lemma AlikeAtEnd(ns: seq<Node>, early: nat -> bool, front: seq<Part>, moved: bool)
    requires Runnable(ns) && ns[0].Command? && (|ns| > 1 ==> ns[1] == And || ns[1] == Or)
    ensures Alike(ns, early, front, moved)
       <==> && PartsAlike(front + [Part(ns[0], early(|ns|))], moved)
            && (|ns| > 1 ==> Alike(ns[2..], early, [], moved) && !Has(ns[2..], if ns[1] == And then Or else And))
  {
    hide ReadsAlike, StreamsAlike, Has, WiredAlike;
    if |ns| > 1 {
      AlikeStep(ns);
    } else {
      OneReadsAlike(ns);
    }
    StreamsStep(ns, early, moved, front != []);
    MoreAlike(front, Part(ns[0], early(|ns|)), moved);
    assert PartsAlike([], moved);
  }

  lemma MoreAlike(front: seq<Part>, p: Part, moved: bool)
    ensures PartsAlike(front + [p], moved) <==> PartsAlike(front, moved) && PartAlike(p, front == [], moved)
  {
    hide PartAlike;
    var pipe := front + [p];
    assert pipe[|front|] == p && forall i :: 0 <= i < |front| ==> pipe[i] == front[i];
  }

  lemma OneReadsAlike(ns: seq<Node>)
    requires |ns| == 1
    ensures ReadsAlike(ns)
  {
  }

  // Under the condition both run the same pipes and end with the same status.
  lemma {:induction false} AlikeAgrees(ns: seq<Node>, early: nat -> bool, front: seq<Part>, cwd: string, moved: bool,
                                       exit: nat -> int, spawned: nat)
    requires SideBySide(ns, front) && Path(cwd, moved) && Alike(ns, early, front, moved)
    ensures Proper(ChainAt(ns, front, cwd)) && Whole(ChainAt(ns, front, cwd))
    ensures ProgramRuns(ChainAt(ns, front, cwd), exit, spawned)
            == ListRuns(Reading(ns, early, front), true, 0, cwd, exit, spawned)
    decreases |ns|
  {
    hide Alike, SideBySide, ChainAt, Reading, Has, PartsAlike, ProgramRuns, PipeByProgram, PipeByShell, Plain, Path;
    ChainAtIsWhole(ns, front, cwd);
    StartsWithNode(ns, front);
    if ns[0].Chdir? {
      NoCdInFront(ns, early, front, moved);
      AtCd(ns, early, cwd, exit, spawned);
      AlikeAtCd(ns, early, moved);
      PathJoin(cwd, moved, ns[0].dir.value);
      AlikeAgrees(ns[2..], early, [], Join(cwd, ns[0].dir.value), true, exit, spawned);
    } else if |ns| > 1 && ns[1] == Pipe {
      AtPipe(ns, early, front, cwd);
      AlikeAtPipe(ns, early, front, moved);
      AlikeAgrees(ns[2..], early, front + [Part(ns[0], early(|ns|))], cwd, moved, exit, spawned);
    } else {
      var pipe, next := front + [Part(ns[0], early(|ns|))], spawned + |front| + 1;
      var status := exit(next - 1);
      AtEnd(ns, early, front, cwd, exit, spawned);
      EndRuns(ns, early, front, cwd, exit, spawned);
      AlikeAtEnd(ns, early, front, moved);
      SameStreams(pipe, cwd, moved);
      if |ns| > 1 {
        SideIsRunnable(ns[2..], []);
        if Stops(ns[1], status) {
          NotHas(ns[2..], ns[1], status);
          SkipsAll(ns[2..], early, [], status, cwd, exit, next);
        } else {
          AlikeAgrees(ns[2..], early, [], cwd, moved, exit, next);
          StatusForgotten(Reading(ns[2..], early, []), 0, status, cwd, exit, next);
        }
      }
    }
  }

  lemma SameStreams(pipe: seq<Part>, cwd: string, moved: bool)
    requires Plain(pipe) && Path(cwd, moved) && PartsAlike(pipe, moved)
    ensures PipeByProgram(At(pipe, cwd)) == PipeByShell(pipe, cwd)
  {
    PipeAlikeExactly(pipe, cwd);
  }

  lemma NoCdInFront(ns: seq<Node>, early: nat -> bool, front: seq<Part>, moved: bool)
    requires Alike(ns, early, front, moved) && ns != [] && ns[0].Chdir?
    ensures front == []
  {
  }

  lemma StartsWithNode(ns: seq<Node>, front: seq<Part>)
    requires SideBySide(ns, front)
    ensures Runnable(ns) && (ns[0].Command? || ns[0].Chdir?)
    ensures |ns| > 1 && ns[0].Command? ==> ns[1] == Pipe || ns[1] == And || ns[1] == Or
  {
    assert |ns| > 1 ==> LinkOk(ns[0], ns[1]);
  }

  lemma SideIsRunnable(ns: seq<Node>, front: seq<Part>)
    requires SideBySide(ns, front)
    ensures Runnable(ns) && EndsInCommand(ns)
  {
  }

  // The operator that stopped the list finds none to resume it.
  lemma NotHas(ns: seq<Node>, op: Node, status: int)
    requires (op == And || op == Or) && Stops(op, status)
    requires op == Or ==> !Has(ns, And)
    requires op == And ==> !Has(ns, Or)
    ensures !Has(ns, if status == 0 then And else Or)
  {
  }

  // ----- where they differ

  // Only the statuses of processes from `spawned` on matter.
  lemma {:induction false} ChainSame(c: Chain, exit: nat -> int, exit': nat -> int, spawned: nat)
    requires Proper(c) && Whole(c) && forall k: nat :: k >= spawned ==> exit(k) == exit'(k)
    ensures ChainRuns(c, exit, spawned) == ChainRuns(c, exit', spawned)
    decreases c
  {
    var next := spawned + |c.stages|;
    assert exit(next - 1) == exit'(next - 1);
    if c.Then? {
      ChainSame(c.rest, exit, exit', next);
    }
  }

  lemma {:induction false} ListSame(l: List, go: bool, status: int, cwd: string, exit: nat -> int, exit': nat -> int,
                                    spawned: nat)
    requires forall k: nat :: k >= spawned ==> exit(k) == exit'(k)
    ensures ListRuns(l, go, status, cwd, exit, spawned) == ListRuns(l, go, status, cwd, exit', spawned)
    decreases l
  {
    hide PipeByShell;
    var status' := if go then StatusOf(l.pipe, exit, spawned) else status;
    assert status' == if go then StatusOf(l.pipe, exit', spawned) else status;
    if l.More? {
      var cwd' := if go && IsCd(l.pipe) then Join(cwd, l.pipe[0].node.dir.value) else cwd;
      ListSame(l.rest, Proceeds(l.op, status'), status', cwd', exit, exit',
               if go then spawned + Commands(l.pipe) else spawned);
    }
  }

  ghost predicate Differ(ns: seq<Node>, early: nat -> bool, front: seq<Part>, cwd: string, exit: nat -> int,
                         spawned: nat)
    requires SideBySide(ns, front)
  {
    ChainAtIsWhole(ns, front, cwd);
    ProgramRuns(ChainAt(ns, front, cwd), exit, spawned)
    != ListRuns(Reading(ns, early, front), true, 0, cwd, exit, spawned)
  }

  // The pipeline that holds a node is the first one run.
  lemma {:induction false} FirstPipe(ns: seq<Node>, early: nat -> bool, front: seq<Part>, cwd: string,
                                     exit: nat -> int, spawned: nat)
    requires SideBySide(ns, front) && front != [] && ns[0].Chdir?
    ensures var pipes := ListRuns(Reading(ns, early, front), true, 0, cwd, exit, spawned).pipes;
            pipes != [] && |pipes[0]| > |front| && pipes[0][|front|].DirectoryChange?
  {
    hide ByShell;
    CompleteStep(ns);
    var p := Part(ns[0], early(|ns|));
    var pipe := front + [p];
    assert ListRuns(Reading(ns, early, front), true, 0, cwd, exit, spawned).pipes[0] == PipeByShell(pipe, cwd);
    CdMember(p, cwd, false, true);
  }

  lemma CdMember(p: Part, cwd: string, first: bool, last: bool)
    requires p.node.Chdir?
    ensures ByShell(p, cwd, first, last).DirectoryChange?
  {
  }

  lemma ProcessesOnly(c: Chain, exit: nat -> int, spawned: nat)
    requires Proper(c) && Whole(c)
    ensures var pipes := ProgramRuns(c, exit, spawned).pipes;
            forall i, k :: 0 <= i < |pipes| && 0 <= k < |pipes[i]| ==> pipes[i][k].Process?
  {
    ChainRunsCommands(c, exit, spawned);
  }

  // A `cd` behind a | is part of the shell's pipeline and of none of the program's.
  lemma CdInPipeDiffers(ns: seq<Node>, early: nat -> bool, front: seq<Part>, cwd: string, exit: nat -> int,
                        spawned: nat)
    requires SideBySide(ns, front) && front != [] && ns[0].Chdir?
    ensures Differ(ns, early, front, cwd, exit, spawned)
  {
    hide ProgramRuns, ListRuns;
    ChainAtIsWhole(ns, front, cwd);
    ProcessesOnly(ChainAt(ns, front, cwd), exit, spawned);
    FirstPipe(ns, early, front, cwd, exit, spawned);
  }

  // A command of the pipeline is connected differently.
  lemma StreamsDiffer(ns: seq<Node>, early: nat -> bool, front: seq<Part>, cwd: string, moved: bool,
                      exit: nat -> int, spawned: nat)
    requires SideBySide(ns, front) && Path(cwd, moved)
    requires ns[0].Command? && (|ns| > 1 ==> ns[1] != Pipe)
    requires !PartsAlike(front + [Part(ns[0], early(|ns|))], moved)
    ensures Differ(ns, early, front, cwd, exit, spawned)
  {
    hide ChainAt, Reading, PartsAlike, PipeByProgram, PipeByShell, ProgramRuns, ListRuns;
    var pipe := front + [Part(ns[0], early(|ns|))];
    AtEnd(ns, early, front, cwd, exit, spawned);
    EndRuns(ns, early, front, cwd, exit, spawned);
    PipeAlikeExactly(pipe, cwd);
    assert ProgramRuns(ChainAt(ns, front, cwd), exit, spawned).pipes[0] == PipeByProgram(At(pipe, cwd));
  }

  // The program stops behind a pipeline and the shell does not.
  lemma StoppingDiffers(ns: seq<Node>, early: nat -> bool, front: seq<Part>, cwd: string, exit: nat -> int,
                        spawned: nat)
    requires SideBySide(ns, front) && ns[0].Command? && |ns| > 1 && ns[1] != Pipe
    requires var status := exit(spawned + |front|);
             Stops(ns[1], status) && Has(ns[2..], if status == 0 then And else Or)
    ensures Differ(ns, early, front, cwd, exit, spawned)
  {
    hide Has, ChainAt, Reading, PipeByProgram, PipeByShell, ProgramRuns, ListRuns;
    AtEnd(ns, early, front, cwd, exit, spawned);
    EndRuns(ns, early, front, cwd, exit, spawned);
    Resumes(ns[2..], early, [], exit(spawned + |front|), cwd, exit, spawned + |front| + 1);
  }

  // Both go on, and differ from there.
  lemma GoingOnDiffers(ns: seq<Node>, early: nat -> bool, front: seq<Part>, cwd: string, exit: nat -> int,
                       spawned: nat)
    requires SideBySide(ns, front) && ns[0].Command? && |ns| > 1 && ns[1] != Pipe
    requires !Stops(ns[1], exit(spawned + |front|))
    requires SideBySide(ns[2..], []) && Differ(ns[2..], early, [], cwd, exit, spawned + |front| + 1)
    ensures Differ(ns, early, front, cwd, exit, spawned)
  {
    hide ChainAt, Reading, PipeByProgram, PipeByShell, ProgramRuns, ListRuns, SideBySide;
    var next := spawned + |front| + 1;
    StartsWithNode(ns, front);
    EndRuns(ns, early, front, cwd, exit, spawned);
    SideIsRunnable(ns[2..], []);
    StatusForgotten(Reading(ns[2..], early, []), 0, exit(next - 1), cwd, exit, next);
    var a := ProgramRuns(ChainAt(ns[2..], [], cwd), exit, next);
    var b := ListRuns(Reading(ns[2..], early, []), true, 0, cwd, exit, next);
    var pipe := front + [Part(ns[0], early(|ns|))];
    BeforeDiffers(PipeByProgram(At(pipe, cwd)), a, PipeByShell(pipe, cwd), b);
  }

  lemma BeforeDiffers<T>(p: seq<T>, a: Ran<T>, q: seq<T>, b: Ran<T>)
    requires a != b
    ensures Before(p, a) != Before(q, b)
  {
    assert Before(p, a).pipes[1..] == a.pipes && Before(q, b).pipes[1..] == b.pipes;
  }

  function WithStatus(exit: nat -> int, process: nat, status: int): nat -> int {
    (k: nat) => if k <= process then status else exit(k)
  }

  lemma DifferSame(ns: seq<Node>, early: nat -> bool, front: seq<Part>, cwd: string, exit: nat -> int,
                   exit': nat -> int, spawned: nat)
    requires SideBySide(ns, front) && Differ(ns, early, front, cwd, exit, spawned)
    requires forall k: nat :: k >= spawned ==> exit(k) == exit'(k)
    ensures Differ(ns, early, front, cwd, exit', spawned)
  {
    hide Wired, ListRuns, ChainRuns;
    ChainAtIsWhole(ns, front, cwd);
    ChainSame(ChainAt(ns, front, cwd), exit, exit', spawned);
    ListSame(Reading(ns, early, front), true, 0, cwd, exit, exit', spawned);
  }

  // Otherwise some statuses make them differ.
  lemma {:induction false} NotAlikeDiffers(ns: seq<Node>, early: nat -> bool, front: seq<Part>, cwd: string,
                                           moved: bool, spawned: nat)
    returns (exit: nat -> int)
    requires SideBySide(ns, front) && Path(cwd, moved) && !Alike(ns, early, front, moved)
    ensures Differ(ns, early, front, cwd, exit, spawned)
    decreases |ns|, 1
  {
    hide Alike, SideBySide, Differ, Has, Reading, ChainAt, Path, PartsAlike;
    StartsWithNode(ns, front);
    exit := (k: nat) => 0;
    if ns[0].Chdir? {
      if front != [] {
        CdInPipeDiffers(ns, early, front, cwd, exit, spawned);
      } else {
        exit := CdDiffers(ns, early, cwd, moved, spawned);
      }
    } else if |ns| > 1 && ns[1] == Pipe {
      var pipe := front + [Part(ns[0], early(|ns|))];
      AtPipe(ns, early, front, cwd);
      AlikeAtPipe(ns, early, front, moved);
      exit := NotAlikeDiffers(ns[2..], early, pipe, cwd, moved, spawned);
      PipeDiffers(ns, early, front, cwd, exit, spawned);
    } else {
      exit := EndDiffers(ns, early, front, cwd, moved, spawned);
    }
  }

  lemma {:induction false} EndDiffers(ns: seq<Node>, early: nat -> bool, front: seq<Part>, cwd: string, moved: bool,
                                      spawned: nat)
    returns (exit: nat -> int)
    requires SideBySide(ns, front) && Path(cwd, moved) && !Alike(ns, early, front, moved)
    requires ns[0].Command? && (|ns| > 1 ==> ns[1] == And || ns[1] == Or)
    ensures Differ(ns, early, front, cwd, exit, spawned)
    decreases |ns|, 0
  {
    hide Alike, SideBySide, Differ, Has, Reading, ChainAt, Path, PartsAlike;
    StartsWithNode(ns, front);
    AlikeAtEnd(ns, early, front, moved);
    exit := (k: nat) => 0;
    AtEnd(ns, early, front, cwd, exit, spawned);
    if !PartsAlike(front + [Part(ns[0], early(|ns|))], moved) {
      StreamsDiffer(ns, early, front, cwd, moved, exit, spawned);
    } else {
      var process := spawned + |front|;
      var stop := if ns[1] == And then 1 else 0;
      if Has(ns[2..], if ns[1] == And then Or else And) {
        exit := WithStatus(exit, process, stop);
        StoppingDiffers(ns, early, front, cwd, exit, spawned);
      } else {
        var exit' := NotAlikeDiffers(ns[2..], early, [], cwd, moved, process + 1);
        exit := WithStatus(exit', process, 1 - stop);
        DifferSame(ns[2..], early, [], cwd, exit', exit, process + 1);
        GoingOnDiffers(ns, early, front, cwd, exit, spawned);
      }
    }
  }

  lemma {:induction false} CdDiffers(ns: seq<Node>, early: nat -> bool, cwd: string, moved: bool, spawned: nat)
    returns (exit: nat -> int)
    requires SideBySide(ns, []) && Path(cwd, moved) && ns[0].Chdir? && !Alike(ns, early, [], moved)
    ensures Differ(ns, early, [], cwd, exit, spawned)
    decreases |ns|, 0
  {
    hide Alike, SideBySide, Has, Reading, ChainAt, Path, ProgramRuns, ListRuns;
    exit := (k: nat) => 0;
    AtCd(ns, early, cwd, exit, spawned);
    SideIsRunnable(ns, []);
    AlikeAtCd(ns, early, moved);
    var cwd' := Join(cwd, ns[0].dir.value);
    PathJoin(cwd, moved, ns[0].dir.value);
    exit := NotAlikeDiffers(ns[2..], early, [], cwd', true, spawned);
    AtCd(ns, early, cwd, exit, spawned);
    ChainAtIsWhole(ns, [], cwd);
    ChainAtIsWhole(ns[2..], [], cwd');
  }

  lemma PipeDiffers(ns: seq<Node>, early: nat -> bool, front: seq<Part>, cwd: string, exit: nat -> int, spawned: nat)
    requires SideBySide(ns, front) && ns[0].Command? && |ns| > 1 && ns[1] == Pipe
    requires var pipe := front + [Part(ns[0], early(|ns|))];
             SideBySide(ns[2..], pipe) && Differ(ns[2..], early, pipe, cwd, exit, spawned)
    ensures Differ(ns, early, front, cwd, exit, spawned)
  {
    hide SideBySide, Reading, ChainAt, ProgramRuns, ListRuns;
    AtPipe(ns, early, front, cwd);
    ChainAtIsWhole(ns, front, cwd);
    ChainAtIsWhole(ns[2..], front + [Part(ns[0], early(|ns|))], cwd);
  }

  // ----- the comparison

  // The tokens are accepted and stand for something that runs to its end.
  predicate Complete(tokens: seq<string>) {
    Parse(tokens).Some? && EndsInCommand(Parse(tokens).value)
  }

  lemma CompleteIsWhole(tokens: seq<string>)
    requires Complete(tokens)
    ensures var ns := Parse(tokens).value;
            && SideBySide(ns, [])
            && Proper(ChainOf(ns, ".", [])) && Whole(ChainOf(ns, ".", []))
            && ChainAt(ns, [], ".") == ChainOf(ns, ".", [])
  {
    hide Parse;
    var ns := Parse(tokens).value;
    ParseIsWellFormed(tokens);
    WellFormedIsRunnable(ns);
    ChainIsProper(ns, ".", []);
    WholeExactly(ns, ".", []);
    assert At([], ".") == [];
  }

  // What the program runs for these tokens, and what a shell does.
  ghost predicate SameAsShell(tokens: seq<string>, exit: nat -> int)
    requires Complete(tokens)
  {
    CompleteIsWhole(tokens);
    var ns := Parse(tokens).value;
    ProgramRuns(ChainOf(ns, ".", []), exit, 0) == ListRuns(Reading(ns, Early(tokens), []), true, 0, ".", exit, 0)
  }

  // For all tokens that run to an end: the program starts the processes a shell starts, in the same
  // pipes and directories and with the same streams, and returns the same status, whatever the
  // processes return, exactly when no `cd` stands behind a |, && is not mixed with || but for the &&
  // of a `cd` in front of everything, and every command is connected alike (WiredAlike).
  lemma PosixExactly(tokens: seq<string>)
    requires Complete(tokens)
    ensures (forall exit :: SameAsShell(tokens, exit))
       <==> ReadsAlike(Parse(tokens).value) && StreamsAlike(Parse(tokens).value, Early(tokens), false, false)
  {
    hide Parse, ReadsAlike, StreamsAlike, Reading, Early, SideBySide, ProgramRuns, ListRuns;
    CompleteIsWhole(tokens);
    var ns, early := Parse(tokens).value, Early(tokens);
    assert PartsAlike([], false);
    if Alike(ns, early, [], false) {
      forall exit ensures SameAsShell(tokens, exit) {
        AlikeAgrees(ns, early, [], ".", false, exit, 0);
      }
    } else {
      var exit := NotAlikeDiffers(ns, early, [], ".", false, 0);
      assert !SameAsShell(tokens, exit);
    }
  }

  // ----- an example

  const JOINED_FIRST := ["a", "2>&1", ">", "f"]
  const JOINED_LAST := ["a", ">", "f", "2>&1"]

  function Redirected(): Node {
    Command("a", ["a"], None, ToFile("f"), SameAsStdout, [])
  }

  lemma NameIsNoAssignment()
    ensures EnvMatch("a").None?
  {
    assert FirstEquals("a"[1..]) == 0;
  }

  lemma StepsOf(tokens: seq<string>)
    requires tokens == JOINED_FIRST || tokens == JOINED_LAST
    ensures Parse(tokens) == Some([Redirected()]) && Marks(START, tokens, false) == [tokens == JOINED_FIRST]
  {
    hide EnvMatch;
    var c := NewCommand("a", []);
    NameIsNoAssignment();
    var s1 := State(InCommand, Some(c), [], []);
    assert Next(START, "a") == Some(s1);
    var last := Some(State(InCommand, Some(Redirected()), [], []));
    assert last.value.pipeline + [Redirected()] == [Redirected()];
    var t1, t2, t3 := tokens[1..], tokens[2..], tokens[3..];
    assert t1[1..] == t2 && t2[1..] == t3 && t3[1..] == [];
    if tokens == JOINED_FIRST {
      var s2 := s1.(current := Some(c.(stderr := SameAsStdout)));
      var s3 := s2.(mode := WantStdout);
      assert Next(s1, "2>&1") == Some(s2) && Next(s2, ">") == Some(s3) && Next(s3, "f") == last;
      assert Feed(s3, t3) == Feed(last.value, []) == last && Feed(s2, t2) == last && Feed(s1, t1) == last;
      assert Marks(s3, t3, true) == Marks(last.value, [], true) == [true];
      assert Marks(s2, t2, false) == [true] && Marks(s1, t1, false) == [true];
      assert Feed(START, tokens) == last && Marks(START, tokens, false) == [true];
    } else {
      var s2 := s1.(mode := WantStdout);
      var s3 := s1.(current := Some(c.(stdout := ToFile("f"))));
      assert Next(s1, ">") == Some(s2) && Next(s2, "f") == Some(s3) && Next(s3, "2>&1") == last;
      assert Feed(s3, t3) == Feed(last.value, []) == last && Feed(s2, t2) == last && Feed(s1, t1) == last;
      assert Marks(s3, t3, false) == Marks(last.value, [], false) == [false];
      assert Marks(s2, t2, false) == [false] && Marks(s1, t1, false) == [false];
      assert Feed(START, tokens) == last && Marks(START, tokens, false) == [false];
    }
  }

  // The program takes both orders for the same; only one is what a shell makes of it.
  lemma OrderOfRedirections()
    ensures Complete(JOINED_FIRST) && Complete(JOINED_LAST) && Parse(JOINED_FIRST) == Parse(JOINED_LAST)
    ensures forall exit :: SameAsShell(JOINED_LAST, exit)
    ensures exists exit :: !SameAsShell(JOINED_FIRST, exit)
  {
    hide Parse, Marks, SameAsShell, NodeAlike, ReadsAlike;
    StepsOf(JOINED_FIRST);
    StepsOf(JOINED_LAST);
    var ns := [Redirected()];
    OneReadsAlike(ns);
    assert Early(JOINED_FIRST)(1) && !Early(JOINED_LAST)(1);
    FirstNode(ns, Early(JOINED_FIRST), false, false);
    FirstNode(ns, Early(JOINED_LAST), false, false);
    PosixExactly(JOINED_FIRST);
    PosixExactly(JOINED_LAST);
  }
}
