// test.py: one main thread and a pool of worker threads share two FIFO queues. The
// model interleaves their steps freely; the interrupt handler may fire at any time.
module Dispatch {
  import opened Sequences
  import opened Wrappers

  // A queue entry. The special job that tells a worker to exit is POISON.
  datatype Job = Job(id: int, isSkip: bool, isBreak: bool, returncode: int)

  const POISON := Job(-1, false, true, 0)

  // Where a worker is in its loop: waiting in get(), past get(), in the test process,
  // about to put() the job back, or returned.
  datatype Worker = Idle | Got(job: Job) | Running(job: Job) | Reporting(job: Job) | Exited

  // The loops of the main thread, each with its counter.
  datatype Main =
    | Dispatching(next: nat)
    | Poisoning(sent: nat)
    | Collecting(count: nat)
    | Joining(joined: nat)
    | Finished

  datatype Counters = Counters(passed: nat, failed: nat, valgrind: nat, crashed: nat, skipped: nat)

  datatype State = State(
    main: Main,
    input: seq<Job>,
    output: seq<Job>,
    workers: seq<Worker>,
    threadExit: bool,
    counters: Counters,
    collected: seq<Job>)

  // Which tests are to be skipped, and the number of worker threads.
  datatype Setup = Setup(skips: seq<bool>, workers: nat)

  datatype Step = MainStep | WorkerStep(worker: nat, returncode: int) | Interrupt

  function Init(setup: Setup): State {
    State(Dispatching(0), [], [], seq(setup.workers, _ => Idle), false, Counters(0, 0, 0, 0, 0), [])
  }

  function TestJob(setup: Setup, k: nat): Job
    requires k < |setup.skips|
  {
    Job(k, setup.skips[k], false, 0)
  }

  function Count(c: Counters, job: Job): Counters {
    if job.isBreak then c
    else if job.isSkip then c.(skipped := c.skipped + 1)
    else if job.returncode == 0 then c.(passed := c.passed + 1)
    else if job.returncode == 1 then c.(failed := c.failed + 1)
    else if job.returncode == 2 then c.(valgrind := c.valgrind + 1)
    else c.(crashed := c.crashed + 1)
  }

  // get() blocks on an empty queue, join() on a thread that is still running.
  predicate Enabled(setup: Setup, s: State, step: Step) {
    match step
    case Interrupt => true
    case MainStep =>
      (match s.main
       case Dispatching(_) => true
       case Poisoning(_) => true
       case Collecting(k) => k >= |setup.skips| || s.output != []
       case Joining(k) => k >= |s.workers| || s.workers[k].Exited?
       case Finished => false)
    case WorkerStep(w, _) =>
      && w < |s.workers|
      && (match s.workers[w]
          case Idle => s.input != []
          case Exited => false
          case _ => true)
  }

  function MainNext(setup: Setup, s: State): State
    requires Enabled(setup, s, MainStep)
  {
    match s.main
    case Dispatching(k) =>
      if k < |setup.skips| then s.(input := s.input + [TestJob(setup, k)], main := Dispatching(k + 1))
      else s.(main := Poisoning(0))
    case Poisoning(k) =>
      if k < setup.workers then s.(input := s.input + [POISON], main := Poisoning(k + 1))
      else s.(main := Collecting(0))
    case Collecting(k) =>
      if k < |setup.skips| then
        s.(output := s.output[1..],
           collected := s.collected + [s.output[0]],
           counters := Count(s.counters, s.output[0]),
           main := Collecting(k + 1))
      else s.(main := Joining(0))
    case Joining(k) =>
      if k < |s.workers| then s.(main := Joining(k + 1)) else s.(main := Finished)
  }

  function WorkerNext(setup: Setup, s: State, w: nat, returncode: int): State
    requires Enabled(setup, s, WorkerStep(w, returncode))
  {
    match s.workers[w]
    case Idle =>
      var job := s.input[0];
      s.(input := s.input[1..], workers := s.workers[w := if job.isBreak then Exited else Got(job)])
    case Got(job) =>
      s.(workers := s.workers[w :=
        if s.threadExit then Reporting(job.(isBreak := true))
        else if job.isSkip then Reporting(job)
        else Running(job)])
    case Running(job) =>
      s.(workers := s.workers[w := Reporting(job.(returncode := returncode))])
    case Reporting(job) =>
      s.(output := s.output + [job], workers := s.workers[w := Idle])
  }

  function Next(setup: Setup, s: State, step: Step): State
    requires Enabled(setup, s, step)
  {
    match step
    case MainStep => MainNext(setup, s)
    case WorkerStep(w, returncode) => WorkerNext(setup, s, w, returncode)
    case Interrupt => s.(threadExit := true)
  }

  // The state after a schedule, if every step of it was possible.
  function Run(setup: Setup, s: State, steps: seq<Step>): Option<State>
    decreases |steps|
  {
    if steps == [] then Some(s)
    else if Enabled(setup, s, steps[0]) then Run(setup, Next(setup, s, steps[0]), steps[1..])
    else None
  }

  // ----- where the queue entries are

  // How often the entry with this id is in a list, or held by workers. An exited worker
  // keeps the poison it took.
  function Copies(jobs: seq<Job>, id: int): nat {
    if jobs == [] then 0 else (if jobs[0].id == id then 1 else 0) + Copies(jobs[1..], id)
  }

  function HeldBy(w: Worker, id: int): nat {
    match w
    case Idle => 0
    case Exited => if id == POISON.id then 1 else 0
    case _ => if w.job.id == id then 1 else 0
  }

  function Held(workers: seq<Worker>, id: int): nat {
    if workers == [] then 0 else HeldBy(workers[0], id) + Held(workers[1..], id)
  }

  function Busy(workers: seq<Worker>): nat {
    if workers == [] then 0 else (if workers[0].Idle? then 0 else 1) + Busy(workers[1..])
  }

  function Dispatched(setup: Setup, m: Main): nat {
    match m case Dispatching(k) => k case _ => |setup.skips|
  }

  function Poisoned(setup: Setup, m: Main): nat {
    match m
    case Dispatching(_) => 0
    case Poisoning(k) => k
    case _ => setup.workers
  }

  // Every entry that was put into the input queue is in exactly one place.
  ghost predicate Located(setup: Setup, s: State, id: int) {
    Copies(s.input, id) + Held(s.workers, id) + Copies(s.output, id) + Copies(s.collected, id)
    == if id == POISON.id then Poisoned(setup, s.main) else if 0 <= id < Dispatched(setup, s.main) then 1 else 0
  }

  ghost predicate Conserved(setup: Setup, s: State) {
    && (forall id :: Located(setup, s, id))
    && |s.input| + Busy(s.workers) + |s.output| + |s.collected| == Dispatched(setup, s.main) + Poisoned(setup, s.main)
  }

  predicate TestOf(setup: Setup, job: Job) {
    0 <= job.id < |setup.skips| && job.isSkip == setup.skips[job.id]
  }

  predicate FreshEntry(setup: Setup, job: Job) {
    job == POISON || (TestOf(setup, job) && !job.isBreak)
  }

  predicate WorkerOk(setup: Setup, threadExit: bool, w: Worker) {
    match w
    case Idle => true
    case Exited => true
    case Got(job) => TestOf(setup, job) && !job.isBreak
    case Running(job) => TestOf(setup, job) && !job.isBreak && !job.isSkip
    case Reporting(job) => TestOf(setup, job) && (job.isBreak ==> threadExit)
  }

  predicate Poison(job: Job) { job == POISON }

  predicate StageOk(setup: Setup, s: State) {
    match s.main
    case Dispatching(k) => k <= |setup.skips| && s.collected == []
    case Poisoning(k) => k <= setup.workers && s.collected == []
    case Collecting(k) => k <= |setup.skips| && |s.collected| == k
    case Joining(k) =>
      k <= setup.workers && |s.collected| == |setup.skips|
      && forall w :: 0 <= w < k && w < |s.workers| ==> s.workers[w].Exited?
    case Finished =>
      |s.collected| == |setup.skips| && forall w :: 0 <= w < |s.workers| ==> s.workers[w].Exited?
  }

  function CountAll(jobs: seq<Job>): Counters {
    if jobs == [] then Counters(0, 0, 0, 0, 0) else Count(CountAll(jobs[..|jobs| - 1]), jobs[|jobs| - 1])
  }

  ghost predicate Inv(setup: Setup, s: State) {
    Shape(setup, s) && Conserved(setup, s)
  }

  ghost predicate Shape(setup: Setup, s: State) {
    && |s.workers| == setup.workers
    && StageOk(setup, s)
    && (forall i :: 0 <= i < |s.input| ==> FreshEntry(setup, s.input[i]))
    // poison is queued behind all tests, and no worker exits before it is at the front
    && (forall i, j :: 0 <= i < j < |s.input| && Poison(s.input[i]) ==> Poison(s.input[j]))
    && (forall w, i :: 0 <= w < |s.workers| && s.workers[w].Exited? && 0 <= i < |s.input| ==> Poison(s.input[i]))
    && (forall w :: 0 <= w < |s.workers| ==> WorkerOk(setup, s.threadExit, s.workers[w]))
    && (forall i :: 0 <= i < |s.output| ==> TestOf(setup, s.output[i]) && (s.output[i].isBreak ==> s.threadExit))
    && (forall i :: 0 <= i < |s.collected| ==>
        TestOf(setup, s.collected[i]) && (s.collected[i].isBreak ==> s.threadExit))
    && s.counters == CountAll(s.collected)
    && (s.main.Dispatching? ==> forall i :: 0 <= i < |s.input| ==> !Poison(s.input[i]))
    && (s.main.Dispatching? ==> forall w :: 0 <= w < |s.workers| ==> !s.workers[w].Exited?)
  }

  lemma {:induction false} CopiesAppend(a: seq<Job>, b: seq<Job>, id: int)
    ensures Copies(a + b, id) == Copies(a, id) + Copies(b, id)
  {
    if a == [] {
      assert a + b == b;
    } else {
      assert (a + b)[1..] == a[1..] + b;
      CopiesAppend(a[1..], b, id);
    }
  }

  lemma {:induction false} HeldUpdate(workers: seq<Worker>, w: nat, x: Worker, id: int)
    requires w < |workers|
    ensures Held(workers[w := x], id) == Held(workers, id) - HeldBy(workers[w], id) + HeldBy(x, id)
    ensures Busy(workers[w := x]) == Busy(workers) - (if workers[w].Idle? then 0 else 1) + if x.Idle? then 0 else 1
  {
    if w > 0 {
      assert workers[w := x][1..] == workers[1..][w - 1 := x];
      HeldUpdate(workers[1..], w - 1, x, id);
    } else {
      assert workers[w := x][1..] == workers[1..];
    }
  }

  lemma {:induction false} IdleHoldNothing(n: nat, id: int)
    ensures Held(seq(n, _ => Idle), id) == 0 && Busy(seq(n, _ => Idle)) == 0
  {
    if n > 0 {
      assert seq(n, _ => Idle)[1..] == seq(n - 1, _ => Idle);
      IdleHoldNothing(n - 1, id);
    }
  }

  // ----- the invariant

  lemma InitInv(setup: Setup)
    ensures Inv(setup, Init(setup))
  {
    forall id ensures Located(setup, Init(setup), id) {
      IdleHoldNothing(setup.workers, id);
    }
    IdleHoldNothing(setup.workers, 0);
  }

  lemma CopiesEnds(jobs: seq<Job>, job: Job, id: int)
    ensures Copies(jobs + [job], id) == Copies(jobs, id) + if job.id == id then 1 else 0
    ensures jobs != [] ==> Copies(jobs, id) == (if jobs[0].id == id then 1 else 0) + Copies(jobs[1..], id)
  {
    CopiesAppend(jobs, [job], id);
    assert [job][1..] == [];
  }

  lemma MainMoves(setup: Setup, s: State, id: int)
    requires StageOk(setup, s) && Enabled(setup, s, MainStep) && Located(setup, s, id)
    ensures Located(setup, MainNext(setup, s), id)
  {
    hide Copies, Held, Count;
    match s.main
    case Dispatching(k) =>
      if k < |setup.skips| {
        CopiesEnds(s.input, TestJob(setup, k), id);
      }
    case Poisoning(k) =>
      CopiesEnds(s.input, POISON, id);
    case Collecting(k) =>
      if k < |setup.skips| {
        CopiesEnds(s.collected, s.output[0], id);
        CopiesEnds(s.output, s.output[0], id);
      }
    case Joining(k) =>
  }

  lemma MainConserves(setup: Setup, s: State)
    requires StageOk(setup, s) && Conserved(setup, s) && Enabled(setup, s, MainStep)
    ensures Conserved(setup, MainNext(setup, s))
  {
    forall id ensures Located(setup, MainNext(setup, s), id) {
      assert Located(setup, s, id);
      MainMoves(setup, s, id);
    }
  }

  lemma WorkerMoves(setup: Setup, s: State, w: nat, returncode: int, id: int)
    requires Enabled(setup, s, WorkerStep(w, returncode)) && Located(setup, s, id)
    requires s.workers[w].Idle? ==> FreshEntry(setup, s.input[0])
    ensures Located(setup, WorkerNext(setup, s, w, returncode), id)
  {
    HeldUpdate(s.workers, w, WorkerNext(setup, s, w, returncode).workers[w], id);
    if s.workers[w].Reporting? {
      CopiesAppend(s.output, [s.workers[w].job], id);
    }
  }

  lemma WorkerConserves(setup: Setup, s: State, w: nat, returncode: int)
    requires Conserved(setup, s) && Enabled(setup, s, WorkerStep(w, returncode))
    requires s.workers[w].Idle? ==> FreshEntry(setup, s.input[0])
    ensures Conserved(setup, WorkerNext(setup, s, w, returncode))
  {
    HeldUpdate(s.workers, w, WorkerNext(setup, s, w, returncode).workers[w], 0);
    forall id ensures Located(setup, WorkerNext(setup, s, w, returncode), id) {
      assert Located(setup, s, id);
      WorkerMoves(setup, s, w, returncode, id);
    }
  }

  lemma CollectShape(setup: Setup, s: State)
    requires Shape(setup, s) && Enabled(setup, s, MainStep) && s.main.Collecting?
    ensures Shape(setup, MainNext(setup, s))
  {
    hide WorkerOk, FreshEntry, Count, TestOf;
    var t := MainNext(setup, s);
    if s.main.count < |setup.skips| {
      assert t.collected[..|t.collected| - 1] == s.collected;
    }
  }

  lemma MainShape(setup: Setup, s: State)
    requires Shape(setup, s) && Enabled(setup, s, MainStep)
    ensures Shape(setup, MainNext(setup, s))
  {
    hide WorkerOk, Count, CountAll;
    if s.main.Collecting? {
      CollectShape(setup, s);
    } else if s.main.Dispatching? && s.main.next < |setup.skips| {
      var job := TestJob(setup, s.main.next);
      assert FreshEntry(setup, job) && !Poison(job);
    }
  }

  lemma WorkerShape(setup: Setup, s: State, w: nat, returncode: int)
    requires Shape(setup, s) && Enabled(setup, s, WorkerStep(w, returncode))
    ensures Shape(setup, WorkerNext(setup, s, w, returncode))
  {
    hide CountAll;
    assert WorkerOk(setup, s.threadExit, s.workers[w]);
    if s.workers[w].Idle? {
      IdleShape(setup, s, w, returncode);
    }
  }

  lemma IdleShape(setup: Setup, s: State, w: nat, returncode: int)
    requires Shape(setup, s) && Enabled(setup, s, WorkerStep(w, returncode)) && s.workers[w].Idle?
    ensures Shape(setup, WorkerNext(setup, s, w, returncode))
  {
    hide CountAll;
    assert FreshEntry(setup, s.input[0]);
    assert s.main.Dispatching? ==> !Poison(s.input[0]);
  }

  lemma StepKeepsInv(setup: Setup, s: State, step: Step)
    requires Inv(setup, s) && Enabled(setup, s, step)
    ensures Inv(setup, Next(setup, s, step))
  {
    match step
    case Interrupt =>
      var t := Next(setup, s, step);
      forall w | 0 <= w < |s.workers| ensures WorkerOk(setup, true, s.workers[w]) {
        assert WorkerOk(setup, s.threadExit, s.workers[w]);
      }
      forall id ensures Located(setup, t, id) {
        assert Located(setup, s, id);
      }
    case MainStep =>
      MainShape(setup, s);
      MainConserves(setup, s);
    case WorkerStep(w, returncode) =>
      WorkerShape(setup, s, w, returncode);
      WorkerConserves(setup, s, w, returncode);
  }

  // Every state of every schedule satisfies the invariant.
  lemma {:induction false} RunKeepsInv(setup: Setup, s: State, steps: seq<Step>)
    requires Inv(setup, s) && Run(setup, s, steps).Some?
    ensures Inv(setup, Run(setup, s, steps).value)
    decreases |steps|
  {
    if steps != [] {
      StepKeepsInv(setup, s, steps[0]);
      RunKeepsInv(setup, Next(setup, s, steps[0]), steps[1..]);
    }
  }

  // ----- no deadlock

  lemma {:induction false} TestsAreNoPoison(setup: Setup, jobs: seq<Job>)
    requires forall i :: 0 <= i < |jobs| ==> TestOf(setup, jobs[i])
    ensures Copies(jobs, POISON.id) == 0
  {
    if jobs != [] {
      assert TestOf(setup, jobs[0]);
      TestsAreNoPoison(setup, jobs[1..]);
    }
  }

  lemma {:induction false} ExitedHoldPoison(setup: Setup, threadExit: bool, workers: seq<Worker>)
    requires forall w :: 0 <= w < |workers| ==> WorkerOk(setup, threadExit, workers[w])
    ensures Held(workers, POISON.id) <= |workers|
    ensures Held(workers, POISON.id) == |workers| <==> forall w :: 0 <= w < |workers| ==> workers[w].Exited?
  {
    if workers != [] {
      assert WorkerOk(setup, threadExit, workers[0]);
      ExitedHoldPoison(setup, threadExit, workers[1..]);
      assert workers == [workers[0]] + workers[1..];
    }
  }

  lemma {:induction false} AllExitedAreBusy(workers: seq<Worker>)
    requires forall w :: 0 <= w < |workers| ==> workers[w].Exited?
    ensures Busy(workers) == |workers|
  {
    if workers != [] {
      AllExitedAreBusy(workers[1..]);
    }
  }

  lemma PoisonIsQueuedForIdle(setup: Setup, s: State, w: nat)
    requires Inv(setup, s) && (s.main.Collecting? || s.main.Joining?)
    requires w < |s.workers| && !s.workers[w].Exited?
    ensures s.input != []
  {
    assert Located(setup, s, POISON.id);
    TestsAreNoPoison(setup, s.output);
    TestsAreNoPoison(setup, s.collected);
    ExitedHoldPoison(setup, s.threadExit, s.workers);
  }

  lemma ResultsLeaveWithTheLastWorker(setup: Setup, s: State)
    requires Inv(setup, s) && s.main.Collecting? && s.main.count < |setup.skips| && s.workers != []
    requires forall w :: 0 <= w < |s.workers| ==> s.workers[w].Exited?
    ensures s.output != []
  {
    assert Located(setup, s, POISON.id);
    TestsAreNoPoison(setup, s.output);
    TestsAreNoPoison(setup, s.collected);
    ExitedHoldPoison(setup, s.threadExit, s.workers);
    AllExitedAreBusy(s.workers);
    assert s.workers[0].Exited?;
    assert s.input != [] ==> Poison(s.input[0]);
  }

  // While the main thread has not finished, some thread can move: with at least one
  // worker, or nothing to test, no reachable state is stuck.
  lemma SomeThreadCanMove(setup: Setup, s: State) returns (step: Step)
    requires Inv(setup, s) && !s.main.Finished?
    requires setup.workers > 0 || setup.skips == []
    ensures Enabled(setup, s, step) && step != Interrupt
  {
    if Enabled(setup, s, MainStep) {
      step := MainStep;
    } else if w :| 0 <= w < |s.workers| && !s.workers[w].Idle? && !s.workers[w].Exited? {
      step := WorkerStep(w, 0);
    } else if w :| 0 <= w < |s.workers| && !s.workers[w].Exited? {
      PoisonIsQueuedForIdle(setup, s, w);
      step := WorkerStep(w, 0);
    } else {
      if s.main.Collecting? {
        ResultsLeaveWithTheLastWorker(setup, s);
      }
      assert false;
    }
  }

  // ----- termination

  function Work(job: Job): nat {
    if job.isBreak then 1 else 4
  }

  function QueueWork(jobs: seq<Job>): nat {
    if jobs == [] then 0 else Work(jobs[0]) + QueueWork(jobs[1..])
  }

  function WorkerWork(w: Worker): nat {
    match w
    case Got(_) => 3
    case Running(_) => 2
    case Reporting(_) => 1
    case _ => 0
  }

  function PoolWork(workers: seq<Worker>): nat {
    if workers == [] then 0 else WorkerWork(workers[0]) + PoolWork(workers[1..])
  }

  function Sub(a: nat, b: nat): nat { if a > b then a - b else 0 }

  function MainWork(setup: Setup, m: Main): nat {
    var n, w := |setup.skips|, setup.workers;
    match m
    case Dispatching(k) => 5 * Sub(n, k) + 2 * w + n + w + 4
    case Poisoning(k) => 2 * Sub(w, k) + n + w + 3
    case Collecting(k) => Sub(n, k) + w + 2
    case Joining(k) => Sub(w, k) + 1
    case Finished => 0
  }

  // An upper bound on the number of steps that are left, interrupts not counted.
  function WorkLeft(setup: Setup, s: State): nat {
    MainWork(setup, s.main) + QueueWork(s.input) + PoolWork(s.workers)
  }

  lemma {:induction false} QueueWorkAppend(a: seq<Job>, job: Job)
    ensures QueueWork(a + [job]) == QueueWork(a) + Work(job)
  {
    if a == [] {
      assert a + [job] == [job];
    } else {
      assert (a + [job])[1..] == a[1..] + [job];
      QueueWorkAppend(a[1..], job);
    }
  }

  lemma QueueWorkHead(a: seq<Job>)
    ensures a != [] ==> QueueWork(a) == Work(a[0]) + QueueWork(a[1..])
  {
  }

  lemma {:induction false} PoolWorkUpdate(workers: seq<Worker>, w: nat, x: Worker)
    requires w < |workers|
    ensures PoolWork(workers[w := x]) == PoolWork(workers) - WorkerWork(workers[w]) + WorkerWork(x)
  {
    if w > 0 {
      assert workers[w := x][1..] == workers[1..][w - 1 := x];
      PoolWorkUpdate(workers[1..], w - 1, x);
    } else {
      assert workers[w := x][1..] == workers[1..];
    }
  }

  lemma StepReducesWork(setup: Setup, s: State, step: Step)
    requires Shape(setup, s) && Enabled(setup, s, step)
    ensures WorkLeft(setup, Next(setup, s, step)) <= WorkLeft(setup, s) - if step == Interrupt then 0 else 1
  {
    hide QueueWork, PoolWork;
    match step
    case Interrupt =>
    case MainStep =>
      if s.main.Dispatching? && s.main.next < |setup.skips| {
        QueueWorkAppend(s.input, TestJob(setup, s.main.next));
      } else if s.main.Poisoning? {
        QueueWorkAppend(s.input, POISON);
      }
    case WorkerStep(w, returncode) =>
      PoolWorkUpdate(s.workers, w, WorkerNext(setup, s, w, returncode).workers[w]);
      QueueWorkHead(s.input);
  }

  function Moves(steps: seq<Step>): nat {
    if steps == [] then 0 else (if steps[0] == Interrupt then 0 else 1) + Moves(steps[1..])
  }

  lemma {:induction false} RunIsBounded(setup: Setup, s: State, steps: seq<Step>)
    requires Inv(setup, s) && Run(setup, s, steps).Some?
    ensures Moves(steps) + WorkLeft(setup, Run(setup, s, steps).value) <= WorkLeft(setup, s)
    decreases |steps|
  {
    if steps != [] {
      StepKeepsInv(setup, s, steps[0]);
      StepReducesWork(setup, s, steps[0]);
      RunIsBounded(setup, Next(setup, s, steps[0]), steps[1..]);
    }
  }

  lemma {:induction false} IdleHaveNoWork(n: nat)
    ensures PoolWork(seq(n, _ => Idle)) == 0
  {
    if n > 0 {
      assert seq(n, _ => Idle)[1..] == seq(n - 1, _ => Idle);
      IdleHaveNoWork(n - 1);
    }
  }

  // No schedule makes more than 6 moves per test, 3 per worker, and 4.
  lemma ScheduleIsBounded(setup: Setup, steps: seq<Step>)
    requires Run(setup, Init(setup), steps).Some?
    ensures Moves(steps) <= 6 * |setup.skips| + 3 * setup.workers + 4
  {
    InitInv(setup);
    IdleHaveNoWork(setup.workers);
    RunIsBounded(setup, Init(setup), steps);
  }

  // Wherever a schedule has got to, it can be continued until the main thread is done.
  lemma {:induction false} CanFinish(setup: Setup, s: State) returns (steps: seq<Step>)
    requires Inv(setup, s) && (setup.workers > 0 || setup.skips == [])
    ensures Run(setup, s, steps).Some? && Run(setup, s, steps).value.main.Finished?
    decreases WorkLeft(setup, s)
  {
    if s.main.Finished? {
      steps := [];
    } else {
      var step := SomeThreadCanMove(setup, s);
      StepKeepsInv(setup, s, step);
      StepReducesWork(setup, s, step);
      var rest := CanFinish(setup, Next(setup, s, step));
      steps := [step] + rest;
      assert steps[1..] == rest;
    }
  }

  // With no worker nothing is ever put into the output queue.
  lemma {:induction false} NoWorkerNoResult(setup: Setup, s: State, steps: seq<Step>)
    requires s.workers == [] && s.output == [] && s.collected == [] && (s.main.Collecting? ==> s.main.count == 0)
    requires !s.main.Joining? && !s.main.Finished? && setup.skips != []
    requires Run(setup, s, steps).Some?
    ensures !Run(setup, s, steps).value.main.Finished?
    decreases |steps|
  {
    if steps != [] {
      NoWorkerNoResult(setup, Next(setup, s, steps[0]), steps[1..]);
    }
  }

  // The dispatcher can come to its end exactly when there is a worker or no test.
  lemma FinishesExactly(setup: Setup)
    ensures (exists steps ::
               Run(setup, Init(setup), steps).Some? && Run(setup, Init(setup), steps).value.main.Finished?)
            <==> setup.workers > 0 || setup.skips == []
  {
    InitInv(setup);
    if setup.workers > 0 || setup.skips == [] {
      var steps := CanFinish(setup, Init(setup));
    } else {
      forall steps | Run(setup, Init(setup), steps).Some?
        ensures !Run(setup, Init(setup), steps).value.main.Finished?
      {
        NoWorkerNoResult(setup, Init(setup), steps);
      }
    }
  }

  // ----- what has happened when the main thread is done

  function ExitCode(setup: Setup, s: State): int {
    if s.counters.passed + s.counters.skipped == |setup.skips| then 0 else 1
  }

  function Interrupted(jobs: seq<Job>): nat {
    if jobs == [] then 0 else Interrupted(jobs[..|jobs| - 1]) + if jobs[|jobs| - 1].isBreak then 1 else 0
  }

  predicate PassedOrSkipped(job: Job) {
    !job.isBreak && (job.isSkip || job.returncode == 0)
  }

  lemma {:induction false} CountersAddUp(jobs: seq<Job>)
    ensures var c := CountAll(jobs);
            && c.passed + c.failed + c.valgrind + c.crashed + c.skipped + Interrupted(jobs) == |jobs|
            && (c.passed + c.skipped == |jobs| <==> forall i :: 0 <= i < |jobs| ==> PassedOrSkipped(jobs[i]))
  {
    if jobs != [] {
      var k := |jobs| - 1;
      CountersAddUp(jobs[..k]);
      assert jobs == jobs[..k] + [jobs[k]];
    }
  }

  function Tally(jobs: seq<Job>, counts: Job -> bool): nat {
    if jobs == [] then 0 else (if counts(jobs[0]) then 1 else 0) + Tally(jobs[1..], counts)
  }

  lemma {:induction false} TallySnoc(jobs: seq<Job>, job: Job, counts: Job -> bool)
    ensures Tally(jobs + [job], counts) == Tally(jobs, counts) + if counts(job) then 1 else 0
  {
    if jobs == [] {
      assert jobs + [job] == [job] && [job][1..] == [];
    } else {
      assert (jobs + [job])[1..] == jobs[1..] + [job];
      TallySnoc(jobs[1..], job, counts);
    }
  }

  predicate WasRun(job: Job) {
    !job.isBreak && !job.isSkip
  }

  // Each counter is the number of jobs with its verdict.
  lemma {:induction false} CountersAreTallies(jobs: seq<Job>)
    ensures CountAll(jobs).skipped == Tally(jobs, (j: Job) => !j.isBreak && j.isSkip)
    ensures CountAll(jobs).passed == Tally(jobs, (j: Job) => WasRun(j) && j.returncode == 0)
    ensures CountAll(jobs).failed == Tally(jobs, (j: Job) => WasRun(j) && j.returncode == 1)
    ensures CountAll(jobs).valgrind == Tally(jobs, (j: Job) => WasRun(j) && j.returncode == 2)
    ensures CountAll(jobs).crashed == Tally(jobs, (j: Job) => WasRun(j) && j.returncode !in {0, 1, 2})
  {
    if jobs != [] {
      var k := |jobs| - 1;
      CountersAreTallies(jobs[..k]);
      assert jobs == jobs[..k] + [jobs[k]];
      TallySnoc(jobs[..k], jobs[k], (j: Job) => !j.isBreak && j.isSkip);
      TallySnoc(jobs[..k], jobs[k], (j: Job) => WasRun(j) && j.returncode == 0);
      TallySnoc(jobs[..k], jobs[k], (j: Job) => WasRun(j) && j.returncode == 1);
      TallySnoc(jobs[..k], jobs[k], (j: Job) => WasRun(j) && j.returncode == 2);
      TallySnoc(jobs[..k], jobs[k], (j: Job) => WasRun(j) && j.returncode !in {0, 1, 2});
    }
  }

  // ----- what the processes returned

  // The test whose process ends with a step, and its return code.
  function ResultOf(s: State, step: Step): seq<(int, int)> {
    if step.WorkerStep? && step.worker < |s.workers| && s.workers[step.worker].Running?
    then [(s.workers[step.worker].job.id, step.returncode)] else []
  }

  // The processes that end in a schedule, in order.
  function Results(setup: Setup, s: State, steps: seq<Step>): seq<(int, int)>
    requires Run(setup, s, steps).Some?
    decreases |steps|
  {
    if steps == [] then [] else ResultOf(s, steps[0]) + Results(setup, Next(setup, s, steps[0]), steps[1..])
  }

  // The jobs that come back, wherever they are: with a worker, in the queue, or collected.
  ghost predicate ComesBack(s: State, job: Job) {
    job in s.output || job in s.collected || exists w :: 0 <= w < |s.workers| && s.workers[w] == Reporting(job)
  }

  // What comes back from a process has the return code of that process, and every process that
  // ended has its job among what comes back.
  ghost predicate Traced(s: State, results: seq<(int, int)>) {
    && (forall job :: ComesBack(s, job) && WasRun(job) ==> (job.id, job.returncode) in results)
    && (forall id, rc :: (id, rc) in results ==> HasResult(s, id, rc))
  }

  ghost predicate HasResult(s: State, id: int, rc: int) {
    exists job :: ComesBack(s, job) && WasRun(job) && job.id == id && job.returncode == rc
  }

  // A step moves what comes back, and adds the one job that a worker starts to report.
  lemma StepComesBack(setup: Setup, s: State, step: Step, job: Job)
    requires Enabled(setup, s, step)
    ensures ComesBack(s, job) ==> ComesBack(Next(setup, s, step), job)
    ensures ComesBack(Next(setup, s, step), job) && !ComesBack(s, job) ==>
              && step.WorkerStep? && step.worker < |s.workers|
              && Next(setup, s, step).workers[step.worker] == Reporting(job)
              && (s.workers[step.worker].Got? || s.workers[step.worker].Running?)
  {
    var t := Next(setup, s, step);
    if step.WorkerStep? {
      var w := step.worker;
      assert forall v :: 0 <= v < |s.workers| && v != w ==> t.workers[v] == s.workers[v];
      if s.workers[w].Reporting? {
        assert s.workers[w].job in t.output;
      }
    } else if step == MainStep && s.main.Collecting? && s.main.count < |setup.skips| {
      assert s.output == [s.output[0]] + s.output[1..];
      assert t.collected[|s.collected|] == s.output[0];
    }
  }

  lemma StepTraced(setup: Setup, s: State, step: Step, results: seq<(int, int)>)
    requires Shape(setup, s) && Enabled(setup, s, step) && Traced(s, results)
    ensures Traced(Next(setup, s, step), results + ResultOf(s, step))
  {
    hide Enabled, Next, ComesBack;
    var t, results' := Next(setup, s, step), results + ResultOf(s, step);
    forall job | ComesBack(t, job) && WasRun(job) ensures (job.id, job.returncode) in results' {
      StepComesBack(setup, s, step, job);
      if !ComesBack(s, job) {
        ReportedNow(setup, s, step, job);
      }
    }
    forall id, rc | (id, rc) in results' ensures HasResult(t, id, rc) {
      if (id, rc) in results {
        var job :| ComesBack(s, job) && WasRun(job) && job.id == id && job.returncode == rc;
        StepComesBack(setup, s, step, job);
      } else {
        EndedNow(setup, s, step, id, rc);
      }
    }
  }

  lemma ReportedNow(setup: Setup, s: State, step: Step, job: Job)
    requires Shape(setup, s) && Enabled(setup, s, step) && step.WorkerStep? && WasRun(job)
    requires s.workers[step.worker].Got? || s.workers[step.worker].Running?
    requires Next(setup, s, step).workers[step.worker] == Reporting(job)
    ensures (job.id, job.returncode) in ResultOf(s, step)
  {
    assert WorkerOk(setup, s.threadExit, s.workers[step.worker]);
  }

  lemma EndedNow(setup: Setup, s: State, step: Step, id: int, rc: int)
    requires Shape(setup, s) && Enabled(setup, s, step) && (id, rc) in ResultOf(s, step)
    ensures HasResult(Next(setup, s, step), id, rc)
  {
    var w := step.worker;
    assert WorkerOk(setup, s.threadExit, s.workers[w]);
    var job := s.workers[w].job.(returncode := rc);
    assert Next(setup, s, step).workers[w] == Reporting(job);
    assert ComesBack(Next(setup, s, step), job);
  }

  lemma {:induction false} RunTraced(setup: Setup, s: State, steps: seq<Step>, results: seq<(int, int)>)
    requires Inv(setup, s) && Run(setup, s, steps).Some? && Traced(s, results)
    ensures Traced(Run(setup, s, steps).value, results + Results(setup, s, steps))
    decreases |steps|
  {
    hide Traced, Enabled, Next, Inv;
    if steps == [] {
      assert results + [] == results;
    } else {
      InvShape(setup, s);
      StepTraced(setup, s, steps[0], results);
      StepKeepsInv(setup, s, steps[0]);
      var t, first := Next(setup, s, steps[0]), ResultOf(s, steps[0]);
      RunTraced(setup, t, steps[1..], results + first);
      assert results + first + Results(setup, t, steps[1..]) == results + (first + Results(setup, t, steps[1..]));
    }
  }

  lemma InvShape(setup: Setup, s: State)
    requires Inv(setup, s)
    ensures Shape(setup, s)
  {
  }

  lemma {:induction false} MemberIsCopy(jobs: seq<Job>, job: Job)
    requires job in jobs
    ensures Copies(jobs, job.id) >= 1
  {
    if jobs[0] != job {
      MemberIsCopy(jobs[1..], job);
    }
  }

  lemma {:induction false} WorkerIsHolder(workers: seq<Worker>, w: nat, id: int)
    requires w < |workers|
    ensures Held(workers, id) >= HeldBy(workers[w], id)
  {
    if w > 0 {
      WorkerIsHolder(workers[1..], w - 1, id);
    }
  }

  lemma {:induction false} TwoHolders(workers: seq<Worker>, v: nat, w: nat, id: int)
    requires v < w < |workers|
    ensures Held(workers, id) >= HeldBy(workers[v], id) + HeldBy(workers[w], id)
  {
    if v > 0 {
      TwoHolders(workers[1..], v - 1, w - 1, id);
    } else {
      WorkerIsHolder(workers[1..], w - 1, id);
    }
  }

  // A test whose process still runs has not come back.
  lemma RunningIsNotBack(setup: Setup, s: State, w: nat, job: Job)
    requires Inv(setup, s) && w < |s.workers| && s.workers[w].Running? && ComesBack(s, job)
    ensures job.id != s.workers[w].job.id
  {
    var id := s.workers[w].job.id;
    assert WorkerOk(setup, s.threadExit, s.workers[w]);
    if job.id == id {
      assert Located(setup, s, id);
      WorkerIsHolder(s.workers, w, id);
      if job in s.output {
        MemberIsCopy(s.output, job);
      } else if job in s.collected {
        MemberIsCopy(s.collected, job);
      } else {
        var v :| 0 <= v < |s.workers| && s.workers[v] == Reporting(job);
        TwoHolders(s.workers, if v < w then v else w, if v < w then w else v, id);
      }
    }
  }

  function Ids(results: seq<(int, int)>): seq<int> {
    seq(|results|, i requires 0 <= i < |results| => results[i].0)
  }

  lemma ResultIsNew(setup: Setup, s: State, step: Step, results: seq<(int, int)>)
    requires Inv(setup, s) && Enabled(setup, s, step) && Traced(s, results) && NoRepeats(Ids(results))
    ensures NoRepeats(Ids(results + ResultOf(s, step)))
  {
    hide Enabled, Inv, ComesBack;
    var ended := ResultOf(s, step);
    if ended == [] {
      assert results + ended == results;
    } else {
      var (id, rc) := ended[0];
      assert Ids(results + ended) == Ids(results) + [id];
      forall i | 0 <= i < |results| ensures results[i].0 != id {
        assert results[i] in results && HasResult(s, results[i].0, results[i].1);
        var job :| ComesBack(s, job) && WasRun(job) && job.id == results[i].0 && job.returncode == results[i].1;
        RunningIsNotBack(setup, s, step.worker, job);
      }
    }
  }

  // The process of a test ends once at most.
  lemma {:induction false} RunOnce(setup: Setup, s: State, steps: seq<Step>, results: seq<(int, int)>)
    requires Inv(setup, s) && Run(setup, s, steps).Some? && Traced(s, results) && NoRepeats(Ids(results))
    ensures NoRepeats(Ids(results + Results(setup, s, steps)))
    decreases |steps|
  {
    hide Traced, Enabled, Next, Inv, NoRepeats, Ids;
    if steps == [] {
      assert results + [] == results;
    } else {
      InvShape(setup, s);
      ResultIsNew(setup, s, steps[0], results);
      StepTraced(setup, s, steps[0], results);
      StepKeepsInv(setup, s, steps[0]);
      var t, first := Next(setup, s, steps[0]), ResultOf(s, steps[0]);
      RunOnce(setup, t, steps[1..], results + first);
      assert results + first + Results(setup, t, steps[1..]) == results + (first + Results(setup, t, steps[1..]));
    }
  }

  // In any schedule the process of each test ends once at most, and what is collected is what the
  // processes returned: a test that is neither skipped nor given back unrun has the return code of its
  // own process, and one that is has none.
  lemma CollectedAsReturned(setup: Setup, steps: seq<Step>)
    requires Run(setup, Init(setup), steps).Some?
    ensures NoRepeats(Ids(Results(setup, Init(setup), steps)))
    ensures forall job :: job in Run(setup, Init(setup), steps).value.collected ==>
              if WasRun(job) then (job.id, job.returncode) in Results(setup, Init(setup), steps)
              else job.id !in Ids(Results(setup, Init(setup), steps))
  {
    hide Inv, Traced, NoRepeats, Ids, ComesBack;
    var s0, s := Init(setup), Run(setup, Init(setup), steps).value;
    var results := Results(setup, s0, steps);
    InitInv(setup);
    NothingTraced(setup);
    RunKeepsInv(setup, s0, steps);
    RunTraced(setup, s0, steps, []);
    RunOnce(setup, s0, steps, []);
    assert [] + results == results;
    forall job | job in s.collected
      ensures if WasRun(job) then (job.id, job.returncode) in results else job.id !in Ids(results)
    {
      CollectedResult(setup, s, results, job);
    }
  }

  lemma NothingTraced(setup: Setup)
    ensures Traced(Init(setup), []) && NoRepeats(Ids([]))
  {
  }

  lemma CollectedResult(setup: Setup, s: State, results: seq<(int, int)>, job: Job)
    requires Inv(setup, s) && Traced(s, results) && job in s.collected
    ensures if WasRun(job) then (job.id, job.returncode) in results else job.id !in Ids(results)
  {
    hide Inv;
    assert ComesBack(s, job);
    if !WasRun(job) && job.id in Ids(results) {
      var i :| 0 <= i < |results| && results[i].0 == job.id;
      assert results[i] in results && HasResult(s, results[i].0, results[i].1);
      var other :| ComesBack(s, other) && WasRun(other) && other.id == job.id && other.returncode == results[i].1;
      BackOnce(setup, s, job, other);
    }
  }

  lemma {:induction false} TwoMembers(jobs: seq<Job>, a: Job, b: Job)
    requires a in jobs && b in jobs && a != b && a.id == b.id
    ensures Copies(jobs, a.id) >= 2
  {
    if jobs[0] == a {
      MemberIsCopy(jobs[1..], b);
    } else if jobs[0] == b {
      MemberIsCopy(jobs[1..], a);
    } else {
      TwoMembers(jobs[1..], a, b);
    }
  }

  // A test comes back in one place only.
  lemma BackOnce(setup: Setup, s: State, job: Job, other: Job)
    requires Inv(setup, s) && job in s.collected && ComesBack(s, other) && job.id == other.id
    ensures job == other
  {
    var id := job.id;
    if job != other {
      var i :| 0 <= i < |s.collected| && s.collected[i] == job;
      assert TestOf(setup, s.collected[i]);
      assert Located(setup, s, id);
      MemberIsCopy(s.collected, job);
      if other in s.collected {
        TwoMembers(s.collected, job, other);
      } else if other in s.output {
        MemberIsCopy(s.output, other);
      } else {
        var v :| 0 <= v < |s.workers| && s.workers[v] == Reporting(other);
        WorkerIsHolder(s.workers, v, id);
      }
    }
  }

  // At the end of any schedule every test has been collected exactly once, every worker
  // has taken one poison and returned, the counters add up, and the exit code is 0
  // exactly when none was given back unrun and every test was skipped or its process
  // returned 0.
  lemma FinishedRun(setup: Setup, steps: seq<Step>)
    requires Run(setup, Init(setup), steps).Some?
    requires Run(setup, Init(setup), steps).value.main.Finished?
    ensures var s := Run(setup, Init(setup), steps).value;
            var c := s.counters;
            && |s.collected| == |setup.skips|
            && (forall id :: 0 <= id < |setup.skips| ==> Copies(s.collected, id) == 1)
            && s.input == [] && s.output == []
            && |s.workers| == setup.workers && (forall w :: 0 <= w < |s.workers| ==> s.workers[w].Exited?)
            && c == CountAll(s.collected)
            && c.passed + c.failed + c.valgrind + c.crashed + c.skipped + Interrupted(s.collected) == |setup.skips|
    ensures var s := Run(setup, Init(setup), steps).value;
            && (ExitCode(setup, s) == 0
                <==> && Interrupted(s.collected) == 0
                     && forall id :: 0 <= id < |setup.skips| ==>
                          setup.skips[id] || (id, 0) in Results(setup, Init(setup), steps))
            && (ExitCode(setup, s) == 0 || ExitCode(setup, s) == 1)
  {
    var s := Run(setup, Init(setup), steps).value;
    InitInv(setup);
    RunKeepsInv(setup, Init(setup), steps);
    AllExitedAreBusy(s.workers);
    CountersAddUp(s.collected);
    forall id | 0 <= id < |setup.skips| ensures Copies(s.collected, id) == 1 {
      assert Located(setup, s, id);
      ExitedHoldNoTest(s.workers, id);
    }
    ExitCodeExactly(setup, steps);
  }

  lemma {:induction false} CopyIsMember(jobs: seq<Job>, id: int) returns (job: Job)
    requires Copies(jobs, id) >= 1
    ensures job in jobs && job.id == id
  {
    if jobs[0].id == id {
      job := jobs[0];
    } else {
      job := CopyIsMember(jobs[1..], id);
    }
  }

  lemma {:induction false} InterruptedNone(jobs: seq<Job>)
    ensures Interrupted(jobs) == 0 <==> forall job :: job in jobs ==> !job.isBreak
  {
    if jobs != [] {
      var k := |jobs| - 1;
      InterruptedNone(jobs[..k]);
      assert jobs == jobs[..k] + [jobs[k]];
    }
  }

  lemma ExitCodeExactly(setup: Setup, steps: seq<Step>)
    requires Run(setup, Init(setup), steps).Some?
    requires var s := Run(setup, Init(setup), steps).value;
             Inv(setup, s) && |s.collected| == |setup.skips|
             && forall id :: 0 <= id < |setup.skips| ==> Copies(s.collected, id) == 1
    ensures var s := Run(setup, Init(setup), steps).value;
            ExitCode(setup, s) == 0
            <==> && Interrupted(s.collected) == 0
                 && forall id :: 0 <= id < |setup.skips| ==>
                      setup.skips[id] || (id, 0) in Results(setup, Init(setup), steps)
  {
    hide Results, NoRepeats;
    var s, results := Run(setup, Init(setup), steps).value, Results(setup, Init(setup), steps);
    CollectedAsReturned(setup, steps);
    CountersAddUp(s.collected);
    InterruptedNone(s.collected);
    InvShape(setup, s);
    if Interrupted(s.collected) == 0 && forall id :: 0 <= id < |setup.skips| ==> setup.skips[id] || (id, 0) in results {
      forall i | 0 <= i < |s.collected| ensures PassedOrSkipped(s.collected[i]) {
        var job := s.collected[i];
        assert job in s.collected && TestOf(setup, job);
        if !job.isSkip {
          OneResult(results, job.id, job.returncode, 0);
        }
      }
    }
    if forall i :: 0 <= i < |s.collected| ==> PassedOrSkipped(s.collected[i]) {
      forall job | job in s.collected ensures PassedOrSkipped(job) && TestOf(setup, job) {
        var i :| 0 <= i < |s.collected| && s.collected[i] == job;
      }
      forall id | 0 <= id < |setup.skips| ensures setup.skips[id] || (id, 0) in results {
        var job := CopyIsMember(s.collected, id);
        assert PassedOrSkipped(job) && TestOf(setup, job);
      }
    }
  }

  lemma OneResult(results: seq<(int, int)>, id: int, rc: int, rc': int)
    requires NoRepeats(Ids(results)) && (id, rc) in results && (id, rc') in results
    ensures rc == rc'
  {
    var i :| 0 <= i < |results| && results[i] == (id, rc);
    var j :| 0 <= j < |results| && results[j] == (id, rc');
    assert Ids(results)[i] == Ids(results)[j];
  }

  // After an interrupt no process is started: those that end were running.
  lemma {:induction false} NothingStarts(setup: Setup, s: State, steps: seq<Step>, id: int)
    requires s.threadExit && Run(setup, s, steps).Some? && id in Ids(Results(setup, s, steps))
    ensures exists w :: 0 <= w < |s.workers| && s.workers[w].Running? && s.workers[w].job.id == id
    decreases |steps|
  {
    var t, first := Next(setup, s, steps[0]), ResultOf(s, steps[0]);
    var rest := Results(setup, t, steps[1..]);
    assert Ids(first + rest) == Ids(first) + Ids(rest);
    if id in Ids(first) {
      assert s.workers[steps[0].worker].job.id == id;
    } else {
      NothingStarts(setup, t, steps[1..], id);
      var w :| 0 <= w < |t.workers| && t.workers[w].Running? && t.workers[w].job.id == id;
      StaysRunning(setup, s, steps[0], w);
    }
  }

  lemma StaysRunning(setup: Setup, s: State, step: Step, w: nat)
    requires s.threadExit && Enabled(setup, s, step)
    requires w < |Next(setup, s, step).workers| && Next(setup, s, step).workers[w].Running?
    ensures w < |s.workers| && s.workers[w] == Next(setup, s, step).workers[w]
  {
  }

  lemma InterruptStartsNothing(setup: Setup, s: State, steps: seq<Step>, id: int)
    requires steps != [] && steps[0] == Interrupt && Run(setup, s, steps).Some?
    requires id in Ids(Results(setup, s, steps))
    ensures exists w :: 0 <= w < |s.workers| && s.workers[w].Running? && s.workers[w].job.id == id
  {
    var t := Next(setup, s, Interrupt);
    assert [] + Results(setup, t, steps[1..]) == Results(setup, t, steps[1..]);
    NothingStarts(setup, t, steps[1..], id);
  }

  lemma {:induction false} ExitedHoldNoTest(workers: seq<Worker>, id: int)
    requires id != POISON.id && forall w :: 0 <= w < |workers| ==> workers[w].Exited?
    ensures Held(workers, id) == 0
  {
    if workers != [] {
      ExitedHoldNoTest(workers[1..], id);
    }
  }

  // Without an interrupt no test is given back unrun.
  lemma {:induction false} NoInterruptNoBreak(setup: Setup, s: State, steps: seq<Step>)
    requires Inv(setup, s) && !s.threadExit && Interrupt !in steps && Run(setup, s, steps).Some?
    ensures var t := Run(setup, s, steps).value;
            !t.threadExit && Inv(setup, t) && forall i :: 0 <= i < |t.collected| ==> !t.collected[i].isBreak
    decreases |steps|
  {
    if steps != [] {
      StepKeepsInv(setup, s, steps[0]);
      NoInterruptNoBreak(setup, Next(setup, s, steps[0]), steps[1..]);
    }
  }
}
