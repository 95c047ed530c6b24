// What the parser keeps of its tokens: all of them, in whatever order the parts of a command are given.
module ShellTokens {
  import opened Wrappers
  import opened ShellParse

  // ----- assignments

  // The name stands in front of the first "=" and is made of letters, digits and underscores; the
  // value has no white space, and one newline may follow it.
  lemma EnvMatchExactly(token: string, key: string, value: string)
    ensures EnvMatch(token) == Some((key, value))
       <==> && (token == key + "=" + value || token == key + "=" + value + "\n")
            && key != "" && value != ""
            && (forall c :: c in key ==> 'a' <= c <= 'z' || 'A' <= c <= 'Z' || '0' <= c <= '9' || c == '_')
            && (forall c :: c in value ==> c != ' ' && !('\t' <= c <= '\r'))
  {
    CharsOf(key, value);
    if EnvMatch(token) == Some((key, value)) {
      MatchHasForm(token);
    } else if WordAndSolid(key, value) && (token == key + "=" + value || token == key + "=" + value + "\n") {
      FormMatches(key, value);
      assert false;
    }
  }

  predicate WordAndSolid(key: string, value: string) {
    Word(key) && Solid(value)
  }

  lemma CharsOf(key: string, value: string)
    ensures WordAndSolid(key, value)
       <==> && key != "" && value != ""
            && (forall c :: c in key ==> 'a' <= c <= 'z' || 'A' <= c <= 'Z' || '0' <= c <= '9' || c == '_')
            && (forall c :: c in value ==> c != ' ' && !('\t' <= c <= '\r'))
  {
    assert forall i :: 0 <= i < |key| ==> key[i] in key;
    assert forall i :: 0 <= i < |value| ==> value[i] in value;
  }

  lemma MatchHasForm(token: string)
    requires EnvMatch(token).Some?
    ensures var (key, value) := EnvMatch(token).value;
            (token == key + "=" + value || token == key + "=" + value + "\n") && WordAndSolid(key, value)
  {
    var i := FirstEquals(token);
    EqualsFound(token);
    assert token == token[..i] + "=" + token[i + 1..];
    var rest := token[i + 1..];
    assert rest != "" ==> rest == rest[..|rest| - 1] + [rest[|rest| - 1]];
  }

  lemma {:induction false} EqualsFound(s: string)
    ensures FirstEquals(s) < |s| ==> s[FirstEquals(s)] == '='
  {
    if s != "" && s[0] != '=' {
      EqualsFound(s[1..]);
    }
  }

  lemma FormMatches(key: string, value: string)
    requires WordAndSolid(key, value)
    ensures EnvMatch(key + "=" + value) == EnvMatch(key + "=" + value + "\n") == Some((key, value))
  {
    var s, s' := key + "=" + value, key + "=" + (value + "\n");
    FirstEqualsAt(key, value);
    FirstEqualsAt(key, value + "\n");
    assert s[..|key|] == key && s[|key| + 1..] == value;
    assert s'[..|key|] == key && s'[|key| + 1..] == value + "\n";
    assert (value + "\n")[..|value|] == value;
    assert !Space(value[|value| - 1]);
    assert s' == key + "=" + value + "\n";
  }

  // ----- no token is lost

  // The redirection that still waits for its file.
  function Pending(mode: Mode): multiset<string> {
    match mode
    case WantStdout => multiset{">"}
    case WantStderr => multiset{"2>"}
    case WantStdin => multiset{"<"}
    case _ => multiset{}
  }

  function InputBag(stdin: Option<string>): multiset<string> {
    if stdin.Some? then multiset{"<"} + multiset{stdin.value} else multiset{}
  }

  function OutputBag(stdout: Output): multiset<string> {
    if stdout.ToFile? then multiset{">"} + multiset{stdout.file} else multiset{}
  }

  function ErrorBag(stderr: ErrorOutput): multiset<string> {
    match stderr
    case SameAsParent => multiset{}
    case SameAsStdout => multiset{"2>&1"}
    case ErrorFile(f) => multiset{"2>"} + multiset{f}
  }

  // The tokens of a node, in no order.
  function Bag(n: Node): multiset<string> {
    match n
    case Command(_, argv, stdin, stdout, stderr, env) =>
      multiset(EnvTokens(env)) + multiset(argv) + InputBag(stdin) + OutputBag(stdout) + ErrorBag(stderr)
    case Chdir(dir) => multiset{"cd"} + if dir.Some? then multiset{dir.value} else multiset{}
    case _ => multiset{}
  }

  lemma StreamBags(stdin: Option<string>, stdout: Output, stderr: ErrorOutput)
    ensures multiset(if stdin.Some? then ["<", stdin.value] else []) == InputBag(stdin)
    ensures multiset(if stdout.ToFile? then [">", stdout.file] else []) == OutputBag(stdout)
    ensures multiset(match stderr case SameAsParent => [] case SameAsStdout => ["2>&1"] case ErrorFile(f) => ["2>", f])
         == ErrorBag(stderr)
  {
    if stdin.Some? {
      TwoTokens("<", stdin.value);
    }
    if stdout.ToFile? {
      TwoTokens(">", stdout.file);
    }
    if stderr.ErrorFile? {
      TwoTokens("2>", stderr.file);
    }
  }

  lemma TwoTokens(a: string, b: string)
    ensures multiset([a, b]) == multiset{a} + multiset{b}
  {
    assert [a, b] == [a] + [b];
  }

  lemma BagOfTokens(n: Node)
    ensures multiset(NodeTokens(n)) == Bag(n)
  {
    hide EnvTokens, InputBag, OutputBag, ErrorBag;
    match n
    case Command(_, argv, stdin, stdout, stderr, env) =>
      var a := if stdin.Some? then ["<", stdin.value] else [];
      var b := if stdout.ToFile? then [">", stdout.file] else [];
      var d := match stderr case SameAsParent => [] case SameAsStdout => ["2>&1"] case ErrorFile(f) => ["2>", f];
      StreamBags(stdin, stdout, stderr);
      BagOfFive(EnvTokens(env), argv, a, b, d);
    case Chdir(dir) =>
    case _ =>
  }

  lemma BagOfFive(a: seq<string>, b: seq<string>, c: seq<string>, d: seq<string>, e: seq<string>)
    ensures multiset(a + b + c + d + e) == multiset(a) + multiset(b) + multiset(c) + multiset(d) + multiset(e)
  {
  }

  // The tokens taken so far, as the state still has them.
  function Held(st: State): multiset<string> {
    multiset(PairTokens(st.pipeline)) + multiset(EnvTokens(st.env))
    + (if st.current.Some? then Bag(st.current.value) else multiset{}) + Pending(st.mode)
  }

  // Neither the second assignment to a name nor one with a newline behind it.
  predicate Assigns(env: seq<(string, string)>, token: string) {
    EnvMatch(token).Some? ==>
      Assignment(EnvMatch(token).value) == token && Lookup(env, EnvMatch(token).value.0) == None
  }

  lemma {:induction false} LookupNone(env: seq<(string, string)>, key: string)
    requires Lookup(env, key) == None
    ensures forall i :: 0 <= i < |env| ==> env[i].0 != key
  {
    if env != [] {
      LookupNone(env[1..], key);
      assert forall i :: 1 <= i < |env| ==> env[i] == env[1..][i - 1];
    }
  }

  lemma NextHeldAtBegin(st: State, token: string)
    requires StateOk(st) && st.mode == Begin && Next(st, token).Some? && Assigns(st.env, token)
    ensures Held(Next(st, token).value) == Held(st) + multiset{token}
  {
    hide EnvMatch, PairsOk, EnvOk, PairTokens, Assignment, Put, EnvTokens;
    var m := EnvMatch(token);
    if m.Some? {
      LookupNone(st.env, m.value.0);
      PutNew(st.env, m.value.0, m.value.1);
      EnvTokensSnoc(st.env, m.value);
    } else {
      NoEnvTokens();
    }
  }

  lemma NoEnvTokens()
    ensures EnvTokens([]) == []
  {
  }

  lemma EnvTokensSnoc(env: seq<(string, string)>, v: (string, string))
    ensures EnvTokens(env + [v]) == EnvTokens(env) + [Assignment(v)]
  {
    assert (env + [v])[..|env|] == env;
  }

  lemma NextHeld(st: State, token: string)
    requires StateOk(st) && Next(st, token).Some? && (st.mode == Begin ==> Assigns(st.env, token))
    ensures Held(Next(st, token).value) == Held(st) + multiset{token}
  {
    hide EnvMatch, PairsOk, EnvOk, PairTokens, EnvTokens, LastOk, Bag, Pending, Put;
    var st' := Next(st, token).value;
    if st.mode == Begin {
      NextHeldAtBegin(st, token);
    } else if st'.pipeline != st.pipeline {
      CommitHeld(st, token);
    } else {
      NodeHeld(st, token);
    }
  }

  lemma CommitHeld(st: State, token: string)
    requires StateOk(st) && st.mode != Begin && Next(st, token).Some?
    requires Next(st, token).value.pipeline != st.pipeline
    ensures Held(Next(st, token).value) == Held(st) + multiset{token}
  {
    hide EnvMatch, PairsOk, EnvOk, LastOk, Held, Bag, NodeTokens, Put;
    var st' := Next(st, token).value;
    var op := st'.pipeline[|st'.pipeline| - 1];
    var n := if op == Pipe then st.current.value.(stdout := ToPipe) else st.current.value;
    assert Bag(n) == Bag(st.current.value) by {
      if op == Pipe {
        PipeBag(st.current.value);
      }
    }
    Committed(st, n, op);
    assert st' == State(Begin, None, st.env, st.pipeline + [n, op]) && token == OperatorToken(op);
  }

  lemma Committed(st: State, n: Node, op: Node)
    requires st.mode == InCommand || st.mode == InChdir
    requires st.current.Some? && Bag(n) == Bag(st.current.value)
    ensures Held(State(Begin, None, st.env, st.pipeline + [n, op])) == Held(st) + multiset{OperatorToken(op)}
  {
    hide PairTokens, EnvTokens, Bag, NodeTokens, OperatorToken;
    PairTokensSnoc(st.pipeline, n, op);
    BagOfTokens(n);
  }

  lemma PipeBag(n: Node)
    requires n.Command? && n.stdout == Inherit
    ensures Bag(n.(stdout := ToPipe)) == Bag(n)
  {
    hide EnvTokens;
  }

  // A token that goes to the current node, or waits for a file to go there.
  lemma NodeHeld(st: State, token: string)
    requires StateOk(st) && st.mode != Begin && Next(st, token).Some?
    requires Next(st, token).value.pipeline == st.pipeline
    ensures Held(Next(st, token).value) == Held(st) + multiset{token}
  {
    hide EnvMatch, PairsOk, EnvOk, LastOk, Held, Put, Bag;
    var st' := Next(st, token).value;
    NodeGrows(st, token);
    HeldParts(st);
    HeldParts(st');
  }

  predicate Grows(st: State, st': State, token: string)
    requires st.current.Some?
  {
    && st'.env == st.env && st'.current.Some?
    && Bag(st'.current.value) + Pending(st'.mode) == Bag(st.current.value) + Pending(st.mode) + multiset{token}
  }

  lemma NodeGrows(st: State, token: string)
    requires StateOk(st) && st.mode != Begin && Next(st, token).Some?
    requires Next(st, token).value.pipeline == st.pipeline
    ensures Grows(st, Next(st, token).value, token)
  {
    hide EnvMatch, PairsOk, EnvOk, LastOk, Put, Bag, Grows;
    if st.mode == InChdir {
      DirectoryGrows(st, token);
    } else if st.mode == InCommand {
      CommandGrows(st, token);
    } else {
      FileGrows(st, token);
    }
  }

  lemma DirectoryGrows(st: State, token: string)
    requires st.mode == InChdir && Next(st, token).Some? && Next(st, token).value.pipeline == st.pipeline
    ensures st.current.Some? && Grows(st, Next(st, token).value, token)
  {
  }

  lemma CommandGrows(st: State, token: string)
    requires st.mode == InCommand && Next(st, token).Some? && Next(st, token).value.pipeline == st.pipeline
    ensures st.current.Some? && Grows(st, Next(st, token).value, token)
  {
    hide Bag;
    var n := st.current.value;
    if token == "2>&1" {
      ErrorsGrow(n, token);
    } else if token !in REDIRECTIONS {
      ArgumentsGrow(n, token);
    }
  }

  lemma FileGrows(st: State, token: string)
    requires st.mode == WantStdout || st.mode == WantStderr || st.mode == WantStdin
    requires Next(st, token).Some?
    ensures st.current.Some? && Grows(st, Next(st, token).value, token)
  {
    hide Bag;
    var n := st.current.value;
    match st.mode
    case WantStdout => OutputGrows(n, token);
    case WantStderr => ErrorsGrow(n, token);
    case _ => InputGrows(n, token);
  }

  lemma ArgumentsGrow(n: Node, token: string)
    requires n.Command?
    ensures Bag(n.(argv := n.argv + [token])) == Bag(n) + multiset{token}
  {
    hide EnvTokens, InputBag, OutputBag, ErrorBag;
  }

  lemma InputGrows(n: Node, token: string)
    requires n.Command? && n.stdin == None
    ensures Bag(n.(stdin := Some(token))) == Bag(n) + (multiset{"<"} + multiset{token})
  {
    hide EnvTokens, OutputBag, ErrorBag;
  }

  lemma OutputGrows(n: Node, token: string)
    requires n.Command? && n.stdout == Inherit
    ensures Bag(n.(stdout := ToFile(token))) == Bag(n) + (multiset{">"} + multiset{token})
  {
    hide EnvTokens, InputBag, ErrorBag;
  }

  lemma ErrorsGrow(n: Node, token: string)
    requires n.Command? && n.stderr == SameAsParent
    ensures Bag(n.(stderr := SameAsStdout)) == Bag(n) + multiset{"2>&1"}
    ensures Bag(n.(stderr := ErrorFile(token))) == Bag(n) + (multiset{"2>"} + multiset{token})
  {
    hide EnvTokens, InputBag, OutputBag;
  }

  lemma HeldParts(st: State)
    requires st.current.Some?
    ensures Held(st)
         == multiset(PairTokens(st.pipeline)) + multiset(EnvTokens(st.env)) + (Bag(st.current.value) + Pending(st.mode))
  {
    hide PairTokens, EnvTokens, Bag, Pending;
  }

  lemma PairTokensSnoc(ns: seq<Node>, n: Node, op: Node)
    ensures PairTokens(ns + [n, op]) == PairTokens(ns) + NodeTokens(n) + [OperatorToken(op)]
  {
    hide NodeTokens;
    var all := ns + [n, op];
    assert all[..|all| - 2] == ns;
  }

  // No two tokens assign to one name, and no assignment has a newline behind it.
  predicate AssignedOnce(env: seq<(string, string)>, tokens: seq<string>) {
    && (forall i :: 0 <= i < |tokens| ==> Assigns(env, tokens[i]))
    && (forall i, j :: 0 <= i < j < |tokens| && EnvMatch(tokens[i]).Some? && EnvMatch(tokens[j]).Some? ==>
          EnvMatch(tokens[i]).value.0 != EnvMatch(tokens[j]).value.0)
  }

  lemma StaysAssignedOnce(st: State, tokens: seq<string>)
    requires tokens != [] && AssignedOnce(st.env, tokens) && Next(st, tokens[0]).Some?
    ensures AssignedOnce(Next(st, tokens[0]).value.env, tokens[1..])
  {
    hide EnvMatch, Assignment, Put;
    var st', rest := Next(st, tokens[0]).value, tokens[1..];
    forall i | 0 <= i < |rest| ensures rest[i] == tokens[i + 1] && Assigns(st'.env, rest[i]) {
      if EnvMatch(tokens[0]).Some? && EnvMatch(rest[i]).Some? {
        PutChangesOne(st.env, EnvMatch(tokens[0]).value.0, EnvMatch(tokens[0]).value.1, EnvMatch(rest[i]).value.0);
      }
    }
  }

  lemma {:induction false} FeedHeld(st: State, tokens: seq<string>)
    requires StateOk(st) && Feed(st, tokens).Some? && AssignedOnce(st.env, tokens)
    ensures Held(Feed(st, tokens).value) == Held(st) + multiset(tokens)
    decreases |tokens|
  {
    hide Next, StateOk, Held, AssignedOnce;
    if tokens != [] {
      var st' := Next(st, tokens[0]).value;
      NextKeepsOk(st, tokens[0]);
      FirstAssigns(st, tokens);
      NextHeld(st, tokens[0]);
      StaysAssignedOnce(st, tokens);
      FeedHeld(st', tokens[1..]);
      assert tokens == [tokens[0]] + tokens[1..];
    }
  }

  lemma FirstAssigns(st: State, tokens: seq<string>)
    requires tokens != [] && AssignedOnce(st.env, tokens)
    ensures Assigns(st.env, tokens[0])
  {
  }

  lemma RenderClosed(st: State)
    requires StateOk(st) && st.current.Some?
    ensures multiset(Render(st.pipeline + [st.current.value])) + Pending(st.mode) == Held(st)
  {
    hide PairTokens, PairsOk, NodeTokens, LastOk, Bag;
    var ns := st.pipeline + [st.current.value];
    assert ns[..|ns| - 1] == st.pipeline;
    BagOfTokens(st.current.value);
    NoEnvTokens();
  }

  lemma StartHoldsNothing()
    ensures StateOk(START) && Held(START) == multiset{}
  {
  }

  // Only a redirection leaves the parser waiting for a file.
  lemma EndsPending(tokens: seq<string>)
    requires Feed(START, tokens).Some?
    ensures var left := Pending(Feed(START, tokens).value.mode);
            left == multiset{}
            || (tokens != [] && tokens[|tokens| - 1] in [">", "2>", "<"] && left == multiset{tokens[|tokens| - 1]})
  {
    hide Feed, Next, Pending;
    if tokens == [] {
      FeedNothing(START, tokens);
      assert Pending(Begin) == multiset{} by { NothingPending(); }
    } else {
      var k := |tokens| - 1;
      assert tokens == tokens[..k] + [tokens[k]];
      FeedAppend(START, tokens[..k], [tokens[k]]);
      FeedOne(Feed(START, tokens[..k]).value, tokens[k]);
      NextPending(Feed(START, tokens[..k]).value, tokens[k]);
    }
  }

  lemma NothingPending()
    ensures Pending(Begin) == multiset{}
  {
  }

  lemma NextPending(st: State, token: string)
    requires Next(st, token).Some?
    ensures var left := Pending(Next(st, token).value.mode);
            left == multiset{} || (token in [">", "2>", "<"] && left == multiset{token})
  {
    hide EnvMatch, Put;
  }

  lemma FeedNothing(st: State, tokens: seq<string>)
    requires tokens == []
    ensures Feed(st, tokens) == Some(st)
  {
  }

  // Every token ends up in the pipeline, except a redirection at the very end, which is dropped.
  lemma NothingLost(tokens: seq<string>)
    requires Parse(tokens).Some? && AssignedOnce([], tokens)
    ensures var ns := Parse(tokens).value;
            || multiset(tokens) == multiset(Render(ns))
            || (tokens[|tokens| - 1] in [">", "2>", "<"]
                && multiset(tokens) == multiset(Render(ns)) + multiset{tokens[|tokens| - 1]})
  {
    hide Next, StateOk, PairTokens, Feed, NodeTokens, EnvTokens, Bag, Render, Held;
    StartHoldsNothing();
    FeedHeld(START, tokens);
    FeedKeepsOk(START, tokens);
    var st := Feed(START, tokens).value;
    EndsPending(tokens);
    RenderClosed(st);
    assert multiset{} + multiset(tokens) == multiset(tokens);
  }

  // ----- the parts of a command, in any order

  datatype Part = Argument(token: string) | Input(file: string) | Output(file: string) | Errors(file: string)
                | ErrorsJoined

  datatype Place = Args | Stdin | Stdout | Stderr

  function PlaceOf(p: Part): Place {
    match p
    case Argument(_) => Args
    case Input(_) => Stdin
    case Output(_) => Stdout
    case _ => Stderr
  }

  function PartTokens(p: Part): seq<string> {
    match p
    case Argument(token) => [token]
    case Input(file) => ["<", file]
    case Output(file) => [">", file]
    case Errors(file) => ["2>", file]
    case ErrorsJoined => ["2>&1"]
  }

  function Spelled(ps: seq<Part>): seq<string> {
    if ps == [] then [] else Spelled(ps[..|ps| - 1]) + PartTokens(ps[|ps| - 1])
  }

  function Arguments(ps: seq<Part>): seq<string> {
    if ps == [] then []
    else Arguments(ps[..|ps| - 1]) + if ps[|ps| - 1].Argument? then [ps[|ps| - 1].token] else []
  }

  function LastFor(ps: seq<Part>, place: Place): Option<Part> {
    if ps == [] then None
    else if PlaceOf(ps[|ps| - 1]) == place then Some(ps[|ps| - 1])
    else LastFor(ps[..|ps| - 1], place)
  }

  predicate OncePerStream(ps: seq<Part>) {
    forall i, j :: 0 <= i < j < |ps| && PlaceOf(ps[i]) == PlaceOf(ps[j]) ==> ps[i].Argument?
  }

  // The command with these parts.
  function Assembled(name: string, env: seq<(string, string)>, ps: seq<Part>): (c: Node)
    ensures c.Command?
  {
    Command(name, [name] + Arguments(ps),
            match LastFor(ps, Stdin) case Some(Input(file)) => Some(file) case _ => None,
            match LastFor(ps, Stdout) case Some(Output(file)) => ToFile(file) case _ => Inherit,
            match LastFor(ps, Stderr)
            case Some(Errors(file)) => ErrorFile(file)
            case Some(ErrorsJoined) => SameAsStdout
            case _ => SameAsParent,
            env)
  }

  // Behind the name of a command, arguments and redirections may come in any order. They are accepted
  // iff no stream is redirected twice, and then the arguments are in order and each stream goes where it
  // was sent.
  lemma {:induction false} AnyOrder(name: string, env: seq<(string, string)>, pipeline: seq<Node>, ps: seq<Part>)
    requires forall i :: 0 <= i < |ps| && ps[i].Argument? ==> !IsOperator(ps[i].token)
    ensures Feed(Behind(NewCommand(name, env), pipeline), Spelled(ps))
         == if OncePerStream(ps) then Some(Behind(Assembled(name, env, ps), pipeline)) else None
  {
    hide Next, Feed, IsOperator, OncePerStream, Assembled, PartTokens;
    var start := Behind(NewCommand(name, env), pipeline);
    if ps == [] {
      FeedNothing(start, []);
      NothingAssembled(name, env);
    } else {
      var k := |ps| - 1;
      AnyOrder(name, env, pipeline, ps[..k]);
      FeedAppend(start, Spelled(ps[..k]), PartTokens(ps[k]));
      OnceSnoc(ps);
      if OncePerStream(ps[..k]) {
        FeedPart(Assembled(name, env, ps[..k]), pipeline, ps[k]);
        AssembledSnoc(name, env, ps);
        StreamsAssembled(name, env, ps[..k]);
      }
    }
  }

  lemma NothingAssembled(name: string, env: seq<(string, string)>)
    ensures Assembled(name, env, []) == NewCommand(name, env) && OncePerStream([])
  {
    assert [name] + [] == [name];
  }

  lemma {:induction false} LastForIsThere(ps: seq<Part>, place: Place)
    ensures LastFor(ps, place).Some? <==> exists i :: 0 <= i < |ps| && PlaceOf(ps[i]) == place
    ensures LastFor(ps, place).Some? ==> PlaceOf(LastFor(ps, place).value) == place
  {
    if ps != [] {
      LastForIsThere(ps[..|ps| - 1], place);
    }
  }

  lemma OnceSnoc(ps: seq<Part>)
    requires ps != []
    ensures var k := |ps| - 1;
            OncePerStream(ps)
            <==> OncePerStream(ps[..k]) && (ps[k].Argument? || LastFor(ps[..k], PlaceOf(ps[k])) == None)
  {
    hide LastFor, PlaceOf;
    var k := |ps| - 1;
    LastForIsThere(ps[..k], PlaceOf(ps[k]));
    assert forall i :: 0 <= i < k ==> ps[..k][i] == ps[i];
    assert forall i :: 0 <= i < |ps| ==> (PlaceOf(ps[i]) == Args <==> ps[i].Argument?) by {
      OnlyArguments(ps);
    }
    if OncePerStream(ps[..k]) && (ps[k].Argument? || LastFor(ps[..k], PlaceOf(ps[k])) == None) {
      forall i, j | 0 <= i < j < |ps| && PlaceOf(ps[i]) == PlaceOf(ps[j]) ensures ps[i].Argument? {
        if j < k {
          assert PlaceOf(ps[..k][i]) == PlaceOf(ps[..k][j]);
        } else {
          assert PlaceOf(ps[..k][i]) == PlaceOf(ps[k]);
        }
      }
    }
  }

  lemma OnlyArguments(ps: seq<Part>)
    ensures forall i :: 0 <= i < |ps| ==> (PlaceOf(ps[i]) == Args <==> ps[i].Argument?)
  {
  }

  // One more part on a command.
  function WithPart(c: Node, p: Part): Option<Node>
    requires c.Command?
  {
    match p
    case Argument(token) => Some(c.(argv := c.argv + [token]))
    case Input(file) => if c.stdin != None then None else Some(c.(stdin := Some(file)))
    case Output(file) => if c.stdout != Inherit then None else Some(c.(stdout := ToFile(file)))
    case Errors(file) => if c.stderr != SameAsParent then None else Some(c.(stderr := ErrorFile(file)))
    case ErrorsJoined => if c.stderr != SameAsParent then None else Some(c.(stderr := SameAsStdout))
  }

  lemma FeedPart(c: Node, pipeline: seq<Node>, p: Part)
    requires c.Command? && (p.Argument? ==> !IsOperator(p.token))
    ensures Feed(Behind(c, pipeline), PartTokens(p))
         == match WithPart(c, p) case None => None case Some(c') => Some(Behind(c', pipeline))
  {
    hide Feed;
    var st := Behind(c, pipeline);
    match p
    case Argument(token) => FeedOne(st, token);
    case Input(file) => FeedTwo(st, "<", file);
    case Output(file) => FeedTwo(st, ">", file);
    case Errors(file) => FeedTwo(st, "2>", file);
    case ErrorsJoined => FeedOne(st, "2>&1");
  }

  lemma StreamsAssembled(name: string, env: seq<(string, string)>, ps: seq<Part>)
    ensures var c := Assembled(name, env, ps);
            && (c.stdin == None <==> LastFor(ps, Stdin) == None)
            && (c.stdout == Inherit <==> LastFor(ps, Stdout) == None)
            && (c.stderr == SameAsParent <==> LastFor(ps, Stderr) == None)
  {
    LastForIsThere(ps, Stdin);
    LastForIsThere(ps, Stdout);
    LastForIsThere(ps, Stderr);
  }

  lemma AssembledSnoc(name: string, env: seq<(string, string)>, ps: seq<Part>)
    requires ps != []
    ensures var k := |ps| - 1;
            WithPart(Assembled(name, env, ps[..k]), ps[k])
            == if ps[k].Argument? || LastFor(ps[..k], PlaceOf(ps[k])) == None then Some(Assembled(name, env, ps))
               else None
  {
    var k := |ps| - 1;
    StreamsAssembled(name, env, ps[..k]);
    if ps[k].Argument? {
      assert [name] + Arguments(ps[..k]) + [ps[k].token] == [name] + (Arguments(ps[..k]) + [ps[k].token]);
    } else {
      assert Arguments(ps) == Arguments(ps[..k]);
    }
  }
}
