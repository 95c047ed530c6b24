// shellcmd.py, first half: from tokens to a list of commands and operators.
module ShellParse {
  import opened Wrappers

  datatype Output = Inherit | ToPipe | ToFile(file: string)

  datatype ErrorOutput = SameAsParent | SameAsStdout | ErrorFile(file: string)

  // The nodes of a pipeline. `env` is a dictionary, kept in insertion order; empty
  // stands for None.
  datatype Node =
    | Command(name: string, argv: seq<string>, stdin: Option<string>, stdout: Output, stderr: ErrorOutput,
              env: seq<(string, string)>)
    | Chdir(dir: Option<string>)
    | Pipe
    | And
    | Or

  // ----- tokens

  predicate WordChar(c: char) {
    'a' <= c <= 'z' || 'A' <= c <= 'Z' || '0' <= c <= '9' || c == '_'
  }

  predicate Space(c: char) {
    c == ' ' || '\t' <= c <= '\r'
  }

  function FirstEquals(s: string): nat {
    if s == "" then 0 else if s[0] == '=' then 0 else 1 + FirstEquals(s[1..])
  }

  predicate Word(s: string) { s != "" && forall i :: 0 <= i < |s| ==> WordChar(s[i]) }

  predicate Solid(s: string) { s != "" && forall i :: 0 <= i < |s| ==> !Space(s[i]) }

  // ^([a-zA-Z0-9_]+)=(\S+)$ , where $ also matches in front of a final newline.
  function EnvMatch(token: string): Option<(string, string)> {
    var i := FirstEquals(token);
    if i >= |token| || !Word(token[..i]) then None
    else
      var rest := token[i + 1..];
      var value := if rest != "" && rest[|rest| - 1] == '\n' then rest[..|rest| - 1] else rest;
      if Solid(value) then Some((token[..i], value)) else None
  }

  const REDIRECTIONS := [">", "2>", "2>&1", "<"]

  predicate IsOperator(token: string) {
    token in REDIRECTIONS || token == "|" || token == "&&" || token == "||"
  }

  // env_vars[key] = value
  function Put(env: seq<(string, string)>, key: string, value: string): seq<(string, string)> {
    if env == [] then [(key, value)]
    else if env[0].0 == key then [(key, value)] + env[1..]
    else [env[0]] + Put(env[1..], key, value)
  }

  // ----- the state machine

  datatype Mode = Begin | InCommand | InChdir | WantStderr | WantStdout | WantStdin

  datatype State = State(mode: Mode, current: Option<Node>, env: seq<(string, string)>, pipeline: seq<Node>)

  const START := State(Begin, None, [], [])

  function NewCommand(name: string, env: seq<(string, string)>): Node {
    Command(name, [name], None, Inherit, SameAsParent, env)
  }

  // _commit_command, then the operator.
  function Commit(st: State, op: Node): Option<State> {
    if st.current.None? then None
    else Some(State(Begin, None, st.env, st.pipeline + [st.current.value, op]))
  }

  // One token. None is an assertion that fails.
  function Next(st: State, token: string): Option<State> {
    match st.mode
    case Begin =>
      var m := EnvMatch(token);
      if m.Some? then Some(st.(env := Put(st.env, m.value.0, m.value.1)))
      else if st.current.Some? then None
      else if token == "cd" then
        if st.env != [] then None else Some(st.(current := Some(Chdir(None)), mode := InChdir))
      else Some(st.(current := Some(NewCommand(token, st.env)), env := [], mode := InCommand))
    case InCommand =>
      if !(st.current.Some? && st.current.value.Command?) then None
      else
        var c := st.current.value;
        if token == ">" then Some(st.(mode := WantStdout))
        else if token == "2>" then Some(st.(mode := WantStderr))
        else if token == "2>&1" then
          if c.stderr != SameAsParent then None else Some(st.(current := Some(c.(stderr := SameAsStdout))))
        else if token == "<" then Some(st.(mode := WantStdin))
        else if token == "|" then
          if c.stdout != Inherit then None else Commit(st.(current := Some(c.(stdout := ToPipe))), Pipe)
        else if token == "&&" then Commit(st, And)
        else if token == "||" then Commit(st, Or)
        else Some(st.(current := Some(c.(argv := c.argv + [token]))))
    case InChdir =>
      if token == "&&" then Commit(st, And)
      else if st.current != Some(Chdir(None)) then None
      else Some(st.(current := Some(Chdir(Some(token)))))
    case WantStdout =>
      if !(st.current.Some? && st.current.value.Command?) || st.current.value.stdout != Inherit then None
      else Some(st.(current := Some(st.current.value.(stdout := ToFile(token))), mode := InCommand))
    case WantStderr =>
      if !(st.current.Some? && st.current.value.Command?) || st.current.value.stderr != SameAsParent then None
      else Some(st.(current := Some(st.current.value.(stderr := ErrorFile(token))), mode := InCommand))
    case WantStdin =>
      if !(st.current.Some? && st.current.value.Command?) || st.current.value.stdin != None then None
      else Some(st.(current := Some(st.current.value.(stdin := Some(token))), mode := InCommand))
  }

  function Feed(st: State, tokens: seq<string>): Option<State>
    decreases |tokens|
  {
    if tokens == [] then Some(st)
    else
      match Next(st, tokens[0])
      case None => None
      case Some(st') => Feed(st', tokens[1..])
  }

  // The closing _commit_command.
  function Close(st: State): Option<seq<Node>> {
    if st.current.None? then None else Some(st.pipeline + [st.current.value])
  }

  function Parse(tokens: seq<string>): Option<seq<Node>> {
    match Feed(START, tokens)
    case None => None
    case Some(st) => Close(st)
  }

  lemma {:induction false} FeedAppend(st: State, a: seq<string>, b: seq<string>)
    ensures Feed(st, a + b) == match Feed(st, a) case None => None case Some(st') => Feed(st', b)
    decreases |a|
  {
    if a == [] {
      assert a + b == b;
    } else {
      assert (a + b)[1..] == a[1..] + b;
      if Next(st, a[0]).Some? {
        FeedAppend(Next(st, a[0]).value, a[1..], b);
      }
    }
  }

  // ----- the parser object

  class Pipeline {
    var currentCommand: Option<Node>
    var pipeline: seq<Node>

    constructor ()
      ensures currentCommand == None && pipeline == []
    {
      currentCommand, pipeline := None, [];
    }

    // parse (tokens); false stands for an AssertionError.
    method ParseTokens(command: seq<string>) returns (ok: bool)
      modifies this
      ensures ok == Parse(command).Some?
      ensures ok ==> pipeline == Parse(command).value && currentCommand == None
    {
      hide Next, Commit;
      currentCommand, pipeline := None, [];
      var tokens := command;
      var state, env := Begin, [];
      while tokens != []
        invariant Feed(START, command) == Feed(State(state, currentCommand, env, pipeline), tokens)
        decreases |tokens|
      {
        var token := tokens[0];
        tokens := tokens[1..];
        ok, state, env := Take(state, env, token);
        if !ok {
          return;
        }
      }
      if currentCommand == None {
        return false;
      }
      pipeline := pipeline + [currentCommand.value];
      currentCommand := None;
      return true;
    }

    // The branches of the loop body.
    method Take(mode: Mode, vars: seq<(string, string)>, token: string)
      returns (ok: bool, state: Mode, env: seq<(string, string)>)
      modifies this
      ensures var r := Next(State(mode, old(currentCommand), vars, old(pipeline)), token);
              ok == r.Some? && (ok ==> r.value == State(state, currentCommand, env, pipeline))
    {
      ok, state, env := true, mode, vars;
      if mode == Begin {
        var m := EnvMatch(token);
        if m != None {
          env := Put(env, m.value.0, m.value.1);
        } else {
          if currentCommand != None {
            return false, state, env;
          }
          if token == "cd" {
            currentCommand := Some(Chdir(None));
            if env != [] {
              return false, state, env;
            }
            state := InChdir;
          } else {
            currentCommand := Some(NewCommand(token, env));
            env := [];
            state := InCommand;
          }
        }
      } else if mode == InChdir {
        if token == "&&" {
          ok := CommitWith(And);
          state := Begin;
        } else {
          if currentCommand != Some(Chdir(None)) {
            return false, state, env;
          }
          currentCommand := Some(Chdir(Some(token)));
        }
      } else {
        ok, state := TakeInCommand(mode, vars, token);
      }
    }

    method CommitWith(op: Node) returns (ok: bool)
      modifies this
      ensures ok == old(currentCommand).Some?
      ensures ok ==> pipeline == old(pipeline) + [old(currentCommand).value, op] && currentCommand == None
    {
      if currentCommand == None {
        return false;
      }
      pipeline := pipeline + [currentCommand.value];
      currentCommand := None;
      pipeline := pipeline + [op];
      return true;
    }

    method TakeInCommand(mode: Mode, ghost vars: seq<(string, string)>, token: string) returns (ok: bool, state: Mode)
      requires mode != Begin && mode != InChdir
      modifies this
      ensures var r := Next(State(mode, old(currentCommand), vars, old(pipeline)), token);
              ok == r.Some? && (ok ==> r.value == State(state, currentCommand, vars, pipeline))
    {
      ok, state := true, InCommand;
      if currentCommand == None || !currentCommand.value.Command? {
        return false, mode;
      }
      var c := currentCommand.value;
      if mode == WantStdout {
        ok := c.stdout == Inherit;
        currentCommand := Some(c.(stdout := ToFile(token)));
      } else if mode == WantStderr {
        ok := c.stderr == SameAsParent;
        currentCommand := Some(c.(stderr := ErrorFile(token)));
      } else if mode == WantStdin {
        ok := c.stdin == None;
        currentCommand := Some(c.(stdin := Some(token)));
      } else if token == ">" {
        state := WantStdout;
      } else if token == "2>" {
        state := WantStderr;
      } else if token == "2>&1" {
        ok := c.stderr == SameAsParent;
        currentCommand := Some(c.(stderr := SameAsStdout));
      } else if token == "<" {
        state := WantStdin;
      } else if token == "|" {
        if c.stdout != Inherit {
          return false, mode;
        }
        currentCommand := Some(c.(stdout := ToPipe));
        ok := CommitWith(Pipe);
        state := Begin;
      } else if token == "&&" {
        ok := CommitWith(And);
        state := Begin;
      } else if token == "||" {
        ok := CommitWith(Or);
        state := Begin;
      } else {
        currentCommand := Some(c.(argv := c.argv + [token]));
      }
    }
  }

  // ----- assignments

  function Assignment(v: (string, string)): string {
    v.0 + "=" + v.1
  }

  // What a dictionary has for a key.
  function Lookup(env: seq<(string, string)>, key: string): Option<string> {
    if env == [] then None else if env[0].0 == key then Some(env[0].1) else Lookup(env[1..], key)
  }

  lemma {:induction false} PutChangesOne(env: seq<(string, string)>, key: string, value: string, other: string)
    ensures Lookup(Put(env, key, value), other) == if other == key then Some(value) else Lookup(env, other)
  {
    if env != [] {
      if env[0].0 == key {
        assert ([(key, value)] + env[1..])[1..] == env[1..];
      } else {
        assert ([env[0]] + Put(env[1..], key, value))[1..] == Put(env[1..], key, value);
        PutChangesOne(env[1..], key, value, other);
      }
    }
  }

  // The value of the last assignment to `key`.
  function LastAssigned(vs: seq<(string, string)>, key: string): Option<string> {
    if vs == [] then None
    else
      var k := |vs| - 1;
      if vs[k].0 == key then Some(vs[k].1) else LastAssigned(vs[..k], key)
  }

  function Assignments(vs: seq<(string, string)>): seq<string> {
    seq(|vs|, i requires 0 <= i < |vs| => Assignment(vs[i]))
  }

  // Assignments in front of a command give it, for each name, the value of the last one to it.
  lemma {:induction false} LastAssignmentCounts(vs: seq<(string, string)>, pipeline: seq<Node>)
    returns (env: seq<(string, string)>)
    requires forall i :: 0 <= i < |vs| ==> EnvMatch(Assignment(vs[i])) == Some(vs[i])
    ensures Feed(State(Begin, None, [], pipeline), Assignments(vs)) == Some(State(Begin, None, env, pipeline))
    ensures forall key :: Lookup(env, key) == LastAssigned(vs, key)
  {
    hide EnvMatch, Assignment;
    var start := State(Begin, None, [], pipeline);
    if vs == [] {
      env := [];
    } else {
      var k := |vs| - 1;
      var before := LastAssignmentCounts(vs[..k], pipeline);
      assert Assignments(vs) == Assignments(vs[..k]) + [Assignment(vs[k])];
      FeedAppend(start, Assignments(vs[..k]), [Assignment(vs[k])]);
      var st := State(Begin, None, before, pipeline);
      NextAssigned(st, vs[k]);
      env := Put(before, vs[k].0, vs[k].1);
      assert Feed(st, [Assignment(vs[k])]) == Some(st.(env := env)) by {
        assert [Assignment(vs[k])][1..] == [];
      }
      forall key ensures Lookup(env, key) == LastAssigned(vs, key) {
        PutChangesOne(before, vs[k].0, vs[k].1, key);
      }
    }
  }

  lemma NextAssigned(st: State, v: (string, string))
    requires st.mode == Begin && EnvMatch(Assignment(v)) == Some(v)
    ensures Next(st, Assignment(v)) == Some(st.(env := Put(st.env, v.0, v.1)))
  {
    hide EnvMatch, Assignment, Put;
  }

  // ----- which pipelines there are

  predicate DistinctKeys(env: seq<(string, string)>) {
    forall i, j :: 0 <= i < j < |env| ==> env[i].0 != env[j].0
  }

  predicate EnvOk(env: seq<(string, string)>) {
    DistinctKeys(env) && forall i :: 0 <= i < |env| ==> EnvMatch(Assignment(env[i])) == Some(env[i])
  }

  predicate ArgumentsOk(argv: seq<string>, name: string) {
    && argv != [] && argv[0] == name
    && forall i :: 1 <= i < |argv| ==> !IsOperator(argv[i])
  }

  // A command or chdir as the parser can build it.
  predicate NodeOk(n: Node) {
    match n
    case Command(name, argv, _, _, _, env) =>
      EnvMatch(name).None? && name != "cd" && ArgumentsOk(argv, name) && EnvOk(env)
    case Chdir(dir) => dir != Some("&&")
    case _ => false
  }

  // A node and the operator behind it.
  predicate LinkOk(n: Node, op: Node) {
    match n
    case Command(_, _, _, stdout, _, _) => (op == Pipe || op == And || op == Or) && (stdout == ToPipe <==> op == Pipe)
    case Chdir(_) => op == And
    case _ => false
  }

  // Nodes and operators alternate; a command writes to a pipe exactly when one follows.
  predicate PairsOk(ns: seq<Node>)
    decreases |ns|
  {
    ns == [] || (|ns| >= 2 && PairsOk(ns[..|ns| - 2]) && NodeOk(ns[|ns| - 2]) && LinkOk(ns[|ns| - 2], ns[|ns| - 1]))
  }

  predicate LastOk(n: Node) {
    NodeOk(n) && (n.Command? ==> n.stdout != ToPipe)
  }

  predicate WellFormed(ns: seq<Node>) {
    ns != [] && PairsOk(ns[..|ns| - 1]) && LastOk(ns[|ns| - 1])
  }

  predicate StateOk(st: State) {
    && PairsOk(st.pipeline) && EnvOk(st.env)
    && match st.mode
       case Begin => st.current == None
       case InChdir => st.current.Some? && st.current.value.Chdir? && LastOk(st.current.value) && st.env == []
       case _ => st.current.Some? && st.current.value.Command? && LastOk(st.current.value) && st.env == []
  }

  lemma FirstEqualsAt(key: string, value: string)
    requires Word(key)
    ensures FirstEquals(key + "=" + value) == |key|
    decreases |key|
  {
    var s := key + "=" + value;
    assert WordChar(key[0]) && s[0] == key[0];
    if |key| > 1 {
      FirstEqualsAt(key[1..], value);
      assert s[1..] == key[1..] + "=" + value;
    } else {
      assert s[1..][0] == '=';
    }
  }

  // The two groups of a match, joined again, match to the same groups.
  lemma MatchOfAssignment(token: string)
    requires EnvMatch(token).Some?
    ensures EnvMatch(Assignment(EnvMatch(token).value)) == EnvMatch(token)
  {
    var (key, value) := EnvMatch(token).value;
    FirstEqualsAt(key, value);
    var s := Assignment((key, value));
    assert s[..|key|] == key && s[|key| + 1..] == value;
    assert !Space(value[|value| - 1]);
  }

  lemma {:induction false} PutKeepsOk(env: seq<(string, string)>, key: string, value: string)
    requires EnvOk(env) && EnvMatch(Assignment((key, value))) == Some((key, value))
    ensures EnvOk(Put(env, key, value)) && Put(env, key, value) != []
    ensures forall v :: v in Put(env, key, value) ==> v == (key, value) || v in env
  {
    hide EnvMatch, Assignment;
    if env != [] && env[0].0 != key {
      PutKeepsOk(env[1..], key, value);
      assert env == [env[0]] + env[1..];
      var rest := Put(env[1..], key, value);
      forall i | 0 <= i < |rest| ensures rest[i].0 != env[0].0 {
        assert rest[i] in rest;
        if rest[i] in env[1..] {
          var j :| 0 <= j < |env[1..]| && env[1..][j] == rest[i];
        }
      }
    }
  }

  lemma PairAdded(ns: seq<Node>, n: Node, op: Node)
    requires PairsOk(ns) && NodeOk(n) && LinkOk(n, op)
    ensures PairsOk(ns + [n, op])
  {
    hide NodeOk, LinkOk;
    var all := ns + [n, op];
    assert all[..|all| - 2] == ns;
  }

  lemma NextAtBegin(st: State, token: string)
    requires StateOk(st) && st.mode == Begin && Next(st, token).Some?
    ensures StateOk(Next(st, token).value)
  {
    hide EnvMatch, PairsOk, Assignment, Put;
    if EnvMatch(token).Some? {
      MatchOfAssignment(token);
      PutKeepsOk(st.env, EnvMatch(token).value.0, EnvMatch(token).value.1);
    }
  }

  lemma NextKeepsOk(st: State, token: string)
    requires StateOk(st) && Next(st, token).Some?
    ensures StateOk(Next(st, token).value)
  {
    hide EnvMatch, PairsOk, EnvOk;
    var st' := Next(st, token).value;
    if st.mode == Begin {
      NextAtBegin(st, token);
    } else if st'.pipeline != st.pipeline {
      var op := st'.pipeline[|st'.pipeline| - 1];
      var n := if op == Pipe then st.current.value.(stdout := ToPipe) else st.current.value;
      PairAdded(st.pipeline, n, op);
      assert st'.pipeline == st.pipeline + [n, op];
    }
  }

  lemma {:induction false} FeedKeepsOk(st: State, tokens: seq<string>)
    requires StateOk(st) && Feed(st, tokens).Some?
    ensures StateOk(Feed(st, tokens).value)
    decreases |tokens|
  {
    if tokens != [] {
      NextKeepsOk(st, tokens[0]);
      FeedKeepsOk(Next(st, tokens[0]).value, tokens[1..]);
    }
  }

  // Whatever is accepted has this form.
  lemma ParseIsWellFormed(tokens: seq<string>)
    requires Parse(tokens).Some?
    ensures WellFormed(Parse(tokens).value)
  {
    FeedKeepsOk(START, tokens);
    var st := Feed(START, tokens).value;
    assert (st.pipeline + [st.current.value])[..|st.pipeline|] == st.pipeline;
  }

  // ----- writing a pipeline back as tokens

  function EnvTokens(env: seq<(string, string)>): seq<string> {
    if env == [] then [] else EnvTokens(env[..|env| - 1]) + [Assignment(env[|env| - 1])]
  }

  function NodeTokens(n: Node): seq<string> {
    match n
    case Command(_, argv, stdin, stdout, stderr, env) =>
      EnvTokens(env) + argv
      + (if stdin.Some? then ["<", stdin.value] else [])
      + (if stdout.ToFile? then [">", stdout.file] else [])
      + (match stderr case SameAsParent => [] case SameAsStdout => ["2>&1"] case ErrorFile(f) => ["2>", f])
    case Chdir(dir) => ["cd"] + if dir.Some? then [dir.value] else []
    case _ => []
  }

  function OperatorToken(op: Node): string {
    match op case Pipe => "|" case And => "&&" case _ => "||"
  }

  function PairTokens(ns: seq<Node>): seq<string>
    decreases |ns|
  {
    if |ns| < 2 then []
    else PairTokens(ns[..|ns| - 2]) + NodeTokens(ns[|ns| - 2]) + [OperatorToken(ns[|ns| - 1])]
  }

  function Render(ns: seq<Node>): seq<string> {
    if ns == [] then [] else PairTokens(ns[..|ns| - 1]) + NodeTokens(ns[|ns| - 1])
  }

  lemma {:induction false} PutNew(env: seq<(string, string)>, key: string, value: string)
    requires forall i :: 0 <= i < |env| ==> env[i].0 != key
    ensures Put(env, key, value) == env + [(key, value)]
  {
    if env != [] {
      PutNew(env[1..], key, value);
    }
  }

  lemma FeedOne(st: State, token: string)
    ensures Feed(st, [token]) == Next(st, token)
  {
    assert [token][1..] == [];
  }

  lemma FeedTwo(st: State, a: string, b: string)
    ensures Feed(st, [a, b]) == match Next(st, a) case None => None case Some(st') => Next(st', b)
  {
    assert [a, b][1..] == [b];
    if Next(st, a).Some? {
      FeedOne(Next(st, a).value, b);
    }
  }

  lemma {:induction false} FeedEnv(env: seq<(string, string)>, pipeline: seq<Node>)
    requires EnvOk(env)
    ensures Feed(State(Begin, None, [], pipeline), EnvTokens(env)) == Some(State(Begin, None, env, pipeline))
  {
    hide Next, EnvMatch, Assignment, Put;
    if env != [] {
      var k := |env| - 1;
      NextAssigned(State(Begin, None, env[..k], pipeline), env[k]);
      FeedEnv(env[..k], pipeline);
      FeedAppend(State(Begin, None, [], pipeline), EnvTokens(env[..k]), [Assignment(env[k])]);
      FeedOne(State(Begin, None, env[..k], pipeline), Assignment(env[k]));
      PutNew(env[..k], env[k].0, env[k].1);
      assert env == env[..k] + [env[k]];
    }
  }

  lemma {:induction false} FeedArguments(name: string, args: seq<string>, env: seq<(string, string)>,
                                         pipeline: seq<Node>)
    requires forall i :: 0 <= i < |args| ==> !IsOperator(args[i])
    ensures Feed(State(InCommand, Some(NewCommand(name, env)), [], pipeline), args)
            == Some(State(InCommand, Some(NewCommand(name, env).(argv := [name] + args)), [], pipeline))
  {
    var st := State(InCommand, Some(NewCommand(name, env)), [], pipeline);
    if args == [] {
      assert [name] + args == [name];
    } else {
      var k := |args| - 1;
      FeedArguments(name, args[..k], env, pipeline);
      FeedAppend(st, args[..k], [args[k]]);
      assert args == args[..k] + [args[k]];
      FeedOne(Feed(st, args[..k]).value, args[k]);
      assert [name] + args[..k] + [args[k]] == [name] + args;
    }
  }

  // The state behind the tokens of a node.
  function Behind(n: Node, pipeline: seq<Node>): State {
    State(if n.Chdir? then InChdir else InCommand, Some(n), [], pipeline)
  }

  lemma FeedRedirections(c: Node, pipeline: seq<Node>, stdin: Option<string>, stdout: Output, stderr: ErrorOutput)
    requires c.Command? && c.stdin == None && c.stdout == Inherit && c.stderr == SameAsParent && stdout != ToPipe
    ensures Feed(Behind(c, pipeline),
                 (if stdin.Some? then ["<", stdin.value] else [])
                 + (if stdout.ToFile? then [">", stdout.file] else [])
                 + (match stderr case SameAsParent => [] case SameAsStdout => ["2>&1"] case ErrorFile(f) => ["2>", f]))
            == Some(Behind(c.(stdin := stdin, stdout := stdout, stderr := stderr), pipeline))
  {
    var a := if stdin.Some? then ["<", stdin.value] else [];
    var b := if stdout.ToFile? then [">", stdout.file] else [];
    var d := match stderr case SameAsParent => [] case SameAsStdout => ["2>&1"] case ErrorFile(f) => ["2>", f];
    var st := Behind(c, pipeline);
    var st1 := Behind(c.(stdin := stdin), pipeline);
    var st2 := Behind(c.(stdin := stdin, stdout := stdout), pipeline);
    FeedAppend(st, a + b, d);
    FeedAppend(st, a, b);
    if stdin.Some? {
      FeedTwo(st, "<", stdin.value);
    }
    if stdout.ToFile? {
      FeedTwo(st1, ">", stdout.file);
    }
    match stderr {
      case SameAsParent =>
      case SameAsStdout => FeedOne(st2, "2>&1");
      case ErrorFile(f) => FeedTwo(st2, "2>", f);
    }
  }

  lemma FeedName(name: string, env: seq<(string, string)>, pipeline: seq<Node>)
    requires EnvMatch(name).None? && name != "cd"
    ensures Feed(State(Begin, None, env, pipeline), [name]) == Some(Behind(NewCommand(name, env), pipeline))
  {
    FeedOne(State(Begin, None, env, pipeline), name);
  }

  lemma FeedNode(n: Node, pipeline: seq<Node>)
    requires LastOk(n)
    ensures Feed(State(Begin, None, [], pipeline), NodeTokens(n)) == Some(Behind(n, pipeline))
  {
    hide Next, EnvMatch, Feed, EnvTokens, EnvOk, IsOperator;
    var st := State(Begin, None, [], pipeline);
    match n
    case Command(name, argv, stdin, stdout, stderr, env) =>
      var redirections := (if stdin.Some? then ["<", stdin.value] else [])
        + (if stdout.ToFile? then [">", stdout.file] else [])
        + (match stderr case SameAsParent => [] case SameAsStdout => ["2>&1"] case ErrorFile(f) => ["2>", f]);
      assert NodeTokens(n) == EnvTokens(env) + ([name] + (argv[1..] + redirections)) by {
        assert argv == [name] + argv[1..];
      }
      FeedEnv(env, pipeline);
      FeedAppend(st, EnvTokens(env), [name] + (argv[1..] + redirections));
      FeedAppend(State(Begin, None, env, pipeline), [name], argv[1..] + redirections);
      FeedName(name, env, pipeline);
      FeedAppend(Behind(NewCommand(name, env), pipeline), argv[1..], redirections);
      FeedArguments(name, argv[1..], env, pipeline);
      assert [name] + argv[1..] == argv;
      FeedRedirections(NewCommand(name, env).(argv := argv), pipeline, stdin, stdout, stderr);
    case Chdir(dir) =>
      FeedChdir(dir, pipeline);
  }

  lemma FeedChdir(dir: Option<string>, pipeline: seq<Node>)
    requires dir != Some("&&")
    ensures Feed(State(Begin, None, [], pipeline), ["cd"] + if dir.Some? then [dir.value] else [])
            == Some(Behind(Chdir(dir), pipeline))
  {
    var st := State(Begin, None, [], pipeline);
    CdIsNoAssignment();
    if dir.Some? {
      assert ["cd"] + [dir.value] == ["cd", dir.value];
      FeedTwo(st, "cd", dir.value);
    } else {
      assert ["cd"] + [] == ["cd"];
      FeedOne(st, "cd");
    }
  }

  lemma CdIsNoAssignment()
    ensures EnvMatch("cd").None?
  {
    assert "cd"[1..] == "d" && "d"[1..] == "";
  }

  lemma FeedPair(n: Node, op: Node, pipeline: seq<Node>)
    requires NodeOk(n) && LinkOk(n, op)
    ensures Feed(State(Begin, None, [], pipeline), NodeTokens(n) + [OperatorToken(op)])
            == Some(State(Begin, None, [], pipeline + [n, op]))
  {
    hide Feed, NodeOk, EnvMatch, IsOperator, NodeTokens;
    var plain := if n.Command? && n.stdout == ToPipe then n.(stdout := Inherit) else n;
    FeedAppend(State(Begin, None, [], pipeline), NodeTokens(n), [OperatorToken(op)]);
    PipeIsNotWritten(n);
    FeedNode(plain, pipeline);
    FeedOne(Behind(plain, pipeline), OperatorToken(op));
  }

  lemma PipeIsNotWritten(n: Node)
    ensures n.Command? && n.stdout == ToPipe ==> NodeTokens(n) == NodeTokens(n.(stdout := Inherit))
    ensures NodeOk(n) && !(n.Command? && n.stdout == ToPipe) ==> LastOk(n)
    ensures NodeOk(n) && n.Command? ==> LastOk(n.(stdout := Inherit))
  {
  }

  lemma {:induction false} FeedPairs(ns: seq<Node>)
    requires PairsOk(ns)
    ensures Feed(START, PairTokens(ns)) == Some(State(Begin, None, [], ns))
    decreases |ns|
  {
    hide Next, NodeTokens, OperatorToken, NodeOk, LinkOk;
    if ns != [] {
      var init, n, op := ns[..|ns| - 2], ns[|ns| - 2], ns[|ns| - 1];
      FeedPairs(init);
      assert PairTokens(ns) == PairTokens(init) + (NodeTokens(n) + [OperatorToken(op)]);
      FeedAppend(START, PairTokens(init), NodeTokens(n) + [OperatorToken(op)]);
      FeedPair(n, op, init);
      assert init + [n, op] == ns;
    }
  }

  // Parsing inverts rendering on every well-formed pipeline ...
  lemma ParseInvertsRender(ns: seq<Node>)
    requires WellFormed(ns)
    ensures Parse(Render(ns)) == Some(ns)
  {
    var init, last := ns[..|ns| - 1], ns[|ns| - 1];
    FeedPairs(init);
    FeedAppend(START, PairTokens(init), NodeTokens(last));
    FeedNode(last, init);
    assert init + [last] == ns;
  }

  // ... so these are exactly the pipelines the parser can produce, and rendering what
  // was parsed is a normal form: parsing it again changes nothing.
  lemma WellFormedExactly(ns: seq<Node>)
    ensures WellFormed(ns) <==> exists tokens :: Parse(tokens) == Some(ns)
  {
    if WellFormed(ns) {
      ParseInvertsRender(ns);
    }
    if tokens :| Parse(tokens) == Some(ns) {
      ParseIsWellFormed(tokens);
    }
  }

  predicate IsNode(n: Node) { n.Command? || n.Chdir? }

  // The shape, position by position: nodes at even places, operators at odd ones, and
  // output to a pipe exactly where a pipe follows.
  lemma {:induction false} PairsAlternate(ns: seq<Node>, i: nat)
    requires PairsOk(ns) && i < |ns|
    ensures |ns| % 2 == 0 && (IsNode(ns[i]) <==> i % 2 == 0)
    ensures ns[i].Command? ==> (ns[i].stdout == ToPipe <==> i + 1 < |ns| && ns[i + 1] == Pipe)
    ensures ns[i].Chdir? ==> i + 1 < |ns| && ns[i + 1] == And
    decreases |ns|
  {
    var init := ns[..|ns| - 2];
    if i < |ns| - 2 {
      PairsAlternate(init, i);
    } else if init != [] {
      PairsAlternate(init, 0);
    }
  }

  lemma NodesAlternate(ns: seq<Node>, i: nat)
    requires WellFormed(ns) && i < |ns|
    ensures |ns| % 2 == 1 && (IsNode(ns[i]) <==> i % 2 == 0)
    ensures ns[i].Command? ==> (ns[i].stdout == ToPipe <==> i + 1 < |ns| && ns[i + 1] == Pipe)
    ensures ns[i].Chdir? ==> i + 1 == |ns| || ns[i + 1] == And
  {
    var init := ns[..|ns| - 1];
    if i < |init| {
      PairsAlternate(init, i);
    } else if init != [] {
      PairsAlternate(init, 0);
    }
  }
}
